# jamesbot decision core in Dafny

jamesbot is a small Matrix bot written in Go on top of the mautrix client and
its Olm/Megolm machine. This project models the parts of the bot that make
decisions:

- the command handler (`commandhandler.go`): it trims a message body, requires
  the bot's display name as a prefix, cuts off the name and two more bytes, and
  matches the rest against `ping`, `logout` and `leave`;
- the adaptive encrypted send (`sendEncrypted`, `getUserIDs`,
  `EncryptionIsNeeded` in `james.go`): encrypt; after one of the three session
  errors, share a new group session with the joined members and encrypt exactly
  once more;
- the three event handlers of `main`: the start-time gate, the commander check
  on plaintext messages, the drop on a decryption error and the auto-join on
  invites. It also covers the syncer's dispatch by event type and the welcome
  broadcast's choice per room;
- the `Logger.Trace` filter.

The client and the Olm machine are collaborators the model does not see into.
Every call the bot makes to them is an `Effect` in a trace (`Effects.Run`). The
reply to each call is an input, gathered in a replies record
(`Sending.SendReplies`, `Commands.CommandReplies`, `Handlers.EventReplies`,
`Handlers.WelcomeReplies`). A Go `panic` is the outcome `Panicked`, and
`os.Exit(0)` is the outcome `Exited(0)`. Both end the trace.

Go strings are byte strings, so message bodies, the display name and trace
messages are modelled as `seq<byte>`. `len(myname)+2` and the slice after it
count bytes, as in Go. `strings.TrimSpace` is modelled on bytes (`GoStrings.TrimSpace`). It
removes the UTF-8 encodings of every rune `unicode.IsSpace` accepts. Room and
user identifiers are opaque strings.

Modules, one per file: `Effects` (effects.dfy), `GoStrings` (gostrings.dfy),
`Sending` (sending.dfy), `Commands` (commands.dfy), `Handlers` (handlers.dfy),
`Logging` (logger.dfy).

Behaviour of the code a reader might not expect:

- The two separator bytes after the name are never checked, and the whole
  remainder must equal the command. A first-token split does not happen, so
  `ping now` is not a command.
- Failures in `sendEncrypted`, in the plaintext pong, in `Logout` and in
  `LeaveRoom` panic. They are not reported as errors.
- `logout` exits only after a successful `Logout`. A failed `Logout` panics
  before the exit.
- `sendEncrypted` returns nothing; whether it retried shows only in the
  trace, as one or two encryption attempts.
- The start-time gate does not cover every inbound event. The Olm machine's
  own `HandleMemberEvent` receives stale member events too.
- An encrypted command is not sender-checked. Its reply goes to the room that
  the decrypted event names.

## Model

| member | source | states |
|---|---|---|
| GoStrings.HasPrefix | commandhandler.go:17 | a string has the prefix exactly when it is at least as long and agrees with it byte for byte |
| GoStrings.TrimStart | commandhandler.go:16 | the front trim stops at the first position that begins no space rune, and everything it passes over is space runes only |
| GoStrings.TrimEnd | commandhandler.go:16 | the back trim stops at the last position that ends no space rune, and everything it passes over is space runes only |
| GoStrings.TrimSpace | commandhandler.go:16 | the trimmed body is a contiguous part of the body, preceded only by space runes and followed only by space runes, with no space rune at either end of its own |
| GoStrings.TrimSpaceFixedPoint | commandhandler.go:16 | a body with no space rune at either end is unchanged by trimming |
| GoStrings.TrimSpaceIdempotent | commandhandler.go:16 | trimming twice is trimming once |
| GoStrings.TrimSpaceDropsFinalSpace | commandhandler.go:16 | a string with no space at either end, followed by one ASCII space, trims back to the string |
| Commands.Parse | commandhandler.go:16-21 | a body is ignored exactly when its trimmed form lacks the name prefix; the slice is out of range exactly when the trimmed form starts with the name but is shorter than the name plus two bytes |
| Commands.CommandFollowsNameAndTwoBytes | commandhandler.go:18 | the command is the trimmed body with the name and exactly two unexamined bytes removed |
| Commands.Dispatch | commandhandler.go:22-46 | only the exact strings ping, logout and leave cause any call, and any other remainder does nothing and returns; logout calls Logout and exits with status 0 exactly when it succeeds, and panics otherwise; leave calls LeaveRoom on the room once, never exits, and panics exactly when the call fails; only logout ever exits |
| Commands.CommandHandler | commandhandler.go:13-47 | a body whose trimmed form does not start with the name causes no call at all; a trimmed body that starts with the name and is at least two bytes longer runs exactly the dispatch of what follows the name and two bytes, so a command other than ping, logout and leave does nothing and returns; the only exit is status 0 after Logout alone |
| Commands.AddressedBodyDispatches | commandhandler.go:16-46 | a body with no space at either end made of the name, any two bytes and a command runs exactly that command |
| Commands.AddressedLogoutExits | commandhandler.go:16-39 | "name, two bytes, logout" calls Logout and nothing else, exits with status 0 exactly when Logout succeeded, and otherwise panics with its error |
| Commands.AddressedLeaveLeaves | commandhandler.go:16-45 | "name, two bytes, leave" calls LeaveRoom on the originating room and nothing else, never exits, and panics exactly when LeaveRoom fails |
| Commands.ShortAddressedBodyPanics | commandhandler.go:17-18 | a trimmed body equal to the name, or one byte longer, panics on the slice before any call |
| Commands.SeparatorIsNeverInspected | commandhandler.go:16-18 | any two bytes after the name are accepted as the separator, and the rest of the body is the command |
| Commands.OneByteSeparatorIsIgnored | commandhandler.go:18-22 | "name ping" with a one-byte separator loses the command's first byte and causes no call |
| Commands.TrailingSpaceSeparatorPanics | commandhandler.go:16-18 | a body of the name, one byte and a space is trimmed to the name and one byte, so the slice panics |
| Commands.PingAnswersPongOnce | commandhandler.go:23-32 | ping first checks the room's encryption state; then it sends at most one message, and exactly one if it returns, always "pong" and always to the originating room; with encryption it goes only through encryption, without it only through SendText, which panics on failure; it never exits |
| Commands.PingThroughEncryption | commandhandler.go:23-26 | in an encrypted room the pong goes out only through sendEncrypted, after the encryption-state query: at least one encryption, no SendText, at most one message, exactly one if it returns, never an exit |
| Commands.DispatchTouchesOnlyItsRoom | commandhandler.go:22-46 | every call of a command except Logout names the originating room |
| Commands.CommandTouchesOnlyItsRoom | commandhandler.go:13-47 | for every body, every call except Logout names the room passed in |
| Sending.EncryptionIsNeeded | james.go:36-43 | encryption is needed exactly when the encryption state lookup succeeds; any lookup error means plaintext |
| Sending.IsSessionError | james.go:100 | the retry is taken on SessionExpired, SessionNotShared and NoGroupSession, and on no other error |
| Sending.SendEncryptedRun | james.go:94-114 | every run starts by encrypting the text for the room, never exits the process, and returns only when the final send succeeded |
| Sending.GetUserIDs | james.go:80-92 | a lookup error is returned unchanged (SendEncrypted, its only caller, panics with it); otherwise the slice has one entry per joined member, contains every joined member and nothing else, and has no duplicates |
| Sending.SendEncrypted | james.go:94-114 | the step-by-step send with its single retry makes exactly the calls, and ends exactly as, the run SendEncryptedRun describes |
| Sending.SendEncryptedRetriesOnce | james.go:99-106 | one or two encryption attempts, at most one member lookup and at most one group-session share per call; the share happens only after a first attempt that failed with SessionExpired, SessionNotShared or NoGroupSession, and a second attempt only after a successful share; at most one message is sent |
| Sending.NoRetryCounts | james.go:99-113 | without a session error there is exactly one encryption, no member lookup, no share and at most one message sent |
| Sending.RetryCounts | james.go:99-113 | after a session error there is exactly one member lookup, one share once the lookup succeeded, a second encryption exactly when the share also succeeded, and at most one message sent |
| Sending.SecondAttemptCounts | james.go:100-113 | a retry that reaches the second attempt makes two encryptions, one lookup, one share and at most one send |
| Sending.SendEncryptedDelivery | james.go:99-113 | a first attempt that succeeds is followed by one send of its ciphertext and nothing else; the call returns exactly when one message was sent and the send succeeded; a non-session first error, a failed member lookup, a failed share or a failed second attempt panics with nothing sent; the ciphertext sent is that of the last attempt; every encryption is of the text; all calls name the room |
| Sending.NoRetryDeliveries | james.go:99-113 | without a session error exactly one message is sent when the first attempt succeeded, and none otherwise |
| Sending.RetryDeliveries | james.go:100-113 | after a session error exactly one message is sent when the lookup, the share and the second attempt all succeeded, and none otherwise |
| Sending.SendEncryptedSharesWithJoinedMembers | james.go:100-101 | the group session is shared with exactly the joined members of the room, as the third call after a session error and a successful member lookup, and never otherwise |
| Sending.SendEncryptedSendsNoPlaintext | james.go:94-114 | sendEncrypted never falls back to a plaintext SendText |
| Handlers.IsStale | james.go:239-242 | an event is ignored as stale exactly when its timestamp is before the start time; one stamped at the start time is handled |
| Handlers.OnEncrypted | james.go:238-255 | an encrypted event causes no call exactly when it is stale; a fresh one is always decrypted first; a decryption error ends the handling with nothing else done; a decrypted body goes to the command handler for the decrypted event's room, whatever the sender |
| Handlers.OnMessage | james.go:257-267 | a plaintext message has an effect only when it is fresh and its sender is the configured commander, and every such message reaches the command handler for its room |
| Handlers.OnMember | james.go:269-286 | the handler calls JoinRoom on the event's room exactly when the event is fresh and the membership is "invite", does nothing otherwise, and never panics |
| Handlers.OnEvent | james.go:234-286 | every member event, stale or not, reaches the Olm machine's HandleMemberEvent first; the only other call is JoinRoom on the event's room, made exactly when the event is fresh and an invite; the handling never panics |
| Handlers.StaleEventsReachOnlyTheLibrary | james.go:234-273 | an event older than the start time causes no call of the bot's own in any of the three handlers; only HandleMemberEvent still sees member events |
| Handlers.PlaintextFromOthersIsIgnored | james.go:263-265 | a plaintext message from anyone but the commander causes no call at all |
| Handlers.SenderIgnoredUnlessPlaintext | james.go:243-252 | encrypted and member events are handled identically whoever sent them |
| Handlers.CommanderPingIsAnswered | james.go:257-265 | a fresh "name, two bytes, ping" from the commander runs the ping command on the message's room, sending at most one message |
| Handlers.EncryptedPingIsAnswered | james.go:243-252 | a decrypted "name, two bytes, ping" from any sender runs the ping command on the room the decrypted event names |
| Handlers.WelcomeBroadcast | james.go:215-227 | each joined room, in order, gets one encryption check followed by one welcome: an encrypted send started on its own, or a plaintext send whose failure does not stop the loop |
| Logging.TraceForwards | james.go:73-78 | a trace message is held back exactly when it is at least as long as "Got membership state event" and agrees with it byte for byte at the front |
| Logging.TraceDropsExactlyMembershipMessages | james.go:73-78 | Trace drops exactly the messages that begin with "Got membership state event" and forwards all others |

## Left out

- Startup in `main` is not modelled: loading the JSON configuration, setting up the log backend, login, fetching the display name, the sqlite crypto store and `mach.Load()`. It is I/O and library setup. The start time, the commander and the display name are inputs (`Handlers.Bot`).
- Concurrency is not modelled. `go sendEncrypted` in the welcome broadcast is recorded as the effect `SpawnSendEncrypted`, and its own run (`Sending.SendEncryptedRun`) is not interleaved with anything. An unrecovered panic in such a goroutine (a failed share, a non-session encryption error, a failed send) ends the whole process, so the broadcast need not reach every room; `Handlers.WelcomeBroadcast` describes a loop that no such panic interrupts. The `go cli.Sync()` goroutine and the stdin `quit` loop are not modelled.
- The Olm/Megolm cryptography and the mautrix transport (`EncryptMegolmEvent`, `DecryptMegolmEvent`, `ShareGroupSession`, `SendText`, `SendMessageEvent`, `JoinRoom`, `LeaveRoom`, `Logout`, `StateEvent`, `JoinedMembers`) are foreign calls. Each is an effect, and its reply is an input.
- `mach.ProcessSyncResponse` (the OnSync callback) is not modelled. It runs once per sync response, not once per event.
- `mach.HandleMemberEvent` is modelled only as the call it receives.
- The type assertion on decrypted content is not modelled. Decrypted content is taken to be a message body; a non-message payload would be a nil dereference in Go.
- The `StateStore` stubs and the Error/Warn/Debug forwarding of `Logger` are not modelled. They are constant or only log.
- Logging and console output are not effects: `log.*` and `fmt.Println("Logout successful")`. A logged error and a silent return are the same outcome, `Returned`.
- The wall-clock computation of the start time is not modelled. The start time is an input.
- Sending.GetUserIDs: the member order follows Go's unspecified map iteration order, so the model picks each next member arbitrarily. The ShareGroupSession effect records the recipients as a set.
- Handlers.OnEncrypted, Handlers.OnMessage and Handlers.OnMember require an event of their own type. The syncer calls each only for that event type, and Handlers.OnEvent does this dispatch.
