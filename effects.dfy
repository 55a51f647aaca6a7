/** The bot's view of its collaborators: the Matrix client and the Olm/Megolm
    machine. Nothing here talks to a server. Every call the bot makes is an
    `Effect` appended to a trace, and the reply the collaborator gives to that
    call is an input of the model. A Go `panic` and `os.Exit` become `Outcome`
    values that end the trace. */
module Effects {

  newtype byte = x: int | 0 <= x < 256

  /** Message bodies and display names: Go strings, i.e. byte strings. */
  type Text = seq<byte>

  /** Opaque identifiers handed to and from the client. */
  type RoomId = string
  type UserId = string
  type EventId = string

  /** The opaque encrypted payload that EncryptMegolmEvent produces. */
  type Ciphertext = string

  /** The errors the collaborators return. The three session errors are the
      sentinel values the Olm machine exports; every other failure is `Other`. */
  datatype Error =
    | SessionExpired
    | SessionNotShared
    | NoGroupSession
    | Other(message: string)

  /** A reply that carries a value on success. */
  datatype Result<T> = Ok(value: T) | Err(error: Error)

  /** A reply whose success value the bot never reads. */
  datatype Status = Succeeded | Failed(error: Error)

  /** The content of a room's m.room.encryption state event. */
  datatype EncryptionEventContent = EncryptionEventContent(algorithm: string)

  /** One entry of the JoinedMembers response. */
  datatype JoinedMember = JoinedMember(displayName: string, avatarUrl: string)

  /** One call into the client or the Olm machine. */
  datatype Effect =
    | QueryEncryptionState(room: RoomId)              // cli.StateEvent(room, m.room.encryption, "")
    | SendText(room: RoomId, body: Text)              // cli.SendText
    | EncryptMegolm(room: RoomId, body: Text)         // mach.EncryptMegolmEvent with an m.text body
    | FetchJoinedMembers(room: RoomId)                // cli.JoinedMembers
    | ShareGroupSession(room: RoomId, recipients: set<UserId>)
    | SendEncryptedEvent(room: RoomId, payload: Ciphertext) // cli.SendMessageEvent(room, m.room.encrypted, ..)
    | Logout                                          // cli.Logout
    | LeaveRoom(room: RoomId)                         // cli.LeaveRoom
    | JoinRoom(room: RoomId)                          // cli.JoinRoom
    | DecryptMegolm(room: RoomId, payload: Ciphertext) // mach.DecryptMegolmEvent
    | HandleMemberEvent(room: RoomId)                 // mach.HandleMemberEvent
    | SpawnSendEncrypted(room: RoomId, body: Text)    // go sendEncrypted(..)

  /** Why a run panicked. */
  datatype Cause = CallFailed(error: Error) | SliceBoundsOutOfRange

  /** How a run ends: by returning, by a panic, or by os.Exit. */
  datatype Outcome = Returned | Panicked(cause: Cause) | Exited(status: int)

  /** The calls made, in order, and how the run ended. */
  datatype Run = Run(effects: seq<Effect>, outcome: Outcome)

  /** The run that touches nothing. */
  const Inert := Run([], Returned)

  /** The run `r` preceded by the calls `first`. */
  function Prepend(first: seq<Effect>, r: Run): Run {
    Run(first + r.effects, r.outcome)
  }

  /** Every call names `room`, apart from the account-wide Logout. */
  ghost predicate OnlyTouches(effects: seq<Effect>, room: RoomId) {
    forall k :: 0 <= k < |effects| && !effects[k].Logout? ==> effects[k].room == room
  }

  predicate IsEncrypt(e: Effect) { e.EncryptMegolm? }
  predicate IsShare(e: Effect) { e.ShareGroupSession? }
  predicate IsFetchMembers(e: Effect) { e.FetchJoinedMembers? }

  /** A call that puts a message into a room. */
  predicate IsDelivery(e: Effect) { e.SendText? || e.SendEncryptedEvent? }

  /** The number of calls in `effects` that satisfy `p`. */
  function Count(effects: seq<Effect>, p: Effect -> bool): (n: nat)
    ensures n <= |effects|
  {
    if effects == [] then 0
    else (if p(effects[0]) then 1 else 0) + Count(effects[1..], p)
  }

  lemma {:induction false} CountAppend(a: seq<Effect>, b: seq<Effect>, p: Effect -> bool)
    ensures Count(a + b, p) == Count(a, p) + Count(b, p)
  {
    if a == [] {
      assert a + b == b;
    } else {
      assert (a + b)[1..] == a[1..] + b;
      CountAppend(a[1..], b, p);
    }
  }

  /** Counting the calls of a trace as it grows by one call. */
  lemma CountSnoc(s: seq<Effect>, x: Effect, p: Effect -> bool)
    ensures Count(s + [x], p) == Count(s, p) + (if p(x) then 1 else 0)
  {
    CountAppend(s, [x], p);
  }

  /** CountSnoc for every trace, call and predicate at once. */
  lemma CountSnocAll()
    ensures forall s: seq<Effect>, x: Effect, p: Effect -> bool ::
      Count(s + [x], p) == Count(s, p) + (if p(x) then 1 else 0)
  {
    forall s: seq<Effect>, x: Effect, p: Effect -> bool
      ensures Count(s + [x], p) == Count(s, p) + (if p(x) then 1 else 0)
    {
      CountSnoc(s, x, p);
    }
  }
}
