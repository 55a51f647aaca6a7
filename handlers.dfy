/** The decision logic of james.go's `main`: the welcome broadcast to the
    rooms the bot is in at startup, and the three event handlers registered
    with the syncer, each gated by the start time. */
module Handlers {
  import opened Effects
  import opened GoStrings
  import opened Sending
  import opened Commands

  /** The content of an inbound event, by event type. */
  datatype Content =
    | Member(membership: string)      // m.room.member
    | Message(body: Text)             // m.room.message
    | Encrypted(payload: Ciphertext)  // m.room.encrypted

  /** An inbound event; the timestamp is in milliseconds since the epoch. */
  datatype Event = Event(room: RoomId, sender: UserId, timestamp: int, content: Content)

  /** What DecryptMegolmEvent yields, taken to be a message event. */
  datatype Decrypted = Decrypted(room: RoomId, sender: UserId, body: Text)

  /** The collaborator's replies to the calls the handling of one event makes. */
  datatype EventReplies = EventReplies(decrypt: Result<Decrypted>, join: Status, command: CommandReplies)

  /** What the handlers read but never change: the start time in
      milliseconds, the configured commander and the bot's display name. */
  datatype Bot = Bot(start: int, commander: UserId, myname: Text)

  const Invite := "invite"

  /** An event from before the bot started. An event stamped at exactly
      the start time is not stale. */
  predicate IsStale(bot: Bot, ev: Event): (stale: bool)
    ensures stale <==> ev.timestamp < bot.start
    ensures ev.timestamp == bot.start ==> !stale
  {
    ev.timestamp < bot.start
  }

  /** The m.room.encrypted handler: decrypt, and on success hand the body to
      the command handler for the room the decrypted event names, whoever
      sent it. A decryption error is only logged. */
  function OnEncrypted(bot: Bot, ev: Event, r: EventReplies): (run: Run)
    requires ev.content.Encrypted?
    ensures run.effects == [] <==> IsStale(bot, ev)
    ensures !IsStale(bot, ev) ==> run.effects[0] == DecryptMegolm(ev.room, ev.content.payload)
    ensures r.decrypt.Err? ==> run.outcome == Returned && |run.effects| <= 1
    ensures !IsStale(bot, ev) && r.decrypt.Ok? ==>
      run == Prepend([DecryptMegolm(ev.room, ev.content.payload)],
                     CommandHandler(r.decrypt.value.body, r.decrypt.value.room, bot.myname, r.command))
  {
    if ev.timestamp < bot.start then Inert
    else
      var decrypt := [DecryptMegolm(ev.room, ev.content.payload)];
      match r.decrypt
      case Err(_) => Run(decrypt, Returned)
      case Ok(d) => Prepend(decrypt, CommandHandler(d.body, d.room, bot.myname, r.command))
  }

  /** The m.room.message handler: only a fresh message from the configured
      commander reaches the command handler. */
  function OnMessage(bot: Bot, ev: Event, r: EventReplies): (run: Run)
    requires ev.content.Message?
    ensures run != Inert ==> !IsStale(bot, ev) && ev.sender == bot.commander
    ensures !IsStale(bot, ev) && ev.sender == bot.commander ==>
      run == CommandHandler(ev.content.body, ev.room, bot.myname, r.command)
  {
    if ev.timestamp < bot.start then Inert
    else if ev.sender == bot.commander then CommandHandler(ev.content.body, ev.room, bot.myname, r.command)
    else Inert
  }

  /** The gated m.room.member handler: join the room of a fresh invite and
      do nothing on any other membership. A failed join is only logged. */
  function OnMember(bot: Bot, ev: Event, r: EventReplies): (run: Run)
    requires ev.content.Member?
    ensures run.outcome == Returned
    ensures run.effects != [] <==> !IsStale(bot, ev) && ev.content.membership == Invite
    ensures run.effects != [] ==> run.effects == [JoinRoom(ev.room)]
  {
    if ev.timestamp < bot.start then Inert
    else if ev.content.membership != Invite then Inert
    else Run([JoinRoom(ev.room)], Returned)
  }

  /** The syncer's dispatch by event type. A member event first reaches the
      Olm machine's own HandleMemberEvent, which is not gated by the start
      time, and then the gated handler. */
  function OnEvent(bot: Bot, ev: Event, r: EventReplies): (run: Run)
    ensures ev.content.Member? ==> run.effects != [] && run.effects[0] == HandleMemberEvent(ev.room)
    ensures ev.content.Member? ==> |run.effects| <= 2 && run.outcome == Returned
    ensures ev.content.Member? ==> forall k :: 1 <= k < |run.effects| ==> run.effects[k] == JoinRoom(ev.room)
    ensures ev.content.Member? ==> (|run.effects| == 2 <==> !IsStale(bot, ev) && ev.content.membership == Invite)
  {
    match ev.content
    case Member(_) => Prepend([HandleMemberEvent(ev.room)], OnMember(bot, ev, r))
    case Message(_) => OnMessage(bot, ev, r)
    case Encrypted(_) => OnEncrypted(bot, ev, r)
  }

  /** A stale event makes no call of the bot's own: the only call left is
      the Olm machine's membership tracking, for member events. */
  lemma StaleEventsReachOnlyTheLibrary(bot: Bot, ev: Event, r: EventReplies)
    requires IsStale(bot, ev)
    ensures OnEvent(bot, ev, r) ==
      if ev.content.Member? then Run([HandleMemberEvent(ev.room)], Returned) else Inert
  {
  }

  /** A plaintext message from anyone but the commander has no effect at
      all, whatever it says. */
  lemma PlaintextFromOthersIsIgnored(bot: Bot, ev: Event, r: EventReplies)
    requires ev.content.Message? && ev.sender != bot.commander
    ensures OnEvent(bot, ev, r) == Inert
  {
  }

  /** Encrypted events and member events are handled the same whoever sent
      them: the sender is never checked. */
  lemma SenderIgnoredUnlessPlaintext(bot: Bot, ev: Event, other: UserId, r: EventReplies)
    requires !ev.content.Message?
    ensures OnEvent(bot, ev, r) == OnEvent(bot, ev.(sender := other), r)
  {
  }

  /** A fresh "<name><sep>ping" from the commander, sent in plaintext, is
      answered exactly as the ping command: one pong at most, to the room
      the message came from. */
  lemma CommanderPingIsAnswered(bot: Bot, ev: Event, sep: Text, r: EventReplies)
    requires ev.content == Message(bot.myname + sep + Ping) && |sep| == 2
    requires LeadingSpace(bot.myname + sep + Ping) == 0
    requires ev.timestamp >= bot.start && ev.sender == bot.commander
    ensures OnEvent(bot, ev, r) == Dispatch(Ping, ev.room, r.command)
    ensures Count(OnEvent(bot, ev, r).effects, IsDelivery) <= 1
  {
    var data := bot.myname + sep + Ping;
    assert data[|data| - 3..] == [0x69, 0x6E, 0x67];
    assert data[|data| - 2..] == [0x6E, 0x67];
    assert data[|data| - 1..] == [0x67];
    SeparatorIsNeverInspected(bot.myname, sep, Ping);
    PingAnswersPongOnce(ev.room, r.command);
  }

  /** An encrypted "<name><sep>ping" from any sender, once decrypted, is
      answered as the ping command in the room the decrypted event names. */
  lemma EncryptedPingIsAnswered(bot: Bot, ev: Event, sep: Text, d: Decrypted, r: EventReplies)
    requires ev.content.Encrypted? && ev.timestamp >= bot.start
    requires r.decrypt == Ok(d) && d.body == bot.myname + sep + Ping && |sep| == 2
    requires LeadingSpace(bot.myname + sep + Ping) == 0
    ensures OnEvent(bot, ev, r) ==
      Prepend([DecryptMegolm(ev.room, ev.content.payload)], Dispatch(Ping, d.room, r.command))
  {
    var data := bot.myname + sep + Ping;
    assert data[|data| - 3..] == [0x69, 0x6E, 0x67];
    assert data[|data| - 2..] == [0x6E, 0x67];
    assert data[|data| - 1..] == [0x67];
    SeparatorIsNeverInspected(bot.myname, sep, Ping);
  }

  /** The collaborator's replies for one room of the welcome broadcast. */
  datatype WelcomeReplies = WelcomeReplies(encryptionState: Result<EncryptionEventContent>, sendText: Result<EventId>)

  /** The welcome broadcast at startup: for each joined room, in order, check
      encryption and either start an encrypted send in its own goroutine or
      send the text in plaintext. A plaintext failure is only logged and does
      not stop the loop. A spawned send that panics (a failed share, a
      non-session encryption error, a failed send) ends the whole Go
      process, possibly before the loop reaches the later rooms; the effects
      here are those of a loop that no such panic interrupts. */
  method WelcomeBroadcast(rooms: seq<RoomId>, welcome: Text, replies: seq<WelcomeReplies>)
    returns (effects: seq<Effect>)
    requires |replies| == |rooms|
    ensures |effects| == 2 * |rooms|
    ensures forall k :: 0 <= k < |rooms| ==>
      && effects[2 * k] == QueryEncryptionState(rooms[k])
      && effects[2 * k + 1] ==
           (if EncryptionIsNeeded(replies[k].encryptionState) then SpawnSendEncrypted(rooms[k], welcome)
            else SendText(rooms[k], welcome))
  {
    effects := [];
    for i := 0 to |rooms|
      invariant |effects| == 2 * i
      invariant forall k :: 0 <= k < i ==>
        && effects[2 * k] == QueryEncryptionState(rooms[k])
        && effects[2 * k + 1] ==
             (if EncryptionIsNeeded(replies[k].encryptionState) then SpawnSendEncrypted(rooms[k], welcome)
              else SendText(rooms[k], welcome))
    {
      var room := rooms[i];
      effects := effects + [QueryEncryptionState(room)];
      if EncryptionIsNeeded(replies[i].encryptionState) {
        effects := effects + [SpawnSendEncrypted(room, welcome)];
      } else {
        // the reply replies[i].sendText is only logged when it is an error
        effects := effects + [SendText(room, welcome)];
      }
    }
  }
}
