/** The command handler of commandhandler.go: a message addressed to the bot
    by its display name is cut after the name and two more bytes, and the
    rest is matched as a whole against ping, logout and leave. */
module Commands {
  import opened Effects
  import opened GoStrings
  import opened Sending

  const Ping: Text := [0x70, 0x69, 0x6E, 0x67]                    // "ping"
  const Pong: Text := [0x70, 0x6F, 0x6E, 0x67]                    // "pong"
  const LogoutCommand: Text := [0x6C, 0x6F, 0x67, 0x6F, 0x75, 0x74] // "logout"
  const Leave: Text := [0x6C, 0x65, 0x61, 0x76, 0x65]             // "leave"

  /** What the parse of a body yields: not addressed to the bot, a slice
      past the end of the body (a runtime panic in Go), or the command. */
  datatype Parsed = NotAddressed | SliceOutOfRange | Command(str: Text)

  /** Trim the body, require the display name as a prefix and drop the name
      and the two bytes after it, whatever they are. */
  function Parse(data: Text, myname: Text): (p: Parsed)
    ensures p.NotAddressed? <==> !HasPrefix(TrimSpace(data), myname)
    ensures p.SliceOutOfRange? <==>
      HasPrefix(TrimSpace(data), myname) && |TrimSpace(data)| < |myname| + 2
  {
    var str := TrimSpace(data);
    if !HasPrefix(str, myname) then NotAddressed
    else if |str| < |myname| + 2 then SliceOutOfRange
    else Command(str[|myname| + 2..])
  }

  /** A parsed command is what remains of the trimmed body after the name
      and exactly two more bytes. */
  lemma CommandFollowsNameAndTwoBytes(data: Text, myname: Text)
    requires Parse(data, myname).Command?
    ensures var str := TrimSpace(data);
      str == myname + str[|myname|..|myname| + 2] + Parse(data, myname).str
  {
    SplitAfterName(TrimSpace(data), myname);
  }

  lemma SplitAfterName(str: Text, myname: Text)
    requires HasPrefix(str, myname) && |str| >= |myname| + 2
    ensures str == myname + str[|myname|..|myname| + 2] + str[|myname| + 2..]
  {
    assert str == str[..|myname|] + str[|myname|..|myname| + 2] + str[|myname| + 2..];
  }

  /** The collaborator's replies to the calls one command can make. */
  datatype CommandReplies = CommandReplies(
    encryptionState: Result<EncryptionEventContent>,
    send: SendReplies,
    sendText: Result<EventId>,
    logout: Status,
    leave: Status)

  /** The `switch` on the whole remainder. Only the three exact byte
      strings act, and each always makes at least one call. A logout ends
      the process with status 0 only when the Logout call succeeded; a leave
      never exits. */
  function Dispatch(str: Text, room: RoomId, r: CommandReplies): (run: Run)
    ensures run.effects != [] <==> str == Ping || str == LogoutCommand || str == Leave
    ensures str == LogoutCommand ==>
      && run.effects == [Logout]
      && (run.outcome == Exited(0) <==> r.logout.Succeeded?)
      && (r.logout.Failed? ==> run.outcome == Panicked(CallFailed(r.logout.error)))
    ensures str == Leave ==>
      && run.effects == [LeaveRoom(room)]
      && !run.outcome.Exited?
      && (run.outcome.Panicked? <==> r.leave.Failed?)
    ensures run.outcome.Exited? ==> str == LogoutCommand && run == Run([Logout], Exited(0))
    ensures !(str == Ping || str == LogoutCommand || str == Leave) ==> run == Inert
  {
    if str == Ping then
      Prepend([QueryEncryptionState(room)],
        if EncryptionIsNeeded(r.encryptionState) then SendEncryptedRun(room, Pong, r.send)
        else
          match r.sendText
          case Err(e) => Run([SendText(room, Pong)], Panicked(CallFailed(e)))
          case Ok(_) => Run([SendText(room, Pong)], Returned))
    else if str == LogoutCommand then
      match r.logout
      case Failed(e) => Run([Logout], Panicked(CallFailed(e)))
      case Succeeded => Run([Logout], Exited(0))
    else if str == Leave then
      match r.leave
      case Failed(e) => Run([LeaveRoom(room)], Panicked(CallFailed(e)))
      case Succeeded => Run([LeaveRoom(room)], Returned)
    else Inert
  }

  /** `commandhandler(mach, cli, data, room_id, myname)`. */
  function CommandHandler(data: Text, room: RoomId, myname: Text, r: CommandReplies): (run: Run)
    ensures !HasPrefix(TrimSpace(data), myname) ==> run == Inert
    ensures run.outcome.Exited? ==> run.outcome.status == 0 && run.effects == [Logout]
    ensures var str := TrimSpace(data);
      HasPrefix(str, myname) && |str| >= |myname| + 2 &&
      !(str[|myname| + 2..] == Ping || str[|myname| + 2..] == LogoutCommand || str[|myname| + 2..] == Leave)
      ==> run == Inert
    ensures var str := TrimSpace(data);
      HasPrefix(str, myname) && |str| >= |myname| + 2 ==> run == Dispatch(str[|myname| + 2..], room, r)
  {
    match Parse(data, myname)
    case NotAddressed => Inert
    case SliceOutOfRange => Run([], Panicked(SliceBoundsOutOfRange))
    case Command(str) => Dispatch(str, room, r)
  }

  /** A body with no space at either end that is the name, any two bytes
      and a command runs exactly that command. */
  lemma AddressedBodyDispatches(myname: Text, sep: Text, cmd: Text, room: RoomId, r: CommandReplies)
    requires |sep| == 2
    requires LeadingSpace(myname + sep + cmd) == 0 && TrailingSpace(myname + sep + cmd) == 0
    ensures CommandHandler(myname + sep + cmd, room, myname, r) == Dispatch(cmd, room, r)
  {
    SeparatorIsNeverInspected(myname, sep, cmd);
  }

  /** "<name><sep>logout" logs the account out and nothing else; the
      process exits with status 0 exactly when the Logout call succeeded,
      and panics otherwise. */
  lemma AddressedLogoutExits(myname: Text, sep: Text, room: RoomId, r: CommandReplies)
    requires |sep| == 2 && LeadingSpace(myname + sep + LogoutCommand) == 0
    ensures var run := CommandHandler(myname + sep + LogoutCommand, room, myname, r);
      && run.effects == [Logout]
      && (run.outcome == Exited(0) <==> r.logout.Succeeded?)
      && (r.logout.Failed? ==> run.outcome == Panicked(CallFailed(r.logout.error)))
  {
    var data := myname + sep + LogoutCommand;
    assert data[|data| - 3..] == [0x6F, 0x75, 0x74];
    AddressedBodyDispatches(myname, sep, LogoutCommand, room, r);
  }

  /** "<name><sep>leave" leaves the room the message came from and nothing
      else; it never exits and panics exactly when LeaveRoom fails. */
  lemma AddressedLeaveLeaves(myname: Text, sep: Text, room: RoomId, r: CommandReplies)
    requires |sep| == 2 && LeadingSpace(myname + sep + Leave) == 0
    ensures var run := CommandHandler(myname + sep + Leave, room, myname, r);
      && run.effects == [LeaveRoom(room)]
      && !run.outcome.Exited?
      && (run.outcome.Panicked? <==> r.leave.Failed?)
  {
    var data := myname + sep + Leave;
    assert data[|data| - 3..] == [0x61, 0x76, 0x65];
    AddressedBodyDispatches(myname, sep, Leave, room, r);
  }

  /** A body that, once trimmed, is the display name or the name and one
      more byte panics on the slice before any call is made. */
  lemma ShortAddressedBodyPanics(data: Text, room: RoomId, myname: Text, r: CommandReplies)
    requires HasPrefix(TrimSpace(data), myname) && |TrimSpace(data)| < |myname| + 2
    ensures CommandHandler(data, room, myname, r) == Run([], Panicked(SliceBoundsOutOfRange))
  {
  }

  /** The two bytes after the name are never looked at: with any two-byte
      separator, a body with no space at either end yields the rest of it as
      the command. */
  lemma SeparatorIsNeverInspected(myname: Text, sep: Text, cmd: Text)
    requires |sep| == 2
    requires LeadingSpace(myname + sep + cmd) == 0 && TrailingSpace(myname + sep + cmd) == 0
    ensures Parse(myname + sep + cmd, myname) == Command(cmd)
  {
    TrimSpaceFixedPoint(myname + sep + cmd);
    JoinAfterName(myname, sep, cmd);
  }

  lemma JoinAfterName(myname: Text, sep: Text, cmd: Text)
    requires |sep| == 2
    ensures var str := myname + sep + cmd;
      HasPrefix(str, myname) && |str| >= |myname| + 2 && str[|myname| + 2..] == cmd
  {
    var str := myname + sep + cmd;
    assert str[..|myname|] == myname;
    assert str[|myname| + 2..] == cmd;
  }

  /** With a one-byte separator ("<name> ping") the first byte of the command
      is dropped with the separator, and nothing happens. */
  lemma OneByteSeparatorIsIgnored(myname: Text, room: RoomId, r: CommandReplies)
    requires LeadingSpace(myname + [0x20] + Ping) == 0
    ensures CommandHandler(myname + [0x20] + Ping, room, myname, r) == Inert
  {
    var data := myname + [0x20] + Ping;
    assert TrailingSpace(data) == 0 by {
      assert data[|data| - 1..] == [0x67];
      assert data[|data| - 2..] == [0x6E, 0x67];
      assert data[|data| - 3..] == [0x69, 0x6E, 0x67];
    }
    SeparatorIsNeverInspected(myname, [0x20, 0x70], [0x69, 0x6E, 0x67]);
    assert data == myname + [0x20, 0x70] + [0x69, 0x6E, 0x67];
  }

  /** A separator that ends in a space ("<name>: " and nothing else) is
      trimmed away with it, so the slice runs past the end: a panic. */
  lemma TrailingSpaceSeparatorPanics(myname: Text, sep: byte, room: RoomId, r: CommandReplies)
    requires LeadingSpace(myname + [sep] + [0x20]) == 0 && TrailingSpace(myname + [sep]) == 0
    ensures CommandHandler(myname + [sep] + [0x20], room, myname, r) == Run([], Panicked(SliceBoundsOutOfRange))
  {
    TrimSpaceDropsFinalSpace(myname + [sep]);
    assert (myname + [sep])[..|myname|] == myname;
    ShortAddressedBodyPanics(myname + [sep] + [0x20], room, myname, r);
  }

  /** "ping" answers with exactly one "pong", and only to the originating
      room: through sendEncrypted when the room's encryption state can be
      fetched, otherwise as plaintext, which panics if it fails. It never
      exits, never sends twice, and returns only once the pong has gone out. */
  lemma PingAnswersPongOnce(room: RoomId, r: CommandReplies)
    ensures var run := Dispatch(Ping, room, r);
      && run.effects[0] == QueryEncryptionState(room)
      && OnlyTouches(run.effects, room)
      && Count(run.effects, IsDelivery) <= 1
      && (run.outcome == Returned ==> Count(run.effects, IsDelivery) == 1)
      && !run.outcome.Exited?
      && (forall k :: 0 <= k < |run.effects| && (run.effects[k].SendText? || run.effects[k].EncryptMegolm?) ==>
            run.effects[k].body == Pong)
      && (EncryptionIsNeeded(r.encryptionState) ==>
            Count(run.effects, IsEncrypt) >= 1 && forall k :: 0 <= k < |run.effects| ==> !run.effects[k].SendText?)
      && (!EncryptionIsNeeded(r.encryptionState) ==>
            && run.effects == [QueryEncryptionState(room), SendText(room, Pong)]
            && (run.outcome == Returned <==> r.sendText.Ok?))
  {
    if EncryptionIsNeeded(r.encryptionState) {
      PingThroughEncryption(room, r);
    }
  }

  /** The encrypted half of PingAnswersPongOnce: after the encryption-state
      query, the pong goes through sendEncrypted and nothing else. */
  lemma PingThroughEncryption(room: RoomId, r: CommandReplies)
    requires EncryptionIsNeeded(r.encryptionState)
    ensures var run := Dispatch(Ping, room, r);
      && run.effects[0] == QueryEncryptionState(room)
      && OnlyTouches(run.effects, room)
      && Count(run.effects, IsDelivery) <= 1
      && (run.outcome == Returned ==> Count(run.effects, IsDelivery) == 1)
      && !run.outcome.Exited?
      && (forall k :: 0 <= k < |run.effects| && (run.effects[k].SendText? || run.effects[k].EncryptMegolm?) ==>
            run.effects[k].body == Pong)
      && Count(run.effects, IsEncrypt) >= 1
      && forall k :: 0 <= k < |run.effects| ==> !run.effects[k].SendText?
  {
    var run := Dispatch(Ping, room, r);
    var inner := SendEncryptedRun(room, Pong, r.send);
    assert run == Prepend([QueryEncryptionState(room)], inner);
    SendEncryptedRetriesOnce(room, Pong, r.send);
    SendEncryptedDelivery(room, Pong, r.send);
    SendEncryptedSendsNoPlaintext(room, Pong, r.send);
    CountAppend([QueryEncryptionState(room)], inner.effects, IsDelivery);
    CountAppend([QueryEncryptionState(room)], inner.effects, IsEncrypt);
    assert forall k :: 1 <= k < |run.effects| ==> run.effects[k] == inner.effects[k - 1];
  }

  /** Each command touches only the room it came from (and the account,
      through Logout). */
  lemma DispatchTouchesOnlyItsRoom(str: Text, room: RoomId, r: CommandReplies)
    ensures OnlyTouches(Dispatch(str, room, r).effects, room)
  {
    if str == Ping {
      PingAnswersPongOnce(room, r);
    }
  }

  /** Whatever the body, the handler touches only the room it came from. */
  lemma CommandTouchesOnlyItsRoom(data: Text, room: RoomId, myname: Text, r: CommandReplies)
    ensures OnlyTouches(CommandHandler(data, room, myname, r).effects, room)
  {
    var p := Parse(data, myname);
    if p.Command? {
      DispatchTouchesOnlyItsRoom(p.str, room, r);
    }
  }
}
