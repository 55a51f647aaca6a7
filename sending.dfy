/** The adaptive encrypted send of james.go: the encryption check on a room,
    the member enumeration, and `sendEncrypted` with its single retry after
    sharing a new group session. */
module Sending {
  import opened Effects

  /** `EncryptionIsNeeded`: the room needs encryption exactly when its
      m.room.encryption state event can be fetched. The content (even its
      algorithm) is not looked at, and every lookup error, "not found"
      included, means "send in plaintext": the check fails open. */
  function EncryptionIsNeeded(lookup: Result<EncryptionEventContent>): (needed: bool)
    ensures needed <==> lookup.Ok?
  {
    match lookup
    case Err(_) => false
    case Ok(_) => true
  }

  /** `getUserIDs`: the keys of the JoinedMembers map, written one by one
      into a slice preallocated to the map's size, in the map's (arbitrary)
      iteration order. A lookup error is returned unchanged; SendEncrypted,
      its only caller, panics with it. */
  method GetUserIDs(joined: Result<map<UserId, JoinedMember>>) returns (ids: Result<seq<UserId>>)
    ensures ids.Err? <==> joined.Err?
    ensures joined.Err? ==> ids.error == joined.error
    ensures joined.Ok? ==> |ids.value| == |joined.value|
    ensures joined.Ok? ==> forall u :: u in ids.value <==> u in joined.value
    ensures joined.Ok? ==> forall i, j :: 0 <= i < j < |ids.value| ==> ids.value[i] != ids.value[j]
  {
    if joined.Err? {
      return Err(joined.error);
    }
    var members := joined.value;
    var userIDs := new UserId[|members|];
    var i := 0;
    var remaining := members.Keys;
    while remaining != {}
      invariant remaining <= members.Keys
      invariant 0 <= i && i + |remaining| == userIDs.Length
      invariant forall k :: 0 <= k < i ==> userIDs[k] in members && userIDs[k] !in remaining
      invariant forall u :: u in members && u !in remaining ==> u in userIDs[..i]
      invariant forall a, b :: 0 <= a < b < i ==> userIDs[a] != userIDs[b]
      decreases remaining
    {
      var userID :| userID in remaining;
      ghost var filled := userIDs[..i];
      userIDs[i] := userID;
      assert userIDs[..i + 1] == filled + [userID];
      i := i + 1;
      remaining := remaining - {userID};
    }
    assert userIDs[..] == userIDs[..i];
    ids := Ok(userIDs[..]);
  }

  /** The session errors after which sendEncrypted shares a new group
      session and encrypts once more. */
  predicate IsSessionError(e: Error): (retry: bool)
    ensures retry <==> !e.Other?
  {
    e == SessionExpired || e == SessionNotShared || e == NoGroupSession
  }

  /** The collaborator's replies to the calls one sendEncrypted makes. */
  datatype SendReplies = SendReplies(
    firstEncrypt: Result<Ciphertext>,
    joinedMembers: Result<map<UserId, JoinedMember>>,
    share: Status,
    secondEncrypt: Result<Ciphertext>,
    sendEvent: Result<EventId>)

  /** Deliver ciphertext `c` after the calls `before`: the send panics on failure. */
  function Deliver(before: seq<Effect>, room: RoomId, c: Ciphertext, sent: Result<EventId>): Run {
    var effects := before + [SendEncryptedEvent(room, c)];
    match sent
    case Err(e) => Run(effects, Panicked(CallFailed(e)))
    case Ok(_) => Run(effects, Returned)
  }

  /** What sendEncrypted(room, text) does when the collaborator replies `r`:
      it always starts by encrypting the text for the room, it never exits
      the process, and it returns only when the final send succeeded. */
  function SendEncryptedRun(room: RoomId, text: Text, r: SendReplies): (run: Run)
    ensures run.effects != [] && run.effects[0] == EncryptMegolm(room, text)
    ensures !run.outcome.Exited?
    ensures run.outcome == Returned ==> r.sendEvent.Ok?
  {
    var first := [EncryptMegolm(room, text)];
    match r.firstEncrypt
    case Ok(c) => Deliver(first, room, c, r.sendEvent)
    case Err(e) =>
      if !IsSessionError(e) then Run(first, Panicked(CallFailed(e)))
      else
        var fetched := first + [FetchJoinedMembers(room)];
        match r.joinedMembers
        case Err(e') => Run(fetched, Panicked(CallFailed(e')))
        case Ok(members) =>
          var shared := fetched + [ShareGroupSession(room, members.Keys)];
          match r.share
          case Failed(e') => Run(shared, Panicked(CallFailed(e')))
          case Succeeded =>
            var second := shared + [EncryptMegolm(room, text)];
            match r.secondEncrypt
            case Err(e') => Run(second, Panicked(CallFailed(e')))
            case Ok(c) => Deliver(second, room, c, r.sendEvent)
  }

  /** `sendEncrypted`, step by step as the source runs it, with `encrypted`
      reassigned by the retry. */
  method SendEncrypted(roomID: RoomId, text: Text, r: SendReplies)
    returns (effects: seq<Effect>, outcome: Outcome)
    ensures Run(effects, outcome) == SendEncryptedRun(roomID, text, r)
  {
    effects := [EncryptMegolm(roomID, text)];
    var encrypted := r.firstEncrypt;
    if encrypted.Err? && IsSessionError(encrypted.error) {
      effects := effects + [FetchJoinedMembers(roomID)];
      var userIDs := GetUserIDs(r.joinedMembers);
      if userIDs.Err? {
        return effects, Panicked(CallFailed(userIDs.error));
      }
      var recipients := set u | u in userIDs.value;
      assert recipients == r.joinedMembers.value.Keys;
      effects := effects + [ShareGroupSession(roomID, recipients)];
      if r.share.Failed? {
        return effects, Panicked(CallFailed(r.share.error));
      }
      effects := effects + [EncryptMegolm(roomID, text)];
      encrypted := r.secondEncrypt;
    }
    if encrypted.Err? {
      return effects, Panicked(CallFailed(encrypted.error));
    }
    effects := effects + [SendEncryptedEvent(roomID, encrypted.value)];
    if r.sendEvent.Err? {
      return effects, Panicked(CallFailed(r.sendEvent.error));
    }
    outcome := Returned;
  }

  /** The retry protocol of one sendEncrypted call: one or two encryption
      attempts, at most one member lookup, at most one group-session share
      and at most one message sent. A share (and the second attempt it
      enables) happens only after a first attempt that failed with one of
      the three session errors; a second attempt happens only after a share
      that succeeded. */
  lemma SendEncryptedRetriesOnce(room: RoomId, text: Text, r: SendReplies)
    ensures var run := SendEncryptedRun(room, text, r);
      var retry := r.firstEncrypt.Err? && IsSessionError(r.firstEncrypt.error);
      && 1 <= Count(run.effects, IsEncrypt) <= 2
      && Count(run.effects, IsFetchMembers) == (if retry then 1 else 0)
      && Count(run.effects, IsShare) == (if retry && r.joinedMembers.Ok? then 1 else 0)
      && (Count(run.effects, IsEncrypt) == 2 <==> retry && r.joinedMembers.Ok? && r.share.Succeeded?)
      && Count(run.effects, IsDelivery) <= 1
  {
    if r.firstEncrypt.Err? && IsSessionError(r.firstEncrypt.error) {
      RetryCounts(room, text, r);
    } else {
      NoRetryCounts(room, text, r);
    }
  }

  /** The calls of a sendEncrypted that does not retry: one encryption, and
      at most one message sent. */
  lemma NoRetryCounts(room: RoomId, text: Text, r: SendReplies)
    requires !(r.firstEncrypt.Err? && IsSessionError(r.firstEncrypt.error))
    ensures var run := SendEncryptedRun(room, text, r);
      && Count(run.effects, IsEncrypt) == 1
      && Count(run.effects, IsFetchMembers) == 0
      && Count(run.effects, IsShare) == 0
      && Count(run.effects, IsDelivery) <= 1
  {
    CountSnocAll();
  }

  /** The calls of a sendEncrypted that retries: one member lookup, a share
      once the lookup succeeded, a second encryption once the share
      succeeded, and at most one message sent. */
  lemma RetryCounts(room: RoomId, text: Text, r: SendReplies)
    requires r.firstEncrypt.Err? && IsSessionError(r.firstEncrypt.error)
    ensures var run := SendEncryptedRun(room, text, r);
      && Count(run.effects, IsEncrypt) == (if r.joinedMembers.Ok? && r.share.Succeeded? then 2 else 1)
      && Count(run.effects, IsFetchMembers) == 1
      && Count(run.effects, IsShare) == (if r.joinedMembers.Ok? then 1 else 0)
      && Count(run.effects, IsDelivery) <= 1
  {
    if r.joinedMembers.Ok? && r.share.Succeeded? {
      SecondAttemptCounts(room, text, r);
    } else {
      CountSnocAll();
    }
  }

  /** The calls of a sendEncrypted whose retry reached the second
      encryption: two encryptions, one lookup, one share, and at most one
      message sent. */
  lemma SecondAttemptCounts(room: RoomId, text: Text, r: SendReplies)
    requires r.firstEncrypt.Err? && IsSessionError(r.firstEncrypt.error)
    requires r.joinedMembers.Ok? && r.share.Succeeded?
    ensures var run := SendEncryptedRun(room, text, r);
      && Count(run.effects, IsEncrypt) == 2
      && Count(run.effects, IsFetchMembers) == 1
      && Count(run.effects, IsShare) == 1
      && Count(run.effects, IsDelivery) <= 1
  {
    CountSnocAll();
  }

  /** sendEncrypted returns only after exactly one message has been sent,
      carrying the ciphertext of the last encryption attempt, and only to
      `room`. A first error outside the three session
      errors, a failed member lookup, a failed share and any error of the
      second attempt each end in a panic before anything is sent; a failed
      send panics too. A first attempt that succeeds is followed by the send
      and nothing else. */
  lemma SendEncryptedDelivery(room: RoomId, text: Text, r: SendReplies)
    ensures var run := SendEncryptedRun(room, text, r);
      && (run.outcome == Returned <==> Count(run.effects, IsDelivery) == 1 && r.sendEvent.Ok?)
      && (r.firstEncrypt.Ok? ==>
            run.effects == [EncryptMegolm(room, text), SendEncryptedEvent(room, r.firstEncrypt.value)])
      && (r.firstEncrypt.Err? && !IsSessionError(r.firstEncrypt.error) ==>
            run.outcome.Panicked? && Count(run.effects, IsDelivery) == 0)
      && (r.firstEncrypt.Err? && (r.joinedMembers.Err? || r.share.Failed? || r.secondEncrypt.Err?) ==>
            run.outcome.Panicked? && Count(run.effects, IsDelivery) == 0)
      && (forall k :: 0 <= k < |run.effects| && run.effects[k].SendEncryptedEvent? ==>
            run.effects[k].payload == (if r.firstEncrypt.Ok? then r.firstEncrypt.value else r.secondEncrypt.value))
      && (forall k :: 0 <= k < |run.effects| && run.effects[k].EncryptMegolm? ==> run.effects[k].body == text)
      && OnlyTouches(run.effects, room)
  {
    if r.firstEncrypt.Err? && IsSessionError(r.firstEncrypt.error) {
      RetryDeliveries(room, text, r);
    } else {
      NoRetryDeliveries(room, text, r);
    }
  }

  /** How many messages a sendEncrypted that does not retry sends: one,
      exactly when the first attempt succeeded. */
  lemma NoRetryDeliveries(room: RoomId, text: Text, r: SendReplies)
    requires !(r.firstEncrypt.Err? && IsSessionError(r.firstEncrypt.error))
    ensures var run := SendEncryptedRun(room, text, r);
      Count(run.effects, IsDelivery) == (if r.firstEncrypt.Ok? then 1 else 0)
  {
    CountSnocAll();
  }

  /** How many messages a sendEncrypted that retries sends: one, exactly
      when the lookup, the share and the second attempt all succeeded. */
  lemma RetryDeliveries(room: RoomId, text: Text, r: SendReplies)
    requires r.firstEncrypt.Err? && IsSessionError(r.firstEncrypt.error)
    ensures var run := SendEncryptedRun(room, text, r);
      Count(run.effects, IsDelivery) ==
        (if r.joinedMembers.Ok? && r.share.Succeeded? && r.secondEncrypt.Ok? then 1 else 0)
  {
    CountSnocAll();
  }

  /** sendEncrypted never falls back to plaintext: none of its calls is a
      SendText. */
  lemma SendEncryptedSendsNoPlaintext(room: RoomId, text: Text, r: SendReplies)
    ensures var run := SendEncryptedRun(room, text, r);
      forall k :: 0 <= k < |run.effects| ==> !run.effects[k].SendText?
  {
  }

  /** The retry shares the new group session with exactly the room's joined
      members: every share names them all and nobody else, and after a
      session error with a successful member lookup the share is the third
      call. */
  lemma SendEncryptedSharesWithJoinedMembers(room: RoomId, text: Text, r: SendReplies)
    ensures var run := SendEncryptedRun(room, text, r);
      && (forall k :: 0 <= k < |run.effects| && run.effects[k].ShareGroupSession? ==>
            r.joinedMembers.Ok? && run.effects[k] == ShareGroupSession(room, r.joinedMembers.value.Keys))
      && (r.firstEncrypt.Err? && IsSessionError(r.firstEncrypt.error) && r.joinedMembers.Ok? ==>
            |run.effects| >= 3 && run.effects[2] == ShareGroupSession(room, r.joinedMembers.value.Keys))
  {
  }
}
