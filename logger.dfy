/** The one piece of decision logic in the Olm machine's logger adapter:
    `Logger.Trace` drops the machine's per-member trace messages and forwards
    every other trace message at Info level. */
module Logging {
  import opened Effects
  import opened GoStrings

  /** "Got membership state event", as the bytes of the Go string. */
  const MembershipStatePrefix: Text := [
    0x47, 0x6F, 0x74, 0x20,                                     // "Got "
    0x6D, 0x65, 0x6D, 0x62, 0x65, 0x72, 0x73, 0x68, 0x69, 0x70, // "membership"
    0x20, 0x73, 0x74, 0x61, 0x74, 0x65,                         // " state"
    0x20, 0x65, 0x76, 0x65, 0x6E, 0x74]                         // " event"

  /** Whether `Logger.Trace(message, ..)` forwards the message to the log:
      a message is held back exactly when its first bytes are those of the
      membership-state prefix. */
  predicate TraceForwards(message: Text): (forwards: bool)
    ensures !forwards <==>
      |message| >= |MembershipStatePrefix|
      && forall i :: 0 <= i < |MembershipStatePrefix| ==> message[i] == MembershipStatePrefix[i]
  {
    !HasPrefix(message, MembershipStatePrefix)
  }

  /** Trace drops exactly the messages that consist of the membership-state
      prefix followed by anything, and forwards all others. */
  lemma TraceDropsExactlyMembershipMessages(message: Text)
    ensures !TraceForwards(message) <==> exists rest :: message == MembershipStatePrefix + rest
  {
    if !TraceForwards(message) {
      var rest := message[|MembershipStatePrefix|..];
      assert message == MembershipStatePrefix + rest;
    }
  }
}
