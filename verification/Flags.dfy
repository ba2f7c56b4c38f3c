/** The flag bytes of the session codec: a decoder takes any non-zero byte for present, the encoder writes 1. */
module Flags {
  import opened Wire
  import opened Protocol

  /** An optional part with flag byte f. */
  function Flagged(f: Byte, data: Bytes): Bytes { [f] + data }

  lemma FlagReads(f: Byte, data: Bytes)
    ensures GetUint(1, Flagged(f, data)) == Parse(f, data)
  {
    assert Flagged(f, data)[..1] == [f] && Flagged(f, data)[1..] == data;
    assert ToUint([f]) == f by { assert [f][1..] == []; }
  }

  lemma FlagPrints(f: Byte, data: Bytes, present: bool)
    ensures Flagged(f, data) == Uint(1, Flag(present)) + data <==> f == Flag(present)
  {
    assert Uint(1, Flag(present)) == [Flag(present)];
    assert Flagged(f, data)[0] == f && (Uint(1, Flag(present)) + data)[0] == Flag(present);
  }

  // ---- requests ---------------------------------------------------------------------------------------

  /** A request that carries a scene, written with flag byte f. */
  function RequestWithFlag(r: UpdateRequest, f: Byte): Bytes {
    RequestFront(r, Flagged(f, Run(r.state) + PrintList(r.messages, PrintMessage)))
  }

  /** Whatever non-zero flag byte a request with a scene is written with, it decodes to the same request, and
      all but one of these strings are not what the encoder writes. */
  lemma AnyFlagDecodes(r: UpdateRequest, f: Byte)
    requires UpdateRequestFits(r) && r.hasState && f >= 1
    ensures DecodeUpdateRequest(RequestWithFlag(r, f)) == Message(r)
    ensures RequestWithFlag(r, f) == PrintUpdateRequest(r) <==> f == 1
  {
    var data := Run(r.state) + PrintList(r.messages, PrintMessage);
    RequestFrontReads(r, Flagged(f, data));
    FlagReads(f, data);
    RunParses(r.state, PrintList(r.messages, PrintMessage));
    MessageReads();
    ListReads(ParseMessage, PrintMessage, MessageFits, r.messages, []);
    assert PrintList(r.messages, PrintMessage) + [] == PrintList(r.messages, PrintMessage);
    FlagPrints(f, data, true);
    Assoc(Uint(1, 1), Run(r.state), PrintList(r.messages, PrintMessage));
    FrontsAgree(r, Flagged(f, data), PrintOptional(true, Run(r.state)) + PrintList(r.messages, PrintMessage));
  }

  /** A request of client 1 with an empty scene, written with flag byte 2: accepted, and encoded otherwise. */
  lemma RequestNotReproduced()
    ensures var s := RequestWithFlag(UpdateRequest(UPDATE, 1, 0, 0, 0, true, [], []), 2);
      && DecodeUpdateRequest(s).Message? && PrintUpdateRequest(DecodeUpdateRequest(s).value) != s
  {
    AnyFlagDecodes(UpdateRequest(UPDATE, 1, 0, 0, 0, true, [], []), 2);
  }

  // ---- replies ----------------------------------------------------------------------------------------

  function ReplyFront(r: UpdateReply, rest: Bytes): Bytes {
    Uint(1, r.status) + (Uint(4, r.ackSeq) + (Uint(4, r.rosterVersion) + (PrintList(r.rosterEvents, PrintEvent)
    + (PrintList(r.messages, PrintMessage) + rest))))
  }

  /** Where the hasSnapshot byte of a reply stands: after the counters and both lists. */
  function ReplyFlagAt(r: UpdateReply): nat {
    9 + |PrintList(r.rosterEvents, PrintEvent)| + |PrintList(r.messages, PrintMessage)|
  }

  lemma ReplyFrontAt(r: UpdateReply, x: Bytes)
    ensures |ReplyFront(r, x)| == ReplyFlagAt(r) + |x| && ReplyFront(r, x)[ReplyFlagAt(r)..] == x
  {
    var events, messages := PrintList(r.rosterEvents, PrintEvent), PrintList(r.messages, PrintMessage);
    var x4 := messages + x;
    var x3 := events + x4;
    var x2 := Uint(4, r.rosterVersion) + x3;
    var x1 := Uint(4, r.ackSeq) + x2;
    assert x4[|messages|..] == x && x3[|events| + |messages|..] == x;
    assert x2[4 + |events| + |messages|..] == x && x1[8 + |events| + |messages|..] == x;
    assert ReplyFront(r, x) == Uint(1, r.status) + x1;
  }

  lemma ReplyFrontsAgree(r: UpdateReply, x: Bytes, y: Bytes)
    ensures ReplyFront(r, x) == ReplyFront(r, y) <==> x == y
  {
    ReplyFrontAt(r, x);
    ReplyFrontAt(r, y);
  }

  lemma EventPrints()
    ensures Prints(ParseEvent, PrintEvent)
  {
    forall s: Bytes | ParseEvent(s).Parse? ensures s == PrintEvent(ParseEvent(s).value) + ParseEvent(s).rest {
      UintPrints(4, s);
      var p1 := GetUint(4, s);
      UintPrints(4, p1.rest);
      var p2 := GetUint(4, p1.rest);
      RunPrints(p2.rest);
      var p3 := GetRun(p2.rest);
      RunPrints(p3.rest);
      var p4 := GetRun(p3.rest);
      Assoc(Run(p3.value), Run(p4.value), p4.rest);
      Assoc(Uint(4, p2.value), Run(p3.value) + Run(p4.value), p4.rest);
      Assoc(Uint(4, p1.value), Uint(4, p2.value) + (Run(p3.value) + Run(p4.value)), p4.rest);
    }
  }

  /** The bytes of the snapshot part, flag apart. */
  function SnapshotData(r: UpdateReply): Bytes {
    if r.hasSnapshot then Int(8, r.snapshotTick) + Run(r.snapshot) else []
  }

  lemma OptionalSnapshotPrints(s: Bytes)
    requires ParseOptionalSnapshot(s).Parse? && ParseOptionalSnapshot(s).rest == []
    ensures var p := ParseOptionalSnapshot(s).value;
      s != [] && p.0 == (s[0] != 0) && s == Flagged(s[0], if p.0 then Int(8, p.1) + Run(p.2) else [])
  {
    UintPrints(1, s);
    assert s == Flagged(s[0], s[1..]);
    FlagReads(s[0], s[1..]);
    IntPrints(8, s[1..]);
    if s[0] != 0 {
      var p1 := GetInt(8, s[1..]);
      RunPrints(p1.rest);
      assert Run(GetRun(p1.rest).value) + [] == Run(GetRun(p1.rest).value);
    }
  }

  lemma ReplyPartsPrint(s: Bytes)
    requires DecodeUpdateReply(s).Message?
    ensures var r := DecodeUpdateReply(s).value;
      exists f: Byte :: r.hasSnapshot == (f != 0) && s == ReplyFront(r, Flagged(f, SnapshotData(r)))
  {
    var r := DecodeUpdateReply(s).value;
    UintPrints(1, s);
    var s1 := GetUint(1, s).rest;
    UintPrints(4, s1);
    var s2 := GetUint(4, s1).rest;
    UintPrints(4, s2);
    var s3 := GetUint(4, s2).rest;
    EventPrints();
    ListPrints(ParseEvent, PrintEvent, s3);
    var s4 := GetList(ParseEvent, s3).rest;
    MessagePrints();
    ListPrints(ParseMessage, PrintMessage, s4);
    var s5 := GetList(ParseMessage, s4).rest;
    OptionalSnapshotPrints(s5);
    assert s5 == Flagged(s5[0], SnapshotData(r));
    assert s == ReplyFront(r, s5);
  }

  /** A reply is reproduced by the encoder if and only if its flag byte is 0 or 1. */
  lemma UpdateReplyReproduced(s: Bytes)
    requires DecodeUpdateReply(s).Message?
    ensures var r := DecodeUpdateReply(s).value;
      |s| > ReplyFlagAt(r) && (PrintUpdateReply(r) == s <==> s[ReplyFlagAt(r)] <= 1)
  {
    var r := DecodeUpdateReply(s).value;
    ReplyPartsPrint(s);
    var f: Byte :| r.hasSnapshot == (f != 0) && s == ReplyFront(r, Flagged(f, SnapshotData(r)));
    ReplyFrontAt(r, Flagged(f, SnapshotData(r)));
    assert s[ReplyFlagAt(r)] == s[ReplyFlagAt(r)..][0] == f;
    FlagPrints(f, SnapshotData(r), r.hasSnapshot);
    ReplyFrontsAgree(r, Flagged(f, SnapshotData(r)), PrintOptional(r.hasSnapshot, Int(8, r.snapshotTick) + Run(r.snapshot)));
    assert PrintUpdateReply(r) == ReplyFront(r, PrintOptional(r.hasSnapshot, Int(8, r.snapshotTick) + Run(r.snapshot)));
  }

  /** Whatever non-zero flag byte a reply with a snapshot is written with, it decodes to the same reply. */
  lemma AnyReplyFlagDecodes(r: UpdateReply, f: Byte)
    requires UpdateReplyFits(r) && r.hasSnapshot && f >= 1
    ensures DecodeUpdateReply(ReplyFront(r, Flagged(f, SnapshotData(r)))) == Message(r)
    ensures ReplyFront(r, Flagged(f, SnapshotData(r))) == PrintUpdateReply(r) <==> f == 1
  {
    var s5 := Flagged(f, SnapshotData(r));
    var s4 := PrintList(r.messages, PrintMessage) + s5;
    var s3 := PrintList(r.rosterEvents, PrintEvent) + s4;
    var s2 := Uint(4, r.rosterVersion) + s3;
    var s1 := Uint(4, r.ackSeq) + s2;
    UintParses(1, r.status, s1);
    UintParses(4, r.ackSeq, s2);
    UintParses(4, r.rosterVersion, s3);
    EventReads();
    ListReads(ParseEvent, PrintEvent, EventFits, r.rosterEvents, s4);
    MessageReads();
    ListReads(ParseMessage, PrintMessage, MessageFits, r.messages, s5);
    FlagReads(f, SnapshotData(r));
    IntParses(8, r.snapshotTick, Run(r.snapshot));
    RunParses(r.snapshot, []);
    assert Run(r.snapshot) + [] == Run(r.snapshot);
    FlagPrints(f, SnapshotData(r), true);
    ReplyFrontsAgree(r, s5, PrintOptional(true, Int(8, r.snapshotTick) + Run(r.snapshot)));
  }

  /** A reply with an empty snapshot, written with flag byte 2: accepted, and encoded otherwise. */
  lemma ReplyNotReproduced()
    ensures var r := UpdateReply(OK, 0, 1, [], [], true, 0, []);
      var s := ReplyFront(r, Flagged(2, SnapshotData(r)));
      && DecodeUpdateReply(s).Message? && PrintUpdateReply(DecodeUpdateReply(s).value) != s
  {
    AnyReplyFlagDecodes(UpdateReply(OK, 0, 1, [], [], true, 0, []), 2);
  }
}
