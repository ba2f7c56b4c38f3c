/** The messages of a client-server session and their wire formats. */
module Protocol {
  import opened Wire

  // ---- types shared by server and client --------------------------------------------------------

  const SERVER_ID: nat := 0
  const MAX_CLIENT_ID: nat := 255

  datatype ClientInfo = ClientInfo(id: nat, hello: Bytes, peerEndpoint: Bytes)

  /** RosterChange. Decoding does not check the value; readers take anything but JOINED for a leave. */
  const JOINED: nat := 0
  const LEFT: nat := 1

  datatype RosterEvent = RosterEvent(change: nat, client: ClientInfo)

  /** An encoded scene and its sender, of which only the newest matters: SERVER_ID for a published snapshot. */
  datatype ReceivedState = ReceivedState(from: nat, tick: int, payload: Bytes)

  /** A reliable message as the application gets it. */
  datatype ReceivedMessage = ReceivedMessage(from: nat, kind: nat, tick: int, payload: Bytes)

  /** A reliable message on the wire. */
  datatype WireMessage = WireMessage(number: nat, kind: nat, tick: int, payload: Bytes)

  /** RequestKind */
  const JOIN: nat := 1
  const UPDATE: nat := 2
  const LEAVE: nat := 3

  /** ReplyStatus */
  const OK: nat := 0
  const REJECTED: nat := 1
  const UNKNOWN_CLIENT: nat := 2

  datatype JoinRequest = JoinRequest(token: nat, hello: Bytes, peerEndpoint: Bytes)

  datatype JoinReply = JoinReply(status: nat, id: nat, updatePort: int)

  datatype UpdateRequest = UpdateRequest(
    kind: nat, id: nat, tick: int, ackSeq: nat, rosterVersion: nat,
    hasState: bool, state: Bytes, messages: seq<WireMessage>)

  datatype UpdateReply = UpdateReply(
    status: nat, ackSeq: nat, rosterVersion: nat, rosterEvents: seq<RosterEvent>, messages: seq<WireMessage>,
    hasSnapshot: bool, snapshotTick: int, snapshot: Bytes)

  // ---- what fits the wire -----------------------------------------------------------------------

  /** Sizes and counters below the width they are sent in; a field that is not sent has its default. */
  predicate MessageFits(m: WireMessage) {
    m.number < Limit(4) && m.kind < Limit(2) && IsInt(8, m.tick) && |m.payload| < Limit(4)
  }

  predicate EventFits(e: RosterEvent) {
    && e.change < Limit(4) && e.client.id < Limit(4)
    && |e.client.hello| < Limit(4) && |e.client.peerEndpoint| < Limit(4)
  }

  predicate JoinRequestFits(r: JoinRequest) {
    r.token < Limit(8) && |r.hello| < Limit(4) && |r.peerEndpoint| < Limit(4)
  }

  predicate JoinReplyFits(r: JoinReply) {
    r.status < Limit(1) && r.id < Limit(4) && IsInt(4, r.updatePort)
  }

  predicate UpdateRequestFits(r: UpdateRequest) {
    && (r.kind == UPDATE || r.kind == LEAVE) && r.id < Limit(4) && IsInt(8, r.tick)
    && r.ackSeq < Limit(4) && r.rosterVersion < Limit(4)
    && (if r.hasState then |r.state| < Limit(4) else r.state == [])
    && |r.messages| < Limit(4) && forall m <- r.messages :: MessageFits(m)
  }

  predicate UpdateReplyFits(r: UpdateReply) {
    && r.status < Limit(1) && r.ackSeq < Limit(4) && r.rosterVersion < Limit(4)
    && |r.rosterEvents| < Limit(4) && (forall e <- r.rosterEvents :: EventFits(e))
    && |r.messages| < Limit(4) && (forall m <- r.messages :: MessageFits(m))
    && (if r.hasSnapshot then IsInt(8, r.snapshotTick) && |r.snapshot| < Limit(4)
        else r.snapshotTick == 0 && r.snapshot == [])
  }

  // ---- layouts ----------------------------------------------------------------------------------

  function PrintMessage(m: WireMessage): Bytes {
    Uint(4, m.number) + (Uint(2, m.kind) + (Int(8, m.tick) + Run(m.payload)))
  }

  function ParseMessage(s: Bytes): Parsed<WireMessage> {
    var (number, s) :- GetUint(4, s);
    var (kind, s) :- GetUint(2, s);
    var (tick, s) :- GetInt(8, s);
    var (payload, s) :- GetRun(s);
    Parse(WireMessage(number, kind, tick, payload), s)
  }

  function PrintEvent(e: RosterEvent): Bytes {
    Uint(4, e.change) + (Uint(4, e.client.id) + (Run(e.client.hello) + Run(e.client.peerEndpoint)))
  }

  function ParseEvent(s: Bytes): Parsed<RosterEvent> {
    var (change, s) :- GetUint(4, s);
    var (id, s) :- GetUint(4, s);
    var (hello, s) :- GetRun(s);
    var (peerEndpoint, s) :- GetRun(s);
    Parse(RosterEvent(change, ClientInfo(id, hello, peerEndpoint)), s)
  }

  function PrintJoinRequest(r: JoinRequest): Bytes {
    Uint(1, JOIN) + (Uint(8, r.token) + (Run(r.hello) + Run(r.peerEndpoint)))
  }

  function ParseJoinRequest(s: Bytes): Parsed<JoinRequest> {
    var (kind, s) :- GetUint(1, s);
    var (token, s) :- GetUint(8, s);
    var (hello, s) :- GetRun(s);
    var (peerEndpoint, s) :- GetRun(s);
    if kind == JOIN then Parse(JoinRequest(token, hello, peerEndpoint), s) else NoParse
  }

  function PrintJoinReply(r: JoinReply): Bytes {
    Uint(1, r.status) + (Uint(4, r.id) + Int(4, r.updatePort))
  }

  function ParseJoinReply(s: Bytes): Parsed<JoinReply> {
    var (status, s) :- GetUint(1, s);
    var (id, s) :- GetUint(4, s);
    var (updatePort, s) :- GetInt(4, s);
    Parse(JoinReply(status, id, updatePort), s)
  }

  function Flag(b: bool): nat { if b then 1 else 0 }

  function PrintOptional(present: bool, data: Bytes): Bytes {
    Uint(1, Flag(present)) + (if present then data else [])
  }

  /** The fixed-size front of an update request, before the rest. */
  function RequestFront(r: UpdateRequest, rest: Bytes): Bytes {
    Uint(1, r.kind) + (Uint(4, r.id) + (Int(8, r.tick) + (Uint(4, r.ackSeq) + (Uint(4, r.rosterVersion) + rest))))
  }

  function PrintUpdateRequest(r: UpdateRequest): Bytes {
    RequestFront(r, PrintOptional(r.hasState, Run(r.state)) + PrintList(r.messages, PrintMessage))
  }

  /** Any non-zero flag byte means present. */
  function ParseOptionalState(s: Bytes): Parsed<(bool, Bytes)> {
    var (flag, s) :- GetUint(1, s);
    if flag == 0 then Parse((false, []), s) else
    var (state, s) :- GetRun(s);
    Parse((true, state), s)
  }

  /** The fixed-size front, as a request that carries nothing yet. */
  function ParseRequestFront(s: Bytes): Parsed<UpdateRequest> {
    var (kind, s) :- GetUint(1, s);
    var (id, s) :- GetUint(4, s);
    var (tick, s) :- GetInt(8, s);
    var (ackSeq, s) :- GetUint(4, s);
    var (rosterVersion, s) :- GetUint(4, s);
    Parse(UpdateRequest(kind, id, tick, ackSeq, rosterVersion, false, [], []), s)
  }

  function ParseUpdateRequest(s: Bytes): Parsed<UpdateRequest> {
    var (front, s) :- ParseRequestFront(s);
    var (state, s) :- ParseOptionalState(s);
    var (messages, s) :- GetList(ParseMessage, s);
    if front.kind == UPDATE || front.kind == LEAVE
    then Parse(front.(hasState := state.0, state := state.1, messages := messages), s)
    else NoParse
  }

  function PrintUpdateReply(r: UpdateReply): Bytes {
    Uint(1, r.status) + (Uint(4, r.ackSeq) + (Uint(4, r.rosterVersion) + (PrintList(r.rosterEvents, PrintEvent)
    + (PrintList(r.messages, PrintMessage)
    + PrintOptional(r.hasSnapshot, Int(8, r.snapshotTick) + Run(r.snapshot))))))
  }

  function ParseOptionalSnapshot(s: Bytes): Parsed<(bool, int, Bytes)> {
    var (flag, s) :- GetUint(1, s);
    if flag == 0 then Parse((false, 0, []), s) else
    var (tick, s) :- GetInt(8, s);
    var (snapshot, s) :- GetRun(s);
    Parse((true, tick, snapshot), s)
  }

  /** The counters in front, as a reply that carries nothing yet. */
  function ParseReplyFront(s: Bytes): Parsed<UpdateReply> {
    var (status, s) :- GetUint(1, s);
    var (ackSeq, s) :- GetUint(4, s);
    var (rosterVersion, s) :- GetUint(4, s);
    Parse(UpdateReply(status, ackSeq, rosterVersion, [], [], false, 0, []), s)
  }

  function ParseUpdateReply(s: Bytes): Parsed<UpdateReply> {
    var (front, s) :- ParseReplyFront(s);
    var (rosterEvents, s) :- GetList(ParseEvent, s);
    var (messages, s) :- GetList(ParseMessage, s);
    var (snapshot, s) :- ParseOptionalSnapshot(s);
    Parse(front.(rosterEvents := rosterEvents, messages := messages,
                 hasSnapshot := snapshot.0, snapshotTick := snapshot.1, snapshot := snapshot.2), s)
  }

  /** peerSession's own payload. */
  function PrintSnapshot(tick: int, payload: Bytes): Bytes {
    Int(8, tick) + Run(payload)
  }

  function ParseSnapshot(s: Bytes): Parsed<ReceivedState> {
    var (tick, s) :- GetInt(8, s);
    var (payload, s) :- GetRun(s);
    Parse(ReceivedState(SERVER_ID, tick, payload), s)
  }

  datatype Decoded<+T> = Malformed | Message(value: T)

  /** decode(): the whole input, nothing after it. */
  function Whole<T>(p: Parsed<T>): Decoded<T> {
    if p.Parse? && p.rest == [] then Message(p.value) else Malformed
  }

  function DecodeJoinRequest(s: Bytes): Decoded<JoinRequest> { Whole(ParseJoinRequest(s)) }
  function DecodeJoinReply(s: Bytes): Decoded<JoinReply> { Whole(ParseJoinReply(s)) }
  function DecodeUpdateRequest(s: Bytes): Decoded<UpdateRequest> { Whole(ParseUpdateRequest(s)) }
  function DecodeUpdateReply(s: Bytes): Decoded<UpdateReply> { Whole(ParseUpdateReply(s)) }
  function DecodeSnapshot(s: Bytes): Decoded<ReceivedState> { Whole(ParseSnapshot(s)) }

  // ---- reading back what was printed ------------------------------------------------------------

  lemma MessageReads()
    ensures Reads(ParseMessage, PrintMessage, MessageFits)
  {
    forall m: WireMessage, t: Bytes | MessageFits(m) ensures ParseMessage(PrintMessage(m) + t) == Parse(m, t) {
      var s3 := Run(m.payload) + t;
      var s2 := Int(8, m.tick) + s3;
      var s1 := Uint(2, m.kind) + s2;
      assert PrintMessage(m) + t == Uint(4, m.number) + s1;
      UintParses(4, m.number, s1);
      UintParses(2, m.kind, s2);
      IntParses(8, m.tick, s3);
      RunParses(m.payload, t);
    }
  }

  lemma EventReads()
    ensures Reads(ParseEvent, PrintEvent, EventFits)
  {
    forall e: RosterEvent, t: Bytes | EventFits(e) ensures ParseEvent(PrintEvent(e) + t) == Parse(e, t) {
      var s3 := Run(e.client.peerEndpoint) + t;
      var s2 := Run(e.client.hello) + s3;
      var s1 := Uint(4, e.client.id) + s2;
      assert PrintEvent(e) + t == Uint(4, e.change) + s1;
      UintParses(4, e.change, s1);
      UintParses(4, e.client.id, s2);
      RunParses(e.client.hello, s3);
      RunParses(e.client.peerEndpoint, t);
    }
  }

  lemma JoinRequestReads(r: JoinRequest, t: Bytes)
    requires JoinRequestFits(r)
    ensures ParseJoinRequest(PrintJoinRequest(r) + t) == Parse(r, t)
  {
    var s3 := Run(r.peerEndpoint) + t;
    var s2 := Run(r.hello) + s3;
    var s1 := Uint(8, r.token) + s2;
    assert PrintJoinRequest(r) + t == Uint(1, JOIN) + s1;
    UintParses(1, JOIN, s1);
    UintParses(8, r.token, s2);
    RunParses(r.hello, s3);
    RunParses(r.peerEndpoint, t);
  }

  lemma JoinReplyReads(r: JoinReply, t: Bytes)
    requires JoinReplyFits(r)
    ensures ParseJoinReply(PrintJoinReply(r) + t) == Parse(r, t)
  {
    var s2 := Int(4, r.updatePort) + t;
    var s1 := Uint(4, r.id) + s2;
    assert PrintJoinReply(r) + t == Uint(1, r.status) + s1;
    UintParses(1, r.status, s1);
    UintParses(4, r.id, s2);
    IntParses(4, r.updatePort, t);
  }

  lemma OptionalStateReads(present: bool, state: Bytes, t: Bytes)
    requires if present then |state| < Limit(4) else state == []
    ensures ParseOptionalState(PrintOptional(present, Run(state)) + t) == Parse((present, state), t)
  {
    var s1 := (if present then Run(state) else []) + t;
    assert PrintOptional(present, Run(state)) + t == Uint(1, Flag(present)) + s1;
    UintParses(1, Flag(present), s1);
    if present {
      RunParses(state, t);
    } else {
      assert s1 == t;
    }
  }

  lemma RequestFrontReads(r: UpdateRequest, rest: Bytes)
    requires UpdateRequestFits(r)
    ensures ParseRequestFront(RequestFront(r, rest)) == Parse(r.(hasState := false, state := [], messages := []), rest)
  {
    var s4 := Uint(4, r.rosterVersion) + rest;
    var s3 := Uint(4, r.ackSeq) + s4;
    var s2 := Int(8, r.tick) + s3;
    var s1 := Uint(4, r.id) + s2;
    UintParses(1, r.kind, s1);
    UintParses(4, r.id, s2);
    IntParses(8, r.tick, s3);
    UintParses(4, r.ackSeq, s4);
    UintParses(4, r.rosterVersion, rest);
  }

  lemma RequestFrontMore(r: UpdateRequest, rest: Bytes, t: Bytes)
    ensures RequestFront(r, rest) + t == RequestFront(r, rest + t)
  {
    var x4 := Uint(4, r.rosterVersion) + rest;
    var x3 := Uint(4, r.ackSeq) + x4;
    var x2 := Int(8, r.tick) + x3;
    var x1 := Uint(4, r.id) + x2;
    Assoc(Uint(4, r.rosterVersion), rest, t);
    Assoc(Uint(4, r.ackSeq), x4, t);
    Assoc(Int(8, r.tick), x3, t);
    Assoc(Uint(4, r.id), x2, t);
    Assoc(Uint(1, r.kind), x1, t);
  }

  lemma UpdateRequestReads(r: UpdateRequest, t: Bytes)
    requires UpdateRequestFits(r)
    ensures ParseUpdateRequest(PrintUpdateRequest(r) + t) == Parse(r, t)
  {
    var state, messages := PrintOptional(r.hasState, Run(r.state)), PrintList(r.messages, PrintMessage);
    RequestFrontMore(r, state + messages, t);
    Assoc(state, messages, t);
    RequestFrontReads(r, state + (messages + t));
    OptionalStateReads(r.hasState, r.state, messages + t);
    MessageReads();
    ListReads(ParseMessage, PrintMessage, MessageFits, r.messages, t);
  }

  lemma OptionalSnapshotReads(present: bool, tick: int, snapshot: Bytes, t: Bytes)
    requires if present then IsInt(8, tick) && |snapshot| < Limit(4) else tick == 0 && snapshot == []
    ensures ParseOptionalSnapshot(PrintOptional(present, Int(8, tick) + Run(snapshot)) + t) == Parse((present, tick, snapshot), t)
  {
    var data := if present then Int(8, tick) + Run(snapshot) else [];
    Assoc(Uint(1, Flag(present)), data, t);
    UintParses(1, Flag(present), data + t);
    if present {
      Assoc(Int(8, tick), Run(snapshot), t);
      IntParses(8, tick, Run(snapshot) + t);
      RunParses(snapshot, t);
    } else {
      assert data + t == t;
    }
  }

  lemma UpdateReplyReads(r: UpdateReply, t: Bytes)
    requires UpdateReplyFits(r)
    ensures ParseUpdateReply(PrintUpdateReply(r) + t) == Parse(r, t)
  {
    var x5 := PrintOptional(r.hasSnapshot, Int(8, r.snapshotTick) + Run(r.snapshot));
    var x4 := PrintList(r.messages, PrintMessage) + x5;
    var x3 := PrintList(r.rosterEvents, PrintEvent) + x4;
    var x2 := Uint(4, r.rosterVersion) + x3;
    var x1 := Uint(4, r.ackSeq) + x2;
    var s5, s4, s3, s2, s1 := x5 + t, x4 + t, x3 + t, x2 + t, x1 + t;
    Assoc(PrintList(r.messages, PrintMessage), x5, t);
    Assoc(PrintList(r.rosterEvents, PrintEvent), x4, t);
    Assoc(Uint(4, r.rosterVersion), x3, t);
    Assoc(Uint(4, r.ackSeq), x2, t);
    Assoc(Uint(1, r.status), x1, t);
    UintParses(1, r.status, s1);
    UintParses(4, r.ackSeq, s2);
    UintParses(4, r.rosterVersion, s3);
    EventReads();
    ListReads(ParseEvent, PrintEvent, EventFits, r.rosterEvents, s4);
    MessageReads();
    ListReads(ParseMessage, PrintMessage, MessageFits, r.messages, s5);
    OptionalSnapshotReads(r.hasSnapshot, r.snapshotTick, r.snapshot, t);
  }

  lemma SnapshotReads(tick: int, payload: Bytes, t: Bytes)
    requires IsInt(8, tick) && |payload| < Limit(4)
    ensures ParseSnapshot(PrintSnapshot(tick, payload) + t) == Parse(ReceivedState(SERVER_ID, tick, payload), t)
  {
    var s1 := Run(payload) + t;
    assert PrintSnapshot(tick, payload) + t == Int(8, tick) + s1;
    IntParses(8, tick, s1);
    RunParses(payload, t);
  }

  // ---- a successful read is unchanged by appended bytes -----------------------------------------

  lemma MessageStable()
    ensures Stable(ParseMessage)
  {
    forall s: Bytes, t: Bytes | ParseMessage(s).Parse?
      ensures ParseMessage(s + t) == Parse(ParseMessage(s).value, ParseMessage(s).rest + t)
    {
      UintStable(4, s, t);
      var s1 := GetUint(4, s).rest;
      UintStable(2, s1, t);
      var s2 := GetUint(2, s1).rest;
      IntStable(8, s2, t);
      RunStable(GetInt(8, s2).rest, t);
    }
  }

  lemma EventStable()
    ensures Stable(ParseEvent)
  {
    forall s: Bytes, t: Bytes | ParseEvent(s).Parse?
      ensures ParseEvent(s + t) == Parse(ParseEvent(s).value, ParseEvent(s).rest + t)
    {
      UintStable(4, s, t);
      var s1 := GetUint(4, s).rest;
      UintStable(4, s1, t);
      var s2 := GetUint(4, s1).rest;
      RunStable(s2, t);
      RunStable(GetRun(s2).rest, t);
    }
  }

  lemma JoinRequestStable()
    ensures Stable(ParseJoinRequest)
  {
    forall s: Bytes, t: Bytes | ParseJoinRequest(s).Parse?
      ensures ParseJoinRequest(s + t) == Parse(ParseJoinRequest(s).value, ParseJoinRequest(s).rest + t)
    {
      UintStable(1, s, t);
      var s1 := GetUint(1, s).rest;
      UintStable(8, s1, t);
      var s2 := GetUint(8, s1).rest;
      RunStable(s2, t);
      RunStable(GetRun(s2).rest, t);
    }
  }

  lemma JoinReplyStable()
    ensures Stable(ParseJoinReply)
  {
    forall s: Bytes, t: Bytes | ParseJoinReply(s).Parse?
      ensures ParseJoinReply(s + t) == Parse(ParseJoinReply(s).value, ParseJoinReply(s).rest + t)
    {
      UintStable(1, s, t);
      var s1 := GetUint(1, s).rest;
      UintStable(4, s1, t);
      IntStable(4, GetUint(4, s1).rest, t);
    }
  }

  lemma OptionalStateStable(s: Bytes, t: Bytes)
    requires ParseOptionalState(s).Parse?
    ensures ParseOptionalState(s + t) == Parse(ParseOptionalState(s).value, ParseOptionalState(s).rest + t)
  {
    UintStable(1, s, t);
    if GetUint(1, s).value != 0 {
      RunStable(GetUint(1, s).rest, t);
    }
  }

  lemma RequestFrontStable(s: Bytes, t: Bytes)
    requires ParseRequestFront(s).Parse?
    ensures ParseRequestFront(s + t) == Parse(ParseRequestFront(s).value, ParseRequestFront(s).rest + t)
  {
    UintStable(1, s, t);
    var s1 := GetUint(1, s).rest;
    UintStable(4, s1, t);
    var s2 := GetUint(4, s1).rest;
    IntStable(8, s2, t);
    var s3 := GetInt(8, s2).rest;
    UintStable(4, s3, t);
    UintStable(4, GetUint(4, s3).rest, t);
  }

  lemma UpdateRequestStable()
    ensures Stable(ParseUpdateRequest)
  {
    forall s: Bytes, t: Bytes | ParseUpdateRequest(s).Parse?
      ensures ParseUpdateRequest(s + t) == Parse(ParseUpdateRequest(s).value, ParseUpdateRequest(s).rest + t)
    {
      RequestFrontStable(s, t);
      var s5 := ParseRequestFront(s).rest;
      OptionalStateStable(s5, t);
      MessageStable();
      ListStable(ParseMessage, ParseOptionalState(s5).rest, t);
    }
  }

  lemma OptionalSnapshotStable(s: Bytes, t: Bytes)
    requires ParseOptionalSnapshot(s).Parse?
    ensures ParseOptionalSnapshot(s + t) == Parse(ParseOptionalSnapshot(s).value, ParseOptionalSnapshot(s).rest + t)
  {
    UintStable(1, s, t);
    if GetUint(1, s).value != 0 {
      var s1 := GetUint(1, s).rest;
      IntStable(8, s1, t);
      RunStable(GetInt(8, s1).rest, t);
    }
  }

  lemma UpdateReplyStable()
    ensures Stable(ParseUpdateReply)
  {
    forall s: Bytes, t: Bytes | ParseUpdateReply(s).Parse?
      ensures ParseUpdateReply(s + t) == Parse(ParseUpdateReply(s).value, ParseUpdateReply(s).rest + t)
    {
      UintStable(1, s, t);
      var s1 := GetUint(1, s).rest;
      UintStable(4, s1, t);
      var s2 := GetUint(4, s1).rest;
      UintStable(4, s2, t);
      var s3 := GetUint(4, s2).rest;
      EventStable();
      ListStable(ParseEvent, s3, t);
      var s4 := GetList(ParseEvent, s3).rest;
      MessageStable();
      ListStable(ParseMessage, s4, t);
      OptionalSnapshotStable(GetList(ParseMessage, s4).rest, t);
    }
  }

  lemma SnapshotStable()
    ensures Stable(ParseSnapshot)
  {
    forall s: Bytes, t: Bytes | ParseSnapshot(s).Parse?
      ensures ParseSnapshot(s + t) == Parse(ParseSnapshot(s).value, ParseSnapshot(s).rest + t)
    {
      IntStable(8, s, t);
      RunStable(GetInt(8, s).rest, t);
    }
  }

  // ---- the codecs -------------------------------------------------------------------------------

  /** For a stable parser that reads all of e: decoding yields the value, and neither a proper prefix nor a
      proper extension of e decodes. */
  lemma OnlyWhole<T(!new)>(parse: Bytes -> Parsed<T>, e: Bytes, v: T, n: nat, more: Bytes)
    requires Stable(parse) && parse(e + []) == Parse(v, [])
    ensures Whole(parse(e)) == Message(v)
    ensures n < |e| ==> Whole(parse(e[..n])).Malformed?
    ensures more != [] ==> Whole(parse(e + more)).Malformed?
  {
    assert e + [] == e;
    if n < |e| {
      assert e[..n] + e[n..] == e;
    }
  }

  lemma JoinRequestCodec(r: JoinRequest, n: nat, more: Bytes)
    requires JoinRequestFits(r)
    ensures DecodeJoinRequest(PrintJoinRequest(r)) == Message(r)
    ensures n < |PrintJoinRequest(r)| ==> DecodeJoinRequest(PrintJoinRequest(r)[..n]).Malformed?
    ensures more != [] ==> DecodeJoinRequest(PrintJoinRequest(r) + more).Malformed?
  {
    JoinRequestReads(r, []);
    JoinRequestStable();
    OnlyWhole(ParseJoinRequest, PrintJoinRequest(r), r, n, more);
  }

  lemma JoinReplyCodec(r: JoinReply, n: nat, more: Bytes)
    requires JoinReplyFits(r)
    ensures DecodeJoinReply(PrintJoinReply(r)) == Message(r)
    ensures n < |PrintJoinReply(r)| ==> DecodeJoinReply(PrintJoinReply(r)[..n]).Malformed?
    ensures more != [] ==> DecodeJoinReply(PrintJoinReply(r) + more).Malformed?
  {
    JoinReplyReads(r, []);
    JoinReplyStable();
    OnlyWhole(ParseJoinReply, PrintJoinReply(r), r, n, more);
  }

  lemma UpdateRequestCodec(r: UpdateRequest, n: nat, more: Bytes)
    requires UpdateRequestFits(r)
    ensures DecodeUpdateRequest(PrintUpdateRequest(r)) == Message(r)
    ensures n < |PrintUpdateRequest(r)| ==> DecodeUpdateRequest(PrintUpdateRequest(r)[..n]).Malformed?
    ensures more != [] ==> DecodeUpdateRequest(PrintUpdateRequest(r) + more).Malformed?
  {
    UpdateRequestReads(r, []);
    UpdateRequestStable();
    OnlyWhole(ParseUpdateRequest, PrintUpdateRequest(r), r, n, more);
  }

  lemma UpdateReplyCodec(r: UpdateReply, n: nat, more: Bytes)
    requires UpdateReplyFits(r)
    ensures DecodeUpdateReply(PrintUpdateReply(r)) == Message(r)
    ensures n < |PrintUpdateReply(r)| ==> DecodeUpdateReply(PrintUpdateReply(r)[..n]).Malformed?
    ensures more != [] ==> DecodeUpdateReply(PrintUpdateReply(r) + more).Malformed?
  {
    UpdateReplyReads(r, []);
    UpdateReplyStable();
    OnlyWhole(ParseUpdateReply, PrintUpdateReply(r), r, n, more);
  }

  lemma SnapshotCodec(tick: int, payload: Bytes, n: nat, more: Bytes)
    requires IsInt(8, tick) && |payload| < Limit(4)
    ensures DecodeSnapshot(PrintSnapshot(tick, payload)) == Message(ReceivedState(SERVER_ID, tick, payload))
    ensures n < |PrintSnapshot(tick, payload)| ==> DecodeSnapshot(PrintSnapshot(tick, payload)[..n]).Malformed?
    ensures more != [] ==> DecodeSnapshot(PrintSnapshot(tick, payload) + more).Malformed?
  {
    SnapshotReads(tick, payload, []);
    SnapshotStable();
    OnlyWhole(ParseSnapshot, PrintSnapshot(tick, payload), ReceivedState(SERVER_ID, tick, payload), n, more);
  }

  // ---- what else the request decoder accepts ----------------------------------------------------

  /** Where the hasState byte of an update request stands. */
  const FLAG_AT: nat := 21

  lemma MessagePrints()
    ensures Prints(ParseMessage, PrintMessage)
  {
    forall s: Bytes | ParseMessage(s).Parse? ensures s == PrintMessage(ParseMessage(s).value) + ParseMessage(s).rest {
      UintPrints(4, s);
      var p1 := GetUint(4, s);
      UintPrints(2, p1.rest);
      var p2 := GetUint(2, p1.rest);
      IntPrints(8, p2.rest);
      var p3 := GetInt(8, p2.rest);
      RunPrints(p3.rest);
      var p4 := GetRun(p3.rest);
      Assoc(Int(8, p3.value), Run(p4.value), p4.rest);
      Assoc(Uint(2, p2.value), Int(8, p3.value) + Run(p4.value), p4.rest);
      Assoc(Uint(4, p1.value), Uint(2, p2.value) + (Int(8, p3.value) + Run(p4.value)), p4.rest);
    }
  }

  lemma OptionalStatePrints(s: Bytes)
    ensures var p := ParseOptionalState(s);
      p.Parse? ==>
        && s != []
        && s == [s[0]] + (if p.value.0 then Run(p.value.1) else []) + p.rest
        && p.value.0 == (s[0] != 0)
        && (!p.value.0 ==> p.value.1 == [])
  {
    UintPrints(1, s);
    if ParseOptionalState(s).Parse? {
      assert ToUint(s[..1]) == s[0] by { assert s[..1][1..] == []; }
      assert s == [s[0]] + s[1..];
      RunPrints(s[1..]);
    }
  }

  /** The session codec is not a bijection: a request with a flag byte of 2 decodes, and encodes to other
      bytes. Exactly the requests whose flag byte is 0 or 1 are reproduced. */
  lemma UpdateRequestReproduced(s: Bytes)
    requires DecodeUpdateRequest(s).Message?
    ensures |s| > FLAG_AT
    ensures PrintUpdateRequest(DecodeUpdateRequest(s).value) == s <==> s[FLAG_AT] <= 1
  {
    var r := DecodeUpdateRequest(s).value;
    RequestFrontPrints(s);
    var rest := ParseRequestFront(s).rest;
    assert RequestFront(r, rest) == RequestFront(ParseRequestFront(s).value, rest);
    OptionalStatePrints(rest);
    var list := ParseOptionalState(rest).rest;
    MessagePrints();
    ListPrints(ParseMessage, PrintMessage, list);
    var messages := PrintList(r.messages, PrintMessage);
    assert list == messages by { assert messages + [] == messages; }
    Reproduced(r, rest);
  }

  lemma Reproduced(r: UpdateRequest, rest: Bytes)
    requires rest != [] && r.hasState == (rest[0] != 0)
    requires rest == [rest[0]] + (if r.hasState then Run(r.state) else []) + PrintList(r.messages, PrintMessage)
    ensures var s := RequestFront(r, rest);
      |s| > FLAG_AT && (PrintUpdateRequest(r) == s <==> s[FLAG_AT] <= 1)
  {
    var x := PrintOptional(r.hasState, Run(r.state)) + PrintList(r.messages, PrintMessage);
    FrontsAgree(r, rest, x);
    SameBut(rest, x, rest[0], Flag(r.hasState), if r.hasState then Run(r.state) else [], PrintList(r.messages, PrintMessage));
  }

  lemma FrontsAgree(r: UpdateRequest, x: Bytes, y: Bytes)
    requires x != []
    ensures |RequestFront(r, x)| > FLAG_AT && RequestFront(r, x)[FLAG_AT] == x[0]
    ensures RequestFront(r, x) == RequestFront(r, y) <==> x == y
  {
    RequestFrontAt(r, x);
    RequestFrontAt(r, y);
  }

  lemma RequestFrontPrints(s: Bytes)
    ensures var p := ParseRequestFront(s); p.Parse? ==> s == RequestFront(p.value, p.rest)
  {
    UintPrints(1, s);
    if ParseRequestFront(s).Parse? {
      var s1 := GetUint(1, s).rest;
      UintPrints(4, s1);
      var s2 := GetUint(4, s1).rest;
      IntPrints(8, s2);
      var s3 := GetInt(8, s2).rest;
      UintPrints(4, s3);
      UintPrints(4, GetUint(4, s3).rest);
    }
  }

  lemma RequestFrontAt(r: UpdateRequest, x: Bytes)
    ensures |RequestFront(r, x)| == FLAG_AT + |x| && RequestFront(r, x)[FLAG_AT..] == x
  {
    var x4 := Uint(4, r.rosterVersion) + x;
    var x3 := Uint(4, r.ackSeq) + x4;
    var x2 := Int(8, r.tick) + x3;
    var x1 := Uint(4, r.id) + x2;
    assert x4[4..] == x && x3[8..] == x && x2[16..] == x && x1[20..] == x;
    assert RequestFront(r, x) == Uint(1, r.kind) + x1;
  }

  lemma SameBut(s: Bytes, x: Bytes, f: Byte, g: Byte, state: Bytes, list: Bytes)
    requires s == [f] + state + list && x == Uint(1, g) + state + list
    ensures s == x <==> f == g
  {
    assert Uint(1, g) == [g];
    assert s[0] == f && x[0] == g;
  }
}
