/** Where every field of every format stands, in bytes: what a round trip cannot see, the order and the width of the
    fields, the byte order and the constants. */
module Layouts {
  import opened Rational
  import opened Wire
  import opened Protocol
  import opened Snapshot

  /** Little-endian: byte i of an integer has weight 256 to the i. */
  lemma {:induction false} UintByte(width: nat, value: nat, i: nat)
    requires i < width
    ensures Uint(width, value)[i] == value / Limit(i) % 256
    decreases i
  {
    if i > 0 {
      UintByte(width - 1, value / 256, i - 1);
      DivideTwice(value, Limit(i - 1));
    }
  }

  lemma DivideTwice(n: nat, b: nat)
    requires b > 0
    ensures n / 256 / b == n / (256 * b)
  {
    var q := n / 256;
    var k := q / b;
    assert q == k * b + q % b;
    QuotientUnique(n, 256 * b, k, 256 * (q % b) + n % 256);
  }

  // ---- one field after the other ------------------------------------------------------------------------

  /** A field of this many bytes stands here, and the rest follows it. */
  lemma Here(s: Bytes, at: nat, field: Bytes, rest: Bytes)
    requires at <= |s| && s[at..] == field + rest
    ensures at + |field| + |rest| == |s| && s[at..at + |field|] == field && s[at + |field|..] == rest
  {
    assert s[at..][..|field|] == field && s[at..][|field|..] == rest;
    assert s[at + |field|..] == s[at..][|field|..] && s[at..at + |field|] == s[at..][..|field|];
  }

  /** Length first. */
  ghost predicate RunAt(s: Bytes, at: nat, data: Bytes) {
    at + 4 + |data| <= |s| && s[at..at + 4] == Uint(4, |data|) && s[at + 4..at + 4 + |data|] == data
  }

  lemma RunHere(s: Bytes, at: nat, data: Bytes, rest: Bytes)
    requires at <= |s| && s[at..] == Run(data) + rest
    ensures RunAt(s, at, data) && at + 4 + |data| + |rest| == |s| && s[at + 4 + |data|..] == rest
  {
    assert s[at..] == Uint(4, |data|) + (data + rest);
    Here(s, at, Uint(4, |data|), data + rest);
    Here(s, at + 4, data, rest);
  }

  lemma Nothing(s: Bytes)
    ensures s + [] == s
  {
  }

  // ---- the session's messages -----------------------------------------------------------------------------

  lemma MessageLayout(m: WireMessage)
    ensures var s := PrintMessage(m);
      && |s| == 18 + |m.payload| && s[0..4] == Uint(4, m.number) && s[4..6] == Uint(2, m.kind)
      && s[6..14] == Int(8, m.tick) && RunAt(s, 14, m.payload)
  {
    var s := PrintMessage(m);
    Here(s, 0, Uint(4, m.number), Uint(2, m.kind) + (Int(8, m.tick) + Run(m.payload)));
    Here(s, 4, Uint(2, m.kind), Int(8, m.tick) + Run(m.payload));
    Here(s, 6, Int(8, m.tick), Run(m.payload));
    Nothing(Run(m.payload));
    RunHere(s, 14, m.payload, []);
  }

  lemma EventLayout(e: RosterEvent)
    ensures var s := PrintEvent(e);
      && |s| == 16 + |e.client.hello| + |e.client.peerEndpoint| && s[0..4] == Uint(4, e.change) && s[4..8] == Uint(4, e.client.id)
      && RunAt(s, 8, e.client.hello) && RunAt(s, 12 + |e.client.hello|, e.client.peerEndpoint)
  {
    var s := PrintEvent(e);
    var runs := Run(e.client.hello) + Run(e.client.peerEndpoint);
    Here(s, 0, Uint(4, e.change), Uint(4, e.client.id) + runs);
    Here(s, 4, Uint(4, e.client.id), runs);
    RunHere(s, 8, e.client.hello, Run(e.client.peerEndpoint));
    Nothing(Run(e.client.peerEndpoint));
    RunHere(s, 12 + |e.client.hello|, e.client.peerEndpoint, []);
  }

  lemma JoinRequestLayout(r: JoinRequest)
    ensures var s := PrintJoinRequest(r);
      && |s| == 17 + |r.hello| + |r.peerEndpoint| && s[0] == 1 && s[1..9] == Uint(8, r.token)
      && RunAt(s, 9, r.hello) && RunAt(s, 13 + |r.hello|, r.peerEndpoint)
  {
    var s := PrintJoinRequest(r);
    var runs := Run(r.hello) + Run(r.peerEndpoint);
    Here(s, 0, Uint(1, JOIN), Uint(8, r.token) + runs);
    Here(s, 1, Uint(8, r.token), runs);
    RunHere(s, 9, r.hello, Run(r.peerEndpoint));
    Nothing(Run(r.peerEndpoint));
    RunHere(s, 13 + |r.hello|, r.peerEndpoint, []);
  }

  lemma JoinReplyLayout(r: JoinReply)
    ensures var s := PrintJoinReply(r);
      |s| == 9 && s[0..1] == Uint(1, r.status) && s[1..5] == Uint(4, r.id) && s[5..9] == Int(4, r.updatePort)
    ensures OK == 0 && REJECTED == 1 && UNKNOWN_CLIENT == 2 && UPDATE == 2 && LEAVE == 3 && JOINED == 0 && LEFT == 1
  {
  }

  /** A list is its length and its elements, one after the other. */
  lemma ListLayout<T>(vs: seq<T>, printer: T -> Bytes)
    ensures PrintList(vs, printer)[0..4] == Uint(4, |vs|)
    ensures vs != [] ==> PrintList(vs, printer)[4..] == printer(vs[0]) + PrintList(vs[1..], printer)[4..]
  {
  }

  lemma RequestFrontLayout(r: UpdateRequest, rest: Bytes)
    ensures var s := RequestFront(r, rest);
      && |s| == 21 + |rest| && s[0..1] == Uint(1, r.kind) && s[1..5] == Uint(4, r.id) && s[5..13] == Int(8, r.tick)
      && s[13..17] == Uint(4, r.ackSeq) && s[17..21] == Uint(4, r.rosterVersion) && s[21..] == rest
  {
    var s := RequestFront(r, rest);
    var rest4 := Uint(4, r.rosterVersion) + rest;
    var rest3 := Uint(4, r.ackSeq) + rest4;
    var rest2 := Int(8, r.tick) + rest3;
    Here(s, 0, Uint(1, r.kind), Uint(4, r.id) + rest2);
    Here(s, 1, Uint(4, r.id), rest2);
    Here(s, 5, Int(8, r.tick), rest3);
    Here(s, 13, Uint(4, r.ackSeq), rest4);
    Here(s, 17, Uint(4, r.rosterVersion), rest);
  }

  lemma OptionalStateLayout(present: bool, state: Bytes, s: Bytes, at: nat, rest: Bytes)
    requires at <= |s| && s[at..] == PrintOptional(present, Run(state)) + rest
    ensures |s| > at && s[at..at + 1] == [if present then 1 else 0] && (present ==> RunAt(s, at + 1, state))
    ensures var end := if present then at + 5 + |state| else at + 1; end <= |s| && s[end..] == rest
  {
    assert Uint(1, Flag(present)) == [Flag(present)];
    if present {
      assert s[at..] == Uint(1, 1) + (Run(state) + rest);
      Here(s, at, Uint(1, 1), Run(state) + rest);
      RunHere(s, at + 1, state, rest);
    } else {
      assert s[at..] == Uint(1, 0) + rest;
      Here(s, at, Uint(1, 0), rest);
    }
  }

  lemma UpdateRequestLayout(r: UpdateRequest)
    ensures var s := PrintUpdateRequest(r);
      var at := if r.hasState then 26 + |r.state| else 22;
      && |s| >= at && s[0..1] == Uint(1, r.kind) && s[1..5] == Uint(4, r.id) && s[5..13] == Int(8, r.tick)
      && s[13..17] == Uint(4, r.ackSeq) && s[17..21] == Uint(4, r.rosterVersion)
      && s[21..22] == [if r.hasState then 1 else 0] && (r.hasState ==> RunAt(s, 22, r.state))
      && s[at..] == PrintList(r.messages, PrintMessage)
  {
    var s := PrintUpdateRequest(r);
    var messages := PrintList(r.messages, PrintMessage);
    RequestFrontLayout(r, PrintOptional(r.hasState, Run(r.state)) + messages);
    OptionalStateLayout(r.hasState, r.state, s, 21, messages);
  }

  lemma ReplyFrontLayout(r: UpdateReply, s: Bytes, rest: Bytes)
    requires s == Uint(1, r.status) + (Uint(4, r.ackSeq) + (Uint(4, r.rosterVersion) + rest))
    ensures |s| == 9 + |rest| && s[0..1] == Uint(1, r.status) && s[1..5] == Uint(4, r.ackSeq)
      && s[5..9] == Uint(4, r.rosterVersion) && s[9..] == rest
  {
    Here(s, 0, Uint(1, r.status), Uint(4, r.ackSeq) + (Uint(4, r.rosterVersion) + rest));
    Here(s, 1, Uint(4, r.ackSeq), Uint(4, r.rosterVersion) + rest);
    Here(s, 5, Uint(4, r.rosterVersion), rest);
  }

  lemma ReplyPartsLayout(r: UpdateReply, s: Bytes, events: Bytes, messages: Bytes, optional: Bytes)
    requires s == Uint(1, r.status) + (Uint(4, r.ackSeq) + (Uint(4, r.rosterVersion) + (events + (messages + optional))))
    ensures var at := 9 + |events| + |messages|;
      && |s| == at + |optional| && s[0..1] == Uint(1, r.status) && s[1..5] == Uint(4, r.ackSeq) && s[5..9] == Uint(4, r.rosterVersion)
      && s[9..9 + |events|] == events && s[9 + |events|..at] == messages && s[at..] == optional
  {
    ReplyFrontLayout(r, s, events + (messages + optional));
    Here(s, 9, events, messages + optional);
    Here(s, 9 + |events|, messages, optional);
  }

  lemma OptionalSnapshotLayout(r: UpdateReply, s: Bytes, at: nat)
    requires at <= |s| && s[at..] == PrintOptional(r.hasSnapshot, Int(8, r.snapshotTick) + Run(r.snapshot))
    ensures |s| > at && s[at..at + 1] == [if r.hasSnapshot then 1 else 0] && (!r.hasSnapshot ==> |s| == at + 1)
    ensures r.hasSnapshot ==>
      |s| == at + 13 + |r.snapshot| && s[at + 1..at + 9] == Int(8, r.snapshotTick) && RunAt(s, at + 9, r.snapshot)
  {
    assert Uint(1, Flag(r.hasSnapshot)) == [Flag(r.hasSnapshot)];
    Here(s, at, Uint(1, Flag(r.hasSnapshot)), if r.hasSnapshot then Int(8, r.snapshotTick) + Run(r.snapshot) else []);
    if r.hasSnapshot {
      Here(s, at + 1, Int(8, r.snapshotTick), Run(r.snapshot));
      Nothing(Run(r.snapshot));
      RunHere(s, at + 9, r.snapshot, []);
    }
  }

  lemma UpdateReplyLayout(r: UpdateReply)
    ensures var s := PrintUpdateReply(r);
      var events, messages := PrintList(r.rosterEvents, PrintEvent), PrintList(r.messages, PrintMessage);
      var at := 9 + |events| + |messages|;
      && |s| > at && s[0..1] == Uint(1, r.status) && s[1..5] == Uint(4, r.ackSeq) && s[5..9] == Uint(4, r.rosterVersion)
      && s[9..9 + |events|] == events && s[9 + |events|..at] == messages && s[at..at + 1] == [if r.hasSnapshot then 1 else 0]
      && (!r.hasSnapshot ==> |s| == at + 1)
      && (r.hasSnapshot ==> |s| == at + 13 + |r.snapshot| && s[at + 1..at + 9] == Int(8, r.snapshotTick) && RunAt(s, at + 9, r.snapshot))
  {
    var s := PrintUpdateReply(r);
    var events, messages := PrintList(r.rosterEvents, PrintEvent), PrintList(r.messages, PrintMessage);
    var optional := PrintOptional(r.hasSnapshot, Int(8, r.snapshotTick) + Run(r.snapshot));
    ReplyPartsLayout(r, s, events, messages, optional);
    OptionalSnapshotLayout(r, s, 9 + |events| + |messages|);
  }

  lemma SnapshotLayout(tick: int, payload: Bytes)
    ensures var s := PrintSnapshot(tick, payload); |s| == 12 + |payload| && s[0..8] == Int(8, tick) && RunAt(s, 8, payload)
  {
    var s := PrintSnapshot(tick, payload);
    Here(s, 0, Int(8, tick), Run(payload));
    Nothing(Run(payload));
    RunHere(s, 8, payload, []);
  }

  // ---- the binary snapshot ------------------------------------------------------------------------------

  ghost predicate VecAt(s: Bytes, at: nat, v: Vec2) {
    at + 8 <= |s| && s[at..at + 4] == Uint(4, v.x) && s[at + 4..at + 8] == Uint(4, v.y)
  }

  lemma VecHere(s: Bytes, at: nat, v: Vec2, rest: Bytes)
    requires at <= |s| && s[at..] == PrintVec(v) + rest
    ensures VecAt(s, at, v) && s[at + 8..] == rest && at + 8 + |rest| == |s|
  {
    assert s[at..] == Uint(4, v.x) + (Uint(4, v.y) + rest);
    Here(s, at, Uint(4, v.x), Uint(4, v.y) + rest);
    Here(s, at + 4, Uint(4, v.y), rest);
  }

  ghost predicate ShapeAt(s: Bytes, at: nat, h: SentShape) {
    && VecAt(s, at, h.size) && at + 13 <= |s|
    && s[at + 8..at + 9] == Uint(1, h.color.r) && s[at + 9..at + 10] == Uint(1, h.color.g)
    && s[at + 10..at + 11] == Uint(1, h.color.b) && s[at + 11..at + 12] == Uint(1, h.color.a)
    && s[at + 12..at + 13] == Uint(1, h.tiled)
  }

  lemma ColorHere(s: Bytes, at: nat, c: Color, rest: Bytes)
    requires at <= |s| && s[at..] == PrintColor(c) + rest
    ensures at + 4 + |rest| == |s| && s[at..at + 1] == Uint(1, c.r) && s[at + 1..at + 2] == Uint(1, c.g)
      && s[at + 2..at + 3] == Uint(1, c.b) && s[at + 3..at + 4] == Uint(1, c.a) && s[at + 4..] == rest
  {
    assert s[at..] == Uint(1, c.r) + (Uint(1, c.g) + (Uint(1, c.b) + (Uint(1, c.a) + rest)));
    Here(s, at, Uint(1, c.r), Uint(1, c.g) + (Uint(1, c.b) + (Uint(1, c.a) + rest)));
    Here(s, at + 1, Uint(1, c.g), Uint(1, c.b) + (Uint(1, c.a) + rest));
    Here(s, at + 2, Uint(1, c.b), Uint(1, c.a) + rest);
    Here(s, at + 3, Uint(1, c.a), rest);
  }

  lemma ShapeHere(s: Bytes, at: nat, h: SentShape, rest: Bytes)
    requires at <= |s| && s[at..] == PrintShape(h) + rest
    ensures ShapeAt(s, at, h) && s[at + 13..] == rest && at + 13 + |rest| == |s|
  {
    assert s[at..] == PrintVec(h.size) + (PrintColor(h.color) + (Uint(1, h.tiled) + rest));
    VecHere(s, at, h.size, PrintColor(h.color) + (Uint(1, h.tiled) + rest));
    ColorHere(s, at + 8, h.color, Uint(1, h.tiled) + rest);
    Here(s, at + 12, Uint(1, h.tiled), rest);
  }

  /** A field that may be left out. */
  lemma Absent<T>(present: bool, v: T, printer: T -> Bytes, rest: Bytes)
    ensures PrintIf(present, v, printer) + rest == if present then printer(v) + rest else rest
  {
  }

  lemma OptionalLayout(r: EntityRecord, s: Bytes)
    requires 21 <= |s| && s[21..] == PrintIf(HasRigidBody(r.mask), r.rigidBody, PrintVec)
      + (PrintIf(HasCollider(r.mask), r.collider, PrintVec)
      + (PrintIf(HasShape(r.mask), r.shape, PrintShape) + PrintIf(HasExtra(r.mask), r.extra, Run)))
    ensures var b := 21 + (if r.mask % 2 == 1 then 8 else 0);
      var c := b + (if r.mask / 2 % 2 == 1 then 8 else 0);
      var d := c + (if r.mask / 4 % 2 == 1 then 13 else 0);
      && |s| >= d
      && (r.mask % 2 == 1 ==> VecAt(s, 21, r.rigidBody)) && (r.mask / 2 % 2 == 1 ==> VecAt(s, b, r.collider))
      && (r.mask / 4 % 2 == 1 ==> ShapeAt(s, c, r.shape))
      && (if r.mask / 8 % 2 == 1 then RunAt(s, d, r.extra) && |s| == d + 4 + |r.extra| else |s| == d)
  {
    var extra := PrintIf(HasExtra(r.mask), r.extra, Run);
    var shape := PrintIf(HasShape(r.mask), r.shape, PrintShape) + extra;
    var collider := PrintIf(HasCollider(r.mask), r.collider, PrintVec) + shape;
    Absent(HasRigidBody(r.mask), r.rigidBody, PrintVec, collider);
    Absent(HasCollider(r.mask), r.collider, PrintVec, shape);
    Absent(HasShape(r.mask), r.shape, PrintShape, extra);
    if HasRigidBody(r.mask) {
      VecHere(s, 21, r.rigidBody, collider);
    }
    var b := 21 + if HasRigidBody(r.mask) then 8 else 0;
    if HasCollider(r.mask) {
      VecHere(s, b, r.collider, shape);
    }
    var c := b + if HasCollider(r.mask) then 8 else 0;
    if HasShape(r.mask) {
      ShapeHere(s, c, r.shape, extra);
    }
    var d := c + if HasShape(r.mask) then 13 else 0;
    if HasExtra(r.mask) {
      Nothing(Run(r.extra));
      RunHere(s, d, r.extra, []);
    }
  }

  lemma RecordFrontLayout(r: EntityRecord, s: Bytes, rest: Bytes)
    requires s == Uint(4, r.id) + (Uint(1, r.mask) + (PrintTransform(r.transform) + rest))
    ensures |s| == 21 + |rest| && s[0..4] == Uint(4, r.id) && s[4..5] == Uint(1, r.mask) && s[21..] == rest
      && VecAt(s, 5, r.transform.position) && VecAt(s, 13, r.transform.scale)
  {
    Here(s, 0, Uint(4, r.id), Uint(1, r.mask) + (PrintTransform(r.transform) + rest));
    Here(s, 4, Uint(1, r.mask), PrintTransform(r.transform) + rest);
    assert PrintTransform(r.transform) + rest == PrintVec(r.transform.position) + (PrintVec(r.transform.scale) + rest);
    VecHere(s, 5, r.transform.position, PrintVec(r.transform.scale) + rest);
    VecHere(s, 13, r.transform.scale, rest);
  }

  /** What of a record comes before its optional parts, and where those stand that its mask names. */
  lemma RecordLayout(r: EntityRecord)
    ensures var s := PrintRecord(r);
      var b := 21 + (if r.mask % 2 == 1 then 8 else 0);
      var c := b + (if r.mask / 2 % 2 == 1 then 8 else 0);
      var d := c + (if r.mask / 4 % 2 == 1 then 13 else 0);
      && |s| >= d && s[0..4] == Uint(4, r.id) && s[4..5] == Uint(1, r.mask)
      && VecAt(s, 5, r.transform.position) && VecAt(s, 13, r.transform.scale)
      && (r.mask % 2 == 1 ==> VecAt(s, 21, r.rigidBody)) && (r.mask / 2 % 2 == 1 ==> VecAt(s, b, r.collider))
      && (r.mask / 4 % 2 == 1 ==> ShapeAt(s, c, r.shape))
      && (if r.mask / 8 % 2 == 1 then RunAt(s, d, r.extra) && |s| == d + 4 + |r.extra| else |s| == d)
  {
    var s := PrintRecord(r);
    var rest := PrintIf(HasRigidBody(r.mask), r.rigidBody, PrintVec)
      + (PrintIf(HasCollider(r.mask), r.collider, PrintVec)
      + (PrintIf(HasShape(r.mask), r.shape, PrintShape) + PrintIf(HasExtra(r.mask), r.extra, Run)));
    RecordFrontLayout(r, s, rest);
    OptionalLayout(r, s);
  }

  lemma BinaryLayout(records: seq<EntityRecord>)
    ensures PrintBinary(records)[0..1] == [1] && PrintBinary(records)[1..] == PrintList(records, PrintRecord)
  {
  }
}
