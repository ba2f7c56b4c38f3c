/** The binary snapshot format of the scene replicator. Floats are carried as the four bytes they are. */
module Snapshot {
  import opened Wire
  import opened Protocol

  const FORMAT_VERSION: nat := 1

  /** Two 32-bit floats, as bit patterns. */
  datatype Vec2 = Vec2(x: nat, y: nat)

  datatype Transform = Transform(position: Vec2, scale: Vec2)

  datatype Color = Color(r: nat, g: nat, b: nat, a: nat)

  /** The part of a Shape that is sent. */
  datatype SentShape = SentShape(size: Vec2, color: Color, tiled: nat)

  const NO_VEC2 := Vec2(0, 0)
  const NO_SHAPE := SentShape(Vec2(0, 0), Color(0, 0, 0, 255), 0)

  /** One entity. Fields whose mask bit is clear are not sent, and read back as their defaults. */
  datatype EntityRecord = EntityRecord(
    id: nat, mask: nat, transform: Transform, rigidBody: Vec2, collider: Vec2, shape: SentShape, extra: Bytes)

  predicate HasRigidBody(mask: nat) { mask % 2 == 1 }
  predicate HasCollider(mask: nat) { mask / 2 % 2 == 1 }
  predicate HasShape(mask: nat) { mask / 4 % 2 == 1 }
  predicate HasExtra(mask: nat) { mask / 8 % 2 == 1 }

  predicate VecFits(v: Vec2) { v.x < Limit(4) && v.y < Limit(4) }

  predicate ShapeFits(s: SentShape) {
    && VecFits(s.size) && s.tiled < Limit(1)
    && s.color.r < Limit(1) && s.color.g < Limit(1) && s.color.b < Limit(1) && s.color.a < Limit(1)
  }

  predicate TransformFits(t: Transform) { VecFits(t.position) && VecFits(t.scale) }

  /** In range, and default wherever the mask says nothing is sent. */
  predicate RecordFits(r: EntityRecord) {
    && r.id < Limit(4) && r.mask < Limit(1) && TransformFits(r.transform)
    && (if HasRigidBody(r.mask) then VecFits(r.rigidBody) else r.rigidBody == NO_VEC2)
    && (if HasCollider(r.mask) then VecFits(r.collider) else r.collider == NO_VEC2)
    && (if HasShape(r.mask) then ShapeFits(r.shape) else r.shape == NO_SHAPE)
    && (if HasExtra(r.mask) then |r.extra| < Limit(4) else r.extra == [])
  }

  // ---- layouts ----------------------------------------------------------------------------------

  function PrintVec(v: Vec2): Bytes { Uint(4, v.x) + Uint(4, v.y) }

  function ParseVec(s: Bytes): Parsed<Vec2> {
    var (x, s) :- GetUint(4, s);
    var (y, s) :- GetUint(4, s);
    Parse(Vec2(x, y), s)
  }

  function PrintTransform(t: Transform): Bytes { PrintVec(t.position) + PrintVec(t.scale) }

  function ParseTransform(s: Bytes): Parsed<Transform> {
    var (position, s) :- ParseVec(s);
    var (scale, s) :- ParseVec(s);
    Parse(Transform(position, scale), s)
  }

  function PrintColor(c: Color): Bytes { Uint(1, c.r) + (Uint(1, c.g) + (Uint(1, c.b) + Uint(1, c.a))) }

  function ParseColor(s: Bytes): Parsed<Color> {
    var (r, s) :- GetUint(1, s);
    var (g, s) :- GetUint(1, s);
    var (b, s) :- GetUint(1, s);
    var (a, s) :- GetUint(1, s);
    Parse(Color(r, g, b, a), s)
  }

  function PrintShape(h: SentShape): Bytes { PrintVec(h.size) + (PrintColor(h.color) + Uint(1, h.tiled)) }

  function ParseShape(s: Bytes): Parsed<SentShape> {
    var (size, s) :- ParseVec(s);
    var (color, s) :- ParseColor(s);
    var (tiled, s) :- GetUint(1, s);
    Parse(SentShape(size, color, tiled), s)
  }

  function PrintIf<T>(present: bool, v: T, printer: T -> Bytes): Bytes {
    if present then printer(v) else []
  }

  function ParseIf<T>(present: bool, default: T, parse: Bytes -> Parsed<T>, s: Bytes): Parsed<T> {
    if present then parse(s) else Parse(default, s)
  }

  function PrintRecord(r: EntityRecord): Bytes {
    Uint(4, r.id) + (Uint(1, r.mask) + (PrintTransform(r.transform)
    + (PrintIf(HasRigidBody(r.mask), r.rigidBody, PrintVec)
    + (PrintIf(HasCollider(r.mask), r.collider, PrintVec)
    + (PrintIf(HasShape(r.mask), r.shape, PrintShape)
    + PrintIf(HasExtra(r.mask), r.extra, Run))))))
  }

  function ParseRecord(s: Bytes): Parsed<EntityRecord> {
    var (id, s) :- GetUint(4, s);
    var (mask, s) :- GetUint(1, s);
    var (transform, s) :- ParseTransform(s);
    var (rigidBody, s) :- ParseIf(HasRigidBody(mask), NO_VEC2, ParseVec, s);
    var (collider, s) :- ParseIf(HasCollider(mask), NO_VEC2, ParseVec, s);
    var (shape, s) :- ParseIf(HasShape(mask), NO_SHAPE, ParseShape, s);
    var (extra, s) :- ParseIf(HasExtra(mask), [], GetRun, s);
    Parse(EntityRecord(id, mask, transform, rigidBody, collider, shape, extra), s)
  }

  function PrintBinary(records: seq<EntityRecord>): Bytes {
    Uint(1, FORMAT_VERSION) + PrintList(records, PrintRecord)
  }

  function ParseBinary(s: Bytes): Parsed<seq<EntityRecord>> {
    var (version, s) :- GetUint(1, s);
    if version != FORMAT_VERSION then NoParse else GetList(ParseRecord, s)
  }

  function ReadBinary(s: Bytes): Decoded<seq<EntityRecord>> { Whole(ParseBinary(s)) }

  // ---- one lemma for all three directions of each composite --------------------------------------

  /** A printer and a parser are inverse to each other on the values that fit, in any context. */
  ghost predicate Inverse<T(!new)>(parse: Bytes -> Parsed<T>, printer: T -> Bytes, fits: T -> bool) {
    && Reads(parse, printer, fits)
    && (forall s {:trigger parse(s)} :: parse(s).Parse? ==> s == printer(parse(s).value) + parse(s).rest && fits(parse(s).value))
  }

  /** An inverse pair needs no separate stability argument. */
  lemma InverseIsStable<T(!new)>(parse: Bytes -> Parsed<T>, printer: T -> Bytes, fits: T -> bool)
    requires Inverse(parse, printer, fits)
    ensures Stable(parse) && Prints(parse, printer)
  {
    forall s: Bytes, t: Bytes | parse(s).Parse? ensures parse(s + t) == Parse(parse(s).value, parse(s).rest + t) {
      Assoc(printer(parse(s).value), parse(s).rest, t);
      assert s + t == printer(parse(s).value) + (parse(s).rest + t);
    }
  }

  lemma VecInverse()
    ensures Inverse(ParseVec, PrintVec, VecFits)
  {
    forall v: Vec2, t: Bytes | VecFits(v) ensures ParseVec(PrintVec(v) + t) == Parse(v, t) {
      Assoc(Uint(4, v.x), Uint(4, v.y), t);
      UintParses(4, v.x, Uint(4, v.y) + t);
      UintParses(4, v.y, t);
    }
    forall s: Bytes | ParseVec(s).Parse? ensures s == PrintVec(ParseVec(s).value) + ParseVec(s).rest && VecFits(ParseVec(s).value) {
      var p := ParseVec(s);
      UintPrints(4, s);
      UintPrints(4, GetUint(4, s).rest);
      Assoc(Uint(4, p.value.x), Uint(4, p.value.y), p.rest);
    }
  }

  lemma TransformInverse()
    ensures Inverse(ParseTransform, PrintTransform, TransformFits)
  {
    VecInverse();
    forall v: Transform, t: Bytes | TransformFits(v) ensures ParseTransform(PrintTransform(v) + t) == Parse(v, t) {
      Assoc(PrintVec(v.position), PrintVec(v.scale), t);
    }
    forall s: Bytes | ParseTransform(s).Parse?
      ensures s == PrintTransform(ParseTransform(s).value) + ParseTransform(s).rest && TransformFits(ParseTransform(s).value)
    {
      var p := ParseTransform(s);
      Assoc(PrintVec(p.value.position), PrintVec(p.value.scale), p.rest);
    }
  }

  predicate ColorFits(c: Color) { c.r < Limit(1) && c.g < Limit(1) && c.b < Limit(1) && c.a < Limit(1) }

  lemma ColorInverse()
    ensures Inverse(ParseColor, PrintColor, ColorFits)
  {
    forall c: Color, t: Bytes | ColorFits(c) ensures ParseColor(PrintColor(c) + t) == Parse(c, t) {
      var x3 := Uint(1, c.a);
      var x2 := Uint(1, c.b) + x3;
      var x1 := Uint(1, c.g) + x2;
      Assoc(Uint(1, c.r), x1, t);
      Assoc(Uint(1, c.g), x2, t);
      Assoc(Uint(1, c.b), x3, t);
      UintParses(1, c.r, x1 + t);
      UintParses(1, c.g, x2 + t);
      UintParses(1, c.b, x3 + t);
      UintParses(1, c.a, t);
    }
    forall s: Bytes | ParseColor(s).Parse? ensures s == PrintColor(ParseColor(s).value) + ParseColor(s).rest && ColorFits(ParseColor(s).value) {
      UintPrints(1, s);
      var p1 := GetUint(1, s);
      UintPrints(1, p1.rest);
      var p2 := GetUint(1, p1.rest);
      UintPrints(1, p2.rest);
      var p3 := GetUint(1, p2.rest);
      UintPrints(1, p3.rest);
      var p4 := GetUint(1, p3.rest);
      var x3 := Uint(1, p4.value);
      var x2 := Uint(1, p3.value) + x3;
      var x1 := Uint(1, p2.value) + x2;
      Assoc(Uint(1, p3.value), x3, p4.rest);
      Assoc(Uint(1, p2.value), x2, p4.rest);
      Assoc(Uint(1, p1.value), x1, p4.rest);
    }
  }

  lemma ShapeInverse()
    ensures Inverse(ParseShape, PrintShape, ShapeFits)
  {
    VecInverse();
    ColorInverse();
    forall h: SentShape, t: Bytes | ShapeFits(h) ensures ParseShape(PrintShape(h) + t) == Parse(h, t) {
      Assoc(PrintVec(h.size), PrintColor(h.color) + Uint(1, h.tiled), t);
      Assoc(PrintColor(h.color), Uint(1, h.tiled), t);
      assert ColorFits(h.color);
      assert ParseColor(PrintColor(h.color) + (Uint(1, h.tiled) + t)) == Parse(h.color, Uint(1, h.tiled) + t);
      UintParses(1, h.tiled, t);
    }
    forall s: Bytes | ParseShape(s).Parse? ensures s == PrintShape(ParseShape(s).value) + ParseShape(s).rest && ShapeFits(ParseShape(s).value) {
      var p1 := ParseVec(s);
      var p2 := ParseColor(p1.rest);
      UintPrints(1, p2.rest);
      var p3 := GetUint(1, p2.rest);
      Assoc(PrintColor(p2.value), Uint(1, p3.value), p3.rest);
      Assoc(PrintVec(p1.value), PrintColor(p2.value) + Uint(1, p3.value), p3.rest);
    }
  }

  predicate RunFits(data: Bytes) { |data| < Limit(4) }

  lemma RunInverse()
    ensures Inverse(GetRun, Run, RunFits)
  {
    forall data: Bytes, t: Bytes | RunFits(data) ensures GetRun(Run(data) + t) == Parse(data, t) {
      RunParses(data, t);
    }
    forall s: Bytes | GetRun(s).Parse? ensures s == Run(GetRun(s).value) + GetRun(s).rest && RunFits(GetRun(s).value) {
      RunPrints(s);
    }
  }

  lemma IfReads<T(!new)>(parse: Bytes -> Parsed<T>, printer: T -> Bytes, fits: T -> bool, present: bool, default: T, v: T, t: Bytes)
    requires Inverse(parse, printer, fits) && if present then fits(v) else v == default
    ensures ParseIf(present, default, parse, PrintIf(present, v, printer) + t) == Parse(v, t)
  {
    if !present {
      assert PrintIf(present, v, printer) + t == t;
    }
  }

  lemma IfPrints<T(!new)>(parse: Bytes -> Parsed<T>, printer: T -> Bytes, fits: T -> bool, present: bool, default: T, s: Bytes)
    requires Inverse(parse, printer, fits)
    ensures var p := ParseIf(present, default, parse, s);
      p.Parse? ==> s == PrintIf(present, p.value, printer) + p.rest && if present then fits(p.value) else p.value == default
  {
    if !present {
      assert s == [] + s;
    }
  }

  lemma ComponentsInverse()
    ensures Inverse(ParseVec, PrintVec, VecFits)
    ensures Inverse(ParseTransform, PrintTransform, TransformFits)
    ensures Inverse(ParseShape, PrintShape, ShapeFits)
    ensures Inverse(GetRun, Run, RunFits)
  {
    VecInverse();
    TransformInverse();
    ShapeInverse();
    RunInverse();
  }

  lemma RecordReads(r: EntityRecord, t: Bytes)
    requires RecordFits(r)
    ensures ParseRecord(PrintRecord(r) + t) == Parse(r, t)
  {
    ComponentsInverse();
    var rb, co := PrintIf(HasRigidBody(r.mask), r.rigidBody, PrintVec), PrintIf(HasCollider(r.mask), r.collider, PrintVec);
    var sh, ex := PrintIf(HasShape(r.mask), r.shape, PrintShape), PrintIf(HasExtra(r.mask), r.extra, Run);
    var x5 := sh + ex;
    var x4 := co + x5;
    var x3 := rb + x4;
    var x2 := PrintTransform(r.transform) + x3;
    var x1 := Uint(1, r.mask) + x2;
    Assoc(Uint(4, r.id), x1, t);
    Assoc(Uint(1, r.mask), x2, t);
    Assoc(PrintTransform(r.transform), x3, t);
    Assoc(rb, x4, t);
    Assoc(co, x5, t);
    Assoc(sh, ex, t);
    UintParses(4, r.id, x1 + t);
    UintParses(1, r.mask, x2 + t);
    assert ParseTransform(PrintTransform(r.transform) + (x3 + t)) == Parse(r.transform, x3 + t);
    IfReads(ParseVec, PrintVec, VecFits, HasRigidBody(r.mask), NO_VEC2, r.rigidBody, x4 + t);
    IfReads(ParseVec, PrintVec, VecFits, HasCollider(r.mask), NO_VEC2, r.collider, x5 + t);
    IfReads(ParseShape, PrintShape, ShapeFits, HasShape(r.mask), NO_SHAPE, r.shape, ex + t);
    IfReads(GetRun, Run, RunFits, HasExtra(r.mask), [], r.extra, t);
  }

  lemma RecordPrints(s: Bytes)
    requires ParseRecord(s).Parse?
    ensures s == PrintRecord(ParseRecord(s).value) + ParseRecord(s).rest && RecordFits(ParseRecord(s).value)
  {
    ComponentsInverse();
    UintPrints(4, s);
    var p1 := GetUint(4, s);
    UintPrints(1, p1.rest);
    var p2 := GetUint(1, p1.rest);
    var mask := p2.value;
    var p3 := ParseTransform(p2.rest);
    assert p2.rest == PrintTransform(p3.value) + p3.rest;
    IfPrints(ParseVec, PrintVec, VecFits, HasRigidBody(mask), NO_VEC2, p3.rest);
    var p4 := ParseIf(HasRigidBody(mask), NO_VEC2, ParseVec, p3.rest);
    IfPrints(ParseVec, PrintVec, VecFits, HasCollider(mask), NO_VEC2, p4.rest);
    var p5 := ParseIf(HasCollider(mask), NO_VEC2, ParseVec, p4.rest);
    IfPrints(ParseShape, PrintShape, ShapeFits, HasShape(mask), NO_SHAPE, p5.rest);
    var p6 := ParseIf(HasShape(mask), NO_SHAPE, ParseShape, p5.rest);
    IfPrints(GetRun, Run, RunFits, HasExtra(mask), [], p6.rest);
    var p7 := ParseIf(HasExtra(mask), [], GetRun, p6.rest);
    var rb, co := PrintIf(HasRigidBody(mask), p4.value, PrintVec), PrintIf(HasCollider(mask), p5.value, PrintVec);
    var sh, ex := PrintIf(HasShape(mask), p6.value, PrintShape), PrintIf(HasExtra(mask), p7.value, Run);
    Assoc(sh, ex, p7.rest);
    Assoc(co, sh + ex, p7.rest);
    Assoc(rb, co + (sh + ex), p7.rest);
    Assoc(PrintTransform(p3.value), rb + (co + (sh + ex)), p7.rest);
    Assoc(Uint(1, mask), PrintTransform(p3.value) + (rb + (co + (sh + ex))), p7.rest);
    Assoc(Uint(4, p1.value), Uint(1, mask) + (PrintTransform(p3.value) + (rb + (co + (sh + ex)))), p7.rest);
  }

  lemma RecordInverse()
    ensures Inverse(ParseRecord, PrintRecord, RecordFits)
  {
    forall r: EntityRecord, t: Bytes | RecordFits(r) ensures ParseRecord(PrintRecord(r) + t) == Parse(r, t) {
      RecordReads(r, t);
    }
    forall s: Bytes | ParseRecord(s).Parse? ensures s == PrintRecord(ParseRecord(s).value) + ParseRecord(s).rest && RecordFits(ParseRecord(s).value) {
      RecordPrints(s);
    }
  }

  // ---- snapshots --------------------------------------------------------------------------------

  predicate SnapshotFits(records: seq<EntityRecord>) {
    |records| < Limit(4) && forall r <- records :: RecordFits(r)
  }

  lemma {:induction false} AllFit<T(!new)>(n: nat, parse: Bytes -> Parsed<T>, printer: T -> Bytes, fits: T -> bool, s: Bytes)
    requires Inverse(parse, printer, fits)
    ensures var p := GetAll(n, parse, s); p.Parse? ==> forall v <- p.value :: fits(v)
  {
    if n > 0 && parse(s).Parse? {
      AllFit(n - 1, parse, printer, fits, parse(s).rest);
    }
  }

  lemma SnapshotReads(records: seq<EntityRecord>, t: Bytes)
    requires SnapshotFits(records)
    ensures ParseBinary(PrintBinary(records) + t) == Parse(records, t)
  {
    RecordInverse();
    Assoc(Uint(1, FORMAT_VERSION), PrintList(records, PrintRecord), t);
    UintParses(1, FORMAT_VERSION, PrintList(records, PrintRecord) + t);
    ListReads(ParseRecord, PrintRecord, RecordFits, records, t);
  }

  lemma SnapshotStable()
    ensures Stable(ParseBinary)
  {
    RecordInverse();
    InverseIsStable(ParseRecord, PrintRecord, RecordFits);
    forall s: Bytes, t: Bytes | ParseBinary(s).Parse?
      ensures ParseBinary(s + t) == Parse(ParseBinary(s).value, ParseBinary(s).rest + t)
    {
      UintStable(1, s, t);
      ListStable(ParseRecord, GetUint(1, s).rest, t);
    }
  }

  /** Written snapshots read back, and no proper prefix or extension of one is accepted. */
  lemma BinaryRoundTrip(records: seq<EntityRecord>, n: nat, more: Bytes)
    requires SnapshotFits(records)
    ensures ReadBinary(PrintBinary(records)) == Message(records)
    ensures n < |PrintBinary(records)| ==> ReadBinary(PrintBinary(records)[..n]).Malformed?
    ensures more != [] ==> ReadBinary(PrintBinary(records) + more).Malformed?
  {
    SnapshotReads(records, []);
    SnapshotStable();
    OnlyWhole(ParseBinary, PrintBinary(records), records, n, more);
  }

  /** Conversely, every byte string that is accepted is exactly what its records are written as: the
      format is a bijection between fitting record lists and accepted strings. */
  lemma BinaryReproduced(s: Bytes)
    requires ReadBinary(s).Message?
    ensures SnapshotFits(ReadBinary(s).value)
    ensures PrintBinary(ReadBinary(s).value) == s
  {
    RecordInverse();
    InverseIsStable(ParseRecord, PrintRecord, RecordFits);
    UintPrints(1, s);
    var rest := GetUint(1, s).rest;
    ListPrints(ParseRecord, PrintRecord, rest);
    AllFit(GetUint(4, rest).value, ParseRecord, PrintRecord, RecordFits, GetUint(4, rest).rest);
    var records := ReadBinary(s).value;
    assert PrintList(records, PrintRecord) + [] == PrintList(records, PrintRecord);
  }
}
