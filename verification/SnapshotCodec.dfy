/** The snapshot format as the replicator writes and reads it. */
module SnapshotCodec {
  import opened Wire
  import opened Snapshot
  import opened Codec

  method PutVec(w: ByteWriter, v: Vec2)
    modifies w
    ensures w.out == old(w.out) + PrintVec(v)
  {
    w.PutUint(4, v.x);
    w.PutUint(4, v.y);
    Assoc(old(w.out), Uint(4, v.x), Uint(4, v.y));
  }

  method PutShape(w: ByteWriter, h: SentShape)
    modifies w
    ensures w.out == old(w.out) + PrintShape(h)
  {
    PutVec(w, h.size);
    ghost var front := w.out;
    w.PutUint(1, h.color.r);
    w.PutUint(1, h.color.g);
    w.PutUint(1, h.color.b);
    w.PutUint(1, h.color.a);
    Join4(front, Uint(1, h.color.r), Uint(1, h.color.g), Uint(1, h.color.b), Uint(1, h.color.a));
    w.PutUint(1, h.tiled);
    Assoc(front, PrintColor(h.color), Uint(1, h.tiled));
    Assoc(old(w.out), PrintVec(h.size), PrintColor(h.color) + Uint(1, h.tiled));
  }

  method PutRecord(w: ByteWriter, r: EntityRecord)
    modifies w
    ensures w.out == old(w.out) + PrintRecord(r)
  {
    ghost var x0 := w.out;
    w.PutUint(4, r.id);
    w.PutUint(1, r.mask);
    ghost var x1 := w.out;
    PutVec(w, r.transform.position);
    PutVec(w, r.transform.scale);
    Assoc(x1, PrintVec(r.transform.position), PrintVec(r.transform.scale));
    ghost var x2 := w.out;
    if HasRigidBody(r.mask) { PutVec(w, r.rigidBody); }
    ghost var rb := PrintIf(HasRigidBody(r.mask), r.rigidBody, PrintVec);
    assert w.out == x2 + rb;
    if HasCollider(r.mask) { PutVec(w, r.collider); }
    ghost var co := PrintIf(HasCollider(r.mask), r.collider, PrintVec);
    assert w.out == x2 + rb + co;
    if HasShape(r.mask) { PutShape(w, r.shape); }
    ghost var sh := PrintIf(HasShape(r.mask), r.shape, PrintShape);
    assert w.out == x2 + rb + co + sh;
    if HasExtra(r.mask) { w.PutBytes(r.extra); }
    ghost var ex := PrintIf(HasExtra(r.mask), r.extra, Run);
    assert w.out == x2 + rb + co + sh + ex;
    Join4(x2, rb, co, sh, ex);
    ghost var rest := rb + (co + (sh + ex));
    Assoc(x1, PrintTransform(r.transform), rest);
    Assoc(x0 + Uint(4, r.id), Uint(1, r.mask), PrintTransform(r.transform) + rest);
    Assoc(x0, Uint(4, r.id), Uint(1, r.mask) + (PrintTransform(r.transform) + rest));
  }

  method PutRecords(w: ByteWriter, records: seq<EntityRecord>)
    modifies w
    ensures w.out == old(w.out) + PrintList(records, PrintRecord)
  {
    w.PutUint(4, |records|);
    ghost var front := w.out;
    var i := 0;
    while i < |records|
      invariant 0 <= i <= |records|
      invariant w.out == front + PrintAll(records[..i], PrintRecord)
    {
      PutRecord(w, records[i]);
      MoreOf(front, records, i, PrintRecord);
      i := i + 1;
    }
    assert records[..i] == records;
    Assoc(old(w.out), Uint(4, |records|), PrintAll(records, PrintRecord));
  }

  method WriteBinary(records: seq<EntityRecord>) returns (out: Bytes)
    ensures out == PrintBinary(records)
  {
    var w := new ByteWriter();
    w.PutUint(1, FORMAT_VERSION);
    PutRecords(w, records);
    out := w.out;
  }

  /** A read that failed somewhere in between leaves a value nobody looks at. */
  method ReadVec(reader: ByteReader, before: Vec2) returns (v: Vec2)
    requires reader.Valid()
    modifies reader
    ensures reader.Valid()
    ensures var p := ParseVec(old(reader.Rest()));
      if old(reader.ok) && p.Parse? then reader.ok && v == p.value && reader.Rest() == p.rest else !reader.ok
  {
    var x := reader.ReadUint(4, before.x);
    var y := reader.ReadUint(4, before.y);
    v := Vec2(x, y);
  }

  method ReadShape(reader: ByteReader) returns (h: SentShape)
    requires reader.Valid()
    modifies reader
    ensures reader.Valid()
    ensures var p := ParseShape(old(reader.Rest()));
      if old(reader.ok) && p.Parse? then reader.ok && h == p.value && reader.Rest() == p.rest else !reader.ok
  {
    var size := ReadVec(reader, NO_SHAPE.size);
    ghost var middle := reader.Rest();
    var r := reader.ReadUint(1, 0);
    var g := reader.ReadUint(1, 0);
    var b := reader.ReadUint(1, 0);
    var a := reader.ReadUint(1, 255);
    assert ParseVec(old(reader.Rest())).Parse? && old(reader.ok) ==>
      if ParseColor(middle).Parse? then reader.ok && ParseColor(middle) == Parse(Color(r, g, b, a), reader.Rest()) else !reader.ok;
    var tiled := reader.ReadUint(1, 0);
    h := SentShape(size, Color(r, g, b, a), tiled);
  }

  method ReadRecord(reader: ByteReader) returns (r: EntityRecord)
    requires reader.Valid()
    modifies reader
    ensures reader.Valid()
    ensures var p := ParseRecord(old(reader.Rest()));
      if old(reader.ok) && p.Parse? then reader.ok && r == p.value && reader.Rest() == p.rest else !reader.ok
  {
    var id := reader.ReadUint(4, 0);
    var mask := reader.ReadUint(1, 0);
    ghost var ok1, s1 := reader.ok, reader.Rest();
    var position := ReadVec(reader, NO_VEC2);
    var scale := ReadVec(reader, NO_VEC2);
    ghost var ok2, s2 := reader.ok, reader.Rest();
    assert if ok1 && ParseTransform(s1).Parse? then ok2 && ParseTransform(s1) == Parse(Transform(position, scale), s2) else !ok2;
    var rigidBody, collider, shape, extra := NO_VEC2, NO_VEC2, NO_SHAPE, [];
    if HasRigidBody(mask) { rigidBody := ReadVec(reader, rigidBody); }
    ghost var ok3, s3 := reader.ok, reader.Rest();
    assert var p := ParseIf(HasRigidBody(mask), NO_VEC2, ParseVec, s2);
      if ok2 && p.Parse? then ok3 && p == Parse(rigidBody, s3) else !ok3;
    if HasCollider(mask) { collider := ReadVec(reader, collider); }
    ghost var ok4, s4 := reader.ok, reader.Rest();
    assert var p := ParseIf(HasCollider(mask), NO_VEC2, ParseVec, s3);
      if ok3 && p.Parse? then ok4 && p == Parse(collider, s4) else !ok4;
    if HasShape(mask) { shape := ReadShape(reader); }
    ghost var ok5, s5 := reader.ok, reader.Rest();
    assert var p := ParseIf(HasShape(mask), NO_SHAPE, ParseShape, s4);
      if ok4 && p.Parse? then ok5 && p == Parse(shape, s5) else !ok5;
    if HasExtra(mask) { extra := reader.ReadBytes(extra); }
    r := EntityRecord(id, mask, Transform(position, scale), rigidBody, collider, shape, extra);
  }

  method NextRecord(reader: ByteReader, ghost n: nat, ghost i: nat, ghost s: Bytes, before: seq<EntityRecord>)
    returns (after: seq<EntityRecord>)
    requires reader.Valid() && reader.ok && i < n && GetAll(i, ParseRecord, s) == Parse(before, reader.Rest())
    modifies reader
    ensures reader.Valid()
    ensures if reader.ok then GetAll(i + 1, ParseRecord, s) == Parse(after, reader.Rest()) else GetAll(n, ParseRecord, s).NoParse?
  {
    NextOf(ParseRecord, n, i, s, before, reader.Rest());
    var r := ReadRecord(reader);
    after := before + [r];
  }

  method LoopRecords(reader: ByteReader, count: nat) returns (ok: bool, records: seq<EntityRecord>)
    requires reader.Valid() && reader.ok
    modifies reader
    ensures reader.Valid()
    ensures ok == GetAll(count, ParseRecord, old(reader.Rest())).Parse?
    ensures ok ==> GetAll(count, ParseRecord, old(reader.Rest())) == Parse(records, reader.Rest())
  {
    records := [];
    ghost var s := reader.Rest();
    var i := 0;
    while i < count
      invariant reader.Valid() && 0 <= i <= count && reader.ok
      invariant GetAll(i, ParseRecord, s) == Parse(records, reader.Rest())
    {
      records := NextRecord(reader, count, i, s, records);
      if !reader.ok {
        return false, records;
      }
      i := i + 1;
    }
    ok := true;
  }

  method ReadRecords(snapshot: Bytes) returns (ok: bool, records: seq<EntityRecord>)
    ensures ok == ReadBinary(snapshot).Message?
    ensures ok ==> records == ReadBinary(snapshot).value
  {
    var reader := new ByteReader(snapshot);
    records := [];
    var version := reader.ReadUint(1, 0);
    var count := reader.ReadUint(4, 0);
    if !reader.ok || version != FORMAT_VERSION {
      return false, records;
    }
    ok, records := LoopRecords(reader, count);
    ok := ok && reader.AtEnd();
  }
}
