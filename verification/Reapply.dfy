/** Applying the snapshot that a source sent last once more is the identity, on the replicator and on the scene,
    for whatever snapshot, repeated ids included. */
module Reapplication {
  import opened Options
  import opened Wire
  import opened Snapshot
  import opened Scenes
  import opened Replication

  // ---- what a pass over live entities leaves alone ----------------------------------------------------

  ghost predicate AllLive(r: ReplicatorState, s: SceneState, ids: set<nat>) {
    forall id <- ids :: id in r.entities && r.entities[id] in s.transforms
  }

  /** No entity is made and nothing is remapped. */
  ghost predicate Settled(r: ReplicatorState, s: SceneState, r': ReplicatorState, s': SceneState) {
    && r' == r.(extras := r'.extras) && s'.nextId == s.nextId && s'.transforms.Keys == s.transforms.Keys
  }

  lemma RecordSettled(r: ReplicatorState, s: SceneState, rec: EntityRecord)
    requires ReplicatorOk(r, s) && (OwnerOf(rec.id) != r.self ==> rec.id in r.entities && r.entities[rec.id] in s.transforms)
    ensures var (r', s') := Record(r, s, rec); Settled(r, s, r', s')
  {
    if OwnerOf(rec.id) != r.self {
      WriteWrites(s, r.entities[rec.id], rec);
    }
  }

  lemma {:induction false} RecordsSettled(r: ReplicatorState, s: SceneState, records: seq<EntityRecord>)
    requires ReplicatorOk(r, s) && AllLive(r, s, Seen(r.self, records))
    ensures var (r', s') := Records(r, s, records); Settled(r, s, r', s')
    decreases |records|
  {
    if records != [] {
      var before := records[..|records| - 1];
      SeenGrows(r.self, records);
      RecordsSettled(r, s, before);
      RecordsShow(r, s, before);
      RecordSettled(Records(r, s, before).0, Records(r, s, before).1, records[|records| - 1]);
    }
  }

  // ---- stores -----------------------------------------------------------------------------------------

  /** The component types that a snapshot brings for other processes' entities. */
  function Brought(self: nat, records: seq<EntityRecord>): set<Kind> {
    if records == [] then {} else
    var rec := records[|records| - 1];
    Brought(self, records[..|records| - 1]) + if OwnerOf(rec.id) == self then {} else Sends(rec)
  }

  function Sends(rec: EntityRecord): set<Kind> {
    (if HasRigidBody(rec.mask) then {RigidBodies} else {}) + (if HasCollider(rec.mask) then {Colliders} else {})
    + (if HasShape(rec.mask) then {Shapes} else {})
  }

  lemma WriteStores(s: SceneState, e: nat, rec: EntityRecord)
    ensures Write(s, e, rec).stores.Keys == s.stores.Keys + Sends(rec)
  {
  }

  lemma RecordStores(r: ReplicatorState, s: SceneState, rec: EntityRecord)
    ensures Record(r, s, rec).1.stores.Keys == s.stores.Keys + if OwnerOf(rec.id) == r.self then {} else Sends(rec)
  {
    if OwnerOf(rec.id) != r.self {
      var (r1, s1) := Settle(r, s, rec.id);
      assert s1.stores == s.stores;
      WriteStores(s1, r1.entities[rec.id], rec);
    }
  }

  /** Stores are made when first needed, and never go. */
  lemma {:induction false} RecordsStores(r: ReplicatorState, s: SceneState, records: seq<EntityRecord>)
    requires ReplicatorOk(r, s)
    ensures Records(r, s, records).1.stores.Keys == s.stores.Keys + Brought(r.self, records)
    decreases |records|
  {
    if records != [] {
      var before := records[..|records| - 1];
      RecordsStores(r, s, before);
      RecordsShow(r, s, before);
      RecordStores(Records(r, s, before).0, Records(r, s, before).1, records[|records| - 1]);
    }
  }

  // ---- extras and the game's own components -------------------------------------------------------------

  lemma {:induction false} RecordsExtras(r: ReplicatorState, s: SceneState, records: seq<EntityRecord>, id: nat)
    requires ReplicatorOk(r, s) && id !in Seen(r.self, records)
    ensures ExtraOf(Records(r, s, records).0, id) == ExtraOf(r, id)
    decreases |records|
  {
    if records != [] {
      SeenGrows(r.self, records);
      RecordsShow(r, s, records[..|records| - 1]);
      RecordsExtras(r, s, records[..|records| - 1], id);
    }
  }

  lemma RecordCustom(r: ReplicatorState, s: SceneState, rec: EntityRecord, e: nat, n: nat)
    requires ReplicatorOk(r, s) && e < s.nextId
    ensures Get(Record(r, s, rec).1, Custom(n), e) == Get(s, Custom(n), e)
  {
    if OwnerOf(rec.id) != r.self {
      SettleKeeps(r, s, rec.id);
      var (r1, s1) := Settle(r, s, rec.id);
      WriteWrites(s1, r1.entities[rec.id], rec);
      assert SameEntity(s, s1, e);
    }
  }

  lemma {:induction false} RecordsCustom(r: ReplicatorState, s: SceneState, records: seq<EntityRecord>, e: nat, n: nat)
    requires ReplicatorOk(r, s) && e < s.nextId
    ensures Get(Records(r, s, records).1, Custom(n), e) == Get(s, Custom(n), e)
    decreases |records|
  {
    if records != [] {
      var before := records[..|records| - 1];
      RecordsShow(r, s, before);
      RecordsSpare(r, s, before);
      RecordsCustom(r, s, before, e, n);
      RecordCustom(Records(r, s, before).0, Records(r, s, before).1, records[|records| - 1], e, n);
    }
  }

  // ---- textures ---------------------------------------------------------------------------------------

  /** The texture of id's shape: absent if it has no live entity or that has no shape. */
  function TextureOf(r: ReplicatorState, s: SceneState, id: nat): Option<Option<nat>> {
    if id !in r.entities || r.entities[id] !in s.transforms then None else
    match ShapeOf(s, r.entities[id]) case Some(h) => Some(h.texture) case None => None
  }

  function Carried(t: Option<Option<nat>>): Option<Option<nat>> { Some(if t.Some? then t.value else None) }

  function After(records: seq<EntityRecord>, id: nat, t: Option<Option<nat>>): Option<Option<nat>> {
    if records == [] then t else
    var rec, before := records[|records| - 1], After(records[..|records| - 1], id, t);
    if rec.id != id then before else if HasShape(rec.mask) then Carried(before) else None
  }

  lemma SettleTexture(r: ReplicatorState, s: SceneState, id: nat)
    requires ReplicatorOk(r, s) && OwnerOf(id) != r.self
    ensures var (r1, s1) := Settle(r, s, id); TextureOf(r1, s1, id) == TextureOf(r, s, id)
  {
    CreateFresh(s);
  }

  /** Writing a record into its entity carries the texture its shape had. */
  lemma WrittenTexture(r: ReplicatorState, s: SceneState, s': SceneState, rec: EntityRecord)
    requires rec.id in r.entities && r.entities[rec.id] in s.transforms && Written(s, s', r.entities[rec.id], rec)
    ensures TextureOf(r, s', rec.id) == if HasShape(rec.mask) then Carried(TextureOf(r, s, rec.id)) else None
  {
  }

  lemma OwnTexture(r: ReplicatorState, s: SceneState, rec: EntityRecord)
    requires ReplicatorOk(r, s) && OwnerOf(rec.id) != r.self
    ensures var (r', s') := Record(r, s, rec);
      TextureOf(r', s', rec.id) == if HasShape(rec.mask) then Carried(TextureOf(r, s, rec.id)) else None
  {
    SettleKeeps(r, s, rec.id);
    SettleTexture(r, s, rec.id);
    var (r1, s1) := Settle(r, s, rec.id);
    WriteWrites(s1, r1.entities[rec.id], rec);
    WrittenTexture(r1, s1, Record(r, s, rec).1, rec);
  }

  lemma SameTexture(r: ReplicatorState, s: SceneState, r': ReplicatorState, s': SceneState, id: nat)
    requires id in r.entities && id in r'.entities && r'.entities[id] == r.entities[id] && SameEntity(s, s', r.entities[id])
    ensures TextureOf(r', s', id) == TextureOf(r, s, id)
  {
  }

  lemma OtherTexture(r: ReplicatorState, s: SceneState, rec: EntityRecord, id: nat)
    requires ReplicatorOk(r, s) && OwnerOf(rec.id) != r.self && id != rec.id
    ensures var (r', s') := Record(r, s, rec); TextureOf(r', s', id) == TextureOf(r, s, id)
  {
    var (r', s') := Record(r, s, rec);
    RecordKeepsOk(r, s, rec);
    if id in r.entities {
      RecordSpares(r, s, rec);
      assert r.entities[id] !in Mapped(r, {rec.id});
      SameTexture(r, s, r', s', id);
    }
  }

  lemma RecordTexture(r: ReplicatorState, s: SceneState, rec: EntityRecord, id: nat)
    requires ReplicatorOk(r, s) && OwnerOf(id) != r.self
    ensures var (r', s') := Record(r, s, rec);
      TextureOf(r', s', id) == if rec.id != id then TextureOf(r, s, id)
                               else if HasShape(rec.mask) then Carried(TextureOf(r, s, id)) else None
  {
    if rec.id == id {
      OwnTexture(r, s, rec);
    } else if OwnerOf(rec.id) != r.self {
      OtherTexture(r, s, rec, id);
    }
  }

  lemma {:induction false} RecordsTexture(r: ReplicatorState, s: SceneState, records: seq<EntityRecord>, id: nat)
    requires ReplicatorOk(r, s) && OwnerOf(id) != r.self
    ensures var (r', s') := Records(r, s, records); TextureOf(r', s', id) == After(records, id, TextureOf(r, s, id))
    decreases |records|
  {
    if records != [] {
      var before := records[..|records| - 1];
      RecordsTexture(r, s, before, id);
      RecordsShow(r, s, before);
      RecordTexture(Records(r, s, before).0, Records(r, s, before).1, records[|records| - 1], id);
    }
  }

  /** A pass leaves a texture alone, carries it, or fixes it whatever it was. */
  datatype Mode = Untouched | Kept | Fixed

  function ModeOf(records: seq<EntityRecord>, id: nat): Mode {
    if records == [] then Untouched else
    var rec, before := records[|records| - 1], ModeOf(records[..|records| - 1], id);
    if rec.id != id then before else if !HasShape(rec.mask) then Fixed else if before == Fixed then Fixed else Kept
  }

  lemma {:induction false} AfterByMode(records: seq<EntityRecord>, id: nat, t: Option<Option<nat>>)
    ensures After(records, id, t) == match ModeOf(records, id)
      case Untouched => t case Kept => Carried(t) case Fixed => After(records, id, None)
    decreases |records|
  {
    if records != [] {
      AfterByMode(records[..|records| - 1], id, t);
      AfterByMode(records[..|records| - 1], id, None);
    }
  }

  lemma AfterTwice(records: seq<EntityRecord>, id: nat, t: Option<Option<nat>>)
    ensures After(records, id, After(records, id, t)) == After(records, id, t)
  {
    AfterByMode(records, id, t);
    AfterByMode(records, id, After(records, id, t));
  }

  // ---- the second pass --------------------------------------------------------------------------------

  /** After an apply: every id of the snapshot is live, its stores are there, and its texture is what the
      snapshot makes of some texture. */
  lemma Applied(r: ReplicatorState, s: SceneState, records: seq<EntityRecord>, from: nat, r1: ReplicatorState, s1: SceneState)
    requires ReplicatorOk(r, s) && (r1, s1) == Apply(r, s, records, from)
    ensures ReplicatorOk(r1, s1) && r1.self == r.self && Previous(r1, from) == Seen(r.self, records)
    ensures AllLive(r1, s1, Seen(r.self, records)) && Brought(r.self, records) <= s1.stores.Keys
  {
    ShowsIt(r, s, records, from);
    SnapshotKeys(r.self, records);
    RecordsStores(r, s, records);
    assert s1.stores.Keys == Records(r, s, records).1.stores.Keys;
    forall id | id in Seen(r.self, records) ensures id in r1.entities && r1.entities[id] in s1.transforms {
      assert id in SnapshotView(r.self, records) && id in View(r1, s1);
    }
  }

  lemma AppliedTexture(r: ReplicatorState, s: SceneState, records: seq<EntityRecord>, from: nat, id: nat)
    requires ReplicatorOk(r, s) && id in Seen(r.self, records)
    ensures var (r1, s1) := Apply(r, s, records, from);
      After(records, id, TextureOf(r1, s1, id)) == TextureOf(r1, s1, id)
  {
    SnapshotKeys(r.self, records);
    RecordsShow(r, s, records);
    RecordsTexture(r, s, records, id);
    var (r0, s0) := Records(r, s, records);
    var gone := Previous(r, from) - Seen(r.self, records);
    ForgetSpares(r0, s0, gone);
    assert id in r0.entities && r0.entities[id] !in Mapped(r0, gone);
    var (r1, s1) := Apply(r, s, records, from);
    assert SameEntity(s0, s1, r0.entities[id]);
    assert TextureOf(r1, s1, id) == TextureOf(r0, s0, id);
    AfterTwice(records, id, TextureOf(r, s, id));
  }

  /** What an entity shows and its texture determine its sent components. */
  lemma SameComponents(s: SceneState, s': SceneState, e: nat, extra: Option<Bytes>, extra': Option<Bytes>)
    requires SceneOk(s) && SceneOk(s') && e in s.transforms && e in s'.transforms
    requires Look(s', e, extra') == Look(s, e, extra)
    requires ShapeOf(s, e).Some? ==> ShapeOf(s', e).Some? && ShapeOf(s', e).value.texture == ShapeOf(s, e).value.texture
    ensures s'.transforms[e] == s.transforms[e] && extra' == extra
    ensures forall kind: Kind :: !kind.Custom? ==> Get(s', kind, e) == Get(s, kind, e)
  {
    Typed(s, e);
    Typed(s', e);
    forall kind: Kind | !kind.Custom? ensures Get(s', kind, e) == Get(s, kind, e) {
      match kind {
        case RigidBodies => assert RigidBodyOf(s', e) == RigidBodyOf(s, e);
        case Colliders => assert ColliderOf(s', e) == ColliderOf(s, e);
        case Shapes => assert ShapeOf(s', e) == ShapeOf(s, e);
      }
    }
  }

  lemma Typed(s: SceneState, e: nat)
    requires SceneOk(s)
    ensures forall kind :: Get(s, kind, e).Some? ==> KindOf(Get(s, kind, e).value) == kind
  {
  }

  lemma SameScene(s: SceneState, s': SceneState)
    requires s'.nextId == s.nextId && s'.transforms == s.transforms && s'.stores.Keys == s.stores.Keys
    requires forall kind, e: nat :: Get(s', kind, e) == Get(s, kind, e)
    ensures s' == s
  {
    forall kind | kind in s.stores ensures s'.stores[kind] == s.stores[kind] {
      var a, b := s.stores[kind], s'.stores[kind];
      forall e: nat ensures (e in a <==> e in b) && (e in a ==> b[e] == a[e]) {
        assert Get(s', kind, e) == Get(s, kind, e);
      }
    }
  }

  lemma SameExtras(r: ReplicatorState, r': ReplicatorState)
    requires forall id: nat :: ExtraOf(r', id) == ExtraOf(r, id)
    ensures r'.extras == r.extras
  {
    forall id: nat ensures (id in r.extras <==> id in r'.extras) && (id in r.extras ==> r'.extras[id] == r.extras[id]) {
      assert ExtraOf(r', id) == ExtraOf(r, id);
    }
  }

  /** The replicator and the scene already are what these records would make of them. */
  ghost predicate Fulfilled(r: ReplicatorState, s: SceneState, records: seq<EntityRecord>) {
    && ReplicatorOk(r, s) && AllLive(r, s, Seen(r.self, records)) && Brought(r.self, records) <= s.stores.Keys
    && View(r, s) + SnapshotView(r.self, records) == View(r, s)
    && forall id <- Seen(r.self, records) :: After(records, id, TextureOf(r, s, id)) == TextureOf(r, s, id)
  }

  lemma SeenUnchanged(r: ReplicatorState, s: SceneState, records: seq<EntityRecord>, id: nat)
    requires Fulfilled(r, s, records) && id in Seen(r.self, records)
    ensures var (r', s') := Records(r, s, records);
      var e := r.entities[id];
      && e in s.transforms && e in s'.transforms && s'.transforms[e] == s.transforms[e]
      && ExtraOf(r', id) == ExtraOf(r, id) && forall kind :: Get(s', kind, e) == Get(s, kind, e)
  {
    var (r', s') := Records(r, s, records);
    var e := r.entities[id];
    SnapshotKeys(r.self, records);
    RecordsShow(r, s, records);
    RecordsSettled(r, s, records);
    RecordsTexture(r, s, records, id);
    assert id in View(r, s) && View(r', s')[id] == View(r, s)[id];
    SameComponents(s, s', e, ExtraOf(r, id), ExtraOf(r', id));
    forall n: nat ensures Get(s', Custom(n), e) == Get(s, Custom(n), e) {
      RecordsCustom(r, s, records, e, n);
    }
  }

  lemma EntityUnchanged(r: ReplicatorState, s: SceneState, records: seq<EntityRecord>, e: nat)
    requires Fulfilled(r, s, records)
    ensures var (r', s') := Records(r, s, records);
      && (e in s.transforms ==> e in s'.transforms && s'.transforms[e] == s.transforms[e])
      && forall kind :: Get(s', kind, e) == Get(s, kind, e)
  {
    var (r', s') := Records(r, s, records);
    RecordsShow(r, s, records);
    RecordsSettled(r, s, records);
    if e in Mapped(r, Seen(r.self, records)) {
      var id :| id in Seen(r.self, records) && id in r.entities && r.entities[id] == e;
      SeenUnchanged(r, s, records, id);
    } else if e < s.nextId {
      RecordsSpare(r, s, records);
      assert SameEntity(s, s', e);
    } else {
      assert e !in s.transforms && e !in s'.transforms;
      forall kind ensures Get(s', kind, e) == Get(s, kind, e) == None {
      }
    }
  }

  lemma PassIsIdentity(r: ReplicatorState, s: SceneState, records: seq<EntityRecord>)
    requires Fulfilled(r, s, records)
    ensures Records(r, s, records) == (r, s)
  {
    var (r', s') := Records(r, s, records);
    RecordsSettled(r, s, records);
    RecordsStores(r, s, records);
    forall id: nat ensures ExtraOf(r', id) == ExtraOf(r, id) {
      if id in Seen(r.self, records) {
        SeenUnchanged(r, s, records, id);
      } else {
        RecordsExtras(r, s, records, id);
      }
    }
    SameExtras(r, r');
    forall e: nat ensures (e in s.transforms ==> e in s'.transforms && s'.transforms[e] == s.transforms[e])
    ensures forall kind :: Get(s', kind, e) == Get(s, kind, e) {
      EntityUnchanged(r, s, records, e);
    }
    assert s'.transforms == s.transforms;
    SameScene(s, s');
  }

  lemma ApplyFulfils(r: ReplicatorState, s: SceneState, records: seq<EntityRecord>, from: nat)
    requires ReplicatorOk(r, s)
    ensures var (r1, s1) := Apply(r, s, records, from); Fulfilled(r1, s1, records)
  {
    var (r1, s1) := Apply(r, s, records, from);
    Applied(r, s, records, from, r1, s1);
    ShowsIt(r, s, records, from);
    forall id | id in Seen(r.self, records) ensures After(records, id, TextureOf(r1, s1, id)) == TextureOf(r1, s1, id) {
      AppliedTexture(r, s, records, from, id);
    }
  }

  /** Applying the snapshot a source sent last once more changes nothing at all: no entity, no component, no
      texture, no id, no counter, no list. */
  lemma Reapplied(r: ReplicatorState, s: SceneState, records: seq<EntityRecord>, from: nat)
    requires ReplicatorOk(r, s)
    ensures var (r1, s1) := Apply(r, s, records, from); Apply(r1, s1, records, from) == (r1, s1)
  {
    var (r1, s1) := Apply(r, s, records, from);
    ApplyFulfils(r, s, records, from);
    Applied(r, s, records, from, r1, s1);
    ApplyShows(r, s, records, from);
    PassIsIdentity(r1, s1, records);
    NothingForgotten(r1, s1, Previous(r1, from) - Seen(r1.self, records));
    assert r1.receivedFrom[from := Seen(r1.self, records)] == r1.receivedFrom;
  }
}
