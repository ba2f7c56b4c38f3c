/** What the scene replicator does to its two maps and to the scene, as functions, and the theorems about it. */
module Replication {
  import opened Options
  import opened Wire
  import opened Protocol
  import opened Snapshot
  import opened Scenes

  // ---- network ids ----------------------------------------------------------------------------------

  const LOCAL_SPAN: nat := 0x100_0000   // the low 24 bits

  function OwnerOf(id: nat): nat { id / LOCAL_SPAN }
  function LocalOf(id: nat): nat { id % LOCAL_SPAN }
  function MakeNetId(owner: nat, local: nat): nat { owner * LOCAL_SPAN + local }

  lemma NetIdParts(owner: nat, local: nat)
    requires local < LOCAL_SPAN
    ensures OwnerOf(MakeNetId(owner, local)) == owner && LocalOf(MakeNetId(owner, local)) == local
    ensures MakeNetId(owner, local) == owner * 0x100_0000 + local
  {
  }

  // ---- state ----------------------------------------------------------------------------------------

  datatype ReplicatorState = ReplicatorState(
    self: nat, nextLocal: nat, entities: map<nat, nat>, netIds: map<nat, nat>,
    extras: map<nat, Bytes>, receivedFrom: map<nat, set<nat>>)

  function NewReplicator(self: nat): ReplicatorState { ReplicatorState(self, 0, map[], map[], map[], map[]) }

  /** The two maps are inverse to each other. */
  ghost predicate MutualInverses(r: ReplicatorState) {
    && (forall id <- r.entities :: r.entities[id] in r.netIds && r.netIds[r.entities[id]] == id)
    && (forall e <- r.netIds :: r.netIds[e] in r.entities && r.entities[r.netIds[e]] == e)
  }

  /** Ids of its own that were handed out or bound lie below nextLocal, and it never lists an id of its own as
      received from someone. */
  ghost predicate OwnIds(r: ReplicatorState) {
    && (forall id <- r.entities :: OwnerOf(id) == r.self ==> LocalOf(id) < r.nextLocal)
    && (forall from <- r.receivedFrom, id <- r.receivedFrom[from] :: OwnerOf(id) != r.self)
  }

  /** Everything mapped came from this scene. */
  ghost predicate FromScene(r: ReplicatorState, s: SceneState) { forall e <- r.netIds :: e < s.nextId }

  ghost predicate ReplicatorOk(r: ReplicatorState, s: SceneState) {
    MutualInverses(r) && OwnIds(r) && FromScene(r, s) && SceneOk(s)
  }

  // ---- what the replicated entities look like -------------------------------------------------------

  datatype ShapeView = ShapeView(size: Vec2, color: Color, tiled: bool)

  datatype EntityView = EntityView(
    transform: Transform, rigidBody: Option<Vec2>, collider: Option<Vec2>, shape: Option<ShapeView>, extra: Option<Bytes>)

  function RigidBodyOf(s: SceneState, e: nat): Option<Vec2> {
    match Get(s, RigidBodies, e) case Some(RigidBody(v)) => Some(v) case _ => None
  }

  function ColliderOf(s: SceneState, e: nat): Option<Vec2> {
    match Get(s, Colliders, e) case Some(Collider(v)) => Some(v) case _ => None
  }

  function ShapeOf(s: SceneState, e: nat): Option<Shape> {
    match Get(s, Shapes, e) case Some(Visual(h)) => Some(h) case _ => None
  }

  function Look(s: SceneState, e: nat, extra: Option<Bytes>): EntityView
    requires e in s.transforms
  {
    EntityView(s.transforms[e], RigidBodyOf(s, e), ColliderOf(s, e),
               match ShapeOf(s, e) case Some(h) => Some(ShapeView(h.size, h.color, h.tiled)) case None => None, extra)
  }

  function ExtraOf(r: ReplicatorState, id: nat): Option<Bytes> {
    if id in r.extras then Some(r.extras[id]) else None
  }

  /** The replicated scene, by network id: every mapped entity that is alive. */
  function View(r: ReplicatorState, s: SceneState): map<nat, EntityView> {
    map id | id in r.entities && r.entities[id] in s.transforms :: Look(s, r.entities[id], ExtraOf(r, id))
  }

  /** What one record says about its entity. */
  function RecordView(rec: EntityRecord): EntityView {
    EntityView(rec.transform,
               if HasRigidBody(rec.mask) then Some(rec.rigidBody) else None,
               if HasCollider(rec.mask) then Some(rec.collider) else None,
               if HasShape(rec.mask) then Some(ShapeView(rec.shape.size, rec.shape.color, rec.shape.tiled != 0)) else None,
               if HasExtra(rec.mask) then Some(rec.extra) else None)
  }

  /** What a snapshot says to a process; a later record for the same id wins, and its own ids are ignored. */
  function SnapshotView(self: nat, records: seq<EntityRecord>): map<nat, EntityView> {
    if records == [] then map[] else
    var rec := records[|records| - 1];
    var before := SnapshotView(self, records[..|records| - 1]);
    if OwnerOf(rec.id) == self then before else before[rec.id := RecordView(rec)]
  }

  // ---- sender side ----------------------------------------------------------------------------------

  function Track(r: ReplicatorState, e: nat): (ReplicatorState, nat) {
    if e in r.netIds then (r, r.netIds[e]) else
    var id := MakeNetId(r.self, r.nextLocal);
    (r.(nextLocal := r.nextLocal + 1, entities := r.entities[id := e], netIds := r.netIds[e := id]), id)
  }

  function Untrack(r: ReplicatorState, e: nat): ReplicatorState {
    if e !in r.netIds then r else
    r.(entities := r.entities - {r.netIds[e]}, extras := r.extras - {r.netIds[e]}, netIds := r.netIds - {e})
  }

  function SetExtra(r: ReplicatorState, id: nat, extra: Bytes): ReplicatorState {
    r.(extras := r.extras[id := extra])
  }

  function Bind(r: ReplicatorState, id: nat, e: nat): ReplicatorState {
    var netIds := if id in r.entities then r.netIds - {r.entities[id]} else r.netIds;
    var entities := if e in netIds then r.entities - {netIds[e]} else r.entities;
    r.(entities := entities[id := e], netIds := netIds[e := id],
       nextLocal := if OwnerOf(id) == r.self && LocalOf(id) >= r.nextLocal then LocalOf(id) + 1 else r.nextLocal)
  }

  /** Track never reuses an id: a new one lies at or above every local part used so far. */
  lemma TrackFresh(r: ReplicatorState, s: SceneState, e: nat)
    requires ReplicatorOk(r, s) && e < s.nextId && r.nextLocal < LOCAL_SPAN
    ensures var (r', id) := Track(r, e);
      && ReplicatorOk(r', s) && r'.entities == r.entities[id := e] && r'.netIds == r.netIds[e := id]
      && (e !in r.netIds ==> id !in r.entities && OwnerOf(id) == r.self && LocalOf(id) == r.nextLocal && r'.nextLocal == r.nextLocal + 1)
      && (e in r.netIds ==> r' == r)
      && r'.self == r.self && r'.extras == r.extras && r'.receivedFrom == r.receivedFrom
  {
    NetIdParts(r.self, r.nextLocal);
  }

  lemma UntrackKeeps(r: ReplicatorState, s: SceneState, e: nat)
    requires ReplicatorOk(r, s)
    ensures ReplicatorOk(Untrack(r, e), s) && e !in Untrack(r, e).netIds && Untrack(r, e).netIds == r.netIds - {e}
    ensures Untrack(r, e).self == r.self && Untrack(r, e).nextLocal == r.nextLocal && Untrack(r, e).receivedFrom == r.receivedFrom
    ensures forall id :: id in r.entities && r.entities[id] != e ==> ExtraOf(Untrack(r, e), id) == ExtraOf(r, id)
    ensures e in r.netIds ==>
      View(Untrack(r, e), s) == View(r, s) - {r.netIds[e]} && ExtraOf(Untrack(r, e), r.netIds[e]) == None
  {
  }

  /** Extra bytes are shown with their entity, and with no other. */
  lemma SetExtraShows(r: ReplicatorState, s: SceneState, id: nat, extra: Bytes)
    requires ReplicatorOk(r, s)
    ensures ReplicatorOk(SetExtra(r, id, extra), s)
    ensures forall k :: ExtraOf(SetExtra(r, id, extra), k) == if k == id then Some(extra) else ExtraOf(r, k)
    ensures SetExtra(r, id, extra).(extras := r.extras) == r
    ensures View(SetExtra(r, id, extra), s)
         == if id in View(r, s) then View(r, s)[id := View(r, s)[id].(extra := Some(extra))] else View(r, s)
  {
  }

  /** After a bind the two are mapped to each other, and whatever either was mapped to before is not. */
  lemma BindKeeps(r: ReplicatorState, s: SceneState, id: nat, e: nat)
    requires ReplicatorOk(r, s) && e < s.nextId
    ensures var r' := Bind(r, id, e);
      && ReplicatorOk(r', s) && r'.entities[id] == e && r'.netIds[e] == id
      && (forall k :: k in r'.entities <==> k == id || (k in r.entities && r.entities[k] != e))
      && (forall k <- r'.entities :: k != id ==> r'.entities[k] == r.entities[k])
      && r'.self == r.self && r'.extras == r.extras && r'.receivedFrom == r.receivedFrom
      && r'.nextLocal == (if OwnerOf(id) == r.self && LocalOf(id) >= r.nextLocal then LocalOf(id) + 1 else r.nextLocal)
  {
  }

  // ---- receiver side --------------------------------------------------------------------------------

  /** The entity for a received id: the one mapped to it if it is alive, else a new one. */
  function Settle(r: ReplicatorState, s: SceneState, id: nat): (ReplicatorState, SceneState) {
    if id in r.entities && r.entities[id] in s.transforms then (r, s) else
    var netIds := if id in r.entities then r.netIds - {r.entities[id]} else r.netIds;
    (r.(entities := r.entities[id := s.nextId], netIds := netIds[s.nextId := id]), Create(s))
  }

  function Place(s: SceneState, e: nat, present: bool, c: Component): SceneState {
    if present then Put(s, e, c) else Detach(s, KindOf(c), e)
  }

  /** The texture a shape had stays with it. */
  function Reshape(s: SceneState, e: nat, sent: SentShape): Shape {
    Shape(sent.size, sent.color, match ShapeOf(s, e) case Some(h) => h.texture case None => None, sent.tiled != 0)
  }

  function Write(s: SceneState, e: nat, rec: EntityRecord): SceneState {
    var s1 := s.(transforms := s.transforms[e := rec.transform]);
    var s2 := Place(s1, e, HasRigidBody(rec.mask), RigidBody(rec.rigidBody));
    var s3 := Place(s2, e, HasCollider(rec.mask), Collider(rec.collider));
    Place(s3, e, HasShape(rec.mask), Visual(Reshape(s3, e, rec.shape)))
  }

  function Record(r: ReplicatorState, s: SceneState, rec: EntityRecord): (ReplicatorState, SceneState) {
    if OwnerOf(rec.id) == r.self then (r, s) else
    var (r1, s1) := Settle(r, s, rec.id);
    (r1.(extras := if HasExtra(rec.mask) then r1.extras[rec.id := rec.extra] else r1.extras - {rec.id}),
     Write(s1, r1.entities[rec.id], rec))
  }

  function Records(r: ReplicatorState, s: SceneState, records: seq<EntityRecord>): (ReplicatorState, SceneState) {
    if records == [] then (r, s) else
    var (r1, s1) := Records(r, s, records[..|records| - 1]);
    Record(r1, s1, records[|records| - 1])
  }

  function Seen(self: nat, records: seq<EntityRecord>): set<nat> {
    set i | 0 <= i < |records| && OwnerOf(records[i].id) != self :: records[i].id
  }

  function Mapped(r: ReplicatorState, ids: set<nat>): set<nat> {
    set id | id in ids && id in r.entities :: r.entities[id]
  }

  function Forget(r: ReplicatorState, s: SceneState, ids: set<nat>): (ReplicatorState, SceneState) {
    (r.(entities := r.entities - ids, netIds := r.netIds - Mapped(r, ids), extras := r.extras - ids),
     Destroy(s, Mapped(r, ids)))
  }

  function Previous(r: ReplicatorState, from: nat): set<nat> {
    if from in r.receivedFrom then r.receivedFrom[from] else {}
  }

  function Apply(r: ReplicatorState, s: SceneState, records: seq<EntityRecord>, from: nat): (ReplicatorState, SceneState) {
    var (r1, s1) := Records(r, s, records);
    var seen := Seen(r.self, records);
    var (r2, s2) := Forget(r1, s1, Previous(r, from) - seen);
    (r2.(receivedFrom := r.receivedFrom[from := seen]), s2)
  }

  function OwnedBy(r: ReplicatorState, owner: nat): set<nat> {
    set id | id in r.entities && OwnerOf(id) == owner
  }

  function DropOwner(r: ReplicatorState, s: SceneState, owner: nat): (ReplicatorState, SceneState) {
    if owner == r.self then (r, s) else
    var owned := OwnedBy(r, owner);
    var (r1, s1) := Forget(r, s, owned);
    (r1.(receivedFrom := (map from | from in r.receivedFrom :: r.receivedFrom[from] - owned) - {owner}), s1)
  }

  // ---- one record -----------------------------------------------------------------------------------

  lemma SettleKeeps(r: ReplicatorState, s: SceneState, id: nat)
    requires ReplicatorOk(r, s) && OwnerOf(id) != r.self
    ensures var (r1, s1) := Settle(r, s, id);
      && ReplicatorOk(r1, s1) && id in r1.entities && r1.entities[id] in s1.transforms
      && (forall k <- r.entities :: k in r1.entities && (k != id ==> r1.entities[k] == r.entities[k]))
      && (forall k <- r1.entities :: k != id ==> k in r.entities)
      && (forall e :: e != s.nextId ==> SameEntity(s, s1, e))
      && (r1.entities[id] == s.nextId || (id in r.entities && r1.entities[id] == r.entities[id]))
  {
    CreateFresh(s);
  }

  lemma PlaceOnly(s: SceneState, e: nat, present: bool, c: Component)
    requires SceneOk(s) && e in s.transforms
    ensures var s' := Place(s, e, present, c);
      && SceneOk(s') && s'.transforms == s.transforms && s'.nextId == s.nextId
      && Get(s', KindOf(c), e) == (if present then Some(c) else None)
      && (forall kind, k :: (kind != KindOf(c) || k != e) ==> Get(s', kind, k) == Get(s, kind, k))
  {
    if present {
      PutOnly(s, e, c);
    } else {
      DetachOnly(s, KindOf(c), e);
    }
  }

  /** What a write leaves in the scene, component by component. */
  ghost predicate Written(s: SceneState, s': SceneState, e: nat, rec: EntityRecord) {
    && s'.nextId == s.nextId && s'.transforms == s.transforms[e := rec.transform]
    && Get(s', RigidBodies, e) == (if HasRigidBody(rec.mask) then Some(RigidBody(rec.rigidBody)) else None)
    && Get(s', Colliders, e) == (if HasCollider(rec.mask) then Some(Collider(rec.collider)) else None)
    && Get(s', Shapes, e) == (if HasShape(rec.mask) then Some(Visual(Reshape(s, e, rec.shape))) else None)
    && (forall n :: Get(s', Custom(n), e) == Get(s, Custom(n), e))
    && (forall kind, k :: k != e ==> Get(s', kind, k) == Get(s, kind, k))
  }

  lemma WriteWrites(s: SceneState, e: nat, rec: EntityRecord)
    requires SceneOk(s) && e in s.transforms
    ensures SceneOk(Write(s, e, rec)) && Written(s, Write(s, e, rec), e, rec)
  {
    var s1 := s.(transforms := s.transforms[e := rec.transform]);
    var s2 := Place(s1, e, HasRigidBody(rec.mask), RigidBody(rec.rigidBody));
    PlaceOnly(s1, e, HasRigidBody(rec.mask), RigidBody(rec.rigidBody));
    assert forall kind, k :: kind != RigidBodies || k != e ==> Get(s2, kind, k) == Get(s, kind, k);
    BodyWritten(s, s2, e, rec);
  }

  lemma BodyWritten(s: SceneState, s2: SceneState, e: nat, rec: EntityRecord)
    requires SceneOk(s2) && e in s2.transforms && s2.nextId == s.nextId && s2.transforms == s.transforms[e := rec.transform]
    requires Get(s2, RigidBodies, e) == (if HasRigidBody(rec.mask) then Some(RigidBody(rec.rigidBody)) else None)
    requires forall kind, k :: kind != RigidBodies || k != e ==> Get(s2, kind, k) == Get(s, kind, k)
    ensures var s3 := Place(s2, e, HasCollider(rec.mask), Collider(rec.collider));
      var s' := Place(s3, e, HasShape(rec.mask), Visual(Reshape(s3, e, rec.shape)));
      SceneOk(s') && Written(s, s', e, rec)
  {
    var s3 := Place(s2, e, HasCollider(rec.mask), Collider(rec.collider));
    PlaceOnly(s2, e, HasCollider(rec.mask), Collider(rec.collider));
    assert Get(s3, Shapes, e) == Get(s, Shapes, e) && Reshape(s3, e, rec.shape) == Reshape(s, e, rec.shape);
    PlaceOnly(s3, e, HasShape(rec.mask), Visual(Reshape(s, e, rec.shape)));
  }

  /** A written entity shows exactly what the record says, keeps its texture, and no other entity changes. */
  lemma WriteShows(s: SceneState, s': SceneState, e: nat, rec: EntityRecord, extra: Option<Bytes>)
    requires Written(s, s', e, rec) && e in s.transforms
    ensures Look(s', e, extra) == RecordView(rec).(extra := extra)
    ensures forall k :: k != e ==> SameEntity(s, s', k)
    ensures HasShape(rec.mask) && ShapeOf(s, e).Some? ==> ShapeOf(s', e).Some? && ShapeOf(s', e).value.texture == ShapeOf(s, e).value.texture
  {
  }

  lemma LookSame(s: SceneState, s': SceneState, e: nat, extra: Option<Bytes>)
    requires SameEntity(s, s', e) && e in s.transforms
    ensures Look(s', e, extra) == Look(s, e, extra)
  {
  }

  /** If ids keep their entities and those their contents, they look the same. */
  lemma ViewSame(r: ReplicatorState, s: SceneState, r': ReplicatorState, s': SceneState, id: nat)
    requires id in r.entities && id in r'.entities && r'.entities[id] == r.entities[id] && ExtraOf(r', id) == ExtraOf(r, id)
    requires SameEntity(s, s', r.entities[id])
    ensures id in View(r, s) <==> id in View(r', s')
    ensures id in View(r, s) ==> View(r', s')[id] == View(r, s)[id]
  {
    if r.entities[id] in s.transforms {
      LookSame(s, s', r.entities[id], ExtraOf(r, id));
    }
  }

  lemma SettleOthers(r: ReplicatorState, s: SceneState, id: nat, other: nat)
    requires ReplicatorOk(r, s) && OwnerOf(id) != r.self && other in r.entities && other != id
    ensures var (r1, s1) := Settle(r, s, id);
      other in r1.entities && r1.entities[other] == r.entities[other] != r1.entities[id]
      && SameEntity(s, s1, r.entities[other])
  {
    SettleKeeps(r, s, id);
  }

  lemma RecordOther(r: ReplicatorState, s: SceneState, rec: EntityRecord, id: nat)
    requires ReplicatorOk(r, s) && OwnerOf(rec.id) != r.self && id in r.entities && id != rec.id
    ensures var (r', s') := Record(r, s, rec);
      && id in r'.entities && (id in View(r, s) <==> id in View(r', s'))
      && (id in View(r, s) ==> View(r', s')[id] == View(r, s)[id])
  {
    SettleKeeps(r, s, rec.id);
    SettleOthers(r, s, rec.id, id);
    var (r1, s1) := Settle(r, s, rec.id);
    var e := r1.entities[rec.id];
    WriteWrites(s1, e, rec);
    var (r', s') := Record(r, s, rec);
    WriteShows(s1, s', e, rec, None);
    ViewSame(r, s, r', s', id);
  }

  lemma RecordKeepsOk(r: ReplicatorState, s: SceneState, rec: EntityRecord)
    requires ReplicatorOk(r, s) && OwnerOf(rec.id) != r.self
    ensures var (r', s') := Record(r, s, rec);
      && ReplicatorOk(r', s') && r'.self == r.self && r'.nextLocal == r.nextLocal && r'.receivedFrom == r.receivedFrom
      && r'.entities.Keys == r.entities.Keys + {rec.id}
  {
    SettleKeeps(r, s, rec.id);
    var (r1, s1) := Settle(r, s, rec.id);
    WriteWrites(s1, r1.entities[rec.id], rec);
  }

  lemma RecordOwn(r: ReplicatorState, s: SceneState, rec: EntityRecord)
    requires ReplicatorOk(r, s) && OwnerOf(rec.id) != r.self
    ensures var (r', s') := Record(r, s, rec);
      rec.id in View(r', s') && View(r', s')[rec.id] == RecordView(rec)
  {
    SettleKeeps(r, s, rec.id);
    var (r1, s1) := Settle(r, s, rec.id);
    var e := r1.entities[rec.id];
    WriteWrites(s1, e, rec);
    var (r', s') := Record(r, s, rec);
    WriteShows(s1, s', e, rec, ExtraOf(r', rec.id));
  }

  lemma MapUpdated<T>(m: map<nat, T>, m': map<nat, T>, id: nat, x: T)
    requires id in m' && m'[id] == x
    requires forall k :: k != id ==> (k in m <==> k in m') && (k in m ==> m'[k] == m[k])
    ensures m' == m[id := x]
  {
  }

  /** One record: its entity then shows what it says, every other id shows what it did. */
  lemma RecordShows(r: ReplicatorState, s: SceneState, rec: EntityRecord, r': ReplicatorState, s': SceneState)
    requires ReplicatorOk(r, s) && OwnerOf(rec.id) != r.self && (r', s') == Record(r, s, rec)
    ensures View(r', s') == View(r, s)[rec.id := RecordView(rec)]
  {
    var v, v' := View(r, s), View(r', s');
    RecordOwn(r, s, rec);
    RecordKeepsOk(r, s, rec);
    forall k | k != rec.id ensures (k in v <==> k in v') && (k in v ==> v'[k] == v[k]) {
      if k in r.entities {
        RecordOther(r, s, rec, k);
      }
    }
    MapUpdated(v, v', rec.id, RecordView(rec));
  }

  // ---- a whole snapshot -----------------------------------------------------------------------------

  lemma SeenGrows(self: nat, records: seq<EntityRecord>)
    requires records != []
    ensures var rec := records[|records| - 1];
      Seen(self, records) == Seen(self, records[..|records| - 1]) + if OwnerOf(rec.id) == self then {} else {rec.id}
  {
    var before := records[..|records| - 1];
    assert forall i :: 0 <= i < |before| ==> before[i] == records[i];
    forall id | id in Seen(self, records) ensures id in Seen(self, before) || id == records[|records| - 1].id {
      var i :| 0 <= i < |records| && OwnerOf(records[i].id) != self && records[i].id == id;
      assert i < |before| ==> before[i] == records[i];
    }
  }

  lemma {:induction false} SnapshotKeys(self: nat, records: seq<EntityRecord>)
    ensures SnapshotView(self, records).Keys == Seen(self, records)
    ensures forall id <- Seen(self, records) :: OwnerOf(id) != self
    decreases |records|
  {
    if records != [] {
      SnapshotKeys(self, records[..|records| - 1]);
      SeenGrows(self, records);
    }
  }

  lemma RecordStep(r: ReplicatorState, s: SceneState, rec: EntityRecord)
    requires ReplicatorOk(r, s)
    ensures var (r', s') := Record(r, s, rec);
      && ReplicatorOk(r', s') && r'.self == r.self && r'.nextLocal == r.nextLocal && r'.receivedFrom == r.receivedFrom
      && (OwnerOf(rec.id) == r.self ==> r' == r && s' == s)
      && (OwnerOf(rec.id) != r.self ==>
            && View(r', s') == View(r, s)[rec.id := RecordView(rec)]
            && r'.entities.Keys == r.entities.Keys + {rec.id})
  {
    if OwnerOf(rec.id) != r.self {
      var (r', s') := Record(r, s, rec);
      RecordKeepsOk(r, s, rec);
      RecordShows(r, s, rec, r', s');
    }
  }

  /** After some records: the replicator is in order, and its view is the old one overwritten by theirs. */
  ghost predicate Overwritten(r: ReplicatorState, s: SceneState, r': ReplicatorState, s': SceneState, records: seq<EntityRecord>) {
    && ReplicatorOk(r', s') && r'.self == r.self && r'.nextLocal == r.nextLocal && r'.receivedFrom == r.receivedFrom
    && View(r', s') == View(r, s) + SnapshotView(r.self, records)
    && r'.entities.Keys == r.entities.Keys + Seen(r.self, records)
  }

  lemma OverlayUpdated<T>(m: map<nat, T>, over: map<nat, T>, id: nat, x: T)
    ensures (m + over)[id := x] == m + over[id := x]
  {
  }

  lemma OneMore(r: ReplicatorState, s: SceneState, r1: ReplicatorState, s1: SceneState, records: seq<EntityRecord>,
                r': ReplicatorState, s': SceneState)
    requires records != [] && Overwritten(r, s, r1, s1, records[..|records| - 1])
    requires (r', s') == Record(r1, s1, records[|records| - 1])
    ensures Overwritten(r, s, r', s', records)
  {
    RecordStep(r1, s1, records[|records| - 1]);
    MoreView(r, s, r1, s1, records, r', s');
  }

  lemma MoreView(r: ReplicatorState, s: SceneState, r1: ReplicatorState, s1: SceneState, records: seq<EntityRecord>,
                 r': ReplicatorState, s': SceneState)
    requires records != []
    requires View(r1, s1) == View(r, s) + SnapshotView(r.self, records[..|records| - 1])
    requires r1.entities.Keys == r.entities.Keys + Seen(r.self, records[..|records| - 1])
    requires var rec := records[|records| - 1];
      if OwnerOf(rec.id) == r.self then r' == r1 && s' == s1
      else View(r', s') == View(r1, s1)[rec.id := RecordView(rec)] && r'.entities.Keys == r1.entities.Keys + {rec.id}
    ensures View(r', s') == View(r, s) + SnapshotView(r.self, records)
    ensures r'.entities.Keys == r.entities.Keys + Seen(r.self, records)
  {
    var before, rec := records[..|records| - 1], records[|records| - 1];
    SeenGrows(r.self, records);
    OverlayUpdated(View(r, s), SnapshotView(r.self, before), rec.id, RecordView(rec));
  }

  /** Reading records in leaves every replicated entity as it was, except those the records are about. */
  lemma {:induction false} RecordsShow(r: ReplicatorState, s: SceneState, records: seq<EntityRecord>)
    requires ReplicatorOk(r, s)
    ensures var (r', s') := Records(r, s, records); Overwritten(r, s, r', s', records)
    decreases |records|
  {
    if records != [] {
      var before := records[..|records| - 1];
      RecordsShow(r, s, before);
      var (r1, s1) := Records(r, s, before);
      var (r', s') := Records(r, s, records);
      OneMore(r, s, r1, s1, records, r', s');
    }
  }

  lemma ForgetShows(r: ReplicatorState, s: SceneState, ids: set<nat>)
    requires ReplicatorOk(r, s)
    ensures var (r', s') := Forget(r, s, ids);
      && ReplicatorOk(r', s') && r'.self == r.self && r'.nextLocal == r.nextLocal && r'.receivedFrom == r.receivedFrom
      && r'.entities == r.entities - ids && View(r', s') == View(r, s) - ids
      && (forall id <- ids :: ExtraOf(r', id) == None)
  {
    var (r', s') := Forget(r, s, ids);
    DestroyOnly(s, Mapped(r, ids));
    forall id | id in r.entities && id !in ids
      ensures id in View(r, s) <==> id in View(r', s')
      ensures id in View(r, s) ==> View(r', s')[id] == View(r, s)[id]
    {
      assert r.entities[id] !in Mapped(r, ids);
      ViewSame(r, s, r', s', id);
    }
  }

  // ---- apply ----------------------------------------------------------------------------------------

  /** What apply does to the replicated scene, for any history and any number of sources: the snapshot
      overwrites, and what its source sent before and left out now is gone. */
  lemma ApplyShows(r: ReplicatorState, s: SceneState, records: seq<EntityRecord>, from: nat)
    requires ReplicatorOk(r, s)
    ensures var (r', s') := Apply(r, s, records, from);
      var seen := SnapshotView(r.self, records).Keys;
      && ReplicatorOk(r', s') && r'.self == r.self && r'.nextLocal == r.nextLocal
      && View(r', s') == View(r, s) + SnapshotView(r.self, records) - (Previous(r, from) - seen)
      && r'.entities.Keys == r.entities.Keys + seen - (Previous(r, from) - seen)
      && r'.receivedFrom == r.receivedFrom[from := seen]
  {
    SnapshotKeys(r.self, records);
    RecordsShow(r, s, records);
    var (r1, s1) := Records(r, s, records);
    var seen := Seen(r.self, records);
    ForgetShows(r1, s1, Previous(r, from) - seen);
    var (r2, s2) := Forget(r1, s1, Previous(r, from) - seen);
    ReceivedKeeps(r2, s2, from, seen);
  }

  lemma ReceivedKeeps(r: ReplicatorState, s: SceneState, from: nat, seen: set<nat>)
    requires ReplicatorOk(r, s) && forall id <- seen :: OwnerOf(id) != r.self
    ensures ReplicatorOk(r.(receivedFrom := r.receivedFrom[from := seen]), s)
    ensures View(r.(receivedFrom := r.receivedFrom[from := seen]), s) == View(r, s)
  {
  }

  /** The part of a view that other processes own. */
  function Remote(self: nat, view: map<nat, EntityView>): map<nat, EntityView> {
    map id | id in view && OwnerOf(id) != self :: view[id]
  }

  /** Whatever this process does not own came from one source, and none of it was left unlisted. */
  ghost predicate OnlyFrom(r: ReplicatorState, from: nat) {
    forall id <- r.entities :: OwnerOf(id) != r.self ==> id in Previous(r, from)
  }

  /** Latest wins: with a single source, the remote view after a snapshot is exactly what the snapshot says,
      whatever came before it. What this process owns looks as it did. */
  lemma LatestWins(r: ReplicatorState, s: SceneState, records: seq<EntityRecord>, from: nat)
    requires ReplicatorOk(r, s) && OnlyFrom(r, from)
    ensures var (r', s') := Apply(r, s, records, from);
      && ReplicatorOk(r', s') && OnlyFrom(r', from) && r'.self == r.self
      && Remote(r.self, View(r', s')) == SnapshotView(r.self, records)
      && (forall id :: OwnerOf(id) == r.self ==>
            (id in View(r', s') <==> id in View(r, s)) && (id in View(r, s) ==> View(r', s')[id] == View(r, s)[id]))
  {
    ApplyShows(r, s, records, from);
    SnapshotKeys(r.self, records);
    assert OwnIds(r);
    OverlayRemote(r.self, View(r, s), SnapshotView(r.self, records), Previous(r, from), View(Apply(r, s, records, from).0, Apply(r, s, records, from).1));
  }

  lemma OverlayRemote(self: nat, v: map<nat, EntityView>, snap: map<nat, EntityView>, previous: set<nat>, v': map<nat, EntityView>)
    requires forall id <- v :: OwnerOf(id) != self ==> id in previous
    requires (forall id <- snap :: OwnerOf(id) != self) && (forall id <- previous :: OwnerOf(id) != self)
    requires v' == v + snap - (previous - snap.Keys)
    ensures Remote(self, v') == snap
    ensures forall id :: OwnerOf(id) == self ==> (id in v' <==> id in v) && (id in v ==> v'[id] == v[id])
  {
  }

  /** Any number of snapshots from one source. */
  function ApplyAll(r: ReplicatorState, s: SceneState, snapshots: seq<seq<EntityRecord>>, from: nat): (ReplicatorState, SceneState) {
    if snapshots == [] then (r, s) else
    var (r1, s1) := ApplyAll(r, s, snapshots[..|snapshots| - 1], from);
    Apply(r1, s1, snapshots[|snapshots| - 1], from)
  }

  /** Convergence: applying any sequence of snapshots that ends in one leaves the same remote view as applying
      that one alone to a fresh replicator. So lost and skipped snapshots do no harm. */
  lemma {:induction false} Converges(r: ReplicatorState, s: SceneState, snapshots: seq<seq<EntityRecord>>, from: nat)
    requires ReplicatorOk(r, s) && OnlyFrom(r, from)
    ensures var (r', s') := ApplyAll(r, s, snapshots, from);
      && ReplicatorOk(r', s') && OnlyFrom(r', from) && r'.self == r.self
      && (snapshots != [] ==>
            var last := snapshots[|snapshots| - 1];
            var (f, t) := Apply(NewReplicator(r.self), EMPTY_SCENE, last, from);
            Remote(r.self, View(r', s')) == SnapshotView(r.self, last) == View(f, t))
    decreases |snapshots|
  {
    if snapshots != [] {
      var before, last := snapshots[..|snapshots| - 1], snapshots[|snapshots| - 1];
      Converges(r, s, before, from);
      var (r1, s1) := ApplyAll(r, s, before, from);
      LatestWins(r1, s1, last, from);
      FreshShows(r.self, last, from);
    }
  }

  lemma FreshShows(self: nat, records: seq<EntityRecord>, from: nat)
    ensures var (f, t) := Apply(NewReplicator(self), EMPTY_SCENE, records, from);
      View(f, t) == SnapshotView(self, records)
  {
    ApplyShows(NewReplicator(self), EMPTY_SCENE, records, from);
    NothingBefore(SnapshotView(self, records), {} - SnapshotView(self, records).Keys);
  }

  lemma NothingBefore(snap: map<nat, EntityView>, none: set<nat>)
    requires none == {}
    ensures map[] + snap - none == snap
  {
  }

  lemma NothingDestroyed(s: SceneState, none: set<nat>)
    requires none == {}
    ensures Destroy(s, none) == s
  {
    assert s.transforms - none == s.transforms;
    assert forall kind <- s.stores :: s.stores[kind] - none == s.stores[kind];
  }

  lemma NothingForgotten(r: ReplicatorState, s: SceneState, none: set<nat>)
    requires none == {}
    ensures Forget(r, s, none) == (r, s)
  {
    assert Mapped(r, none) == {};
    NothingDestroyed(s, Mapped(r, none));
    assert r.entities - none == r.entities && r.netIds - Mapped(r, none) == r.netIds && r.extras - none == r.extras;
  }

  lemma OverlayTwice(v: map<nat, EntityView>, snap: map<nat, EntityView>, gone: set<nat>)
    requires gone !! snap.Keys
    ensures v + snap - gone + snap == v + snap - gone
  {
  }

  lemma ShowsIt(r: ReplicatorState, s: SceneState, records: seq<EntityRecord>, from: nat)
    requires ReplicatorOk(r, s)
    ensures var (r', s') := Apply(r, s, records, from);
      && ReplicatorOk(r', s') && r'.self == r.self && Previous(r', from) == SnapshotView(r'.self, records).Keys
      && View(r', s') + SnapshotView(r'.self, records) == View(r', s') && from in r'.receivedFrom
  {
    ApplyShows(r, s, records, from);
    var snap := SnapshotView(r.self, records);
    OverlayTwice(View(r, s), snap, Previous(r, from) - snap.Keys);
  }

  lemma DropShows(r: ReplicatorState, s: SceneState, owner: nat)
    requires ReplicatorOk(r, s)
    ensures var (r', s') := DropOwner(r, s, owner);
      && ReplicatorOk(r', s') && r'.self == r.self && r'.nextLocal == r.nextLocal
      && (owner == r.self ==> r' == r && s' == s)
      && (owner != r.self ==>
            && (forall id <- r'.entities :: OwnerOf(id) != owner)
            && r'.entities == r.entities - OwnedBy(r, owner) && View(r', s') == View(r, s) - OwnedBy(r, owner)
            && owner !in r'.receivedFrom && (forall id <- OwnedBy(r, owner) :: ExtraOf(r', id) == None)
            && forall k: nat :: Previous(r', k) == if k == owner then {} else Previous(r, k) - OwnedBy(r, owner))
  {
    if owner != r.self {
      ForgetShows(r, s, OwnedBy(r, owner));
    }
  }

  // ---- what apply does not touch --------------------------------------------------------------------

  /** Ids keep their entities or get new ones; entities of other ids are left alone. */
  ghost predicate Spares(r: ReplicatorState, s: SceneState, r': ReplicatorState, s': SceneState, ids: set<nat>) {
    && s.nextId <= s'.nextId
    && (forall id <- r'.entities :: r'.entities[id] >= s.nextId || (id in r.entities && r'.entities[id] == r.entities[id]))
    && (forall id <- r.entities :: id !in ids ==> id in r'.entities && r'.entities[id] == r.entities[id])
    && (forall e: nat :: e < s.nextId && e !in Mapped(r, ids) ==> SameEntity(s, s', e))
  }

  lemma RecordSpares(r: ReplicatorState, s: SceneState, rec: EntityRecord)
    requires ReplicatorOk(r, s) && OwnerOf(rec.id) != r.self
    ensures var (r', s') := Record(r, s, rec); Spares(r, s, r', s', {rec.id})
  {
    SettleKeeps(r, s, rec.id);
    var (r1, s1) := Settle(r, s, rec.id);
    var e := r1.entities[rec.id];
    WriteWrites(s1, e, rec);
    var (r', s') := Record(r, s, rec);
    WriteShows(s1, s', e, rec, None);
    forall k: nat | k < s.nextId && k !in Mapped(r, {rec.id}) ensures SameEntity(s, s', k) {
      assert k != e && SameEntity(s, s1, k) && SameEntity(s1, s', k);
    }
  }

  lemma SparesMore(r: ReplicatorState, s: SceneState, r1: ReplicatorState, s1: SceneState, r2: ReplicatorState, s2: SceneState, ids: set<nat>, more: set<nat>)
    requires Spares(r, s, r1, s1, ids) && Spares(r1, s1, r2, s2, more) && Mapped(r1, more) <= Mapped(r, more) + NotBelow(r1, s.nextId)
    ensures Spares(r, s, r2, s2, ids + more)
  {
    forall e: nat | e < s.nextId && e !in Mapped(r, ids + more) ensures SameEntity(s, s2, e) {
      assert e !in Mapped(r, ids) && e !in Mapped(r1, more);
      assert SameEntity(s, s1, e) && SameEntity(s1, s2, e);
    }
  }

  function NotBelow(r: ReplicatorState, bound: nat): set<nat> {
    set id | id in r.entities && r.entities[id] >= bound :: r.entities[id]
  }

  lemma {:induction false} RecordsSpare(r: ReplicatorState, s: SceneState, records: seq<EntityRecord>)
    requires ReplicatorOk(r, s)
    ensures var (r', s') := Records(r, s, records); Spares(r, s, r', s', Seen(r.self, records))
    decreases |records|
  {
    if records != [] {
      var before, rec := records[..|records| - 1], records[|records| - 1];
      RecordsSpare(r, s, before);
      RecordsShow(r, s, before);
      SeenGrows(r.self, records);
      if OwnerOf(rec.id) != r.self {
        var (r1, s1) := Records(r, s, before);
        var (r2, s2) := Records(r, s, records);
        RecordSpares(r1, s1, rec);
        SparesMore(r, s, r1, s1, r2, s2, Seen(r.self, before), {rec.id});
      }
    }
  }

  lemma ForgetSpares(r: ReplicatorState, s: SceneState, ids: set<nat>)
    requires ReplicatorOk(r, s)
    ensures var (r', s') := Forget(r, s, ids); Spares(r, s, r', s', ids)
  {
    DestroyOnly(s, Mapped(r, ids));
  }

  /** apply leaves alone every entity that is not mapped to an id the snapshot speaks of or its source listed
      before: whatever this process owns, whatever is not replicated, whatever came only from others. */
  lemma ApplySpares(r: ReplicatorState, s: SceneState, records: seq<EntityRecord>, from: nat)
    requires ReplicatorOk(r, s)
    ensures var (r', s') := Apply(r, s, records, from);
      && Spares(r, s, r', s', Seen(r.self, records) + Previous(r, from))
      && (forall id <- r.entities :: OwnerOf(id) == r.self ==>
            id in r'.entities && r'.entities[id] == r.entities[id] && SameEntity(s, s', r.entities[id]))
  {
    var seen := Seen(r.self, records);
    var gone := Previous(r, from) - seen;
    RecordsShow(r, s, records);
    RecordsSpare(r, s, records);
    SnapshotKeys(r.self, records);
    var (r1, s1) := Records(r, s, records);
    ForgetSpares(r1, s1, gone);
    var (r2, s2) := Forget(r1, s1, gone);
    SparesMore(r, s, r1, s1, r2, s2, seen, gone);
    assert seen + gone == seen + Previous(r, from);
    OwnSpared(r, s, r2, s2, seen + gone);
  }

  lemma OwnSpared(r: ReplicatorState, s: SceneState, r': ReplicatorState, s': SceneState, ids: set<nat>)
    requires ReplicatorOk(r, s) && Spares(r, s, r', s', ids) && forall id <- ids :: OwnerOf(id) != r.self
    ensures forall id <- r.entities :: OwnerOf(id) == r.self ==>
      id in r'.entities && r'.entities[id] == r.entities[id] && SameEntity(s, s', r.entities[id])
  {
    forall id | id in r.entities && OwnerOf(id) == r.self ensures r.entities[id] !in Mapped(r, ids) {
    }
  }

  // ---- textures -------------------------------------------------------------------------------------

  /** Entity e shows id, with a shape that has this texture. */
  ghost predicate Textured(r: ReplicatorState, s: SceneState, id: nat, e: nat, texture: Option<nat>) {
    id in r.entities && r.entities[id] == e && e in s.transforms && ShapeOf(s, e).Some? && ShapeOf(s, e).value.texture == texture
  }

  lemma RecordKeepsTexture(r: ReplicatorState, s: SceneState, rec: EntityRecord, id: nat, e: nat, texture: Option<nat>)
    requires ReplicatorOk(r, s) && Textured(r, s, id, e, texture) && (rec.id == id ==> HasShape(rec.mask))
    ensures var (r', s') := Record(r, s, rec); Textured(r', s', id, e, texture)
  {
    if OwnerOf(rec.id) != r.self {
      if rec.id == id {
        var (r', s') := Record(r, s, rec);
        WriteWrites(s, e, rec);
        WriteShows(s, s', e, rec, None);
      } else {
        RecordSpares(r, s, rec);
        assert e !in Mapped(r, {rec.id});
      }
    }
  }

  lemma {:induction false} RecordsKeepTexture(r: ReplicatorState, s: SceneState, records: seq<EntityRecord>, id: nat, e: nat, texture: Option<nat>)
    requires ReplicatorOk(r, s) && Textured(r, s, id, e, texture)
    requires forall rec <- records :: rec.id == id ==> HasShape(rec.mask)
    ensures var (r', s') := Records(r, s, records); Textured(r', s', id, e, texture)
    decreases |records|
  {
    if records != [] {
      var before := records[..|records| - 1];
      assert forall rec <- before :: rec in records;
      RecordsKeepTexture(r, s, before, id, e, texture);
      RecordsShow(r, s, before);
      RecordKeepsTexture(Records(r, s, before).0, Records(r, s, before).1, records[|records| - 1], id, e, texture);
    }
  }

  /** A texture set locally survives every snapshot that still shows the entity with a shape. */
  lemma TexturesStay(r: ReplicatorState, s: SceneState, records: seq<EntityRecord>, from: nat, id: nat, e: nat, texture: Option<nat>)
    requires ReplicatorOk(r, s) && Textured(r, s, id, e, texture) && id in Seen(r.self, records)
    requires forall rec <- records :: rec.id == id ==> HasShape(rec.mask)
    ensures var (r', s') := Apply(r, s, records, from); Textured(r', s', id, e, texture)
  {
    RecordsKeepTexture(r, s, records, id, e, texture);
    RecordsShow(r, s, records);
    var (r1, s1) := Records(r, s, records);
    var gone := Previous(r, from) - Seen(r.self, records);
    ForgetSpares(r1, s1, gone);
    assert e !in Mapped(r1, gone);
  }

  // ---- encoding -------------------------------------------------------------------------------------

  function Bit(present: bool, value: nat): nat { if present then value else 0 }

  /** The record of a live entity. */
  function RecordOf(r: ReplicatorState, s: SceneState, id: nat): EntityRecord
    requires id in r.entities && r.entities[id] in s.transforms
  {
    var v := Look(s, r.entities[id], ExtraOf(r, id));
    EntityRecord(id,
      Bit(v.rigidBody.Some?, 1) + Bit(v.collider.Some?, 2) + Bit(v.shape.Some?, 4) + Bit(v.extra.Some?, 8),
      v.transform,
      if v.rigidBody.Some? then v.rigidBody.value else NO_VEC2,
      if v.collider.Some? then v.collider.value else NO_VEC2,
      if v.shape.Some? then SentShape(v.shape.value.size, v.shape.value.color, Bit(v.shape.value.tiled, 1)) else NO_SHAPE,
      if v.extra.Some? then v.extra.value else [])
  }

  lemma RecordOfShows(r: ReplicatorState, s: SceneState, id: nat)
    requires id in r.entities && r.entities[id] in s.transforms
    ensures RecordView(RecordOf(r, s, id)) == View(r, s)[id]
  {
  }

  /** What a view says of an entity, component by component. */
  lemma ViewReads(r: ReplicatorState, s: SceneState, id: nat, v: Vec2, view: ShapeView, extra: Bytes)
    requires id in r.entities && r.entities[id] in s.transforms
    ensures id in View(r, s)
    ensures var e, seen := r.entities[id], View(r, s)[id];
      && seen.transform == s.transforms[e]
      && (seen.rigidBody == Some(v) <==> Get(s, RigidBodies, e) == Some(RigidBody(v)))
      && (seen.collider == Some(v) <==> Get(s, Colliders, e) == Some(Collider(v)))
      && (seen.shape == Some(view) <==>
            exists texture :: Get(s, Shapes, e) == Some(Visual(Shape(view.size, view.color, texture, view.tiled))))
      && (seen.extra == Some(extra) <==> id in r.extras && r.extras[id] == extra)
  {
    var e := r.entities[id];
    if View(r, s)[id].shape == Some(view) {
      assert Get(s, Shapes, e) == Some(Visual(Shape(view.size, view.color, Get(s, Shapes, e).value.shape.texture, view.tiled)));
    }
  }

  /** The record of an entity, bit by bit and field by field. */
  lemma RecordCarries(r: ReplicatorState, s: SceneState, id: nat)
    requires id in r.entities && r.entities[id] in s.transforms
    ensures var rec, seen := RecordOf(r, s, id), View(r, s)[id];
      && rec.id == id && rec.transform == seen.transform
      && (HasRigidBody(rec.mask) <==> seen.rigidBody == Some(rec.rigidBody))
      && (HasCollider(rec.mask) <==> seen.collider == Some(rec.collider))
      && (HasShape(rec.mask) <==> seen.shape == Some(ShapeView(rec.shape.size, rec.shape.color, rec.shape.tiled == 1)))
      && (HasExtra(rec.mask) <==> seen.extra == Some(rec.extra))
  {
    RecordOfShows(r, s, id);
  }

  /** What a process sends: all it shows, or what it owns of it. */
  function Sent(r: ReplicatorState, s: SceneState, ownedOnly: bool): map<nat, EntityView> {
    if ownedOnly then map id | id in View(r, s) && OwnerOf(id) == r.self :: View(r, s)[id] else View(r, s)
  }

  /** records holds exactly the entities to send, once each, in some order. */
  ghost predicate Encodes(r: ReplicatorState, s: SceneState, ownedOnly: bool, records: seq<EntityRecord>) {
    && (forall i :: 0 <= i < |records| ==>
          records[i].id in Sent(r, s, ownedOnly) && records[i] == RecordOf(r, s, records[i].id))
    && (forall i, j :: 0 <= i < j < |records| ==> records[i].id != records[j].id)
    && (forall id <- Sent(r, s, ownedOnly) :: exists i :: 0 <= i < |records| && records[i].id == id)
  }

  lemma {:induction false} ViewAt(self: nat, records: seq<EntityRecord>, i: nat)
    requires i < |records| && OwnerOf(records[i].id) != self
    requires forall j :: i < j < |records| ==> records[j].id != records[i].id
    ensures records[i].id in SnapshotView(self, records) && SnapshotView(self, records)[records[i].id] == RecordView(records[i])
    decreases |records|
  {
    if i < |records| - 1 {
      ViewAt(self, records[..|records| - 1], i);
    }
  }

  /** The view of a list of records of distinct ids is those records. */
  lemma ViewOfDistinct(self: nat, records: seq<EntityRecord>)
    requires forall i, j :: 0 <= i < j < |records| ==> records[i].id != records[j].id
    ensures SnapshotView(self, records).Keys == Seen(self, records)
    ensures forall i :: 0 <= i < |records| && OwnerOf(records[i].id) != self ==> SnapshotView(self, records)[records[i].id] == RecordView(records[i])
  {
    SnapshotKeys(self, records);
    forall i | 0 <= i < |records| && OwnerOf(records[i].id) != self
      ensures SnapshotView(self, records)[records[i].id] == RecordView(records[i])
    {
      ViewAt(self, records, i);
    }
  }

  lemma EncodedOne(r: ReplicatorState, s: SceneState, ownedOnly: bool, records: seq<EntityRecord>, i: nat)
    requires Encodes(r, s, ownedOnly, records) && i < |records|
    ensures records[i].id in Sent(r, s, ownedOnly) && RecordView(records[i]) == Sent(r, s, ownedOnly)[records[i].id]
  {
    RecordOfShows(r, s, records[i].id);
  }

  lemma SameMaps<T>(m: map<nat, T>, m': map<nat, T>)
    requires (forall id <- m :: id in m' && m'[id] == m[id]) && (forall id <- m' :: id in m)
    ensures m == m'
  {
  }

  /** What a snapshot says to its receiver is what its sender shows, less what the receiver owns itself. */
  lemma EncodeSays(r: ReplicatorState, s: SceneState, ownedOnly: bool, records: seq<EntityRecord>, receiver: nat)
    requires Encodes(r, s, ownedOnly, records)
    ensures SnapshotView(receiver, records) == Remote(receiver, Sent(r, s, ownedOnly))
    ensures forall id :: id in SnapshotView(receiver, records) <==>
      id in View(r, s) && OwnerOf(id) != receiver && (ownedOnly ==> OwnerOf(id) == r.self)
    ensures forall id <- SnapshotView(receiver, records) :: SnapshotView(receiver, records)[id] == View(r, s)[id]
  {
    ViewOfDistinct(receiver, records);
    var out := Sent(r, s, ownedOnly);
    var remote, snap := Remote(receiver, out), SnapshotView(receiver, records);
    forall id | id in remote ensures id in snap && snap[id] == remote[id] {
      var i :| 0 <= i < |records| && records[i].id == id;
      EncodedOne(r, s, ownedOnly, records, i);
    }
    forall id | id in snap ensures id in remote {
      var i :| 0 <= i < |records| && OwnerOf(records[i].id) != receiver && records[i].id == id;
      EncodedOne(r, s, ownedOnly, records, i);
    }
    SameMaps(remote, snap);
  }

  /** End to end: encoding on one side, the bytes, and applying on the other. With a single source the
      receiver then shows exactly what the sender showed, whatever it had applied before. */
  lemma EndToEnd(r: ReplicatorState, s: SceneState, ownedOnly: bool, records: seq<EntityRecord>,
                 q: ReplicatorState, t: SceneState, from: nat)
    requires Encodes(r, s, ownedOnly, records) && SnapshotFits(records)
    requires ReplicatorOk(q, t) && OnlyFrom(q, from)
    ensures ReadBinary(PrintBinary(records)) == Message(records)
    ensures var (q', t') := Apply(q, t, records, from);
      Remote(q.self, View(q', t')) == Remote(q.self, Sent(r, s, ownedOnly)) && ReplicatorOk(q', t') && OnlyFrom(q', from)
  {
    BinaryRoundTrip(records, 0, []);
    EncodeSays(r, s, ownedOnly, records, q.self);
    LatestWins(q, t, records, from);
  }
}
