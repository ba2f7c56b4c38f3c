/** The scene replicator itself, over a Scene; each method is proved against its function in Replication. */
module Replicators {
  import opened Options
  import opened Wire
  import opened Snapshot
  import opened SnapshotCodec
  import opened Scenes
  import opened Replication

  const MAX_OWNER: nat := 255
  const OPEN_BRACE: nat := 0x7B

  /** A snapshot's records. json is what the JSON reader makes of it, for one that begins with a brace. */
  function ReadSnapshot(snapshot: Bytes, json: Option<seq<EntityRecord>>): Option<seq<EntityRecord>> {
    if snapshot != [] && snapshot[0] as nat == OPEN_BRACE then json
    else match ReadBinary(snapshot) case Message(records) => Some(records) case Malformed => None
  }

  class SceneReplicator {
    const self: nat
    var nextLocal: nat
    var entities: map<nat, nat>
    var netIds: map<nat, nat>
    var extras: map<nat, Bytes>
    var receivedFrom: map<nat, set<nat>>    // the ids each source's last snapshot named

    ghost function State(): ReplicatorState
      reads this
    {
      ReplicatorState(self, nextLocal, entities, netIds, extras, receivedFrom)
    }

    constructor (self: nat)
      ensures State() == NewReplicator(self)
    {
      this.self := self;
      nextLocal, entities, netIds, extras, receivedFrom := 0, map[], map[], map[], map[];
    }

    method TrackEntity(entity: nat) returns (id: nat)
      requires self <= MAX_OWNER && (entity !in netIds ==> nextLocal < LOCAL_SPAN)
      modifies this
      ensures (State(), id) == Track(old(State()), entity)
    {
      if entity in netIds {
        return netIds[entity];
      }
      id := MakeNetId(self, nextLocal);
      nextLocal := nextLocal + 1;
      entities := entities[id := entity];
      netIds := netIds[entity := id];
    }

    method UntrackEntity(entity: nat)
      modifies this
      ensures State() == Untrack(old(State()), entity)
    {
      if entity !in netIds {
        return;
      }
      var id := netIds[entity];
      entities := entities - {id};
      extras := extras - {id};
      netIds := netIds - {entity};
    }

    method PutExtra(id: nat, extra: Bytes)
      modifies this
      ensures State() == SetExtra(old(State()), id, extra)
    {
      extras := extras[id := extra];
    }

    method BindEntity(id: nat, entity: nat)
      modifies this
      ensures State() == Bind(old(State()), id, entity)
    {
      if id in entities {
        netIds := netIds - {entities[id]};
      }
      if entity in netIds {
        entities := entities - {netIds[entity]};
      }
      entities := entities[id := entity];
      netIds := netIds[entity := id];
      if OwnerOf(id) == self && LocalOf(id) >= nextLocal {
        nextLocal := LocalOf(id) + 1;
      }
    }

    // ---- encoding -----------------------------------------------------------------------------------

    method Bodies(scene: Scene, entity: nat) returns (rigidBody: Option<Vec2>, collider: Option<Vec2>, shape: Option<Shape>)
      ensures rigidBody == RigidBodyOf(scene.View(), entity)
      ensures collider == ColliderOf(scene.View(), entity)
      ensures shape == ShapeOf(scene.View(), entity)
    {
      rigidBody, collider, shape := None, None, None;
      var found := scene.Find(RigidBodies, entity);
      if found.Some? && found.value.RigidBody? {
        rigidBody := Some(found.value.velocity);
      }
      found := scene.Find(Colliders, entity);
      if found.Some? && found.value.Collider? {
        collider := Some(found.value.extent);
      }
      found := scene.Find(Shapes, entity);
      if found.Some? && found.value.Visual? {
        shape := Some(found.value.shape);
      }
    }

    method Describe(scene: Scene, id: nat, entity: nat) returns (rec: EntityRecord)
      requires id in entities && entities[id] == entity && entity in scene.transforms
      ensures rec == RecordOf(State(), scene.View(), id)
    {
      var mask := 0;
      rec := EntityRecord(id, 0, scene.transforms[entity], NO_VEC2, NO_VEC2, NO_SHAPE, []);
      var rigidBody, collider, shape := Bodies(scene, entity);
      if rigidBody.Some? {
        mask := mask + 1;
        rec := rec.(rigidBody := rigidBody.value);
      }
      if collider.Some? {
        mask := mask + 2;
        rec := rec.(collider := collider.value);
      }
      if shape.Some? {
        mask := mask + 4;
        rec := rec.(shape := SentShape(shape.value.size, shape.value.color, if shape.value.tiled then 1 else 0));
      }
      if id in extras {
        mask := mask + 8;
        rec := rec.(extra := extras[id]);
      }
      rec := rec.(mask := mask);
    }

    /** The map is walked in no particular order. */
    method Encode(scene: Scene, ownedOnly: bool) returns (bytes: Bytes, ghost records: seq<EntityRecord>)
      ensures Encodes(State(), scene.View(), ownedOnly, records) && bytes == PrintBinary(records)
    {
      var list: seq<EntityRecord> := [];
      ghost var r, s := State(), scene.View();
      var left := entities.Keys;
      while left != {}
        invariant left <= entities.Keys && EncodesAllBut(r, s, ownedOnly, list, left)
        decreases |left|
      {
        var id :| id in left;
        var live := scene.HasEntity(entities[id]);
        if (!ownedOnly || OwnerOf(id) == self) && live {
          var rec := Describe(scene, id, entities[id]);
          EncodeMore(r, s, ownedOnly, list, left, id);
          list := list + [rec];
        }
        left := left - {id};
      }
      EncodedAll(r, s, ownedOnly, list);
      records := list;
      bytes := WriteBinary(list);
    }

    // ---- applying -----------------------------------------------------------------------------------

    method WriteRecord(scene: Scene, entity: nat, rec: EntityRecord)
      requires entity in scene.transforms
      modifies scene
      ensures scene.View() == Write(old(scene.View()), entity, rec)
    {
      var ok := scene.SetTransform(entity, rec.transform);
      PlaceComponent(scene, entity, HasRigidBody(rec.mask), RigidBody(rec.rigidBody));
      PlaceComponent(scene, entity, HasCollider(rec.mask), Collider(rec.collider));
      var shape := Shape(rec.shape.size, rec.shape.color, None, rec.shape.tiled != 0);
      var local := scene.Find(Shapes, entity);
      match local {
        case Some(Visual(h)) => shape := shape.(texture := h.texture);
        case _ =>
      }
      PlaceComponent(scene, entity, HasShape(rec.mask), Visual(shape));
    }

    method PlaceComponent(scene: Scene, entity: nat, present: bool, c: Component)
      requires entity in scene.transforms
      modifies scene
      ensures scene.View() == Place(old(scene.View()), entity, present, c)
    {
      if present {
        var ok := scene.Add(entity, c);
      } else {
        scene.Remove(KindOf(c), entity);
      }
    }

    method ApplyRecord(scene: Scene, rec: EntityRecord)
      requires ReplicatorOk(State(), scene.View())
      modifies this, scene
      ensures ReplicatorOk(State(), scene.View())
      ensures (State(), scene.View()) == Record(old(State()), old(scene.View()), rec)
    {
      RecordStep(State(), scene.View(), rec);
      if OwnerOf(rec.id) == self {
        return;
      }
      var entity := SettleRecord(scene, rec.id);
      WriteRecord(scene, entity, rec);
      if HasExtra(rec.mask) {
        extras := extras[rec.id := rec.extra];
      } else {
        extras := extras - {rec.id};
      }
    }

    method SettleRecord(scene: Scene, id: nat) returns (entity: nat)
      modifies this, scene
      ensures (State(), scene.View()) == Settle(old(State()), old(scene.View()), id)
      ensures id in entities && entities[id] == entity && entity in scene.transforms
    {
      if id in entities {
        entity := entities[id];
        var live := scene.HasEntity(entity);
        if live {
          return;
        }
        netIds := netIds - {entity};
      }
      entity := scene.CreateEntity();
      entities := entities[id := entity];
      netIds := netIds[entity := id];
    }

    method ForgetId(scene: Scene, id: nat)
      requires ReplicatorOk(State(), scene.View())
      modifies this, scene
      ensures ReplicatorOk(State(), scene.View())
      ensures (State(), scene.View()) == Forget(old(State()), old(scene.View()), {id})
    {
      ForgetShows(State(), scene.View(), {id});
      if id in entities {
        var entity := entities[id];
        assert Mapped(State(), {id}) == {entity};
        scene.DestroyEntity(entity);
        netIds := netIds - {entity};
        entities := entities - {id};
      } else {
        assert Mapped(State(), {id}) == {};
        NothingDestroyed(scene.View(), Mapped(State(), {id}));
        assert entities - {id} == entities && netIds - Mapped(State(), {id}) == netIds;
      }
      extras := extras - {id};
    }

    method ForgetAll(scene: Scene, ids: set<nat>)
      requires ReplicatorOk(State(), scene.View())
      modifies this, scene
      ensures ReplicatorOk(State(), scene.View())
      ensures (State(), scene.View()) == Forget(old(State()), old(scene.View()), ids)
    {
      ghost var r, s := State(), scene.View();
      var left := ids;
      NothingForgotten(r, s, ids - left);
      while left != {}
        invariant left <= ids && ReplicatorOk(State(), scene.View())
        invariant (State(), scene.View()) == Forget(r, s, ids - left)
        decreases |left|
      {
        var id :| id in left;
        ForgetMore(r, s, ids - left, id);
        ForgetId(scene, id);
        assert ids - left + {id} == ids - (left - {id});
        left := left - {id};
      }
      assert ids - left == ids;
    }

    /** apply(): nothing is changed until the whole snapshot has been read and found well-formed. */
    method ApplySnapshot(scene: Scene, snapshot: Bytes, json: Option<seq<EntityRecord>>, from: nat) returns (ok: bool)
      requires ReplicatorOk(State(), scene.View())
      modifies this, scene
      ensures ReplicatorOk(State(), scene.View())
      ensures match ReadSnapshot(snapshot, json)
        case None => !ok && State() == old(State()) && scene.View() == old(scene.View())
        case Some(records) => ok && (State(), scene.View()) == Apply(old(State()), old(scene.View()), records, from)
      ensures if snapshot != [] && snapshot[0] == 0x7B then ok == json.Some? else ok == ReadBinary(snapshot).Message?
    {
      var records: seq<EntityRecord>;
      if snapshot != [] && snapshot[0] as nat == OPEN_BRACE {
        if json.None? {
          return false;
        }
        records := json.value;
      } else {
        ok, records := ReadRecords(snapshot);
        if !ok {
          return false;
        }
      }
      ApplyRead(scene, records, from);
      ok := true;
    }

    method ApplyRead(scene: Scene, records: seq<EntityRecord>, from: nat)
      requires ReplicatorOk(State(), scene.View())
      modifies this, scene
      ensures ReplicatorOk(State(), scene.View())
      ensures (State(), scene.View()) == Apply(old(State()), old(scene.View()), records, from)
    {
      ghost var r, s := State(), scene.View();
      ApplyShows(r, s, records, from);
      var seen := ApplyRecords(scene, records);
      RecordsShow(r, s, records);
      var previous := if from in receivedFrom then receivedFrom[from] else {};
      ForgetAll(scene, previous - seen);
      receivedFrom := receivedFrom[from := seen];
    }

    method ApplyRecords(scene: Scene, records: seq<EntityRecord>) returns (seen: set<nat>)
      requires ReplicatorOk(State(), scene.View())
      modifies this, scene
      ensures ReplicatorOk(State(), scene.View())
      ensures (State(), scene.View()) == Records(old(State()), old(scene.View()), records)
      ensures seen == Seen(self, records)
    {
      seen := {};
      ghost var r, s := State(), scene.View();
      var i := 0;
      while i < |records|
        invariant 0 <= i <= |records| && ReplicatorOk(State(), scene.View())
        invariant (State(), scene.View()) == Records(r, s, records[..i])
        invariant seen == Seen(self, records[..i])
      {
        var rec := records[i];
        assert records[..i + 1][..i] == records[..i];
        SeenGrows(self, records[..i + 1]);
        ApplyRecord(scene, rec);
        if OwnerOf(rec.id) != self {
          seen := seen + {rec.id};
        }
        i := i + 1;
      }
      assert records[..i] == records;
    }

    method Drop(scene: Scene, owner: nat)
      requires ReplicatorOk(State(), scene.View())
      modifies this, scene
      ensures ReplicatorOk(State(), scene.View())
      ensures (State(), scene.View()) == DropOwner(old(State()), old(scene.View()), owner)
    {
      DropShows(State(), scene.View(), owner);
      if owner == self {
        return;
      }
      var owned := set id | id in entities && OwnerOf(id) == owner;
      ForgetAll(scene, owned);
      UnlistAll(owned);
      receivedFrom := receivedFrom - {owner};
    }

    /** Strikes ids from every source's list. */
    method UnlistAll(ids: set<nat>)
      modifies this
      ensures State() == old(State()).(receivedFrom := map from | from in old(receivedFrom) :: old(receivedFrom)[from] - ids)
    {
      var left := receivedFrom.Keys;
      while left != {}
        invariant left <= receivedFrom.Keys == old(receivedFrom).Keys
        invariant State() == old(State()).(receivedFrom := receivedFrom)
        invariant forall from <- receivedFrom :: receivedFrom[from] == if from in left then old(receivedFrom)[from] else old(receivedFrom)[from] - ids
        decreases |left|
      {
        var from :| from in left;
        receivedFrom := receivedFrom[from := receivedFrom[from] - ids];
        left := left - {from};
      }
    }
  }

  /** The encoding loop has done all the ids it is going to but those left. */
  ghost predicate EncodesAllBut(r: ReplicatorState, s: SceneState, ownedOnly: bool, list: seq<EntityRecord>, left: set<nat>) {
    && (forall rec <- list :: rec.id !in left && rec.id in Sent(r, s, ownedOnly) && rec == RecordOf(r, s, rec.id))
    && (forall i, j :: 0 <= i < j < |list| ==> list[i].id != list[j].id)
    && (forall id <- Sent(r, s, ownedOnly) :: id in left || exists rec <- list :: rec.id == id)
  }

  lemma EncodeMore(r: ReplicatorState, s: SceneState, ownedOnly: bool, list: seq<EntityRecord>, left: set<nat>, id: nat)
    requires EncodesAllBut(r, s, ownedOnly, list, left) && id in left && id in Sent(r, s, ownedOnly)
    ensures EncodesAllBut(r, s, ownedOnly, list + [RecordOf(r, s, id)], left - {id})
  {
    var rec := RecordOf(r, s, id);
    assert rec in list + [rec] && rec.id == id;
    assert forall x <- list :: x in list + [rec];
  }

  lemma EncodedAll(r: ReplicatorState, s: SceneState, ownedOnly: bool, list: seq<EntityRecord>)
    requires EncodesAllBut(r, s, ownedOnly, list, {})
    ensures Encodes(r, s, ownedOnly, list)
  {
    forall id | id in Sent(r, s, ownedOnly) ensures exists i :: 0 <= i < |list| && list[i].id == id {
      var rec :| rec in list && rec.id == id;
      var i :| 0 <= i < |list| && list[i] == rec;
    }
  }

  lemma DestroyedTwice(s: SceneState, a: set<nat>, b: set<nat>)
    ensures Destroy(Destroy(s, a), b) == Destroy(s, a + b)
  {
    assert s.transforms - a - b == s.transforms - (a + b);
    assert forall kind <- s.stores :: s.stores[kind] - a - b == s.stores[kind] - (a + b);
  }

  lemma ForgetMore(r: ReplicatorState, s: SceneState, ids: set<nat>, id: nat)
    requires MutualInverses(r) && id !in ids
    ensures var (r1, s1) := Forget(r, s, ids); Forget(r1, s1, {id}) == Forget(r, s, ids + {id})
  {
    var (r1, s1) := Forget(r, s, ids);
    assert Mapped(r, ids + {id}) == Mapped(r, ids) + Mapped(r1, {id});
    DestroyedTwice(s, Mapped(r, ids), Mapped(r1, {id}));
    assert r.entities - ids - {id} == r.entities - (ids + {id});
    assert r.extras - ids - {id} == r.extras - (ids + {id});
    assert r.netIds - Mapped(r, ids) - Mapped(r1, {id}) == r.netIds - Mapped(r, ids + {id});
  }
}
