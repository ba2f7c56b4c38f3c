/** Entities and their components: one store per component type, made when first needed. */
module Scenes {
  import opened Options
  import opened Snapshot

  const DEFAULT_TRANSFORM := Transform(Vec2(0, 0), Vec2(0x3F80_0000, 0x3F80_0000))   // scale 1.0f

  datatype Shape = Shape(size: Vec2, color: Color, texture: Option<nat>, tiled: bool)

  datatype Kind = RigidBodies | Colliders | Shapes | Custom(n: nat)

  datatype Component =
    | RigidBody(velocity: Vec2)
    | Collider(extent: Vec2)
    | Visual(shape: Shape)
    | Other(n: nat, value: int)

  function KindOf(c: Component): Kind {
    match c
    case RigidBody(_) => RigidBodies
    case Collider(_) => Colliders
    case Visual(_) => Shapes
    case Other(n, _) => Custom(n)
  }

  datatype SceneState = SceneState(nextId: nat, transforms: map<nat, Transform>, stores: map<Kind, map<nat, Component>>)

  const EMPTY_SCENE := SceneState(1, map[], map[])

  function Get(s: SceneState, kind: Kind, id: nat): Option<Component> {
    if kind in s.stores && id in s.stores[kind] then Some(s.stores[kind][id]) else None
  }

  function Store(s: SceneState, kind: Kind): map<nat, Component> {
    if kind in s.stores then s.stores[kind] else map[]
  }

  function Create(s: SceneState): SceneState {
    s.(nextId := s.nextId + 1, transforms := s.transforms[s.nextId := DEFAULT_TRANSFORM])
  }

  function Put(s: SceneState, id: nat, c: Component): SceneState {
    s.(stores := s.stores[KindOf(c) := Store(s, KindOf(c))[id := c]])
  }

  function Detach(s: SceneState, kind: Kind, id: nat): SceneState {
    if kind in s.stores then s.(stores := s.stores[kind := s.stores[kind] - {id}]) else s
  }

  function Destroy(s: SceneState, ids: set<nat>): SceneState {
    s.(transforms := s.transforms - ids, stores := map kind | kind in s.stores :: s.stores[kind] - ids)
  }

  ghost predicate StoreOk(live: set<nat>, kind: Kind, store: map<nat, Component>) {
    forall id <- store :: id in live && KindOf(store[id]) == kind
  }

  /** Ids count up; every component belongs to a live entity and sits in the store of its own type. */
  ghost predicate SceneOk(s: SceneState) {
    && (forall id <- s.transforms :: id < s.nextId)
    && (forall kind <- s.stores :: StoreOk(s.transforms.Keys, kind, s.stores[kind]))
  }

  /** Everything the scene knows about one entity. */
  ghost predicate SameEntity(s: SceneState, s': SceneState, id: nat) {
    && (id in s.transforms <==> id in s'.transforms) && (id in s.transforms ==> s'.transforms[id] == s.transforms[id])
    && forall kind :: Get(s', kind, id) == Get(s, kind, id)
  }

  lemma CreateFresh(s: SceneState)
    requires SceneOk(s)
    ensures SceneOk(Create(s)) && s.nextId !in s.transforms && forall kind :: Get(Create(s), kind, s.nextId) == None
    ensures forall id :: id != s.nextId ==> SameEntity(s, Create(s), id)
    ensures Create(s).nextId == s.nextId + 1 && s.nextId in Create(s).transforms
    ensures Create(s).transforms[s.nextId] == Transform(Vec2(0, 0), Vec2(0x3F80_0000, 0x3F80_0000))
  {
  }

  lemma PutOnly(s: SceneState, id: nat, c: Component)
    requires SceneOk(s) && id in s.transforms
    ensures SceneOk(Put(s, id, c)) && Get(Put(s, id, c), KindOf(c), id) == Some(c)
    ensures forall kind, k :: (kind != KindOf(c) || k != id) ==> Get(Put(s, id, c), kind, k) == Get(s, kind, k)
    ensures Put(s, id, c).transforms == s.transforms && Put(s, id, c).nextId == s.nextId
  {
    assert StoreOk(s.transforms.Keys, KindOf(c), Store(s, KindOf(c))[id := c]);
  }

  lemma DetachOnly(s: SceneState, kind: Kind, id: nat)
    requires SceneOk(s)
    ensures SceneOk(Detach(s, kind, id)) && Get(Detach(s, kind, id), kind, id) == None
    ensures forall k, other :: (k != id || other != kind) ==> Get(Detach(s, kind, id), other, k) == Get(s, other, k)
    ensures Detach(s, kind, id).transforms == s.transforms && Detach(s, kind, id).nextId == s.nextId
  {
    if kind in s.stores {
      assert StoreOk(s.transforms.Keys, kind, s.stores[kind] - {id});
    }
  }

  /** Destroying leaves no trace of the destroyed and does not touch the rest. */
  lemma DestroyOnly(s: SceneState, ids: set<nat>)
    requires SceneOk(s)
    ensures SceneOk(Destroy(s, ids))
    ensures forall id <- ids :: id !in Destroy(s, ids).transforms && forall kind :: Get(Destroy(s, ids), kind, id) == None
    ensures forall id :: id !in ids ==> SameEntity(s, Destroy(s, ids), id)
    ensures Destroy(s, ids).nextId == s.nextId
  {
    forall kind | kind in s.stores ensures StoreOk(Destroy(s, ids).transforms.Keys, kind, s.stores[kind] - ids) {
    }
  }

  class Scene {
    var nextId: nat
    var transforms: map<nat, Transform>
    var stores: map<Kind, map<nat, Component>>

    ghost function View(): SceneState
      reads this
    {
      SceneState(nextId, transforms, stores)
    }

    constructor ()
      ensures View() == EMPTY_SCENE && SceneOk(View())
    {
      nextId, transforms, stores := 1, map[], map[];
    }

    method CreateEntity() returns (id: nat)
      modifies this
      ensures id == old(nextId) && View() == Create(old(View()))
    {
      id := nextId;
      nextId := nextId + 1;
      transforms := transforms[id := DEFAULT_TRANSFORM];
    }

    /** The stores are visited in no particular order. */
    method DestroyEntity(id: nat)
      modifies this
      ensures View() == Destroy(old(View()), {id})
    {
      transforms := transforms - {id};
      var left := stores.Keys;
      while left != {}
        invariant nextId == old(nextId) && transforms == old(transforms) - {id} && left <= stores.Keys == old(stores).Keys
        invariant forall kind <- stores :: stores[kind] == if kind in left then old(stores)[kind] else old(stores)[kind] - {id}
        decreases |left|
      {
        var kind :| kind in left;
        stores := stores[kind := stores[kind] - {id}];
        left := left - {kind};
      }
    }

    method HasEntity(id: nat) returns (live: bool)
      ensures live == (id in transforms)
    {
      live := id in transforms;
    }

    /** Assigning through transform(id); false where the original throws. */
    method SetTransform(id: nat, t: Transform) returns (ok: bool)
      modifies this
      ensures ok == (id in old(transforms))
      ensures View() == if ok then old(View()).(transforms := old(transforms)[id := t]) else old(View())
    {
      ok := id in transforms;
      if ok {
        transforms := transforms[id := t];
      }
    }

    method EnsureStore(kind: Kind)
      modifies this
      ensures kind in stores && stores[kind] == Store(old(View()), kind)
      ensures View() == old(View()).(stores := old(stores)[kind := Store(old(View()), kind)])
    {
      if kind !in stores {
        var empty: map<nat, Component> := map[];
        stores := stores[kind := empty];
      }
      assert stores == old(stores)[kind := Store(old(View()), kind)];
    }

    /** add<T>; false where the original throws. */
    method Add(id: nat, c: Component) returns (ok: bool)
      modifies this
      ensures ok == (id in transforms)
      ensures View() == if ok then Put(old(View()), id, c) else old(View())
    {
      ok := id in transforms;
      if ok {
        EnsureStore(KindOf(c));
        var store: map<nat, Component> := stores[KindOf(c)][id := c];
        stores := stores[KindOf(c) := store];
      }
    }

    method Remove(kind: Kind, id: nat)
      modifies this
      ensures View() == Detach(old(View()), kind, id)
    {
      if kind in stores {
        stores := stores[kind := stores[kind] - {id}];
      }
    }

    method Find(kind: Kind, id: nat) returns (found: Option<Component>)
      ensures found == Get(View(), kind, id)
    {
      found := None;
      if kind in stores {
        var store := stores[kind];
        if id in store {
          found := Some(store[id]);
        }
      }
    }

    /** each<T0, Ts...>: the entities f is called for, once each, in some order. */
    method Each(first: Kind, rest: seq<Kind>) returns (called: seq<nat>)
      modifies this
      ensures View() == old(View()).(stores := stores) && forall kind, id :: Get(View(), kind, id) == Get(old(View()), kind, id)
      ensures forall id :: id in called <==> Get(View(), first, id).Some? && forall kind <- rest :: Get(View(), kind, id).Some?
      ensures forall i, j :: 0 <= i < j < |called| ==> called[i] != called[j]
    {
      EnsureStore(first);
      called := [];
      var store := stores[first];
      var left := store.Keys;
      ghost var view := View();
      while left != {}
        invariant View() == view && left <= store.Keys
        invariant forall id :: id in called <==> id in store && id !in left && forall kind <- rest :: Get(View(), kind, id).Some?
        invariant forall i, j :: 0 <= i < j < |called| ==> called[i] != called[j]
        decreases |left|
      {
        var id :| id in left;
        var all := HasAll(rest, id);
        if all {
          called := called + [id];
        }
        left := left - {id};
      }
    }

    method HasAll(kinds: seq<Kind>, id: nat) returns (all: bool)
      ensures all <==> forall kind <- kinds :: Get(View(), kind, id).Some?
    {
      all := true;
      var i := 0;
      while i < |kinds| && all
        invariant 0 <= i <= |kinds| && all == forall k :: 0 <= k < i ==> Get(View(), kinds[k], id).Some?
      {
        var found := Find(kinds[i], id);
        all := found.Some?;
        i := i + 1;
      }
    }
  }
}
