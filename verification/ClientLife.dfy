/** Whole lives of a client's replicator: it applies what the server publishes, and in between the game tracks,
    binds, annotates, drops and changes its scene, in any order. */
module ClientLives {
  import opened Protocol
  import opened Scenes
  import opened Replication
  import opened ReplicatorRuns

  /** An id is bound only if this process owns it or the source's last snapshot named it. */
  ghost predicate BindKnown(r: ReplicatorState, id: nat, from: nat) {
    OwnerOf(id) == r.self || id in Previous(r, from)
  }

  /** The source itself is dropped only if nothing it sent belongs to anyone else. */
  ghost predicate DropKnown(r: ReplicatorState, owner: nat, from: nat) {
    owner == r.self || owner != from || forall id <- r.entities :: OwnerOf(id) == r.self || OwnerOf(id) == owner
  }

  ghost predicate OneSource(r: ReplicatorState, a: Action, from: nat) {
    match a
    case ApplyIt(_, source) => source == from
    case BindIt(id, _) => BindKnown(r, id, from)
    case DropIt(owner) => DropKnown(r, owner, from)
    case _ => true
  }

  ghost predicate Serving(r: ReplicatorState, s: SceneState, actions: seq<Action>, from: nat)
    decreases |actions|
  {
    actions != [] ==>
      && Allowed(r, s, actions[0]) && OneSource(r, actions[0], from)
      && var (r1, s1) := Act(r, s, actions[0]); Serving(r1, s1, actions[1..], from)
  }

  /** A bind keeps everything remote among what the source listed if and only if the id is known. */
  lemma BindExactly(r: ReplicatorState, id: nat, e: nat, from: nat)
    requires OnlyFrom(r, from)
    ensures OnlyFrom(Bind(r, id, e), from) <==> BindKnown(r, id, from)
  {
    assert id in Bind(r, id, e).entities && Previous(Bind(r, id, e), from) == Previous(r, from);
  }

  /** And a drop if and only if it is not of the source while others' entities came from it. */
  lemma DropExactly(r: ReplicatorState, s: SceneState, owner: nat, from: nat)
    requires OnlyFrom(r, from)
    ensures OnlyFrom(DropOwner(r, s, owner).0, from) <==> DropKnown(r, owner, from)
  {
    var r' := DropOwner(r, s, owner).0;
    if owner != r.self {
      assert r'.entities == r.entities - OwnedBy(r, owner);
      if owner != from {
        assert Previous(r', from) == Previous(r, from) - OwnedBy(r, owner);
      } else {
        assert Previous(r', from) == {};
        forall id | id in r.entities && OwnerOf(id) != r.self && OwnerOf(id) != owner ensures id in r'.entities {
        }
      }
    }
  }

  lemma ActServes(r: ReplicatorState, s: SceneState, a: Action, from: nat)
    requires ReplicatorOk(r, s) && OnlyFrom(r, from) && Allowed(r, s, a) && OneSource(r, a, from)
    ensures var (r', s') := Act(r, s, a); ReplicatorOk(r', s') && OnlyFrom(r', from) && r'.self == r.self
  {
    ActKeeps(r, s, a);
    match a
    case ApplyIt(records, _) => LatestWins(r, s, records, from);
    case BindIt(id, e) => BindExactly(r, id, e, from);
    case DropIt(owner) => DropExactly(r, s, owner, from);
    case TrackIt(e) =>
      if e !in r.netIds {
        TrackFresh(r, s, e);
      }
    case _ =>
  }

  lemma {:induction false} ServingKeeps(r: ReplicatorState, s: SceneState, actions: seq<Action>, from: nat)
    requires ReplicatorOk(r, s) && OnlyFrom(r, from) && Serving(r, s, actions, from)
    ensures var (r', s') := ActAll(r, s, actions); ReplicatorOk(r', s') && OnlyFrom(r', from) && r'.self == r.self
    decreases |actions|
  {
    if actions != [] {
      ActServes(r, s, actions[0], from);
      var (r1, s1) := Act(r, s, actions[0]);
      ServingKeeps(r1, s1, actions[1..], from);
    }
  }

  /** At every point of every life of a client everything remote is what the server's last snapshot listed. */
  lemma EveryClientLife(self: nat, scene: SceneState, actions: seq<Action>)
    requires SceneOk(scene) && Serving(NewReplicator(self), scene, actions, SERVER_ID)
    ensures var (r, s) := ActAll(NewReplicator(self), scene, actions);
      ReplicatorOk(r, s) && OnlyFrom(r, SERVER_ID) && r.self == self
  {
    ServingKeeps(NewReplicator(self), scene, actions, SERVER_ID);
  }
}
