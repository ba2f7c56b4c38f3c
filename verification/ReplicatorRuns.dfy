/** Whole lives of a replicator: everything its users may do to it and to the scene, in any order. */
module ReplicatorRuns {
  import opened Wire
  import opened Snapshot
  import opened Scenes
  import opened Replication

  datatype Action =
    | TrackIt(entity: nat)
    | UntrackIt(entity: nat)
    | BindIt(id: nat, entity: nat)
    | Annotate(id: nat, extra: Bytes)
    | ApplyIt(records: seq<EntityRecord>, from: nat)
    | DropIt(owner: nat)
    | ChangeScene(to: SceneState)         // the game's own changes

  /** Entities that are tracked or bound come from the scene, which only ever hands out more ids; and ids are
      not used up. */
  ghost predicate Allowed(r: ReplicatorState, s: SceneState, a: Action) {
    match a
    case TrackIt(e) => e < s.nextId && (e !in r.netIds ==> r.nextLocal < LOCAL_SPAN)
    case BindIt(_, e) => e < s.nextId
    case ChangeScene(to) => SceneOk(to) && s.nextId <= to.nextId
    case _ => true
  }

  function Act(r: ReplicatorState, s: SceneState, a: Action): (ReplicatorState, SceneState) {
    match a
    case TrackIt(e) => (Track(r, e).0, s)
    case UntrackIt(e) => (Untrack(r, e), s)
    case BindIt(id, e) => (Bind(r, id, e), s)
    case Annotate(id, extra) => (SetExtra(r, id, extra), s)
    case ApplyIt(records, from) => Apply(r, s, records, from)
    case DropIt(owner) => DropOwner(r, s, owner)
    case ChangeScene(to) => (r, to)
  }

  ghost predicate Life(r: ReplicatorState, s: SceneState, actions: seq<Action>)
    decreases |actions|
  {
    actions != [] ==> Allowed(r, s, actions[0]) && var (r1, s1) := Act(r, s, actions[0]); Life(r1, s1, actions[1..])
  }

  function ActAll(r: ReplicatorState, s: SceneState, actions: seq<Action>): (ReplicatorState, SceneState)
    decreases |actions|
  {
    if actions == [] then (r, s) else var (r1, s1) := Act(r, s, actions[0]); ActAll(r1, s1, actions[1..])
  }

  /** The ids handed out for entities that were not tracked yet, in order. */
  function HandedOut(r: ReplicatorState, s: SceneState, actions: seq<Action>): seq<nat>
    decreases |actions|
  {
    if actions == [] then [] else
    var (r1, s1) := Act(r, s, actions[0]);
    var rest := HandedOut(r1, s1, actions[1..]);
    if actions[0].TrackIt? && actions[0].entity !in r.netIds then [Track(r, actions[0].entity).1] + rest else rest
  }

  lemma ActKeeps(r: ReplicatorState, s: SceneState, a: Action)
    requires ReplicatorOk(r, s) && Allowed(r, s, a)
    ensures var (r', s') := Act(r, s, a);
      ReplicatorOk(r', s') && r'.self == r.self && r'.nextLocal >= r.nextLocal
      && (a.TrackIt? && a.entity !in r.netIds ==> r'.nextLocal == r.nextLocal + 1)
  {
    match a
    case TrackIt(e) =>
      if e !in r.netIds {
        TrackFresh(r, s, e);
      }
    case UntrackIt(e) => UntrackKeeps(r, s, e);
    case BindIt(id, e) => BindKeeps(r, s, id, e);
    case ApplyIt(records, from) => ApplyShows(r, s, records, from);
    case DropIt(owner) => DropShows(r, s, owner);
    case Annotate(_, _) =>
    case ChangeScene(_) =>
  }

  /** The two maps stay inverse to each other, and the other invariants hold, through every life. */
  lemma {:induction false} LifeKeeps(r: ReplicatorState, s: SceneState, actions: seq<Action>)
    requires ReplicatorOk(r, s) && Life(r, s, actions)
    ensures var (r', s') := ActAll(r, s, actions);
      ReplicatorOk(r', s') && r'.self == r.self && r'.nextLocal >= r.nextLocal
    decreases |actions|
  {
    if actions != [] {
      ActKeeps(r, s, actions[0]);
      var (r1, s1) := Act(r, s, actions[0]);
      LifeKeeps(r1, s1, actions[1..]);
    }
  }

  /** Ids of self with strictly increasing local parts, none below from. */
  ghost predicate Climbing(self: nat, from: nat, ids: seq<nat>) {
    && (forall id <- ids :: OwnerOf(id) == self && LocalOf(id) >= from)
    && (forall i, j :: 0 <= i < j < |ids| ==> LocalOf(ids[i]) < LocalOf(ids[j]))
  }

  lemma ClimbingOn(self: nat, from: nat, id: nat, rest: seq<nat>)
    requires OwnerOf(id) == self && LocalOf(id) >= from && Climbing(self, LocalOf(id) + 1, rest)
    ensures Climbing(self, from, [id] + rest)
  {
    assert forall j :: 0 <= j < |rest| ==> rest[j] in rest;
  }

  /** No id is ever handed out twice, nor one that was bound or received before: each belongs to this process
      and its local part is above every one used so far. */
  lemma {:induction false} HandedOutOnce(r: ReplicatorState, s: SceneState, actions: seq<Action>)
    requires ReplicatorOk(r, s) && Life(r, s, actions)
    ensures Climbing(r.self, r.nextLocal, HandedOut(r, s, actions))
    decreases |actions|
  {
    if actions != [] {
      var a := actions[0];
      ActKeeps(r, s, a);
      var (r1, s1) := Act(r, s, a);
      HandedOutOnce(r1, s1, actions[1..]);
      if a.TrackIt? && a.entity !in r.netIds {
        TrackFresh(r, s, a.entity);
        ClimbingOn(r.self, r.nextLocal, Track(r, a.entity).1, HandedOut(r1, s1, actions[1..]));
      }
    }
  }

  /** From an empty replicator over an empty scene. */
  lemma EveryLife(self: nat, actions: seq<Action>)
    requires Life(NewReplicator(self), EMPTY_SCENE, actions)
    ensures var (r, s) := ActAll(NewReplicator(self), EMPTY_SCENE, actions);
      var ids := HandedOut(NewReplicator(self), EMPTY_SCENE, actions);
      ReplicatorOk(r, s) && forall i, j :: 0 <= i < j < |ids| ==> ids[i] != ids[j]
  {
    LifeKeeps(NewReplicator(self), EMPTY_SCENE, actions);
    HandedOutOnce(NewReplicator(self), EMPTY_SCENE, actions);
  }

  /** Received data never reaches what this process owns: whatever is applied, from whomever, and whoever
      else is dropped, its entities stay mapped and look exactly as they did. */
  lemma OwnedIsSafe(r: ReplicatorState, s: SceneState, a: Action, id: nat)
    requires ReplicatorOk(r, s) && id in r.entities && OwnerOf(id) == r.self && (a.ApplyIt? || a.DropIt?)
    ensures var (r', s') := Act(r, s, a);
      id in r'.entities && r'.entities[id] == r.entities[id] && SameEntity(s, s', r.entities[id])
  {
    match a
    case ApplyIt(records, from) => ApplySpares(r, s, records, from);
    case DropIt(owner) =>
      if owner != r.self {
        ForgetSpares(r, s, OwnedBy(r, owner));
        OwnSpared(r, s, Forget(r, s, OwnedBy(r, owner)).0, Forget(r, s, OwnedBy(r, owner)).1, OwnedBy(r, owner));
      }
  }
}
