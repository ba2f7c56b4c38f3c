/** What a replicator shows of one owner at a time. Senders that publish only what they own do not touch each
    other's entities, so the order in which their snapshots are applied does not matter. */
module Parts {
  import opened Wire
  import opened Snapshot
  import opened Scenes
  import opened Replication
  import opened Ownership

  /** The part of a view that one process owns. */
  function Part(owner: nat, view: map<nat, EntityView>): map<nat, EntityView> {
    map id | id in view && OwnerOf(id) == owner :: view[id]
  }

  /** Every source but the hubs has only ever listed entities of its own. */
  ghost predicate Apart(r: ReplicatorState, hubs: set<nat>) {
    forall from <- r.receivedFrom, id <- r.receivedFrom[from] :: from in hubs || OwnerOf(id) == from
  }

  ghost predicate Separate(r: ReplicatorState) { Apart(r, {}) }

  /** What a payload makes of its source's listing of an owner's part: the snapshot overwrites, what was listed
      before and is left out now is gone, and a malformed one changes nothing. */
  function PartAfter(owner: nat, part: map<nat, EntityView>, listed: set<nat>, self: nat, payload: Bytes): map<nat, EntityView> {
    match ReadBinary(payload)
    case Malformed => part
    case Message(records) =>
      var said := Part(owner, SnapshotView(self, records));
      part + said - (listed - said.Keys)
  }

  /** When all that is shown of the owner was listed, its part is then exactly what the snapshot says of it. */
  lemma PartIsSnapshot(owner: nat, part: map<nat, EntityView>, listed: set<nat>, self: nat, payload: Bytes)
    requires ReadBinary(payload).Message? && forall id <- part :: id in listed
    ensures PartAfter(owner, part, listed, self, payload) == Part(owner, SnapshotView(self, ReadBinary(payload).value))
  {
  }

  /** Only what was listed of the owner itself matters, and if nothing of it is shown not even that. */
  lemma SameListed(owner: nat, part: map<nat, EntityView>, listed: set<nat>, listed': set<nat>, self: nat, payload: Bytes)
    requires forall id <- part :: OwnerOf(id) == owner && (id in listed <==> id in listed')
    requires part == map[] || forall id: nat :: OwnerOf(id) == owner ==> (id in listed <==> id in listed')
    ensures PartAfter(owner, part, listed, self, payload) == PartAfter(owner, part, listed', self, payload)
  {
  }

  /** Cutting an owner's part out of an overlaid view. */
  lemma SplitPart(view: map<nat, EntityView>, said: map<nat, EntityView>, listed: set<nat>, k: nat)
    ensures Part(k, view + said - (listed - said.Keys)) == Part(k, view) + Part(k, said) - (listed - Part(k, said).Keys)
  {
    var left, right := Part(k, view + said - (listed - said.Keys)), Part(k, view) + Part(k, said) - (listed - Part(k, said).Keys);
    assert forall id :: id in left <==> id in right;
  }

  /** No snapshot changes what this process owns. */
  lemma OwnPartStays(r: ReplicatorState, part: map<nat, EntityView>, from: nat, payload: Bytes)
    requires OwnIds(r) && forall id <- part :: OwnerOf(id) == r.self
    ensures PartAfter(r.self, part, Previous(r, from), r.self, payload) == part
  {
    if ReadBinary(payload).Message? {
      var said := SnapshotView(r.self, ReadBinary(payload).value);
      SnapshotKeys(r.self, ReadBinary(payload).value);
      assert Part(r.self, said) == map[] by {
        assert forall id <- said :: OwnerOf(id) != r.self;
      }
      assert forall id <- part :: id !in Previous(r, from);
    }
  }

  /** A snapshot of any content, whoever sends it, owner by owner. */
  lemma HubParts(r: ReplicatorState, s: SceneState, payload: Bytes, from: nat, hubs: set<nat>)
    requires ReplicatorOk(r, s) && Apart(r, hubs) && from in hubs
    ensures var (r', s') := ApplyPayload(r, s, payload, from);
      && ReplicatorOk(r', s') && r'.self == r.self && Apart(r', hubs)
      && (forall k: nat :: Part(k, View(r', s')) == PartAfter(k, Part(k, View(r, s)), Previous(r, from), r.self, payload))
      && (forall k: nat :: k != from ==> Previous(r', k) == Previous(r, k))
  {
    if ReadBinary(payload).Message? {
      var records := ReadBinary(payload).value;
      ApplyShows(r, s, records, from);
      forall k: nat {
        SplitPart(View(r, s), SnapshotView(r.self, records), Previous(r, from), k);
      }
    }
  }

  lemma OwnersSaid(self: nat, records: seq<EntityRecord>, from: nat)
    requires forall rec <- records :: OwnerOf(rec.id) == from
    ensures forall id <- SnapshotView(self, records) :: OwnerOf(id) == from
  {
    SnapshotKeys(self, records);
    forall id | id in SnapshotView(self, records) ensures OwnerOf(id) == from {
      var i :| 0 <= i < |records| && OwnerOf(records[i].id) != self && records[i].id == id;
      assert records[i] in records;
    }
  }

  /** What one owner says of itself leaves the other parts alone. */
  lemma OthersPart(view: map<nat, EntityView>, said: map<nat, EntityView>, listed: set<nat>, from: nat, k: nat)
    requires k != from && (forall id <- said :: OwnerOf(id) == from) && (forall id <- listed :: OwnerOf(id) == from)
    ensures Part(k, view + said - (listed - said.Keys)) == Part(k, view)
  {
    var left := Part(k, view + said - (listed - said.Keys));
    assert forall id :: id in left <==> id in Part(k, view);
  }

  lemma ApplyParts(r: ReplicatorState, s: SceneState, records: seq<EntityRecord>, from: nat, hubs: set<nat>)
    requires ReplicatorOk(r, s) && Apart(r, hubs) && from !in hubs && forall rec <- records :: OwnerOf(rec.id) == from
    ensures var (r', s') := Apply(r, s, records, from);
      var said := Part(from, SnapshotView(r.self, records));
      && ReplicatorOk(r', s') && r'.self == r.self && Apart(r', hubs)
      && (forall k: nat :: k != from ==> Part(k, View(r', s')) == Part(k, View(r, s)) && Previous(r', k) == Previous(r, k))
      && Part(from, View(r', s')) == Part(from, View(r, s)) + said - (Previous(r, from) - said.Keys)
  {
    var said := SnapshotView(r.self, records);
    ApplyShows(r, s, records, from);
    OwnersSaid(r.self, records, from);
    SplitPart(View(r, s), said, Previous(r, from), from);
    forall k: nat | k != from {
      OthersPart(View(r, s), said, Previous(r, from), from, k);
    }
  }

  /** A snapshot of what its sender owns changes the sender's part, as it says, and no other. */
  lemma PayloadParts(r: ReplicatorState, s: SceneState, payload: Bytes, from: nat, hubs: set<nat>)
    requires ReplicatorOk(r, s) && Apart(r, hubs) && from !in hubs && Honest(from, payload)
    ensures var (r', s') := ApplyPayload(r, s, payload, from);
      && ReplicatorOk(r', s') && r'.self == r.self && Apart(r', hubs)
      && (forall k: nat :: k != from ==> Part(k, View(r', s')) == Part(k, View(r, s)) && Previous(r', k) == Previous(r, k))
      && Part(from, View(r', s')) == PartAfter(from, Part(from, View(r, s)), Previous(r, from), r.self, payload)
  {
    if ReadBinary(payload).Message? {
      ApplyParts(r, s, ReadBinary(payload).value, from, hubs);
    }
  }

  lemma Without(view: map<nat, EntityView>, owned: set<nat>, owner: nat)
    requires forall id <- owned :: OwnerOf(id) == owner
    requires forall id <- view :: OwnerOf(id) == owner ==> id in owned
    ensures forall k: nat :: Part(k, view - owned) == if k == owner then map[] else Part(k, view)
  {
    forall k: nat ensures Part(k, view - owned) == if k == owner then map[] else Part(k, view) {
      assert k != owner ==> forall id :: id in Part(k, view - owned) <==> id in Part(k, view);
    }
  }

  /** A drop empties one part and no other; the hubs' listings lose nothing but what was dropped. */
  lemma DropParts(r: ReplicatorState, s: SceneState, owner: nat, hubs: set<nat>)
    requires ReplicatorOk(r, s) && Apart(r, hubs) && owner != r.self
    ensures var (r', s') := DropOwner(r, s, owner);
      && ReplicatorOk(r', s') && r'.self == r.self && Apart(r', hubs)
      && (forall k: nat :: k != owner ==> Part(k, View(r', s')) == Part(k, View(r, s)))
      && (forall k: nat :: k != owner && k !in hubs ==> Previous(r', k) == Previous(r, k))
      && (forall k: nat, id: nat :: k != owner && OwnerOf(id) != owner ==> (id in Previous(r', k) <==> id in Previous(r, k)))
      && Part(owner, View(r', s')) == map[] && Previous(r', owner) == {}
  {
    var (r', s') := DropOwner(r, s, owner);
    DropShows(r, s, owner);
    Without(View(r, s), OwnedBy(r, owner), owner);
    DropApart(r, r', owner, hubs);
  }

  lemma DropApart(r: ReplicatorState, r': ReplicatorState, owner: nat, hubs: set<nat>)
    requires Apart(r, hubs) && forall k: nat :: Previous(r', k) == if k == owner then {} else Previous(r, k) - OwnedBy(r, owner)
    ensures Apart(r', hubs)
    ensures forall k: nat :: k != owner && k !in hubs ==> Previous(r', k) == Previous(r, k)
  {
    forall k: nat | k != owner && k !in hubs ensures Previous(r', k) == Previous(r, k) {
      assert forall id <- Previous(r, k) :: id !in OwnedBy(r, owner);
    }
    forall from, id | from in r'.receivedFrom && id in r'.receivedFrom[from] ensures from in hubs || OwnerOf(id) == from {
      assert id in Previous(r', from) && id in Previous(r, from);
    }
  }
}
