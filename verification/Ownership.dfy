/** Whose entities a replicator holds. */
module Ownership {
  import opened Wire
  import opened Snapshot
  import opened Scenes
  import opened Replication

  /** A payload as its sender's replicator encodes it: only entities the sender owns. */
  ghost predicate Honest(from: nat, payload: Bytes) {
    ReadBinary(payload).Message? ==> forall rec <- ReadBinary(payload).value :: OwnerOf(rec.id) == from
  }

  /** encodeOwned is honest. */
  lemma EncodeOwnedIsHonest(r: ReplicatorState, s: SceneState, records: seq<EntityRecord>)
    requires Encodes(r, s, true, records) && SnapshotFits(records)
    ensures Honest(r.self, PrintBinary(records))
  {
    BinaryRoundTrip(records, 0, []);
    forall rec | rec in records ensures OwnerOf(rec.id) == r.self {
      var i :| 0 <= i < |records| && records[i] == rec;
    }
  }

  ghost predicate OwnsNothing(r: ReplicatorState, id: nat) { forall k <- r.entities :: OwnerOf(k) != id }

  /** What applying a payload does; a malformed one does nothing. */
  function ApplyPayload(r: ReplicatorState, s: SceneState, payload: Bytes, from: nat): (ReplicatorState, SceneState) {
    match ReadBinary(payload)
    case Message(records) => Apply(r, s, records, from)
    case Malformed => (r, s)
  }

  /** An honest payload brings in nothing but its sender's own entities. */
  lemma ApplyBringsOwn(r: ReplicatorState, s: SceneState, payload: Bytes, from: nat)
    requires ReplicatorOk(r, s) && Honest(from, payload)
    ensures var (r', s') := ApplyPayload(r, s, payload, from);
      && ReplicatorOk(r', s') && r'.self == r.self
      && forall id: nat :: id != from && OwnsNothing(r, id) ==> OwnsNothing(r', id)
  {
    if ReadBinary(payload).Message? {
      var records := ReadBinary(payload).value;
      ApplyShows(r, s, records, from);
      SnapshotKeys(r.self, records);
      var (r', s') := ApplyPayload(r, s, payload, from);
      forall id: nat, k | id != from && OwnsNothing(r, id) && k in r'.entities ensures OwnerOf(k) != id {
        if k !in r.entities {
          var i :| 0 <= i < |records| && OwnerOf(records[i].id) != r.self && records[i].id == k;
          assert records[i] in records;
        }
      }
    }
  }

  lemma DropLeavesNothing(r: ReplicatorState, s: SceneState, owner: nat)
    requires ReplicatorOk(r, s)
    ensures var (r', s') := DropOwner(r, s, owner);
      && ReplicatorOk(r', s') && r'.self == r.self && (owner != r.self ==> OwnsNothing(r', owner))
      && forall id: nat :: OwnsNothing(r, id) ==> OwnsNothing(r', id)
  {
    DropShows(r, s, owner);
  }
}
