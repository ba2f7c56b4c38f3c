/** From publishScene on the server to applySnapshot on a client, through any run of the session. */
module EndToEnd {
  import opened Protocol
  import opened Snapshot
  import opened Scenes
  import opened Replication
  import opened Session
  import opened Roster
  import opened Publishing
  import Peers
  import PeerRuns
  import opened ReplicatorRuns
  import ClientLives

  /** A client's replicator over the same run, after any life from its construction, applies the snapshot the
      client holds: its view of what it does not own is then exactly the server's replicated scene as it was when
      the newest version this client accepted was published. Nothing it applied before matters, and what it
      owns itself is untouched. */
  lemma ClientShowsWhatWasPublished(
      s: System, steps: seq<Step>, p: nat,
      r: ReplicatorState, scene: SceneState, records: seq<EntityRecord>,
      start: SceneState, actions: seq<Action>)
    requires Initial(s) && Legal(s, steps, true) && p in After(s, steps).nodes
    requires var t := After(s, steps);
      var n := t.nodes[p];
      && n.c.latestSnapshot.Some? && 1 <= Last(n.versions) <= |t.published|
      && t.published[Last(n.versions) - 1].snapshot == PrintBinary(records)
    requires Encodes(r, scene, false, records) && SnapshotFits(records)
    requires var self := After(s, steps).nodes[p].c.id;
      SceneOk(start) && ClientLives.Serving(NewReplicator(self), start, actions, SERVER_ID)
    ensures var n := After(s, steps).nodes[p];
      var (q, local) := ActAll(NewReplicator(n.c.id), start, actions);
      var (q', local') := Apply(q, local, records, SERVER_ID);
      && ReadBinary(n.c.latestSnapshot.value.payload) == Message(records)
      && Remote(n.c.id, View(q', local')) == Remote(n.c.id, View(r, scene))
      && ReplicatorOk(q', local') && OnlyFrom(q', SERVER_ID)
      && (forall id <- View(q, local) :: OwnerOf(id) == n.c.id ==> id in View(q', local') && View(q', local')[id] == View(q, local)[id])
  {
    var self := After(s, steps).nodes[p].c.id;
    var (q, local) := ActAll(NewReplicator(self), start, actions);
    SnapshotsAdvance(s, steps, p);
    ClientLives.EveryClientLife(self, start, actions);
    Replication.EndToEnd(r, scene, false, records, q, local, SERVER_ID);
    LatestWins(q, local, records, SERVER_ID);
  }

  /** A peer session over the same run, from its construction, which has been given every roster event its
      session handed out: its peers are then exactly the roster's others with an endpoint, nothing of those
      reported gone is left, and once the client has caught up with the server's log and everything is drained
      the roster is exactly who is connected. */
  lemma PeersAreTheConnected(s: System, steps: seq<Step>, p: nat, scene: SceneState, moves: seq<PeerRuns.Move>)
    requires Initial(s) && Legal(s, steps, true) && p in After(s, steps).nodes
    requires var n := After(s, steps).nodes[p];
      && n.c.id != SERVER_ID && SceneOk(scene) && PeerRuns.Run(PeerRuns.Begun(n.c.id, scene), moves)
      && PeerRuns.After(PeerRuns.Begun(n.c.id, scene), moves).told == n.news
    ensures var t := After(s, steps);
      var n := t.nodes[p];
      var l := PeerRuns.After(PeerRuns.Begun(n.c.id, scene), moves);
      && Peers.InStepWithRoster(l.ps) && l.ps.roster == Fold(n.news) && Peers.NothingOfGone(n.c.id, l.r, n.news)
      && (n.c.rosterEvents == [] && n.c.rosterVersion == |t.server.rosterLog| ==> l.ps.roster == Infos(t.server.clients))
  {
    RosterReplicates(s, steps, p);
    var n := After(s, steps).nodes[p];
    PeerRuns.PlausibleBefore(n.news, Told(n));
    PeerRuns.EveryPeerLife(n.c.id, scene, moves);
    assert n.c.rosterEvents == [] ==> Told(n) == n.news;
  }
}
