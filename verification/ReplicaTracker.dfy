/** The replica tracker object and the failover loop that works on it. */
module ReplicaTracker {
  import opened Distribution
  import opened FailoverRounds
  import opened Shared

  /** The first `k` active providers have been asked, and `chosen` of them took the chunk. */
  ghost predicate Offered(
    f: Failover, c: ChunkId, active: seq<Peer>, all: seq<Peer>, k: nat, needed: int, chosen: seq<Peer>)
  {
    && k <= |active|
    && all == chosen + Chosen(f.tracker, c, active[k..], needed)
    && Distinct(chosen)
    && forall p :: p in chosen ==> p in active[..k]
  }

  lemma OfferStep(f: Failover, c: ChunkId, active: seq<Peer>, all: seq<Peer>, k: nat, needed: int, chosen: seq<Peer>)
    requires Distinct(active) && Offered(f, c, active, all, k, needed, chosen) && k < |active| && needed > 0
    ensures
      var p, g := active[k], Assign(f, c, chosen);
      if StatusOf(g.tracker, c, p).Committed? || StatusOf(g.tracker, c, p).Uploading?
      then Offered(f, c, active, all, k + 1, needed, chosen)
      else
        && Offered(f, c, active, all, k + 1, needed - 1, chosen + [p])
        && Assign(f, c, chosen + [p]) ==
           Failover(SetStatus(g.tracker, c, p, Pending), g.batch[p := Listed(g.batch, p) + [c]])
  {
    var p := active[k];
    assert active[k..][1..] == active[k + 1..] && active[k..][0] == p;
    assert p !in active[..k];
    assert active[..k + 1] == active[..k] + [p];
    AssignFacts(f, c, chosen, c, p);
    assert (chosen + [p])[..|chosen + [p]| - 1] == chosen;
  }

  lemma OfferStart(f: Failover, c: ChunkId, active: seq<Peer>, needed: int)
    ensures Offered(f, c, active, Chosen(f.tracker, c, active, needed), 0, needed, [])
  {
    assert active[0..] == active;
  }

  lemma OfferEnd(f: Failover, c: ChunkId, active: seq<Peer>, all: seq<Peer>, k: nat, needed: int, chosen: seq<Peer>)
    requires Offered(f, c, active, all, k, needed, chosen) && (k == |active| || needed <= 0)
    ensures chosen == all
  {}

  lemma NothingMissing(f: Failover, c: ChunkId, active: seq<Peer>, needed: int)
    requires needed <= 0
    ensures Assign(f, c, Chosen(f.tracker, c, active, needed)) == f
  {
    assert Chosen(f.tracker, c, active, needed) == [];
  }

  class GlobalReplicaTracker {
    var state: Tracker
    const requiredR: int

    constructor (required: int)
      ensures state == map[] && requiredR == required
    {
      state, requiredR := map[], required;
    }

    method Mark(c: ChunkId, p: Peer, st: Status)
      modifies this
      ensures state == SetStatus(old(state), c, p, st)
    {
      if c !in state {
        state := state[c := map[]];
      }
      state := state[c := state[c][p := st]];
    }

    /** Count by walking the statuses of the chunk in any order. */
    method CommittedCount(c: ChunkId) returns (count: nat)
      ensures count == |CommittedPeers(state, c)|
    {
      count := 0;
      if c !in state { return; }
      var rest := state[c].Keys;
      assert CommittedPeers(state, c) * rest == CommittedPeers(state, c);
      while rest != {}
        invariant rest <= state[c].Keys
        invariant count + |CommittedPeers(state, c) * rest| == |CommittedPeers(state, c)|
        decreases |rest|
      {
        var p :| p in rest;
        assert CommittedPeers(state, c) * rest
            == CommittedPeers(state, c) * (rest - {p}) + (if state[c][p].Committed? then {p} else {});
        rest := rest - {p};
        if state[c][p].Committed? {
          count := count + 1;
        }
      }
    }

    method Complete(ids: seq<ChunkId>) returns (done: bool)
      ensures done <==> IsComplete(state, ids, requiredR)
    {
      for i := 0 to |ids|
        invariant forall k :: 0 <= k < i ==> |CommittedPeers(state, ids[k])| >= requiredR
      {
        var count := CommittedCount(ids[i]);
        if count < requiredR { return false; }
      }
      done := true;
    }

    /** Offer the missing replicas of one chunk to the active providers in turn. */
    method OfferChunk(c: ChunkId, active: seq<Peer>, batch: Batch, missing: int) returns (grown: Batch)
      requires Distinct(active)
      modifies this
      ensures Failover(state, grown) == Assign(Failover(old(state), batch), c, Chosen(old(state), c, active, missing))
    {
      ghost var f := Failover(state, batch);
      ghost var chosen, all := [], Chosen(state, c, active, missing);
      grown := batch;
      var k, needed := 0, missing;
      OfferStart(f, c, active, needed);
      while k < |active| && needed > 0
        invariant Offered(f, c, active, all, k, needed, chosen)
        invariant Failover(state, grown) == Assign(f, c, chosen)
      {
        var p := active[k];
        OfferStep(f, c, active, all, k, needed, chosen);
        if !StatusOf(state, c, p).Committed? && !StatusOf(state, c, p).Uploading? {
          grown := grown[p := Listed(grown, p) + [c]];
          Mark(c, p, Pending);
          needed := needed - 1;
          chosen := chosen + [p];
        }
        k := k + 1;
      }
      OfferEnd(f, c, active, all, k, needed, chosen);
    }

    /** One chunk of a failover round. */
    method RecoverChunk(c: ChunkId, active: seq<Peer>, batch: Batch) returns (grown: Batch)
      requires Distinct(active)
      modifies this
      ensures Failover(state, grown) == Spread(Failover(old(state), batch), c, active, requiredR)
    {
      var count := CommittedCount(c);
      if requiredR - count > 0 {
        grown := OfferChunk(c, active, batch, requiredR - count);
      } else {
        NothingMissing(Failover(state, batch), c, active, requiredR - count);
        grown := batch;
      }
    }

    /** The body of a failover round, before its uploads are launched. */
    method ReassignMissing(ids: seq<ChunkId>, active: seq<Peer>) returns (batch: Batch)
      requires Distinct(active)
      modifies this
      ensures Failover(state, batch) == Reassign(old(state), ids, active, requiredR, |ids|)
    {
      batch := map[];
      for i := 0 to |ids|
        invariant Failover(state, batch) == Reassign(old(state), ids, active, requiredR, i)
      {
        batch := RecoverChunk(ids[i], active, batch);
      }
    }
  }
}
