/** What a nil return from a distribution guarantees, and exactly when. */
module DistributionOutcome {
  import opened Options
  import opened Distribution
  import opened DistributionSafety
  import opened Shared
  import H = PushHandler
  import Planner
  import Counting

  // ----------------------------------------------------------------- start

  /** The start of a distribution: a fresh tracker filled from a plan for distinct chunks
      and providers, and providers that have been running the push handler. */
  ghost predicate Begins(cfg: Config, providers: seq<Peer>, plan: Planner.Plan, s: State) {
    && providers != [] && 0 < cfg.replication <= |providers|
    && Distinct(cfg.ids) && Distinct(providers) && Distinct(s.active)
    && Planner.IsPlan(cfg.ids, providers, cfg.replication, plan)
    && (forall p :: p in s.active <==> p in providers && plan.providerChunks[p] != [])
    && (forall p :: p in providers ==> p in s.net)
    && (forall p :: p in s.net ==> p in cfg.handlers && H.Reached(cfg.handlers[p], s.net[p]))
    && s == Start(cfg, plan, s.active, s.net)
  }

  lemma StartPending(cfg: Config, providers: seq<Peer>, plan: Planner.Plan, s: State, c: ChunkId, p: Peer)
    requires Begins(cfg, providers, plan, s)
    ensures StatusOf(s.tracker, c, p).Pending?
  {}

  lemma StartJob(cfg: Config, providers: seq<Peer>, plan: Planner.Plan, s: State, p: Peer)
    requires Begins(cfg, providers, plan, s) && p in s.jobs
    ensures s.jobs[p] == Job(plan.providerChunks[p], 0, Connecting, 0, 0) && GoodJob(s, p, s.jobs[p])
  {
    Planner.PlacedDistinct(cfg.ids, providers, cfg.replication, p, |cfg.ids|);
    var j := s.jobs[p];
    forall k | 0 <= k < |j.chunks|
      ensures !StatusOf(s.tracker, j.chunks[k], p).Committed?
    {
      StartPending(cfg, providers, plan, s, j.chunks[k], p);
    }
  }

  lemma StartInv(cfg: Config, providers: seq<Peer>, plan: Planner.Plan, s: State)
    requires Begins(cfg, providers, plan, s)
    ensures Inv(cfg, s) && Stored(s)
  {
    forall p | p in s.net
      ensures H.Inv(cfg.handlers[p], s.net[p])
    {
      H.ReachedInv(cfg.handlers[p], s.net[p]);
    }
    forall p | p in s.jobs
      ensures GoodJob(s, p, s.jobs[p])
    {
      StartJob(cfg, providers, plan, s, p);
    }
    forall c, p
      ensures UploadingInJob(s, c, p) && CommittedStored(s, c, p)
    {
      StartPending(cfg, providers, plan, s, c, p);
    }
  }

  // ---------------------------------------------------------------- theorem

  /** The providers that really hold the chunk, under its own hash. */
  ghost function Holders(cfg: Config, s: State, c: ChunkId): set<Peer> {
    set p | p in s.net && p in cfg.handlers && c in s.net[p].store && cfg.handlers[p].digest(s.net[p].store[c]) == c
  }

  ghost predicate Replicated(cfg: Config, s: State) {
    forall c :: c in cfg.ids ==> |Holders(cfg, s, c)| >= cfg.replication
  }

  lemma CommittedHold(cfg: Config, s: State, c: ChunkId)
    requires Inv(cfg, s) && Stored(s)
    ensures |CommittedPeers(s.tracker, c)| <= |Holders(cfg, s, c)|
  {
    forall p | p in CommittedPeers(s.tracker, c)
      ensures p in Holders(cfg, s, c)
    {
      assert CommittedStored(s, c, p);
    }
    Counting.SubsetSize(CommittedPeers(s.tracker, c), Holders(cfg, s, c));
  }

  lemma CompleteIsReplicated(cfg: Config, s: State)
    requires Inv(cfg, s) && Stored(s) && IsComplete(s.tracker, cfg.ids, cfg.replication)
    ensures Replicated(cfg, s)
  {
    forall c | c in cfg.ids
      ensures |Holders(cfg, s, c)| >= cfg.replication
    {
      CommittedHold(cfg, s, c);
    }
  }

  /** However jobs, retries, failover rounds and other publishers interleave: if the
      distribution returns nil, every chunk of the manifest is held by R providers. */
  lemma NilMeansReplicated(cfg: Config, providers: seq<Peer>, plan: Planner.Plan, s: State, es: seq<Event>)
    requires Begins(cfg, providers, plan, s) && cfg.maxRetries >= 1 && Feasible(cfg, s, es)
    requires After(cfg, s, es).result == Some(true)
    ensures Replicated(cfg, After(cfg, s, es))
  {
    StartInv(cfg, providers, plan, s);
    InvRun(cfg, s, es);
    StoredRun(cfg, s, es);
    CompleteIsReplicated(cfg, After(cfg, s, es));
  }

  /** Between any two moments of a run the committed count of a chunk does not fall, and
      at a barrier nothing is still marked Uploading. */
  lemma CommittedNeverFalls(
    cfg: Config, providers: seq<Peer>, plan: Planner.Plan, s: State, es: seq<Event>, more: seq<Event>, c: ChunkId)
    requires Begins(cfg, providers, plan, s)
    requires Feasible(cfg, s, es) && Feasible(cfg, After(cfg, s, es), more)
    ensures
      var mid := After(cfg, s, es);
      && |CommittedPeers(mid.tracker, c)| <= |CommittedPeers(After(cfg, mid, more).tracker, c)|
      && (Enabled(cfg, mid, Barrier) ==> forall p :: !StatusOf(mid.tracker, c, p).Uploading?)
  {
    StartInv(cfg, providers, plan, s);
    InvRun(cfg, s, es);
    var mid := After(cfg, s, es);
    InvRun(cfg, mid, more);
    Counting.SubsetSize(CommittedPeers(mid.tracker, c), CommittedPeers(After(cfg, mid, more).tracker, c));
    if Enabled(cfg, mid, Barrier) {
      forall p
        ensures !StatusOf(mid.tracker, c, p).Uploading?
      {
        BarrierQuiet(cfg, mid, c, p);
      }
    }
  }
}
