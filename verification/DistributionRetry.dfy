/** A failed provider is asked again: a run of every distribution in which that happens. */
module DistributionRetry {
  import opened Options
  import opened Shared
  import opened Distribution
  import opened DistributionOutcome
  import opened DistributionRefusal
  import opened DistributionUnsent
  import opened FailoverRounds
  import Planner

  /** The jobs of these providers could not connect, and nothing else happened. */
  ghost predicate Unreached(s: State, s': State, done: set<Peer>) {
    && s'.jobs.Keys == s.jobs.Keys && s'.active == s.active && s'.round == s.round && s'.result == s.result
    && (forall p :: p in s.jobs ==> if p in done then s'.jobs[p].stage.Done? else s'.jobs[p] == s.jobs[p])
    && (forall c, p :: StatusOf(s'.tracker, c, p) ==
          if p in done && p in s.jobs && c in s.jobs[p].chunks then Failed else StatusOf(s.tracker, c, p))
  }

  lemma OneUnreached(cfg: Config, s: State, p: Peer)
    requires p in s.jobs && s.jobs[p].stage.Connecting?
    ensures Enabled(cfg, s, Connected(p, 0, false)) && Unreached(s, Step(cfg, s, Connected(p, 0, false)), {p})
  {
    var s' := Step(cfg, s, Connected(p, 0, false));
    forall c, q
      ensures StatusOf(s'.tracker, c, q) ==
        if q == p && c in s.jobs[p].chunks then Failed else StatusOf(s.tracker, c, q)
    {
      FailAllStatus(s.tracker, s.jobs[p].chunks, p, c, q);
    }
  }

  lemma {:induction false} NoneReached(cfg: Config, s: State, todo: set<Peer>) returns (es: seq<Event>)
    requires todo <= s.jobs.Keys && forall p :: p in todo ==> s.jobs[p].stage.Connecting?
    ensures Feasible(cfg, s, es) && Unreached(s, After(cfg, s, es), todo)
    decreases |todo|
  {
    if todo == {} {
      es := [];
    } else {
      var p :| p in todo;
      var fail := Connected(p, 0, false);
      OneUnreached(cfg, s, p);
      var s1 := Step(cfg, s, fail);
      var rest := NoneReached(cfg, s1, todo - {p});
      RunCons(cfg, s, fail, rest);
      es := [fail] + rest;
      JoinUnreached(s, s1, After(cfg, s1, rest), p, todo);
    }
  }

  lemma JoinUnreached(s: State, s1: State, s': State, p: Peer, todo: set<Peer>)
    requires p in todo && p in s.jobs && Unreached(s, s1, {p}) && Unreached(s1, s', todo - {p})
    ensures Unreached(s, s', todo)
  {}

  lemma NothingCommitted(cfg: Config, providers: seq<Peer>, plan: Planner.Plan, s: State, s': State, c: ChunkId)
    requires Begins(cfg, providers, plan, s) && Unreached(s, s', s.jobs.Keys)
    ensures CommittedPeers(s'.tracker, c) == {}
  {
    forall p
      ensures !StatusOf(s'.tracker, c, p).Committed?
    {
      StartPending(cfg, providers, plan, s, c, p);
    }
  }

  /** The first active provider has a job to begin with. */
  lemma FirstHasJob(cfg: Config, providers: seq<Peer>, plan: Planner.Plan, s: State) returns (i: nat)
    requires Begins(cfg, providers, plan, s) && s.active != []
    ensures i < |cfg.ids| && s.active[0] in s.jobs && cfg.ids[i] in s.jobs[s.active[0]].chunks
  {
    var p := s.active[0];
    assert p in s.active;
    StartJob(cfg, providers, plan, s, p);
    var c := plan.providerChunks[p][0];
    i := Planner.PlacedIsListed(cfg.ids, providers, cfg.replication, p, c);
  }

  /** In every distribution with a failover round there is a run to a barrier at which the
      first active provider has failed on a chunk, and the barrier gives it that chunk
      again. */
  lemma FailedIsAskedAgain(cfg: Config, providers: seq<Peer>, plan: Planner.Plan, s: State)
    returns (es: seq<Event>, i: nat)
    requires Begins(cfg, providers, plan, s) && s.active != [] && cfg.failoverRounds >= 1
    ensures i < |cfg.ids| && Feasible(cfg, s, es) && Enabled(cfg, After(cfg, s, es), Barrier)
    ensures
      var mid, p := After(cfg, s, es), s.active[0];
      var jobs := Step(cfg, mid, Barrier).jobs;
      && StatusOf(mid.tracker, cfg.ids[i], p).Failed?
      && p in jobs && jobs[p].stage.Connecting? && cfg.ids[i] in jobs[p].chunks
  {
    i := FirstHasJob(cfg, providers, plan, s);
    StartWaits(cfg, providers, plan, s);
    es := NoneReached(cfg, s, s.jobs.Keys);
    var mid := After(cfg, s, es);
    NothingCommitted(cfg, providers, plan, s, mid, cfg.ids[i]);
    OfferedAtBarrier(cfg, mid, i);
  }

  lemma OfferedAtBarrier(cfg: Config, s: State, i: nat)
    requires Distinct(cfg.ids) && Distinct(s.active) && s.active != [] && i < |cfg.ids|
    requires Enabled(cfg, s, Barrier) && s.round < cfg.failoverRounds
    requires StatusOf(s.tracker, cfg.ids[i], s.active[0]).Failed?
    requires |CommittedPeers(s.tracker, cfg.ids[i])| < cfg.replication
    ensures
      var jobs, p := Step(cfg, s, Barrier).jobs, s.active[0];
      p in jobs && jobs[p].stage.Connecting? && cfg.ids[i] in jobs[p].chunks
  {
    FirstIsOfferedAgain(s.tracker, cfg.ids, s.active, cfg.replication, i);
    ListedHasJob(Reassign(s.tracker, cfg.ids, s.active, cfg.replication, |cfg.ids|).batch, cfg.ids[i], s.active[0]);
  }
}
