/** Exactly when a nil return means that every chunk is replicated. */
module DistributionGuarantee {
  import opened Options
  import opened Shared
  import opened Distribution
  import opened DistributionSafety
  import opened DistributionOutcome
  import opened DistributionRefusal
  import opened DistributionUnsent
  import H = PushHandler
  import Planner
  import Counting

  // ------------------------------------------------------ holders never go away

  ghost predicate NetSound(cfg: Config, s: State) {
    forall p :: p in s.net ==> p in cfg.handlers && H.Inv(cfg.handlers[p], s.net[p])
  }

  lemma HoldersNet(cfg: Config, s: State, p: Peer, e: H.Event, c: ChunkId)
    requires NetSound(cfg, s) && Enabled(cfg, s, Net(p, e))
    ensures NetSound(cfg, Step(cfg, s, Net(p, e))) && Holders(cfg, s, c) <= Holders(cfg, Step(cfg, s, Net(p, e)), c)
  {
    var s' := Step(cfg, s, Net(p, e));
    H.InvStep(cfg.handlers[p], s.net[p], e);
    H.Monotone(cfg.handlers[p], s.net[p], e);
    forall q | q in Holders(cfg, s, c)
      ensures q in Holders(cfg, s', c)
    {
      assert c in s'.net[q].store;
    }
  }

  lemma HoldersStep(cfg: Config, s: State, e: Event, c: ChunkId)
    requires NetSound(cfg, s) && Enabled(cfg, s, e)
    ensures NetSound(cfg, Step(cfg, s, e)) && Holders(cfg, s, c) <= Holders(cfg, Step(cfg, s, e), c)
  {
    if e.Net? {
      HoldersNet(cfg, s, e.p, e.e, c);
    } else {
      NetOnlyByNet(cfg, s, e);
    }
  }

  lemma {:induction false} HoldersGrow(cfg: Config, s: State, es: seq<Event>, c: ChunkId)
    requires NetSound(cfg, s) && Feasible(cfg, s, es)
    ensures Holders(cfg, s, c) <= Holders(cfg, After(cfg, s, es), c)
    decreases |es|
  {
    if es != [] {
      HoldersStep(cfg, s, es[0], c);
      HoldersGrow(cfg, Step(cfg, s, es[0]), es[1..], c);
    }
  }

  lemma StaysReplicated(cfg: Config, s: State, es: seq<Event>)
    requires Inv(cfg, s) && Feasible(cfg, s, es) && Replicated(cfg, s)
    ensures Replicated(cfg, After(cfg, s, es))
  {
    forall c | c in cfg.ids
      ensures |Holders(cfg, After(cfg, s, es), c)| >= cfg.replication
    {
      HoldersGrow(cfg, s, es, c);
      Counting.SubsetSize(Holders(cfg, s, c), Holders(cfg, After(cfg, s, es), c));
    }
  }

  /** What holders there are depends on the stores alone. */
  lemma SameHolders(cfg: Config, s: State, s': State)
    requires SameStores(s, s') && Replicated(cfg, s')
    ensures Replicated(cfg, s)
  {
    forall c | c in cfg.ids
      ensures |Holders(cfg, s, c)| >= cfg.replication
    {
      assert Holders(cfg, s, c) == Holders(cfg, s', c);
    }
  }

  // ------------------------------------------------------------------- theorems

  ghost predicate CanReturnNil(cfg: Config, s: State) {
    exists es :: Feasible(cfg, s, es) && After(cfg, s, es).result == Some(true)
  }

  /** Every run that returns nil leaves every chunk with its replicas. */
  ghost predicate NilIsHonest(cfg: Config, s: State) {
    forall es :: Feasible(cfg, s, es) && After(cfg, s, es).result == Some(true) ==> Replicated(cfg, After(cfg, s, es))
  }

  ghost predicate AllCompletable(cfg: Config, providers: seq<Peer>, active: seq<Peer>)
    requires providers != [] && 0 <= cfg.replication <= |providers|
  {
    forall i :: 0 <= i < |cfg.ids| ==> Completable(cfg, active, Planner.Ring(providers, i, cfg.replication))
  }

  /** With no attempt allowed, whether nil can be returned at all is settled by which
      providers authorise the publisher. */
  lemma NilWithoutAttemptIff(cfg: Config, providers: seq<Peer>, plan: Planner.Plan, s: State)
    requires Begins(cfg, providers, plan, s) && cfg.maxRetries < 1
    ensures CanReturnNil(cfg, s) <==> AllCompletable(cfg, providers, s.active)
  {
    if AllCompletable(cfg, providers, s.active) {
      var es := UnsentReturnsNil(cfg, providers, plan, s);
    } else {
      RefusedCannotReturnNil(cfg, providers, plan, s);
    }
  }

  lemma RefusedCannotReturnNil(cfg: Config, providers: seq<Peer>, plan: Planner.Plan, s: State)
    requires Begins(cfg, providers, plan, s) && !AllCompletable(cfg, providers, s.active)
    ensures !CanReturnNil(cfg, s)
  {
    var i :| 0 <= i < |cfg.ids| && !Completable(cfg, s.active, Planner.Ring(providers, i, cfg.replication));
    forall es | Feasible(cfg, s, es)
      ensures After(cfg, s, es).result != Some(true)
    {
      RefusedNeverReturnsNil(cfg, providers, plan, s, i, es);
    }
  }

  /** The guarantee holds for every run exactly if at least one attempt per chunk is
      allowed, or there was nothing to do in the first place, or so many providers refuse
      the publisher that no run can return nil. */
  lemma GuaranteeIff(cfg: Config, providers: seq<Peer>, plan: Planner.Plan, s: State)
    requires Begins(cfg, providers, plan, s)
    ensures
      NilIsHonest(cfg, s) <==>
        cfg.maxRetries >= 1 || Replicated(cfg, s) || !AllCompletable(cfg, providers, s.active)
  {
    StartInv(cfg, providers, plan, s);
    if cfg.maxRetries >= 1 {
      forall es | Feasible(cfg, s, es) && After(cfg, s, es).result == Some(true)
        ensures Replicated(cfg, After(cfg, s, es))
      {
        NilMeansReplicated(cfg, providers, plan, s, es);
      }
    } else if Replicated(cfg, s) {
      forall es | Feasible(cfg, s, es)
        ensures Replicated(cfg, After(cfg, s, es))
      {
        StaysReplicated(cfg, s, es);
      }
    } else if AllCompletable(cfg, providers, s.active) {
      var es := UnsentReturnsNil(cfg, providers, plan, s);
      if Replicated(cfg, After(cfg, s, es)) {
        SameHolders(cfg, s, After(cfg, s, es));
        assert false;
      }
    } else {
      RefusedCannotReturnNil(cfg, providers, plan, s);
    }
  }
}
