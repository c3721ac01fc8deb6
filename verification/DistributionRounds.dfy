/** How often a chunk is sent and how many rounds there are, told by the steps of the run. */
module DistributionRounds {
  import opened Options
  import opened Shared
  import opened Distribution
  import opened DistributionSafety
  import opened DistributionOutcome
  import opened DistributionRefusal
  import opened DistributionUnsent
  import opened FailoverRounds
  import Planner
  import Counting

  // ---------------------------------------------------------------- attempts

  /** The step is one of the job of provider `p`. */
  predicate OfJob(e: Event, p: Peer) {
    !e.Net? && !e.Barrier? && e.p == p
  }

  /** How many sends in a row have failed at provider `p`. */
  function Unanswered(es: seq<Event>, p: Peer): nat {
    if es == [] then 0
    else
      var e := es[|es| - 1];
      if e == Sent(p, false) then Unanswered(es[..|es| - 1], p) + 1
      else if e.Barrier? || OfJob(e, p) then 0
      else Unanswered(es[..|es| - 1], p)
  }

  lemma UnansweredSnoc(es: seq<Event>, e: Event, p: Peer)
    ensures Unanswered(es + [e], p) ==
      if e == Sent(p, false) then Unanswered(es, p) + 1 else if e.Barrier? || OfJob(e, p) then 0 else Unanswered(es, p)
  {
    assert (es + [e])[..|es|] == es;
  }

  ghost predicate CountsAt(cfg: Config, s: State, es: seq<Event>, p: Peer) {
    p in s.jobs && s.jobs[p].stage.Sending? ==>
      s.jobs[p].stage.attempt == Unanswered(es, p) + 1 <= cfg.maxRetries
  }

  ghost predicate Counts(cfg: Config, s: State, es: seq<Event>) {
    forall p :: CountsAt(cfg, s, es, p)
  }

  /** A step of one job leaves the others alone, and a barrier leaves nobody sending. */
  lemma JobsElsewhere(cfg: Config, s: State, e: Event, p: Peer)
    requires Enabled(cfg, s, e) && !OfJob(e, p)
    ensures p in Step(cfg, s, e).jobs && Step(cfg, s, e).jobs[p].stage.Sending? ==>
      p in s.jobs && s.jobs[p] == Step(cfg, s, e).jobs[p] && !e.Barrier?
  {}

  lemma CountsStep(cfg: Config, s: State, es: seq<Event>, e: Event, p: Peer)
    requires CountsAt(cfg, s, es, p) && Enabled(cfg, s, e)
    ensures CountsAt(cfg, Step(cfg, s, e), es + [e], p)
  {
    UnansweredSnoc(es, e, p);
    if !OfJob(e, p) {
      JobsElsewhere(cfg, s, e, p);
    }
  }

  lemma {:induction false} CountsRun(cfg: Config, s: State, seen: seq<Event>, es: seq<Event>)
    requires Counts(cfg, s, seen) && Feasible(cfg, s, es)
    ensures Counts(cfg, After(cfg, s, es), seen + es)
    decreases |es|
  {
    if es == [] {
      assert seen + es == seen;
    } else {
      forall p
        ensures CountsAt(cfg, Step(cfg, s, es[0]), seen + [es[0]], p)
      {
        CountsStep(cfg, s, seen, es[0], p);
      }
      CountsRun(cfg, Step(cfg, s, es[0]), seen + [es[0]], es[1..]);
      Associate(seen, [es[0]], es[1..]);
      assert es == [es[0]] + es[1..];
    }
  }

  lemma Associate<T>(a: seq<T>, b: seq<T>, c: seq<T>)
    ensures (a + b) + c == a + (b + c)
  {}

  lemma StartCounts(cfg: Config, providers: seq<Peer>, plan: Planner.Plan, s: State)
    requires Begins(cfg, providers, plan, s)
    ensures Counts(cfg, s, [])
  {
    forall q
      ensures CountsAt(cfg, s, [], q)
    {
      if q in s.jobs {
        StartJob(cfg, providers, plan, s, q);
      }
    }
  }

  lemma SendFails(cfg: Config, s: State, es: seq<Event>, p: Peer)
    requires CountsAt(cfg, s, es, p) && Enabled(cfg, s, Sent(p, false))
    ensures
      var s', failed, j := Step(cfg, s, Sent(p, false)), Unanswered(es + [Sent(p, false)], p), s.jobs[p];
      && 1 <= failed <= cfg.maxRetries
      && (failed < cfg.maxRetries ==> s'.tracker == s.tracker && s'.jobs[p] == j.(stage := Sending(failed + 1)))
      && (failed == cfg.maxRetries ==> StatusOf(s'.tracker, Current(j), p).Failed? && s'.jobs[p] == Advance(j, 0))
  {
    UnansweredSnoc(es, Sent(p, false), p);
    SetStatusAt(s.tracker, Current(s.jobs[p]), p, Failed);
  }

  /** A chunk is sent again after a failed send until as many sends in a row have failed as
      are allowed; exactly then it is marked failed, and the job goes on. */
  lemma GivenUpAfterAllAttempts(
    cfg: Config, providers: seq<Peer>, plan: Planner.Plan, s: State, es: seq<Event>, p: Peer)
    requires Begins(cfg, providers, plan, s) && Feasible(cfg, s, es)
    requires Enabled(cfg, After(cfg, s, es), Sent(p, false))
    ensures
      var mid := After(cfg, s, es);
      var s', failed := Step(cfg, mid, Sent(p, false)), Unanswered(es + [Sent(p, false)], p);
      var j := mid.jobs[p];
      && 1 <= failed <= cfg.maxRetries
      && (failed < cfg.maxRetries ==>
            s'.tracker == mid.tracker && s'.jobs[p] == j.(stage := Sending(failed + 1)))
      && (failed == cfg.maxRetries ==>
            StatusOf(s'.tracker, Current(j), p).Failed? && s'.jobs[p] == Advance(j, 0))
  {
    StartCounts(cfg, providers, plan, s);
    CountsRun(cfg, s, [], es);
    assert [] + es == es;
    assert CountsAt(cfg, After(cfg, s, es), es, p);
    SendFails(cfg, After(cfg, s, es), es, p);
  }

  // ------------------------------------------------------------------ rounds

  function Barriers(es: seq<Event>): nat {
    if es == [] then 0 else Barriers(es[1..]) + if es[0].Barrier? then 1 else 0
  }

  /** The rounds are the barriers, as long as the run goes on. */
  lemma {:induction false} RoundsAreBarriers(cfg: Config, s: State, es: seq<Event>)
    requires Feasible(cfg, s, es) && After(cfg, s, es).result.None?
    ensures After(cfg, s, es).round == s.round + Barriers(es) && s.result.None?
    ensures After(cfg, s, es).active == s.active
    decreases |es|
  {
    if es != [] {
      RoundsAreBarriers(cfg, Step(cfg, s, es[0]), es[1..]);
      ResultStays(cfg, s, es[0]);
      SameActive(cfg, s, es[0]);
    }
  }

  lemma ResultStays(cfg: Config, s: State, e: Event)
    requires Enabled(cfg, s, e) && Step(cfg, s, e).result.None?
    ensures s.result.None? && Step(cfg, s, e).round == s.round + if e.Barrier? then 1 else 0
  {}

  /** Someone in the list does not hold the chunk. */
  lemma SomeoneLacks(active: seq<Peer>, holders: set<Peer>) returns (p: Peer)
    requires Distinct(active) && |holders| < |active|
    ensures p in active && p !in holders
  {
    if forall q :: q in active ==> q in holders {
      Counting.DistinctSize(active);
      Counting.SubsetSize((set q | q in active), holders);
      assert false;
    }
    p :| p in active && p !in holders;
  }

  /** There always is a provider left for a chunk that lacks replicas. */
  lemma SomeoneIsLeft(cfg: Config, s: State, i: nat)
    requires Inv(cfg, s) && Distinct(cfg.ids) && Enabled(cfg, s, Barrier) && i < |cfg.ids|
    requires |CommittedPeers(s.tracker, cfg.ids[i])| < cfg.replication <= |s.active|
    ensures Reassign(s.tracker, cfg.ids, s.active, cfg.replication, |cfg.ids|).batch != map[]
  {
    var c, needed := cfg.ids[i], cfg.replication - |CommittedPeers(s.tracker, cfg.ids[i])|;
    var p := SomeoneLacks(s.active, CommittedPeers(s.tracker, c));
    BarrierQuiet(cfg, s, c, p);
    SomeoneIsChosen(s.tracker, c, s.active, needed, p);
    ChosenHasJob(cfg, s.tracker, s.active, i, Chosen(s.tracker, c, s.active, needed)[0]);
  }

  lemma {:induction false} SomeoneIsChosen(t: Tracker, c: ChunkId, active: seq<Peer>, needed: int, p: Peer)
    requires needed > 0 && p in active && Eligible(t, c, p)
    ensures Chosen(t, c, active, needed) != []
  {
    CandidatesMember(t, c, active, p);
    ChosenIsPrefix(t, c, active, needed);
  }

  lemma EndRoundIs(cfg: Config, s: State)
    requires Enabled(cfg, s, Barrier)
    ensures
      var left := Reassign(s.tracker, cfg.ids, s.active, cfg.replication, |cfg.ids|).batch != map[];
      Step(cfg, s, Barrier).result ==
        if IsComplete(s.tracker, cfg.ids, cfg.replication) then Some(true)
        else if s.round < cfg.failoverRounds && left then None
        else Some(false)
  {}

  /** How a round ends: with nil exactly if every chunk has its replicas, with an error
      exactly if some chunk lacks them and all failover rounds have been made, and with
      another round otherwise. There is always somebody left to ask. */
  lemma RoundEndsIff(cfg: Config, providers: seq<Peer>, plan: Planner.Plan, s: State, es: seq<Event>)
    requires Begins(cfg, providers, plan, s) && Feasible(cfg, s, es) && Enabled(cfg, After(cfg, s, es), Barrier)
    ensures
      var mid := After(cfg, s, es);
      var result, complete := Step(cfg, mid, Barrier).result, IsComplete(mid.tracker, cfg.ids, cfg.replication);
      && (result == Some(true) <==> complete)
      && (result == Some(false) <==> !complete && Barriers(es) >= cfg.failoverRounds)
      && (result == None <==> !complete && Barriers(es) < cfg.failoverRounds)
  {
    var mid := After(cfg, s, es);
    StartInv(cfg, providers, plan, s);
    InvRun(cfg, s, es);
    RoundsAreBarriers(cfg, s, es);
    EndRoundIs(cfg, mid);
    if !IsComplete(mid.tracker, cfg.ids, cfg.replication) {
      var i :| 0 <= i < |cfg.ids| && |CommittedPeers(mid.tracker, cfg.ids[i])| < cfg.replication;
      ActiveIsEnough(cfg, providers, plan, s, i);
      SomeoneIsLeft(cfg, mid, i);
    }
  }

  // ------------------------------------------------------- every chunk is decided

  predicate Settled(st: Status) {
    st.Committed? || st.Failed?
  }

  /** The job has decided about every chunk it is past. */
  ghost predicate DecidedSoFar(t: Tracker, p: Peer, j: Job) {
    forall k :: 0 <= k < |j.chunks| && (k < j.pos || j.stage.Done?) ==> Settled(StatusOf(t, j.chunks[k], p))
  }

  ghost predicate AllDecided(s: State) {
    forall p :: p in s.jobs ==> DecidedSoFar(s.tracker, p, s.jobs[p])
  }

  /** A job that marks the chunk it is at and goes on. */
  lemma DecideOne(t: Tracker, p: Peer, j: Job, st: Status, gained: nat)
    requires DecidedSoFar(t, p, j) && j.pos < |j.chunks| && !j.stage.Done? && Settled(st)
    ensures DecidedSoFar(SetStatus(t, Current(j), p, st), p, Advance(j, gained))
  {
    SetStatusAt(t, Current(j), p, st);
  }

  lemma UploadOne(t: Tracker, p: Peer, j: Job)
    requires DecidedSoFar(t, p, j) && j.pos < |j.chunks| && !j.stage.Done? && Distinct(j.chunks)
    ensures DecidedSoFar(SetStatus(t, Current(j), p, Uploading), p, j.(stage := Sending(1)))
  {
    SetStatusAt(t, Current(j), p, Uploading);
  }

  lemma FailThem(t: Tracker, p: Peer, j: Job)
    ensures DecidedSoFar(FailAll(t, j.chunks, p), p, j.(stage := Done))
  {
    forall k | 0 <= k < |j.chunks|
      ensures StatusOf(FailAll(t, j.chunks, p), j.chunks[k], p).Failed?
    {
      FailAllStatus(t, j.chunks, p, j.chunks[k], p);
    }
  }

  /** Steps of other jobs do not touch this provider's statuses. */
  lemma DecidedElsewhere(cfg: Config, s: State, e: Event, p: Peer)
    requires Enabled(cfg, s, e) && !e.Barrier? && !OfJob(e, p) && p in s.jobs && DecidedSoFar(s.tracker, p, s.jobs[p])
    ensures p in Step(cfg, s, e).jobs && DecidedSoFar(Step(cfg, s, e).tracker, p, Step(cfg, s, e).jobs[p])
  {
    if !e.Net? {
      OtherStatuses(cfg, s, e, p);
      assert Step(cfg, s, e).jobs[p] == s.jobs[p];
    }
  }

  lemma OtherStatuses(cfg: Config, s: State, e: Event, p: Peer)
    requires Enabled(cfg, s, e) && !e.Barrier? && !e.Net? && e.p != p
    ensures forall c :: StatusOf(Step(cfg, s, e).tracker, c, p) == StatusOf(s.tracker, c, p)
  {
    forall c
      ensures StatusOf(Step(cfg, s, e).tracker, c, p) == StatusOf(s.tracker, c, p)
    {
      if e.Connected? || e.Announced? {
        FailAllStatus(s.tracker, s.jobs[e.p].chunks, e.p, c, p);
      }
    }
  }

  lemma DecidedOwn(cfg: Config, s: State, e: Event, p: Peer)
    requires Inv(cfg, s) && Enabled(cfg, s, e) && OfJob(e, p) && p in s.jobs && DecidedSoFar(s.tracker, p, s.jobs[p])
    ensures p in Step(cfg, s, e).jobs && DecidedSoFar(Step(cfg, s, e).tracker, p, Step(cfg, s, e).jobs[p])
  {
    var j := s.jobs[p];
    assert GoodJob(s, p, j);
    match e
    case Connected(_, _, _) => FailThem(s.tracker, p, j);
    case Announced(_, _) => FailThem(s.tracker, p, j);
    case Read(_, _) =>
      DecideOne(s.tracker, p, j, Failed, 0);
      DecideOne(s.tracker, p, j, Committed, 1);
      UploadOne(s.tracker, p, j);
    case Sent(_, _) =>
      DecideOne(s.tracker, p, j, Failed, 0);
      DecideOne(s.tracker, p, j, Committed, 1);
  }

  lemma DecidedBarrier(cfg: Config, s: State)
    requires AllDecided(s) && Enabled(cfg, s, Barrier)
    ensures AllDecided(Step(cfg, s, Barrier))
  {
    EndRoundJobs(cfg, s);
  }

  lemma EndRoundJobs(cfg: Config, s: State)
    requires Enabled(cfg, s, Barrier)
    ensures
      var s' := Step(cfg, s, Barrier);
      || (s'.jobs == s.jobs && s'.tracker == s.tracker)
      || forall p :: p in s'.jobs ==> s'.jobs[p].pos == 0 && s'.jobs[p].stage.Connecting?
  {}

  lemma DecidedStep(cfg: Config, s: State, e: Event)
    requires Inv(cfg, s) && AllDecided(s) && Enabled(cfg, s, e)
    ensures AllDecided(Step(cfg, s, e))
  {
    if e.Barrier? {
      DecidedBarrier(cfg, s);
    } else {
      forall p | p in Step(cfg, s, e).jobs
        ensures DecidedSoFar(Step(cfg, s, e).tracker, p, Step(cfg, s, e).jobs[p])
      {
        SameJobKeys(cfg, s, e);
        if OfJob(e, p) {
          DecidedOwn(cfg, s, e, p);
        } else {
          DecidedElsewhere(cfg, s, e, p);
        }
      }
    }
  }

  lemma SameJobKeys(cfg: Config, s: State, e: Event)
    requires Enabled(cfg, s, e) && !e.Barrier?
    ensures Step(cfg, s, e).jobs.Keys == s.jobs.Keys
  {}

  lemma {:induction false} DecidedRun(cfg: Config, s: State, es: seq<Event>)
    requires Inv(cfg, s) && Distinct(cfg.ids) && AllDecided(s) && Feasible(cfg, s, es)
    ensures AllDecided(After(cfg, s, es))
    decreases |es|
  {
    if es != [] {
      InvStep(cfg, s, es[0]);
      DecidedStep(cfg, s, es[0]);
      DecidedRun(cfg, Step(cfg, s, es[0]), es[1..]);
    }
  }

  /** At every barrier each chunk that a provider was asked to take in the round is marked
      either committed or failed there: no job skips one or leaves it open. */
  lemma EveryChunkIsDecided(
    cfg: Config, providers: seq<Peer>, plan: Planner.Plan, s: State, es: seq<Event>, p: Peer, k: nat)
    requires Begins(cfg, providers, plan, s) && Feasible(cfg, s, es) && Enabled(cfg, After(cfg, s, es), Barrier)
    requires p in After(cfg, s, es).jobs && k < |After(cfg, s, es).jobs[p].chunks|
    ensures Settled(StatusOf(After(cfg, s, es).tracker, After(cfg, s, es).jobs[p].chunks[k], p))
  {
    StartInv(cfg, providers, plan, s);
    forall q | q in s.jobs
      ensures DecidedSoFar(s.tracker, q, s.jobs[q])
    {
      StartJob(cfg, providers, plan, s, q);
    }
    DecidedRun(cfg, s, es);
    assert DecidedSoFar(After(cfg, s, es).tracker, p, After(cfg, s, es).jobs[p]);
  }
}
