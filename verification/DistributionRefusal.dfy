/** Providers that refuse the publisher: which chunks can then never be completed. */
module DistributionRefusal {
  import opened Options
  import opened Shared
  import opened Distribution
  import opened DistributionSafety
  import opened DistributionOutcome
  import opened FailoverRounds
  import H = PushHandler
  import Planner
  import Counting

  // ------------------------------------------------------------- who is willing

  /** The provider accepts pushes from this publisher. */
  predicate Willing(cfg: Config, p: Peer) {
    p in cfg.handlers && cfg.handlers[p].Authorized(cfg.publisher)
  }

  /** How many providers at the head of the list are willing. */
  function Lead(cfg: Config, active: seq<Peer>): (n: nat)
    ensures n <= |active|
  {
    if active == [] || !Willing(cfg, active[0]) then 0 else Lead(cfg, active[1..]) + 1
  }

  lemma {:induction false} LeadersAreWilling(cfg: Config, active: seq<Peer>, k: nat)
    requires k < Lead(cfg, active)
    ensures Willing(cfg, active[k])
  {
    if k > 0 {
      LeadersAreWilling(cfg, active[1..], k - 1);
    }
  }

  lemma {:induction false} LeadEndsAtRefusal(cfg: Config, active: seq<Peer>)
    requires Lead(cfg, active) < |active|
    ensures !Willing(cfg, active[Lead(cfg, active)])
  {
    if active != [] && Willing(cfg, active[0]) {
      LeadEndsAtRefusal(cfg, active[1..]);
    }
  }

  function Leaders(cfg: Config, active: seq<Peer>): set<Peer> {
    set p | p in active[..Lead(cfg, active)]
  }

  /** Willing providers of the list that come after a refusing one. */
  function Stragglers(cfg: Config, active: seq<Peer>, ps: seq<Peer>): set<Peer> {
    set p | p in ps && Willing(cfg, p) && p !in Leaders(cfg, active)
  }

  /** A chunk planned for these providers can get its replicas: without failover all of
      them have to be willing; with failover the willing ones among them, together with
      the willing providers before the first refusing one, have to be enough. */
  predicate Completable(cfg: Config, active: seq<Peer>, planned: seq<Peer>) {
    if cfg.failoverRounds < 1 then forall p :: p in planned ==> Willing(cfg, p)
    else |Stragglers(cfg, active, planned)| + Lead(cfg, active) >= cfg.replication
  }

  // -------------------------------------------------- only the willing commit

  ghost predicate WillingJob(cfg: Config, s: State, p: Peer) {
    p in s.jobs && p in s.net ==>
      && (s.jobs[p].stage.Announcing? && s.jobs[p].stream in s.net[p].streams ==> Willing(cfg, p))
      && (s.jobs[p].stage.Reading? || s.jobs[p].stage.Sending? ==> Willing(cfg, p))
  }

  ghost predicate WillingInv(cfg: Config, s: State) {
    && (forall p :: WillingJob(cfg, s, p))
    && (forall c, p :: StatusOf(s.tracker, c, p).Committed? ==> Willing(cfg, p))
  }

  lemma WillingNet(cfg: Config, s: State, p: Peer, e: H.Event)
    requires Inv(cfg, s) && WillingInv(cfg, s) && Enabled(cfg, s, Net(p, e))
    ensures WillingInv(cfg, Step(cfg, s, Net(p, e)))
  {
    var s' := Step(cfg, s, Net(p, e));
    NewStream(cfg.handlers[p], s.net[p], e);
    forall q
      ensures WillingJob(cfg, s', q)
    {
      assert WillingJob(cfg, s, q);
    }
  }

  /** Only accepting a stream adds one. */
  lemma NewStream(c: H.Config, s: H.State, e: H.Event)
    requires H.Enabled(c, s, e)
    ensures forall w :: w in H.Step(c, s, e).streams && w !in s.streams ==> e.Accept? && e.stream == w
  {}

  lemma WillingOwn(cfg: Config, s: State, e: Event, p: Peer)
    requires Inv(cfg, s) && WillingInv(cfg, s) && Distinct(cfg.ids) && Enabled(cfg, s, e) && !e.Net?
    ensures WillingJob(cfg, Step(cfg, s, e), p)
  {
    NetOnlyByNet(cfg, s, e);
    assert WillingJob(cfg, s, p);
    if e.Barrier? {
      WillingBarrier(cfg, s, p);
    } else if e.p != p {
      OtherJobs(cfg, s, e, p);
    } else {
      WillingMove(cfg, s, e);
    }
  }

  lemma WillingBarrier(cfg: Config, s: State, p: Peer)
    requires Enabled(cfg, s, Barrier)
    ensures WillingJob(cfg, Step(cfg, s, Barrier), p)
  {}

  lemma WillingMove(cfg: Config, s: State, e: Event)
    requires Inv(cfg, s) && Enabled(cfg, s, e) && !e.Net? && !e.Barrier? && WillingJob(cfg, s, e.p)
    ensures WillingJob(cfg, Step(cfg, s, e), e.p)
  {
    assert GoodJob(s, e.p, s.jobs[e.p]);
    assert H.AnswersAccepted(s.net[e.p]);
  }

  lemma WillingStep(cfg: Config, s: State, e: Event)
    requires Inv(cfg, s) && WillingInv(cfg, s) && Distinct(cfg.ids) && Enabled(cfg, s, e)
    ensures WillingInv(cfg, Step(cfg, s, e))
  {
    if e.Net? {
      WillingNet(cfg, s, e.p, e.e);
    } else {
      forall p
        ensures WillingJob(cfg, Step(cfg, s, e), p)
      {
        WillingOwn(cfg, s, e, p);
      }
      forall c, p | StatusOf(Step(cfg, s, e).tracker, c, p).Committed?
        ensures Willing(cfg, p)
      {
        if !StatusOf(s.tracker, c, p).Committed? {
          NewlyCommitted(cfg, s, e, c, p);
          assert WillingJob(cfg, s, p) && GoodJob(s, p, s.jobs[p]);
        }
      }
    }
  }

  // ------------------------------------------- who may still commit a chunk

  predicate Ahead(j: Job, c: ChunkId) {
    !j.stage.Done? && exists k :: j.pos <= k < |j.chunks| && j.chunks[k] == c
  }

  /** Willing providers whose job still has the chunk ahead of it. */
  ghost function Underway(cfg: Config, jobs: map<Peer, Job>, c: ChunkId): set<Peer> {
    set p | p in jobs && Willing(cfg, p) && Ahead(jobs[p], c)
  }

  /** Providers that committed the chunk or still may in this round. */
  ghost function Open(cfg: Config, t: Tracker, jobs: map<Peer, Job>, c: ChunkId): set<Peer> {
    CommittedPeers(t, c) + Underway(cfg, jobs, c)
  }

  /** Too few, even counting every leader as a replica where there is failover. */
  ghost predicate TooFew(cfg: Config, active: seq<Peer>, open: set<Peer>) {
    if cfg.failoverRounds < 1 then |open| < cfg.replication
    else |open - Leaders(cfg, active)| + Lead(cfg, active) < cfg.replication
  }

  lemma FewerIsTooFew(cfg: Config, active: seq<Peer>, a: set<Peer>, b: set<Peer>)
    requires a <= b && TooFew(cfg, active, b)
    ensures TooFew(cfg, active, a)
  {
    Counting.SubsetSize(a, b);
    Counting.SubsetSize(a - Leaders(cfg, active), b - Leaders(cfg, active));
  }

  ghost predicate OutOfReach(cfg: Config, s: State, c: ChunkId) {
    TooFew(cfg, s.active, Open(cfg, s.tracker, s.jobs, c))
  }

  /** Within a round nobody else joins. */
  lemma OpenMember(cfg: Config, s: State, e: Event, c: ChunkId, p: Peer)
    requires Inv(cfg, s) && WillingInv(cfg, s) && Distinct(cfg.ids) && Enabled(cfg, s, e) && !e.Barrier?
    requires p in Open(cfg, Step(cfg, s, e).tracker, Step(cfg, s, e).jobs, c)
    ensures p in Open(cfg, s.tracker, s.jobs, c)
  {
    var s' := Step(cfg, s, e);
    if StatusOf(s'.tracker, c, p).Committed? {
      if !StatusOf(s.tracker, c, p).Committed? {
        NewlyCommitted(cfg, s, e, c, p);
        assert WillingJob(cfg, s, p) && GoodJob(s, p, s.jobs[p]);
        assert Ahead(s.jobs[p], c);
      }
    } else {
      AheadBefore(cfg, s, e, c, p);
    }
  }

  lemma AheadBefore(cfg: Config, s: State, e: Event, c: ChunkId, p: Peer)
    requires Inv(cfg, s) && Enabled(cfg, s, e) && !e.Barrier?
    requires p in Step(cfg, s, e).jobs && Ahead(Step(cfg, s, e).jobs[p], c)
    ensures p in s.jobs && Ahead(s.jobs[p], c)
  {
    if !e.Net? && e.p == p {
      JobMoves(cfg, s, e);
    } else {
      OtherJobs(cfg, s, e, p);
    }
  }

  /** A job step keeps the list and never goes back. */
  lemma JobMoves(cfg: Config, s: State, e: Event)
    requires Enabled(cfg, s, e) && !e.Barrier? && !e.Net?
    ensures
      var j, j' := s.jobs[e.p], Step(cfg, s, e).jobs[e.p];
      j'.chunks == j.chunks && j.pos <= j'.pos && !j.stage.Done?
  {}

  lemma OtherJobs(cfg: Config, s: State, e: Event, p: Peer)
    requires Enabled(cfg, s, e) && !e.Barrier? && (e.Net? || e.p != p)
    ensures p in Step(cfg, s, e).jobs <==> p in s.jobs
    ensures p in s.jobs ==> Step(cfg, s, e).jobs[p] == s.jobs[p]
  {}

  lemma OpenShrinks(cfg: Config, s: State, e: Event, c: ChunkId)
    requires Inv(cfg, s) && WillingInv(cfg, s) && Distinct(cfg.ids) && Enabled(cfg, s, e) && !e.Barrier?
    requires OutOfReach(cfg, s, c)
    ensures OutOfReach(cfg, Step(cfg, s, e), c)
  {
    var s' := Step(cfg, s, e);
    forall p | p in Open(cfg, s'.tracker, s'.jobs, c)
      ensures p in Open(cfg, s.tracker, s.jobs, c)
    {
      OpenMember(cfg, s, e, c, p);
    }
    SameActive(cfg, s, e);
    FewerIsTooFew(cfg, s.active, Open(cfg, s'.tracker, s'.jobs, c), Open(cfg, s.tracker, s.jobs, c));
  }

  lemma SameActive(cfg: Config, s: State, e: Event)
    requires Enabled(cfg, s, e)
    ensures Step(cfg, s, e).active == s.active
  {}

  // ----------------------------------------------------- what a barrier adds

  lemma {:induction false} CandidatesSize(t: Tracker, c: ChunkId, ps: seq<Peer>)
    requires Distinct(ps) && forall p :: p in ps ==> !StatusOf(t, c, p).Uploading?
    ensures |Candidates(t, c, ps)| + |CommittedPeers(t, c) * (set p | p in ps)| == |ps|
  {
    if ps == [] {
      assert CommittedPeers(t, c) * (set p | p in ps) == {};
    } else {
      CandidatesSize(t, c, ps[1..]);
      ListedStep(CommittedPeers(t, c), ps);
    }
  }

  lemma ListedStep<T>(a: set<T>, ps: seq<T>)
    requires ps != [] && Distinct(ps)
    ensures |a * (set p | p in ps)| == |a * (set p | p in ps[1..])| + (if ps[0] in a then 1 else 0)
  {
    var p, rest := ps[0], ps[1..];
    assert p !in rest && ps == [p] + rest;
    assert (set q | q in ps) == (set q | q in rest) + {p};
    if p in a {
      assert a * (set q | q in ps) == a * (set q | q in rest) + {p};
    } else {
      assert a * (set q | q in ps) == a * (set q | q in rest);
    }
  }

  /** Nothing is being sent, and only willing providers have committed the chunk. */
  ghost predicate Calm(cfg: Config, t: Tracker, c: ChunkId) {
    forall q :: !StatusOf(t, c, q).Uploading? && (StatusOf(t, c, q).Committed? ==> Willing(cfg, q))
  }

  /** How many replicas are missing when all leaders are counted. */
  function Gap(cfg: Config, t: Tracker, c: ChunkId, active: seq<Peer>): int {
    cfg.replication - Lead(cfg, active) - |CommittedPeers(t, c) - Leaders(cfg, active)|
  }

  /** The candidates a round can reach behind the first refusing provider. */
  function Behind(cfg: Config, t: Tracker, c: ChunkId, active: seq<Peer>): (ps: seq<Peer>)
    requires Lead(cfg, active) < |active| && Gap(cfg, t, c, active) >= 1
    ensures |ps| < Gap(cfg, t, c, active)
  {
    var tail := Candidates(t, c, active[Lead(cfg, active) + 1..]);
    tail[..Min(Gap(cfg, t, c, active) - 1, |tail|)]
  }

  /** Candidates before the first refusing provider, and what is needed beyond them. */
  lemma NeededBeyond(cfg: Config, t: Tracker, c: ChunkId, active: seq<Peer>)
    requires Distinct(active) && Calm(cfg, t, c)
    ensures
      var head := Candidates(t, c, active[..Lead(cfg, active)]);
      cfg.replication - |CommittedPeers(t, c)| == Gap(cfg, t, c, active) + |head|
  {
    CandidatesSize(t, c, active[..Lead(cfg, active)]);
    SplitSize(CommittedPeers(t, c), Leaders(cfg, active));
  }

  /** What the choice of a failover round hinges on. */
  predicate Stuck(cfg: Config, t: Tracker, c: ChunkId, active: seq<Peer>) {
    && Distinct(active) && Lead(cfg, active) < |active|
    && Gap(cfg, t, c, active) >= 1 && Eligible(t, c, active[Lead(cfg, active)])
    && cfg.replication - |CommittedPeers(t, c)|
       == Gap(cfg, t, c, active) + |Candidates(t, c, active[..Lead(cfg, active)])|
  }

  lemma CalmIsStuck(cfg: Config, t: Tracker, c: ChunkId, active: seq<Peer>)
    requires Distinct(active) && Calm(cfg, t, c) && Lead(cfg, active) < |active| && Gap(cfg, t, c, active) >= 1
    ensures Stuck(cfg, t, c, active)
  {
    NeededBeyond(cfg, t, c, active);
    LeadEndsAtRefusal(cfg, active);
  }

  lemma SplitSize<T>(a: set<T>, b: set<T>)
    ensures |a| == |a * b| + |a - b|
  {
    assert a == a * b + (a - b);
  }

  lemma {:induction false} ChosenBeyond(cfg: Config, t: Tracker, c: ChunkId, active: seq<Peer>, p: Peer)
    requires Stuck(cfg, t, c, active)
    requires p in Chosen(t, c, active, cfg.replication - |CommittedPeers(t, c)|)
    requires Willing(cfg, p) && p !in Leaders(cfg, active)
    ensures p in Behind(cfg, t, c, active)
  {
    LeadEndsAtRefusal(cfg, active);
    ChosenAfter(t, c, active, Lead(cfg, active), cfg.replication - |CommittedPeers(t, c)|, p);
  }

  lemma {:induction false} ListSize<T>(l: seq<T>)
    ensures |set x | x in l| <= |l|
  {
    if l != [] {
      ListSize(l[1..]);
      assert l == [l[0]] + l[1..];
      assert (set x | x in l) == {l[0]} + (set x | x in l[1..]);
    }
  }

  lemma UnionSize<T>(a: set<T>, b: set<T>)
    ensures |a + b| <= |a| + |b|
  {
    assert a + b == a + (b - a);
    Counting.SubsetSize(b - a, b);
  }

  /** All of these were chosen for the chunk and are willing. */
  ghost predicate AllChosen(cfg: Config, t: Tracker, c: ChunkId, active: seq<Peer>, joined: set<Peer>) {
    forall p :: p in joined ==>
      p in Chosen(t, c, active, cfg.replication - |CommittedPeers(t, c)|) && Willing(cfg, p)
  }

  /** A failover round asks the first refusing provider before anybody who could close
      the gap, so the gap stays. */
  lemma {:induction false} GapStays(cfg: Config, t: Tracker, c: ChunkId, active: seq<Peer>, joined: set<Peer>)
    requires Stuck(cfg, t, c, active)
    requires AllChosen(cfg, t, c, active, joined)
    ensures |(CommittedPeers(t, c) + joined) - Leaders(cfg, active)| + Lead(cfg, active) < cfg.replication
  {
    forall p | p in joined && p !in Leaders(cfg, active)
      ensures p in Behind(cfg, t, c, active)
    {
      ChosenBeyond(cfg, t, c, active, p);
    }
    JoinSize(CommittedPeers(t, c), joined, Leaders(cfg, active), Behind(cfg, t, c, active));
  }

  lemma JoinSize<T>(committed: set<T>, joined: set<T>, leaders: set<T>, part: seq<T>)
    requires forall p :: p in joined && p !in leaders ==> p in part
    ensures |(committed + joined) - leaders| <= |committed - leaders| + |part|
  {
    Counting.SubsetSize(joined - leaders, (set x | x in part));
    ListSize(part);
    assert (committed + joined) - leaders == (committed - leaders) + (joined - leaders);
    UnionSize(committed - leaders, joined - leaders);
  }

  // -------------------------------------------------------------------- runs

  lemma OpenAtBarrier(cfg: Config, s: State, c: ChunkId)
    requires Enabled(cfg, s, Barrier)
    ensures Open(cfg, s.tracker, s.jobs, c) == CommittedPeers(s.tracker, c)
  {}

  /** Whoever is underway after a failover assignment was chosen for the chunk. */
  lemma UnderwayIsListed(cfg: Config, b: Batch, c: ChunkId, p: Peer)
    requires p in Underway(cfg, Launch(b), c)
    ensures c in Listed(b, p) && Willing(cfg, p)
  {}

  lemma {:induction false} UnderwayIsChosen(cfg: Config, t: Tracker, active: seq<Peer>, i: nat, p: Peer)
    requires Distinct(cfg.ids) && Distinct(active) && i < |cfg.ids|
    requires p in Underway(cfg, Launch(Reassign(t, cfg.ids, active, cfg.replication, |cfg.ids|).batch), cfg.ids[i])
    ensures p in Chosen(t, cfg.ids[i], active, cfg.replication - |CommittedPeers(t, cfg.ids[i])|) && Willing(cfg, p)
  {
    UnderwayIsListed(cfg, Reassign(t, cfg.ids, active, cfg.replication, |cfg.ids|).batch, cfg.ids[i], p);
    OfferedIsChosen(t, cfg.ids, active, cfg.replication, i, p);
  }

  lemma {:induction false} UnderwayAreChosen(cfg: Config, t: Tracker, active: seq<Peer>, i: nat, jobs: map<Peer, Job>)
    requires Distinct(cfg.ids) && Distinct(active) && i < |cfg.ids|
    requires jobs == Launch(Reassign(t, cfg.ids, active, cfg.replication, |cfg.ids|).batch)
    ensures AllChosen(cfg, t, cfg.ids[i], active, Underway(cfg, jobs, cfg.ids[i]))
  {
    forall p | p in Underway(cfg, jobs, cfg.ids[i])
      ensures p in Chosen(t, cfg.ids[i], active, cfg.replication - |CommittedPeers(t, cfg.ids[i])|) && Willing(cfg, p)
    {
      UnderwayIsChosen(cfg, t, active, i, p);
    }
  }

  lemma BarrierIsCalm(cfg: Config, s: State, c: ChunkId)
    requires Inv(cfg, s) && WillingInv(cfg, s) && Enabled(cfg, s, Barrier)
    ensures Calm(cfg, s.tracker, c)
  {
    forall q
      ensures !StatusOf(s.tracker, c, q).Uploading?
    {
      BarrierQuiet(cfg, s, c, q);
    }
  }

  lemma BarrierIsStuck(cfg: Config, s: State, i: nat)
    requires Inv(cfg, s) && WillingInv(cfg, s) && Enabled(cfg, s, Barrier) && i < |cfg.ids| && cfg.failoverRounds >= 1
    requires OutOfReach(cfg, s, cfg.ids[i]) && cfg.replication <= |s.active|
    ensures Stuck(cfg, s.tracker, cfg.ids[i], s.active)
  {
    BarrierIsCalm(cfg, s, cfg.ids[i]);
    OpenAtBarrier(cfg, s, cfg.ids[i]);
    CalmIsStuck(cfg, s.tracker, cfg.ids[i], s.active);
  }

  lemma SameCommitted(s: State, s': State, c: ChunkId)
    requires Keeps(s, s') && Keeps(s', s)
    ensures CommittedPeers(s'.tracker, c) == CommittedPeers(s.tracker, c)
  {}

  /** What a barrier does when it does not end the run. */
  lemma BarrierRelaunches(cfg: Config, s: State)
    requires Enabled(cfg, s, Barrier) && Step(cfg, s, Barrier).result.None?
    ensures cfg.failoverRounds >= 1 && Step(cfg, s, Barrier).active == s.active
    ensures Step(cfg, s, Barrier).jobs ==
      Launch(Reassign(s.tracker, cfg.ids, s.active, cfg.replication, |cfg.ids|).batch)
  {}

  lemma RelaunchGap(cfg: Config, s: State, i: nat)
    requires Inv(cfg, s) && WillingInv(cfg, s) && Distinct(cfg.ids) && Enabled(cfg, s, Barrier) && i < |cfg.ids|
    requires Step(cfg, s, Barrier).result.None? && OutOfReach(cfg, s, cfg.ids[i]) && cfg.replication <= |s.active|
    ensures OutOfReach(cfg, Step(cfg, s, Barrier), cfg.ids[i])
  {
    BarrierInv(cfg, s);
    BarrierRelaunches(cfg, s);
    BarrierIsStuck(cfg, s, i);
    SameCommitted(s, Step(cfg, s, Barrier), cfg.ids[i]);
    Relaunched(cfg, s, Step(cfg, s, Barrier), i);
  }

  lemma Relaunched(cfg: Config, s: State, s': State, i: nat)
    requires Distinct(cfg.ids) && Distinct(s.active) && Enabled(cfg, s, Barrier) && i < |cfg.ids|
    requires s' == Step(cfg, s, Barrier) && s'.result.None? && Stuck(cfg, s.tracker, cfg.ids[i], s.active)
    requires CommittedPeers(s'.tracker, cfg.ids[i]) == CommittedPeers(s.tracker, cfg.ids[i])
    ensures OutOfReach(cfg, s', cfg.ids[i])
  {
    BarrierRelaunches(cfg, s);
    UnderwayAreChosen(cfg, s.tracker, s.active, i, s'.jobs);
    GapStays(cfg, s.tracker, cfg.ids[i], s.active, Underway(cfg, s'.jobs, cfg.ids[i]));
  }

  lemma SettledGap(cfg: Config, s: State, c: ChunkId)
    requires Enabled(cfg, s, Barrier) && Step(cfg, s, Barrier).result.Some? && OutOfReach(cfg, s, c)
    ensures OutOfReach(cfg, Step(cfg, s, Barrier), c)
  {
    BarrierEnds(cfg, s);
  }

  lemma BarrierEnds(cfg: Config, s: State)
    requires Enabled(cfg, s, Barrier) && Step(cfg, s, Barrier).result.Some?
    ensures
      var s' := Step(cfg, s, Barrier);
      s'.tracker == s.tracker && s'.jobs == s.jobs && s'.active == s.active
  {}

  ghost predicate Hopeless(cfg: Config, s: State, i: nat)
    requires i < |cfg.ids|
  {
    && Inv(cfg, s) && WillingInv(cfg, s) && cfg.replication <= |s.active| && OutOfReach(cfg, s, cfg.ids[i])
  }

  lemma HopelessStep(cfg: Config, s: State, e: Event, i: nat)
    requires Distinct(cfg.ids) && i < |cfg.ids| && Hopeless(cfg, s, i) && Enabled(cfg, s, e)
    ensures Hopeless(cfg, Step(cfg, s, e), i)
  {
    InvStep(cfg, s, e);
    WillingStep(cfg, s, e);
    SameActive(cfg, s, e);
    GapStep(cfg, s, e, i);
  }

  lemma GapStep(cfg: Config, s: State, e: Event, i: nat)
    requires Distinct(cfg.ids) && i < |cfg.ids| && Hopeless(cfg, s, i) && Enabled(cfg, s, e)
    ensures OutOfReach(cfg, Step(cfg, s, e), cfg.ids[i])
  {
    if e.Barrier? {
      if Step(cfg, s, e).result.None? {
        RelaunchGap(cfg, s, i);
      } else {
        SettledGap(cfg, s, cfg.ids[i]);
      }
    } else {
      OpenShrinks(cfg, s, e, cfg.ids[i]);
    }
  }

  lemma {:induction false} HopelessRun(cfg: Config, s: State, es: seq<Event>, i: nat)
    requires Distinct(cfg.ids) && i < |cfg.ids| && Hopeless(cfg, s, i) && Feasible(cfg, s, es)
    ensures Hopeless(cfg, After(cfg, s, es), i)
    decreases |es|
  {
    if es != [] {
      HopelessStep(cfg, s, es[0], i);
      HopelessRun(cfg, Step(cfg, s, es[0]), es[1..], i);
    }
  }

  lemma HopelessIsNotNil(cfg: Config, s: State, i: nat)
    requires i < |cfg.ids| && Hopeless(cfg, s, i)
    ensures s.result != Some(true)
  {
    var committed, leaders := CommittedPeers(s.tracker, cfg.ids[i]), Leaders(cfg, s.active);
    var open := Open(cfg, s.tracker, s.jobs, cfg.ids[i]);
    Counting.SubsetSize(committed, open);
    ListSize(s.active[..Lead(cfg, s.active)]);
    Counting.SubsetSize(open * leaders, leaders);
    assert |open| == |open - leaders| + |open * leaders|;
  }

  // ------------------------------------------------------------------- start

  /** A job lists a chunk only if the plan gives the chunk to its provider. */
  lemma JobIsPlanned(cfg: Config, providers: seq<Peer>, plan: Planner.Plan, s: State, i: nat, p: Peer)
    requires Begins(cfg, providers, plan, s) && i < |cfg.ids| && p in s.jobs && cfg.ids[i] in s.jobs[p].chunks
    ensures p in Planner.Ring(providers, i, cfg.replication)
  {
    StartJob(cfg, providers, plan, s, p);
    Planner.PlacedIsRing(cfg.ids, providers, cfg.replication, p, i);
  }

  lemma StartOpen(cfg: Config, providers: seq<Peer>, plan: Planner.Plan, s: State, i: nat, p: Peer)
    requires Begins(cfg, providers, plan, s) && i < |cfg.ids| && p in Open(cfg, s.tracker, s.jobs, cfg.ids[i])
    ensures p in Planner.Ring(providers, i, cfg.replication) && Willing(cfg, p)
  {
    StartPending(cfg, providers, plan, s, cfg.ids[i], p);
    JobIsPlanned(cfg, providers, plan, s, i, p);
  }

  /** A planned provider that is not willing leaves fewer than R. */
  lemma RingShort(cfg: Config, providers: seq<Peer>, i: nat, open: set<Peer>, p: Peer)
    requires providers != [] && Distinct(providers) && 0 < cfg.replication <= |providers|
    requires open <= set q | q in Planner.Ring(providers, i, cfg.replication)
    requires p in Planner.Ring(providers, i, cfg.replication) && p !in open
    ensures |open| < cfg.replication
  {
    var ring := set q | q in Planner.Ring(providers, i, cfg.replication);
    ListSize(Planner.Ring(providers, i, cfg.replication));
    Counting.SubsetSize(open, ring - {p});
  }

  lemma ActiveIsEnough(cfg: Config, providers: seq<Peer>, plan: Planner.Plan, s: State, i: nat)
    requires Begins(cfg, providers, plan, s) && i < |cfg.ids|
    ensures cfg.replication <= |s.active|
  {
    var ring := Planner.Ring(providers, i, cfg.replication);
    forall p | p in ring
      ensures p in s.active
    {
      Planner.AssignedIsListed(cfg.ids, providers, cfg.replication, plan, i, p);
    }
    Planner.RingDistinct(providers, i, cfg.replication);
    Counting.DistinctSize(ring);
    Counting.SubsetSize((set p | p in ring), (set p | p in s.active));
    ListSize(s.active);
  }

  lemma StartHopeless(cfg: Config, providers: seq<Peer>, plan: Planner.Plan, s: State, i: nat)
    requires Begins(cfg, providers, plan, s) && i < |cfg.ids|
    requires !Completable(cfg, s.active, Planner.Ring(providers, i, cfg.replication))
    ensures Hopeless(cfg, s, i)
  {
    var ring, open := Planner.Ring(providers, i, cfg.replication), Open(cfg, s.tracker, s.jobs, cfg.ids[i]);
    StartInv(cfg, providers, plan, s);
    ActiveIsEnough(cfg, providers, plan, s, i);
    forall p | p in open
      ensures p in ring && Willing(cfg, p)
    {
      StartOpen(cfg, providers, plan, s, i, p);
    }
    if cfg.failoverRounds < 1 {
      var p :| p in ring && !Willing(cfg, p);
      RingShort(cfg, providers, i, open, p);
    } else {
      Counting.SubsetSize(open - Leaders(cfg, s.active), Stragglers(cfg, s.active, ring));
    }
    StartWilling(cfg, providers, plan, s);
  }

  lemma StartWilling(cfg: Config, providers: seq<Peer>, plan: Planner.Plan, s: State)
    requires Begins(cfg, providers, plan, s)
    ensures WillingInv(cfg, s)
  {
    forall c, p
      ensures StatusOf(s.tracker, c, p).Pending? && WillingJob(cfg, s, p)
    {
      StartPending(cfg, providers, plan, s, c, p);
      if p in s.jobs {
        StartJob(cfg, providers, plan, s, p);
      }
    }
  }

  /** Refusing providers keep a distribution from returning nil as soon as one chunk is
      not completable, whatever the other providers do and however often it is retried. */
  lemma RefusedNeverReturnsNil(
    cfg: Config, providers: seq<Peer>, plan: Planner.Plan, s: State, i: nat, es: seq<Event>)
    requires Begins(cfg, providers, plan, s) && Feasible(cfg, s, es) && i < |cfg.ids|
    requires !Completable(cfg, s.active, Planner.Ring(providers, i, cfg.replication))
    ensures After(cfg, s, es).result != Some(true)
  {
    StartHopeless(cfg, providers, plan, s, i);
    HopelessRun(cfg, s, es, i);
    HopelessIsNotNil(cfg, After(cfg, s, es), i);
  }
}
