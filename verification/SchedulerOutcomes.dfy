/** When a download run gives up, and why: everything a run returns is determined by the
    reports its workers make, as they can be read off its steps. */
module SchedulerOutcomes {
  import opened Scheduler
  import opened SchedulerSafety
  import opened Shared
  import Counting

  // ------------------------------------------------------ reports, from the steps

  datatype Report = Report(key: Key, peer: Peer, fetch: Fetch)

  /** The report the loop takes off the channel in this step. */
  function Taken(s: State, e: Event): seq<Report> {
    if e.Receive? && s.results != [] && s.results[0].TaskResult?
    then [Report(s.results[0].task.key, s.results[0].peer, s.results[0].fetch)]
    else []
  }

  /** The reports the loop has taken off the channel, in order. */
  function Log(c: Config, s: State, es: seq<Event>): seq<Report>
    requires Feasible(c, s, es)
    decreases |es|
  {
    if es == [] then [] else Taken(s, es[0]) + Log(c, Step(c, s, es[0]), es[1..])
  }

  function MissedBy(log: seq<Report>, k: Key): set<Peer> {
    set r | r in log && r.key == k && r.fetch.NotFound? :: r.peer
  }

  function Count(log: seq<Report>, k: Key, f: Fetch): nat {
    if log == [] then 0
    else
      var r := log[|log| - 1];
      Count(log[..|log| - 1], k, f) + if r.key == k && r.fetch == f then 1 else 0
  }

  /** Chunks that were fetched, by the order of their reports. */
  function FetchedKeys(log: seq<Report>): seq<Key> {
    if log == [] then []
    else
      var r := log[|log| - 1];
      FetchedKeys(log[..|log| - 1]) + if r.fetch.Fetched? then [r.key] else []
  }

  function Keys(q: seq<Task>): (ks: seq<Key>)
    ensures |ks| == |q| && forall i :: 0 <= i < |q| ==> ks[i] == q[i].key
  {
    seq(|q|, i requires 0 <= i < |q| => q[i].key)
  }

  /** Every source has said that it does not have the chunk. */
  predicate MissingEverywhere(c: Config, log: seq<Report>, k: Key) {
    c.sources != [] && Distinct(c.sources) && forall p :: p in c.sources ==> Report(k, p, NotFound) in log
  }

  /** At least one attempt is made whatever the configured maximum. */
  function Limit(c: Config): nat {
    if c.maxAttempts < 1 then 1 else c.maxAttempts
  }

  lemma LogSnoc(log: seq<Report>, r: Report, k: Key)
    ensures MissedBy(log + [r], k) == MissedBy(log, k) + (if r.key == k && r.fetch.NotFound? then {r.peer} else {})
    ensures forall f :: Count(log + [r], k, f) == Count(log, k, f) + if r.key == k && r.fetch == f then 1 else 0
    ensures FetchedKeys(log + [r]) == FetchedKeys(log) + if r.fetch.Fetched? then [r.key] else []
  {
    assert (log + [r])[..|log|] == log;
  }

  // ------------------------------------------------------------- tasks remember

  predicate AllSources(c: Config, ps: set<Peer>) {
    forall p :: p in ps ==> p in c.sources
  }

  /** A task in play carries exactly what the log says about its chunk. */
  ghost predicate Remembers(c: Config, log: seq<Report>, t: Task) {
    && t.missed == MissedBy(log, t.key) && AllSources(c, t.missed)
    && t.attempts == Count(log, t.key, Failed)
  }

  ghost predicate NotLost(c: Config, log: seq<Report>, k: Key) {
    !MissingEverywhere(c, log, k) && Count(log, k, Failed) < Limit(c)
  }

  /** What the outcome of a run says about the log. */
  ghost predicate Explained(c: Config, log: seq<Report>, phase: Phase) {
    match phase
    case Returned(NotFoundAnywhere(t)) =>
      && Remembers(c, log, t) && MissingEverywhere(c, log, t.key) && Count(log, t.key, Failed) < Limit(c)
      && forall k :: k != t.key ==> NotLost(c, log, k)
    case Returned(AttemptsExhausted(t)) =>
      && Remembers(c, log, t) && !MissingEverywhere(c, log, t.key) && Count(log, t.key, Failed) == Limit(c)
      && forall k :: k != t.key ==> NotLost(c, log, k)
    case _ => forall k :: NotLost(c, log, k)
  }

  ghost predicate Follows(c: Config, s: State, log: seq<Report>) {
    && (forall t :: InPlay(s, t) ==> Remembers(c, log, t))
    && Explained(c, log, s.phase)
    && Keys(s.completions) == FetchedKeys(log)
    && MissesDiffer(log)
  }

  /** Nobody is asked again for a chunk that it did not have. */
  predicate MissesDiffer(log: seq<Report>) {
    forall i, j :: 0 <= i < j < |log| && log[i].fetch.NotFound? ==> log[i] != log[j]
  }

  /** Having been missed by as many peers as there are sources means by each of them. */
  lemma FullMeansEverywhere(c: Config, log: seq<Report>, k: Key)
    requires AllSources(c, MissedBy(log, k))
    ensures |MissedBy(log, k)| <= |c.sources|
    ensures c.sources != [] ==> (|MissedBy(log, k)| == |c.sources| <==> MissingEverywhere(c, log, k))
  {
    var missed, sources := MissedBy(log, k), set p | p in c.sources;
    Counting.SubsetSize(missed, sources);
    SourceCount(c.sources);
    if |missed| == |c.sources| {
      SameSize(missed, sources);
      forall p | p in c.sources
        ensures Report(k, p, NotFound) in log
      {
        assert p in missed;
      }
    }
    if MissingEverywhere(c, log, k) {
      assert missed == sources;
    }
  }

  lemma SameSize<T>(a: set<T>, b: set<T>)
    requires a <= b && |a| >= |b|
    ensures a == b
  {
    if x :| x in b && x !in a {
      Counting.SubsetSize(a, b - {x});
    }
  }

  lemma {:induction false} SourceCount<T>(l: seq<T>)
    ensures |set x | x in l| <= |l|
    ensures |set x | x in l| == |l| <==> Distinct(l)
  {
    if l != [] {
      var init, last := l[..|l| - 1], l[|l| - 1];
      SourceCount(init);
      assert l == init + [last];
      assert (set x | x in l) == (set x | x in init) + {last};
      if Distinct(l) {
        assert last !in init;
      }
      if last !in init && Distinct(init) {
        assert Distinct(l);
      }
    }
  }

  // ------------------------------------------------------------------- one report

  /** A report about one chunk changes nothing about the others. */
  lemma OtherKey(c: Config, log: seq<Report>, r: Report, k: Key)
    requires r.key != k
    ensures MissedBy(log + [r], k) == MissedBy(log, k) && Count(log + [r], k, Failed) == Count(log, k, Failed)
    ensures MissingEverywhere(c, log + [r], k) <==> MissingEverywhere(c, log, k)
  {
    LogSnoc(log, r, k);
    assert forall p :: Report(k, p, NotFound) in log + [r] <==> Report(k, p, NotFound) in log;
  }

  lemma OnlyMissesCount(c: Config, log: seq<Report>, r: Report)
    requires !r.fetch.NotFound?
    ensures MissingEverywhere(c, log + [r], r.key) <==> MissingEverywhere(c, log, r.key)
  {
    assert forall p :: Report(r.key, p, NotFound) in log + [r] <==> Report(r.key, p, NotFound) in log;
  }

  /** The task as it stands after a report on it. */
  function Grown(t: Task, r: Report): Task {
    match r.fetch
    case Fetched => t
    case NotFound => t.(missed := t.missed + {r.peer})
    case Failed => t.(attempts := t.attempts + 1)
  }

  lemma GrownRemembers(c: Config, log: seq<Report>, t: Task, r: Report)
    requires Remembers(c, log, t) && r.key == t.key && r.peer in c.sources
    ensures Remembers(c, log + [r], Grown(t, r))
  {
    LogSnoc(log, r, t.key);
  }

  /** What the loop makes of the report. */
  lemma HandledExplains(c: Config, s: State, log: seq<Report>, m: Msg)
    requires s.phase.Looping? && s.pending > 0 && m.TaskResult? && m.peer in c.sources
    requires Remembers(c, log, m.task) && forall k :: NotLost(c, log, k)
    ensures Explained(c, log + [Report(m.task.key, m.peer, m.fetch)], Handle(c, s, m).phase)
  {
    var r := Report(m.task.key, m.peer, m.fetch);
    var log' := log + [r];
    GrownRemembers(c, log, m.task, r);
    LogSnoc(log, r, r.key);
    forall k | k != r.key
      ensures NotLost(c, log', k)
    {
      assert NotLost(c, log, k);
      OtherKey(c, log, r, k);
    }
    if m.fetch.NotFound? {
      FullMeansEverywhere(c, log', r.key);
    } else {
      OnlyMissesCount(c, log, r);
    }
    assert NotLost(c, log, r.key);
  }

  // ---------------------------------------------------------------------- the run

  lemma FirstInPlay(s: State)
    requires s.results != [] && s.results[0].TaskResult?
    ensures InPlay(s, s.results[0].task)
  {
    assert s.results[0].task in Carried(s.results[0]);
  }

  lemma InPlayAfter(c: Config, s: State, log: seq<Report>, t: Task)
    requires Inv(c, s) && Untried(c) && Follows(c, s, log) && Enabled(c, s, Receive) && s.results[0].TaskResult?
    requires InPlay(Step(c, s, Receive), t)
    ensures Remembers(c, log + Taken(s, Receive), t)
  {
    var m, r := s.results[0], Taken(s, Receive)[0];
    FirstInPlay(s);
    InPlayReceive(c, s, t);
    if InPlay(s.(results := s.results[1..]), t) {
      SoleCopy(c, s, t);
      InPlayTail(s, t);
      OtherKey(c, log, r, t.key);
    } else {
      RequeuedIsGrown(c, s, t);
      GrownRemembers(c, log, m.task, r);
    }
  }

  lemma RequeuedIsGrown(c: Config, s: State, t: Task)
    requires Labels(c, s) && Enabled(c, s, Receive) && s.results[0].TaskResult?
    requires Step(c, s, Receive).queue == s.queue + [t]
    ensures t == Grown(s.results[0].task, Taken(s, Receive)[0]) && s.results[0].peer in c.sources
  {
    assert Honest(c, s, s.results[0]);
    assert Step(c, s, Receive).queue[|s.queue|] == t;
  }

  lemma KeysSnoc(q: seq<Task>, t: Task)
    ensures Keys(q + [t]) == Keys(q) + [t.key]
  {}

  lemma CompletionsAfter(c: Config, s: State)
    requires Enabled(c, s, Receive) && s.results[0].TaskResult?
    ensures Step(c, s, Receive).completions ==
      s.completions + if s.results[0].fetch.Fetched? then [s.results[0].task] else []
  {}

  lemma {:induction false} CompletedAfter(c: Config, s: State, log: seq<Report>)
    requires Enabled(c, s, Receive) && s.results[0].TaskResult? && Keys(s.completions) == FetchedKeys(log)
    ensures Keys(Step(c, s, Receive).completions) == FetchedKeys(log + Taken(s, Receive))
  {
    LogSnoc(log, Taken(s, Receive)[0], s.results[0].task.key);
    CompletionsAfter(c, s);
    if s.results[0].fetch.Fetched? {
      KeysSnoc(s.completions, s.results[0].task);
    } else {
      assert s.completions + [] == s.completions;
    }
  }

  lemma FollowsReceive(c: Config, s: State, log: seq<Report>)
    requires Inv(c, s) && Untried(c) && Follows(c, s, log) && Enabled(c, s, Receive) && s.results[0].TaskResult?
    ensures Follows(c, Step(c, s, Receive), log + Taken(s, Receive))
  {
    var m := s.results[0];
    FirstInPlay(s);
    assert Honest(c, s, m);
    forall t | InPlay(Step(c, s, Receive), t)
      ensures Remembers(c, log + Taken(s, Receive), t)
    {
      InPlayAfter(c, s, log, t);
    }
    HandledExplains(c, s.(results := s.results[1..]), log, m);
    CompletedAfter(c, s, log);
    assert m.peer !in MissedBy(log, m.task.key);
    assert m.fetch.NotFound? ==> Taken(s, Receive)[0] !in log;
  }

  lemma FollowsQuiet(c: Config, s: State, log: seq<Report>, e: Event)
    requires Inv(c, s) && Follows(c, s, log) && Enabled(c, s, e) && Taken(s, e) == []
    ensures Follows(c, Step(c, s, e), log)
  {
    forall t | InPlay(Step(c, s, e), t)
      ensures InPlay(s, t)
    {
      if e.Receive? {
        InPlayReceive(c, s, t);
        InPlayTail(s, t);
      } else {
        InPlayQuiet(c, s, e, t);
      }
    }
    QuietPhase(c, s, e);
  }

  lemma QuietPhase(c: Config, s: State, e: Event)
    requires Enabled(c, s, e) && Taken(s, e) == []
    ensures Step(c, s, e).completions == s.completions
    ensures Step(c, s, e).phase == s.phase || (!s.phase.Returned? && Dropped(Step(c, s, e)) == [])
  {}

  lemma Associate<T>(a: seq<T>, b: seq<T>, c: seq<T>)
    ensures (a + b) + c == a + (b + c)
  {}

  lemma {:induction false} FollowsRun(c: Config, s: State, log: seq<Report>, es: seq<Event>)
    requires Inv(c, s) && Untried(c) && Follows(c, s, log) && Feasible(c, s, es)
    ensures Follows(c, After(c, s, es), log + Log(c, s, es))
    decreases |es|
  {
    if es == [] {
      assert log + [] == log;
    } else {
      var s1, taken := Step(c, s, es[0]), Taken(s, es[0]);
      InvStep(c, s, es[0]);
      if taken == [] {
        FollowsQuiet(c, s, log, es[0]);
        assert log + taken == log;
      } else {
        FollowsReceive(c, s, log);
      }
      FollowsRun(c, s1, log + taken, es[1..]);
      Associate(log, taken, Log(c, s1, es[1..]));
    }
  }

  lemma FollowsInit(c: Config, store: set<ChunkId>)
    requires Untried(c)
    ensures Follows(c, Init(c, store), [])
  {
    var s := Init(c, store);
    forall t | InPlay(s, t)
      ensures Remembers(c, [], t)
    {
      assert t in s.queue;
    }
    forall k
      ensures NotLost(c, [], k)
    {
      if c.sources != [] {
        assert c.sources[0] in c.sources;
      }
    }
  }

  // ----------------------------------------------------------------------- results

  /** The run gave this chunk up because no source has it. */
  ghost predicate LostAsMissing(s: State, k: Key) {
    s.phase.Returned? && s.phase.outcome.NotFoundAnywhere? && s.phase.outcome.lost.key == k
  }

  /** The run gave this chunk up because fetching it kept failing. */
  ghost predicate LostToFailures(s: State, k: Key) {
    s.phase.Returned? && s.phase.outcome.AttemptsExhausted? && s.phase.outcome.lost.key == k
  }

  /** For every run, finished or not: a chunk is given up as missing exactly if every
      source, all of them different, has reported that it does not have it, each of them
      once; and to failures exactly if as many attempts as allowed have failed. */
  lemma GivesUpIff(c: Config, store: set<ChunkId>, es: seq<Event>, k: Key)
    requires Untried(c) && Feasible(c, Init(c, store), es)
    ensures
      var s, log := After(c, Init(c, store), es), Log(c, Init(c, store), es);
      && (LostAsMissing(s, k) <==> MissingEverywhere(c, log, k))
      && (LostToFailures(s, k) <==> Count(log, k, Failed) >= Limit(c))
      && Count(log, k, Failed) <= Limit(c) && MissesDiffer(log)
  {
    var s, log := After(c, Init(c, store), es), Log(c, Init(c, store), es);
    RunFollows(c, store, es);
    if !LostAsMissing(s, k) && !LostToFailures(s, k) {
      assert NotLost(c, log, k);
    }
  }

  lemma RunFollows(c: Config, store: set<ChunkId>, es: seq<Event>)
    requires Untried(c) && Feasible(c, Init(c, store), es)
    ensures Inv(c, After(c, Init(c, store), es))
    ensures Follows(c, After(c, Init(c, store), es), Log(c, Init(c, store), es))
  {
    InitInv(c, store);
    InvRun(c, Init(c, store), es);
    FollowsInit(c, store);
    FollowsRun(c, Init(c, store), [], es);
    assert [] + Log(c, Init(c, store), es) == Log(c, Init(c, store), es);
  }

  /** The completions are exactly the chunks reported as fetched, in that order; so a nil
      return comes with as many of them as tasks, and the count in "all workers died" is
      how many are missing. */
  lemma CompletesWhatIsFetched(c: Config, store: set<ChunkId>, es: seq<Event>)
    requires Untried(c) && Feasible(c, Init(c, store), es)
    ensures
      var s, log := After(c, Init(c, store), es), Log(c, Init(c, store), es);
      && Keys(s.completions) == FetchedKeys(log)
      && (s.phase == Returned(Succeeded) ==> |FetchedKeys(log)| == |c.tasks|)
      && (s.phase.Returned? && s.phase.outcome.WorkersDied? ==>
            s.phase.outcome.remaining == |c.tasks| - |FetchedKeys(log)| > 0)
  {
    RunFollows(c, store, es);
    DecidedRun(c, Init(c, store), [], es);
  }

  // ------------------------------------------------------- the other ways to return

  /** What the steps so far decide by themselves. */
  ghost predicate Decided(s: State, seen: seq<Event>) {
    && (s.phase.Starting? ==> StartLoop !in seen && (s.active > 0 <==> Connect(true) in seen))
    && (s.phase == Returned(Cancelled) <==> Cancel in seen)
    && (s.phase == Returned(NoWorkers) <==> StartLoop in seen && Connect(true) !in seen)
    && (s.phase.Looping? ==> StartLoop in seen && Connect(true) in seen)
    && (s.phase.Returned? && s.phase.outcome.WorkersDied? ==> s.pending > 0)
  }

  lemma DecidedStep(c: Config, s: State, seen: seq<Event>, e: Event)
    requires Decided(s, seen) && Enabled(c, s, e)
    ensures Decided(Step(c, s, e), seen + [e])
  {
    assert forall x :: x in seen + [e] <==> x in seen || x == e;
  }

  lemma {:induction false} DecidedRun(c: Config, s: State, seen: seq<Event>, es: seq<Event>)
    requires Decided(s, seen) && Feasible(c, s, es)
    ensures Decided(After(c, s, es), seen + es)
    decreases |es|
  {
    if es == [] {
      assert seen + es == seen;
    } else {
      DecidedStep(c, s, seen, es[0]);
      DecidedRun(c, Step(c, s, es[0]), seen + [es[0]], es[1..]);
      assert seen + es == seen + [es[0]] + es[1..];
    }
  }

  /** A run reports that no worker could be started exactly if it tried and no connection
      worked, and cancellation exactly if it was cancelled. */
  lemma ReturnsEarlyIff(c: Config, store: set<ChunkId>, es: seq<Event>)
    requires Feasible(c, Init(c, store), es)
    ensures
      var phase := After(c, Init(c, store), es).phase;
      && (phase == Returned(NoWorkers) <==> StartLoop in es && Connect(true) !in es)
      && (phase == Returned(Cancelled) <==> Cancel in es)
  {
    DecidedRun(c, Init(c, store), [], es);
    assert [] + es == es;
  }

  // ---------------------------------------------------------- where reports come from

  /** How often a worker is told `r` by its source in this step. */
  function Told(c: Config, s: State, e: Event, r: Report): nat
    requires Enabled(c, s, e)
  {
    if e.Fetching? && r == Report(s.workers[e.w].task.key, c.sources[e.w], e.fetch) then 1 else 0
  }

  function ToldAll(c: Config, s: State, es: seq<Event>, r: Report): nat
    requires Feasible(c, s, es)
    decreases |es|
  {
    if es == [] then 0 else Told(c, s, es[0], r) + ToldAll(c, Step(c, s, es[0]), es[1..], r)
  }

  function Times<T(==)>(s: seq<T>, x: T): nat {
    if s == [] then 0 else (if s[0] == x then 1 else 0) + Times(s[1..], x)
  }

  lemma {:induction false} TimesConcat<T>(a: seq<T>, b: seq<T>, x: T)
    ensures Times(a + b, x) == Times(a, x) + Times(b, x)
  {
    if a == [] {
      assert a + b == b;
    } else {
      assert (a + b)[1..] == a[1..] + b;
      TimesConcat(a[1..], b, x);
    }
  }

  function Carries(m: Msg, r: Report): nat {
    if m.TaskResult? && r == Report(m.task.key, m.peer, m.fetch) then 1 else 0
  }

  function Brings(w: Worker, r: Report): nat {
    if w.Sending? then Carries(w.msg, r) else 0
  }

  function AtWorkers(ws: seq<Worker>, r: Report): nat {
    if ws == [] then 0 else Brings(ws[0], r) + AtWorkers(ws[1..], r)
  }

  function InChannel(ms: seq<Msg>, r: Report): nat {
    if ms == [] then 0 else Carries(ms[0], r) + InChannel(ms[1..], r)
  }

  /** How often `r` is on its way to the loop. */
  function Underway(s: State, r: Report): nat {
    AtWorkers(s.workers, r) + InChannel(s.results, r)
  }

  lemma {:induction false} AtWorkersUpdate(ws: seq<Worker>, i: nat, x: Worker, r: Report)
    requires i < |ws|
    ensures AtWorkers(ws[i := x], r) == AtWorkers(ws, r) - Brings(ws[i], r) + Brings(x, r)
  {
    if i == 0 {
      assert ws[i := x][1..] == ws[1..];
    } else {
      assert ws[i := x][1..] == ws[1..][i - 1 := x];
      AtWorkersUpdate(ws[1..], i - 1, x, r);
    }
  }

  lemma {:induction false} InChannelSnoc(ms: seq<Msg>, m: Msg, r: Report)
    ensures InChannel(ms + [m], r) == InChannel(ms, r) + Carries(m, r)
  {
    if ms == [] {
      assert ms + [m] == [m] && [m][1..] == [];
    } else {
      assert (ms + [m])[1..] == ms[1..] + [m];
      InChannelSnoc(ms[1..], m, r);
    }
  }

  /** One worker moves on. */
  lemma WorkerMoves(s: State, s': State, w: nat, x: Worker, r: Report)
    requires w < |s.workers| && s'.workers == s.workers[w := x]
    ensures
      Underway(s', r) == Underway(s, r) - Brings(s.workers[w], r) + Brings(x, r)
        - InChannel(s.results, r) + InChannel(s'.results, r)
  {
    AtWorkersUpdate(s.workers, w, x, r);
  }

  lemma UnderwayStep(c: Config, s: State, e: Event, r: Report)
    requires Shape(c, s) && Enabled(c, s, e)
    ensures Underway(Step(c, s, e), r) + Times(Taken(s, e), r) == Underway(s, r) + Told(c, s, e, r)
  {
    var s' := Step(c, s, e);
    match e
    case Connect(_) => WorkerMoves(s, s', s.phase.next, s'.workers[s.phase.next], r);
    case Pop(w) => WorkerMoves(s, s', w, s'.workers[w], r);
    case Skip(w) => WorkerMoves(s, s', w, s'.workers[w], r);
    case Wake(w, _) => WorkerMoves(s, s', w, s'.workers[w], r);
    case Fetching(w, _) => WorkerMoves(s, s', w, s'.workers[w], r);
    case Send(w) =>
      InChannelSnoc(s.results, s.workers[w].msg, r);
      WorkerMoves(s, s', w, s'.workers[w], r);
    case Receive => UnderwayReceive(c, s, r);
    case _ =>
  }

  lemma UnderwayReceive(c: Config, s: State, r: Report)
    requires Enabled(c, s, Receive)
    ensures Underway(Step(c, s, Receive), r) + Times(Taken(s, Receive), r) == Underway(s, r)
  {
    var s', taken := Step(c, s, Receive), Taken(s, Receive);
    assert s'.workers == s.workers && s'.results == s.results[1..];
    if taken != [] {
      assert taken[1..] == [];
    }
  }

  lemma {:induction false} UnderwayRun(c: Config, s: State, es: seq<Event>, r: Report)
    requires Inv(c, s) && Feasible(c, s, es)
    ensures Underway(After(c, s, es), r) + Times(Log(c, s, es), r) == Underway(s, r) + ToldAll(c, s, es, r)
    decreases |es|
  {
    if es != [] {
      var s1 := Step(c, s, es[0]);
      InvStep(c, s, es[0]);
      UnderwayStep(c, s, es[0], r);
      UnderwayRun(c, s1, es[1..], r);
      TimesConcat(Taken(s, es[0]), Log(c, s1, es[1..]), r);
    }
  }

  /** Some source has delivered this chunk. */
  predicate Delivered(c: Config, s: State, es: seq<Event>, x: ChunkId)
    requires Feasible(c, s, es)
    decreases |es|
  {
    es != [] &&
    ((es[0].Fetching? && es[0].fetch.Fetched? && s.workers[es[0].w].task.key.chunk == x) ||
     Delivered(c, Step(c, s, es[0]), es[1..], x))
  }

  lemma {:induction false} StoreRun(c: Config, s: State, es: seq<Event>, x: ChunkId)
    requires Feasible(c, s, es)
    ensures x in After(c, s, es).store <==> x in s.store || Delivered(c, s, es, x)
    decreases |es|
  {
    if es != [] {
      StoreRun(c, Step(c, s, es[0]), es[1..], x);
    }
  }

  lemma {:induction false} NoneAtStart(ws: seq<Worker>, r: Report)
    requires forall i :: 0 <= i < |ws| ==> ws[i].Unstarted?
    ensures AtWorkers(ws, r) == 0
  {
    if ws != [] {
      NoneAtStart(ws[1..], r);
    }
  }

  /** No report is lost, changed or made up: the loop has seen each as often as a source
      made it, except for those still underway; and the store has gained exactly the chunks
      that were delivered. */
  lemma ReportsAreConserved(c: Config, store: set<ChunkId>, es: seq<Event>, r: Report, x: ChunkId)
    requires Feasible(c, Init(c, store), es)
    ensures
      var s0 := Init(c, store);
      var s := After(c, s0, es);
      && Times(Log(c, s0, es), r) + Underway(s, r) == ToldAll(c, s0, es, r)
      && (x in s.store <==> x in store || Delivered(c, s0, es, x))
  {
    var s0 := Init(c, store);
    InitInv(c, store);
    UnderwayRun(c, s0, es, r);
    StoreRun(c, s0, es, x);
    NoneAtStart(s0.workers, r);
  }
}
