/** Invariants of the swarm scheduler over every interleaving, and what they give. */
module SchedulerSafety {
  import opened Scheduler
  import opened Shared
  import Counting

  // ------------------------------------------------------------ invariants

  ghost predicate Shape(c: Config, s: State) {
    && |s.workers| == |c.sources|
    && |s.results| <= c.Capacity()
    && (s.phase.Starting? ==> s.phase.next <= |s.workers|)
    && (forall j :: 0 <= j < |s.workers| ==>
          (s.workers[j].Unstarted? <==> s.phase.Starting? && s.phase.next <= j))
    && (s.phase == Returned(Succeeded) ==> s.pending == 0)
    && (s.phase.Returned? && s.phase.outcome.WorkersDied? ==>
          s.phase.outcome.remaining == s.pending && s.active == 0)
  }

  /** A report names its own source, which had not missed the task before, and a
      success is only reported once the chunk is stored. */
  ghost predicate Honest(c: Config, s: State, m: Msg) {
    && m.from < |c.sources|
    && (m.TaskResult? ==>
          && m.peer == c.sources[m.from]
          && m.peer !in m.task.missed
          && (m.fetch.Fetched? ==> m.task.key.chunk in s.store))
  }

  ghost predicate Labels(c: Config, s: State) {
    && (forall w :: 0 <= w < |s.workers| && s.workers[w].Sending? ==>
          s.workers[w].msg.from == w && Honest(c, s, s.workers[w].msg))
    && (forall i :: 0 <= i < |s.results| ==> Honest(c, s, s.results[i]))
    && (forall i :: 0 <= i < |s.completions| ==> s.completions[i].key.chunk in s.store)
  }

  predicate Started(w: Worker) {
    !w.Unstarted? && !w.Refused?
  }

  /** A worker's "done" signal is the last thing it sends. */
  ghost predicate DoneIsLast(s: State) {
    && (forall i :: 0 <= i < |s.results| ==> s.results[i].from < |s.workers| && Started(s.workers[s.results[i].from]))
    && (forall i :: 0 <= i < |s.results| && s.results[i].WorkerDone? ==> s.workers[s.results[i].from].Exited?)
    && (forall i, j :: 0 <= i < j < |s.results| && s.results[i].WorkerDone? ==> s.results[j].from != s.results[i].from)
    && (forall j :: 0 <= j < |s.results| && s.workers[s.results[j].from].Exited? ==>
          WorkerDone(s.results[j].from) in s.results)
  }

  /** Started, and its "done" signal not yet taken off the channel. */
  predicate Alive(s: State, w: nat)
    requires w < |s.workers|
  {
    && Started(s.workers[w])
    && (s.workers[w].Exited? ==> WorkerDone(w) in s.results)
  }

  function AliveSet(s: State): set<nat> {
    set w: nat | w < |s.workers| && Alive(s, w)
  }

  /** Every scheduled task is in exactly one place, and the loop's count is right. */
  ghost predicate Conserved(c: Config, s: State) {
    && (forall p :: Total(p, s) == Tally(p, c.tasks))
    && s.pending + |s.completions| == |c.tasks|
  }

  ghost predicate Inv(c: Config, s: State) {
    && Shape(c, s)
    && Labels(c, s)
    && DoneIsLast(s)
    && s.active == |AliveSet(s)|
    && Conserved(c, s)
  }

  // ---------------------------------------------------------- preservation

  lemma InitInv(c: Config, store: set<ChunkId>)
    ensures Inv(c, Init(c, store))
  {
    var s := Init(c, store);
    assert AliveSet(s) == {};
    forall p
      ensures Total(p, s) == Tally(p, c.tasks)
    {
      HeldTallyNone(p, s.workers);
    }
  }

  lemma ShapeStep(c: Config, s: State, e: Event)
    requires Shape(c, s) && Enabled(c, s, e)
    ensures Shape(c, Step(c, s, e))
  {}

  /** One worker moves on, and what it may now want to send is honest. */
  lemma LabelsWorker(c: Config, s: State, s': State, w: nat)
    requires Labels(c, s) && w < |s.workers| && s.store <= s'.store && s'.completions == s.completions
    requires |s'.workers| == |s.workers| && s'.workers == s.workers[w := s'.workers[w]]
    requires s'.workers[w].Sending? ==> s'.workers[w].msg.from == w && Honest(c, s', s'.workers[w].msg)
    requires s'.results == s.results || (s.workers[w].Sending? && s'.results == s.results + [s.workers[w].msg])
    ensures Labels(c, s')
  {}

  lemma LabelsReceive(c: Config, s: State)
    requires Labels(c, s) && Enabled(c, s, Receive)
    ensures Labels(c, Step(c, s, Receive))
  {
    var s' := Step(c, s, Receive);
    assert Honest(c, s, s.results[0]);
    assert forall i :: 0 <= i < |s'.results| ==> s'.results[i] == s.results[i + 1];
  }

  lemma LabelsStep(c: Config, s: State, e: Event)
    requires Shape(c, s) && Labels(c, s) && Enabled(c, s, e)
    ensures Labels(c, Step(c, s, e))
  {
    var s' := Step(c, s, e);
    match e
    case Receive => LabelsReceive(c, s);
    case Connect(_) => LabelsWorker(c, s, s', s.phase.next);
    case Pop(w) => LabelsWorker(c, s, s', w);
    case Skip(w) => LabelsWorker(c, s, s', w);
    case Wake(w, _) => LabelsWorker(c, s, s', w);
    case Fetching(w, _) => LabelsWorker(c, s, s', w);
    case Send(w) => LabelsWorker(c, s, s', w);
    case _ =>
  }

  lemma DoneIsLastFrame(s: State, s': State)
    requires DoneIsLast(s) && s'.results == s.results && |s'.workers| == |s.workers|
    requires forall j :: 0 <= j < |s.workers| ==> s'.workers[j].Exited? == s.workers[j].Exited?
    requires forall j :: 0 <= j < |s.workers| && Started(s.workers[j]) ==> Started(s'.workers[j])
    ensures DoneIsLast(s')
  {}

  /** A result is sent on by a worker that goes on working. */
  lemma DoneIsLastTask(s: State, s': State, w: nat, m: Msg)
    requires DoneIsLast(s) && w < |s.workers| && s.workers[w].Sending? && m.TaskResult? && m.from == w
    requires s'.results == s.results + [m] && s'.workers == s.workers[w := Polling]
    ensures DoneIsLast(s')
  {
    forall j | 0 <= j < |s'.results| && s'.workers[s'.results[j].from].Exited?
      ensures WorkerDone(s'.results[j].from) in s'.results
    {
      assert WorkerDone(s.results[j].from) in s.results;
    }
  }

  lemma DoneIsLastExit(s: State, s': State, w: nat)
    requires DoneIsLast(s) && w < |s.workers| && s.workers[w].Sending?
    requires s'.results == s.results + [WorkerDone(w)] && s'.workers == s.workers[w := Exited]
    ensures DoneIsLast(s')
  {
    assert s'.results[|s.results|] == WorkerDone(w);
    forall j | 0 <= j < |s'.results| && s'.workers[s'.results[j].from].Exited?
      ensures WorkerDone(s'.results[j].from) in s'.results
    {
      if s'.results[j].from != w {
        assert WorkerDone(s.results[j].from) in s.results;
      }
    }
  }

  lemma DoneIsLastSend(c: Config, s: State, w: nat)
    requires Shape(c, s) && Labels(c, s) && DoneIsLast(s) && Enabled(c, s, Send(w))
    ensures DoneIsLast(Step(c, s, Send(w)))
  {
    var m := s.workers[w].msg;
    if m.WorkerDone? {
      DoneIsLastExit(s, Step(c, s, Send(w)), w);
    } else {
      DoneIsLastTask(s, Step(c, s, Send(w)), w, m);
    }
  }

  lemma DoneIsLastReceive(c: Config, s: State)
    requires Shape(c, s) && Labels(c, s) && DoneIsLast(s) && Enabled(c, s, Receive)
    ensures DoneIsLast(Step(c, s, Receive))
  {
    var s' := Step(c, s, Receive);
    assert s'.results == s.results[1..] && s'.workers == s.workers;
    forall j | 0 <= j < |s'.results| && s'.workers[s'.results[j].from].Exited?
      ensures WorkerDone(s'.results[j].from) in s'.results
    {
      assert s.results[j + 1] == s'.results[j];
      var i :| 0 <= i < |s.results| && s.results[i] == WorkerDone(s.results[j + 1].from);
      assert i > 0;
      assert s'.results[i - 1] == s.results[i];
    }
  }

  lemma DoneIsLastStep(c: Config, s: State, e: Event)
    requires Shape(c, s) && Labels(c, s) && DoneIsLast(s) && Enabled(c, s, e)
    ensures DoneIsLast(Step(c, s, e))
  {
    match e
    case Send(w) => DoneIsLastSend(c, s, w);
    case Receive => DoneIsLastReceive(c, s);
    case _ => DoneIsLastFrame(s, Step(c, s, e));
  }

  // Which workers count as active.

  lemma AliveReceive(c: Config, s: State)
    requires Shape(c, s) && DoneIsLast(s) && Enabled(c, s, Receive)
    ensures AliveSet(Step(c, s, Receive)) ==
            if s.results[0].WorkerDone? then AliveSet(s) - {s.results[0].from} else AliveSet(s)
    ensures s.results[0].WorkerDone? ==> s.results[0].from in AliveSet(s)
  {
    var s' := Step(c, s, Receive);
    assert s'.results == s.results[1..] && s'.workers == s.workers;
    forall w: nat | w < |s.workers|
      ensures WorkerDone(w) in s'.results <==> WorkerDone(w) in s.results && s.results[0] != WorkerDone(w)
    {
      assert s.results == [s.results[0]] + s'.results;
    }
  }

  lemma AliveConnect(c: Config, s: State, ok: bool)
    requires Shape(c, s) && DoneIsLast(s) && Enabled(c, s, Connect(ok))
    ensures AliveSet(Step(c, s, Connect(ok))) == if ok then AliveSet(s) + {s.phase.next} else AliveSet(s)
    ensures s.phase.next !in AliveSet(s)
  {}

  lemma AliveSend(c: Config, s: State, w: nat)
    requires Shape(c, s) && Labels(c, s) && DoneIsLast(s) && Enabled(c, s, Send(w))
    ensures AliveSet(Step(c, s, Send(w))) == AliveSet(s)
  {
    var s' := Step(c, s, Send(w));
    assert forall m :: m in s.results ==> m in s'.results;
    assert forall v: nat :: v < |s.workers| && v != w ==> (WorkerDone(v) in s.results <==> WorkerDone(v) in s'.results);
    assert s.workers[w].msg == s'.results[|s.results|];
  }

  lemma AliveQuiet(c: Config, s: State, e: Event)
    requires Shape(c, s) && DoneIsLast(s) && Enabled(c, s, e) && !e.Receive? && !e.Connect? && !e.Send?
    ensures AliveSet(Step(c, s, e)) == AliveSet(s)
  {}

  lemma AliveStep(c: Config, s: State, e: Event)
    requires Shape(c, s) && Labels(c, s) && DoneIsLast(s) && Enabled(c, s, e) && s.active == |AliveSet(s)|
    ensures Step(c, s, e).active == |AliveSet(Step(c, s, e))|
  {
    match e
    case Receive => AliveReceive(c, s);
    case Connect(ok) => AliveConnect(c, s, ok);
    case Send(w) => AliveSend(c, s, w);
    case _ => AliveQuiet(c, s, e);
  }

  // Where the tasks are.

  /** What worker `w` puts down somewhere else is what it no longer holds. */
  lemma WorkerTurn(p: Pick, s: State, s': State, w: nat, x: Worker)
    requires w < |s.workers| && s'.workers == s.workers[w := x]
    requires s'.completions == s.completions && Dropped(s') == Dropped(s)
    requires Tally(p, s'.queue) + Tally(p, Held(x)) + InFlightTally(p, s'.results) ==
             Tally(p, s.queue) + Tally(p, Held(s.workers[w])) + InFlightTally(p, s.results)
    ensures Total(p, s') == Total(p, s)
  {
    HeldTallyUpdate(p, s.workers, w, x);
  }

  lemma PopStep(c: Config, s: State, w: nat, p: Pick)
    requires Enabled(c, s, Pop(w))
    ensures Total(p, Step(c, s, Pop(w))) == Total(p, s)
  {
    var s' := Step(c, s, Pop(w));
    if s.queue != [] {
      TallyOne(p, s.queue[0]);
    }
    WorkerTurn(p, s, s', w, s'.workers[w]);
  }

  lemma SkipStep(c: Config, s: State, w: nat, p: Pick)
    requires Enabled(c, s, Skip(w))
    ensures Total(p, Step(c, s, Skip(w))) == Total(p, s)
  {
    var s' := Step(c, s, Skip(w));
    TallyConcat(p, s.queue, [s.workers[w].task]);
    WorkerTurn(p, s, s', w, s'.workers[w]);
  }

  lemma SendStep(c: Config, s: State, w: nat, p: Pick)
    requires Enabled(c, s, Send(w))
    ensures Total(p, Step(c, s, Send(w))) == Total(p, s)
  {
    var s' := Step(c, s, Send(w));
    InFlightSend(p, s.results, s.workers[w].msg);
    WorkerTurn(p, s, s', w, s'.workers[w]);
  }

  lemma QuietStep(c: Config, s: State, e: Event, p: Pick)
    requires Shape(c, s) && Enabled(c, s, e) && !e.Receive?
    ensures Total(p, Step(c, s, e)) == Total(p, s)
  {
    match e
    case Connect(ok) => WorkerTurn(p, s, Step(c, s, e), s.phase.next, Step(c, s, e).workers[s.phase.next]);
    case Pop(w) => PopStep(c, s, w, p);
    case Skip(w) => SkipStep(c, s, w, p);
    case Wake(w, _) => WorkerTurn(p, s, Step(c, s, e), w, Step(c, s, e).workers[w]);
    case Fetching(w, _) => WorkerTurn(p, s, Step(c, s, e), w, Step(c, s, e).workers[w]);
    case Send(w) => SendStep(c, s, w, p);
    case StartLoop =>
    case Cancel =>
    case Finish =>
  }

  /** Whatever becomes of the task of a received result, it weighs the same. */
  lemma TaskMoves(p: Pick, s: State, s': State, t: Task, t': Task)
    requires s.results != [] && s.results[0].TaskResult? && s.results[0].task == t && t'.key == t.key
    requires s'.results == s.results[1..] && s'.workers == s.workers && Dropped(s) == []
    requires
      || (s'.queue == s.queue + [t'] && s'.completions == s.completions && Dropped(s') == [])
      || (s'.queue == s.queue && s'.completions == s.completions + [t'] && Dropped(s') == [])
      || (s'.queue == s.queue && s'.completions == s.completions && Dropped(s') == [t'])
    ensures Total(p, s') == Total(p, s)
  {
    TallyOne(p, t);
    TallyOne(p, t');
    TallyConcat(p, s.queue, [t']);
    TallyConcat(p, s.completions, [t']);
  }

  /** A receive takes one task off the channel and puts it in exactly one other place. */
  lemma ReceiveStep(c: Config, s: State, p: Pick)
    requires Enabled(c, s, Receive)
    ensures Total(p, Step(c, s, Receive)) == Total(p, s)
  {
    var m, s' := s.results[0], Step(c, s, Receive);
    if m.TaskResult? {
      match m.fetch
      case NotFound => TaskMoves(p, s, s', m.task, m.task.(missed := m.task.missed + {m.peer}));
      case Failed => TaskMoves(p, s, s', m.task, m.task.(attempts := m.task.attempts + 1));
      case Fetched => TaskMoves(p, s, s', m.task, m.task);
    }
  }

  lemma ConservedStep(c: Config, s: State, e: Event)
    requires Shape(c, s) && Conserved(c, s) && Enabled(c, s, e)
    ensures Conserved(c, Step(c, s, e))
  {
    var s' := Step(c, s, e);
    forall p
      ensures Total(p, s') == Tally(p, c.tasks)
    {
      if e.Receive? {
        ReceiveStep(c, s, p);
      } else {
        QuietStep(c, s, e, p);
      }
    }
  }

  lemma InvStep(c: Config, s: State, e: Event)
    requires Inv(c, s) && Enabled(c, s, e)
    ensures Inv(c, Step(c, s, e))
  {
    ShapeStep(c, s, e);
    LabelsStep(c, s, e);
    DoneIsLastStep(c, s, e);
    AliveStep(c, s, e);
    ConservedStep(c, s, e);
  }

  /** The invariant holds after any interleaving of steps. */
  lemma {:induction false} InvRun(c: Config, s: State, es: seq<Event>)
    requires Inv(c, s) && Feasible(c, s, es)
    ensures Inv(c, After(c, s, es))
    decreases |es|
  {
    if es != [] {
      InvStep(c, s, es[0]);
      InvRun(c, Step(c, s, es[0]), es[1..]);
    }
  }

  /** Some interleaving of steps, from a fresh run, leads to `s`. */
  ghost predicate Reached(c: Config, s: State) {
    exists store: set<ChunkId>, es: seq<Event> ::
      Feasible(c, Init(c, store), es) && s == After(c, Init(c, store), es)
  }

  lemma ReachedInv(c: Config, s: State)
    requires Reached(c, s)
    ensures Inv(c, s)
  {
    var store: set<ChunkId>, es: seq<Event> :| Feasible(c, Init(c, store), es) && s == After(c, Init(c, store), es);
    InitInv(c, store);
    InvRun(c, Init(c, store), es);
  }

  // -------------------------------------------------------------- results

  /** In every interleaving each scheduled task is queued, held by one worker, in the
      channel, completed, or the one a failing run gave up on: exactly once in all. */
  lemma TasksAreConserved(c: Config, s: State, p: Pick)
    requires Reached(c, s)
    ensures Total(p, s) == Tally(p, c.tasks)
  {
    ReachedInv(c, s);
  }

  /** A completions channel with room for every task never blocks the loop. */
  lemma CompletionsNeverBlock(c: Config, s: State)
    requires Reached(c, s)
    ensures |s.completions| <= |c.tasks|
    ensures Enabled(c, s, Receive) ==> |s.completions| < |c.tasks|
  {
    ReachedInv(c, s);
  }

  lemma {:induction false} DistinctSenders(n: nat, ms: seq<Msg>, seen: set<nat>)
    requires forall i :: 0 <= i < |ms| ==> ms[i].from < n && ms[i].from !in seen
    requires forall i, j :: 0 <= i < j < |ms| ==> ms[i].from != ms[j].from
    requires forall v :: v in seen ==> v < n
    ensures |ms| + |seen| <= n
  {
    if ms == [] {
      Counting.BelowSize(seen, n);
    } else {
      DistinctSenders(n, ms[1..], seen + {ms[0].from});
    }
  }

  lemma NothingLive(c: Config, s: State)
    requires Inv(c, s) && s.pending == 0
    ensures Dropped(s) == [] && forall p :: LiveTally(p, s) == 0 && Tally(p, s.completions) == Tally(p, c.tasks)
  {
    TallyAll(c.tasks);
    TallyAll(s.completions);
    TallyAll(Dropped(s));
    assert Total(All, s) == |c.tasks|;
    assert LiveTally(All, s) == 0;
    forall p
      ensures LiveTally(p, s) == 0
    {
      NarrowerPick(p, s);
    }
  }

  lemma {:induction false} NarrowerTally(p: Pick, q: seq<Task>)
    ensures Tally(p, q) <= Tally(All, q)
  {
    if q != [] {
      NarrowerTally(p, q[1..]);
    }
  }

  lemma {:induction false} NarrowerHeld(p: Pick, ws: seq<Worker>)
    ensures HeldTally(p, ws) <= HeldTally(All, ws)
  {
    if ws != [] {
      NarrowerTally(p, Held(ws[0]));
      NarrowerHeld(p, ws[1..]);
    }
  }

  lemma {:induction false} NarrowerInFlight(p: Pick, ms: seq<Msg>)
    ensures InFlightTally(p, ms) <= InFlightTally(All, ms)
  {
    if ms != [] {
      NarrowerTally(p, Carried(ms[0]));
      NarrowerInFlight(p, ms[1..]);
    }
  }

  lemma NarrowerPick(p: Pick, s: State)
    ensures LiveTally(p, s) <= LiveTally(All, s)
  {
    NarrowerTally(p, s.queue);
    NarrowerHeld(p, s.workers);
    NarrowerInFlight(p, s.results);
  }

  /** With nothing live, only "done" signals remain and each has room in the channel. */
  lemma NobodyBlocked(c: Config, s: State, w: nat)
    requires Inv(c, s) && LiveTally(All, s) == 0
    requires w < |s.workers| && s.workers[w].Sending?
    ensures |s.results| < c.Capacity()
  {
    forall i | 0 <= i < |s.results|
      ensures s.results[i].WorkerDone? && s.results[i].from != w
    {
      if s.results[i].TaskResult? {
        InFlightMember(All, s.results, i);
      }
    }
    DistinctSenders(|c.sources|, s.results, {w});
  }

  /** A nil return: every task completed exactly as often as it was scheduled, nothing
      is left anywhere, every completed chunk is stored, and no worker can be stuck
      sending although nobody receives any more. */
  lemma SuccessIsComplete(c: Config, s: State)
    requires Reached(c, s) && s.phase == Returned(Succeeded)
    ensures forall p :: Tally(p, s.completions) == Tally(p, c.tasks) && LiveTally(p, s) == 0
    ensures forall i :: 0 <= i < |s.completions| ==> s.completions[i].key.chunk in s.store
    ensures forall w :: 0 <= w < |s.workers| && s.workers[w].Sending? ==> Enabled(c, s, Send(w))
  {
    ReachedInv(c, s);
    NothingLive(c, s);
    forall w | 0 <= w < |s.workers| && s.workers[w].Sending?
      ensures |s.results| < c.Capacity()
    {
      NobodyBlocked(c, s, w);
    }
  }

  lemma SenderAlive(s: State)
    requires DoneIsLast(s)
    ensures s.results == [] || s.results[0].from in AliveSet(s)
  {}

  /** The count in "all workers died, n chunks remaining" is the queue length. */
  lemma DiedCountIsQueueLength(c: Config, s: State)
    requires Reached(c, s) && s.phase.Returned? && s.phase.outcome.WorkersDied?
    ensures s.phase.outcome.remaining == |s.queue| && s.results == []
  {
    ReachedInv(c, s);
    SenderAlive(s);
    assert AliveSet(s) == {};
    forall w | 0 <= w < |s.workers|
      ensures Held(s.workers[w]) == []
    {
      assert w !in AliveSet(s);
    }
    HeldTallyNone(All, s.workers);
    TallyAll(s.queue);
    TallyAll(s.completions);
    TallyAll(c.tasks);
    assert Total(All, s) == |c.tasks|;
  }

  // ------------------------------------------------- how much work is done

  /** What `Download` hands over: untried tasks with pairwise distinct keys. */
  ghost predicate FreshTasks(c: Config) {
    c.maxAttempts >= 1 && Untried(c)
  }

  ghost predicate Untried(c: Config) {
    && (forall i :: 0 <= i < |c.tasks| ==> c.tasks[i].attempts == 0 && c.tasks[i].missed == {})
    && (forall i, j :: 0 <= i < j < |c.tasks| ==> c.tasks[i].key != c.tasks[j].key)
  }

  function PerTask(c: Config): int { |c.sources| + c.maxAttempts - 1 }

  ghost predicate InPlay(s: State, t: Task) {
    || t in s.queue
    || (exists w :: 0 <= w < |s.workers| && t in Held(s.workers[w]))
    || (exists i :: 0 <= i < |s.results| && t in Carried(s.results[i]))
  }

  /** A task still in play has been handled once per recorded miss or attempt. */
  ghost predicate Weighed(c: Config, handled: multiset<Key>, t: Task) {
    && (|c.sources| > 0 ==> |t.missed| < |c.sources|)
    && t.attempts < c.maxAttempts
    && handled[t.key] == |t.missed| + t.attempts
  }

  ghost predicate Budget(c: Config, s: State) {
    && (forall t :: InPlay(s, t) ==> Weighed(c, s.handled, t))
    && (forall k :: s.handled[k] > 0 ==> s.handled[k] <= PerTask(c) && Tally(Only(k), c.tasks) > 0)
  }

  lemma {:induction false} DistinctTally(q: seq<Task>, k: Key)
    requires forall i, j :: 0 <= i < j < |q| ==> q[i].key != q[j].key
    ensures Tally(Only(k), q) <= 1
  {
    if q != [] {
      DistinctTally(q[1..], k);
      if q[0].key == k {
        NoTally(q[1..], k);
      }
    }
  }

  lemma {:induction false} NoTally(q: seq<Task>, k: Key)
    requires forall i :: 0 <= i < |q| ==> q[i].key != k
    ensures Tally(Only(k), q) == 0
  {
    if q != [] {
      NoTally(q[1..], k);
    }
  }

  /** While a result is being handled no other copy of its task exists. */
  lemma SoleCopy(c: Config, s: State, t: Task)
    requires Inv(c, s) && Untried(c) && Enabled(c, s, Receive) && s.results[0].TaskResult?
    requires InPlay(s.(results := s.results[1..]), t)
    ensures t.key != s.results[0].task.key && Tally(Only(s.results[0].task.key), c.tasks) == 1
  {
    var k := s.results[0].task.key;
    var p := Only(k);
    DistinctTally(c.tasks, k);
    TallyOne(p, s.results[0].task);
    assert Total(p, s) == Tally(p, c.tasks);
    if t.key == k {
      if t in s.queue {
        var i :| 0 <= i < |s.queue| && s.queue[i] == t;
        TallyMember(p, s.queue, i);
      } else if w :| 0 <= w < |s.workers| && t in Held(s.workers[w]) {
        HeldTallyMember(p, s.workers, w);
      } else {
        var i :| 0 <= i < |s.results[1..]| && t in Carried(s.results[1..][i]);
        InFlightMember(p, s.results[1..], i);
      }
    }
  }

  lemma InPlayQuiet(c: Config, s: State, e: Event, t: Task)
    requires Shape(c, s) && Enabled(c, s, e) && !e.Receive? && InPlay(Step(c, s, e), t)
    ensures InPlay(s, t)
  {
    var s' := Step(c, s, e);
    if w :| 0 <= w < |s'.workers| && t in Held(s'.workers[w]) {
      assert t in Held(s.workers[w]) || (s.queue != [] && t == s.queue[0]);
    } else if i :| 0 <= i < |s'.results| && t in Carried(s'.results[i]) {
      if e.Send? && i == |s.results| {
        assert t in Held(s.workers[e.w]);
      } else {
        assert t in Carried(s.results[i]);
      }
    } else if e.Skip? && t !in s.queue {
      assert t in Held(s.workers[e.w]);
    }
  }

  lemma InPlayReceive(c: Config, s: State, t: Task)
    requires Enabled(c, s, Receive) && InPlay(Step(c, s, Receive), t)
    ensures
      || InPlay(s.(results := s.results[1..]), t)
      || (s.results[0].TaskResult? && Step(c, s, Receive).queue == s.queue + [t])
  {
    var s' := Step(c, s, Receive);
    assert s'.workers == s.workers && s'.results == s.results[1..];
  }

  /** The grown task weighs one more, which is exactly the result just handled. */
  lemma RequeuedWeighed(c: Config, s: State, t: Task)
    requires Labels(c, s) && Enabled(c, s, Receive) && s.results[0].TaskResult?
    requires Weighed(c, s.handled, s.results[0].task)
    requires Step(c, s, Receive).queue == s.queue + [t]
    ensures Weighed(c, Step(c, s, Receive).handled, t)
  {
    var s' := Step(c, s, Receive);
    assert s'.queue[|s.queue|] == t;
  }

  lemma BudgetInPlay(c: Config, s: State, t: Task)
    requires Inv(c, s) && FreshTasks(c) && Budget(c, s) && Enabled(c, s, Receive) && s.results[0].TaskResult?
    requires Weighed(c, s.handled, s.results[0].task)
    requires InPlay(Step(c, s, Receive), t)
    ensures Weighed(c, Step(c, s, Receive).handled, t)
  {
    InPlayReceive(c, s, t);
    if InPlay(s.(results := s.results[1..]), t) {
      SoleCopy(c, s, t);
      InPlayTail(s, t);
      assert Step(c, s, Receive).handled == s.handled + multiset{s.results[0].task.key};
    } else {
      RequeuedWeighed(c, s, t);
    }
  }

  lemma BudgetReceive(c: Config, s: State)
    requires Inv(c, s) && FreshTasks(c) && Budget(c, s) && Enabled(c, s, Receive) && s.results[0].TaskResult?
    ensures Budget(c, Step(c, s, Receive))
  {
    var k := s.results[0].task.key;
    assert s.results[0].task in Carried(s.results[0]);
    assert InPlay(s, s.results[0].task);
    TallyOne(Only(k), s.results[0].task);
    assert Total(Only(k), s) == Tally(Only(k), c.tasks);
    assert Step(c, s, Receive).handled == s.handled + multiset{k};
    forall t | InPlay(Step(c, s, Receive), t)
      ensures Weighed(c, Step(c, s, Receive).handled, t)
    {
      BudgetInPlay(c, s, t);
    }
  }

  lemma InPlayTail(s: State, t: Task)
    requires s.results != [] && InPlay(s.(results := s.results[1..]), t)
    ensures InPlay(s, t)
  {
    if i :| 0 <= i < |s.results[1..]| && t in Carried(s.results[1..][i]) {
      assert t in Carried(s.results[i + 1]);
    }
  }

  lemma BudgetStep(c: Config, s: State, e: Event)
    requires Inv(c, s) && FreshTasks(c) && Budget(c, s) && Enabled(c, s, e)
    ensures Budget(c, Step(c, s, e))
  {
    var s' := Step(c, s, e);
    if e.Receive? && s.results[0].TaskResult? {
      BudgetReceive(c, s);
    } else {
      assert s'.handled == s.handled;
      forall t | InPlay(s', t)
        ensures InPlay(s, t)
      {
        if e.Receive? {
          InPlayReceive(c, s, t);
          InPlayTail(s, t);
        } else {
          InPlayQuiet(c, s, e, t);
        }
      }
    }
  }

  lemma {:induction false} BudgetRun(c: Config, s: State, es: seq<Event>)
    requires Inv(c, s) && FreshTasks(c) && Budget(c, s) && Feasible(c, s, es)
    ensures Budget(c, After(c, s, es))
    decreases |es|
  {
    if es != [] {
      InvStep(c, s, es[0]);
      BudgetStep(c, s, es[0]);
      BudgetRun(c, Step(c, s, es[0]), es[1..]);
    }
  }

  lemma {:induction false} BoundedBag(tasks: seq<Task>, bag: multiset<Key>, b: nat)
    requires forall k :: bag[k] > 0 ==> bag[k] <= b && Tally(Only(k), tasks) > 0
    ensures |bag| <= |tasks| * b
  {
    if tasks == [] {
      assert bag == multiset{};
    } else {
      var k := tasks[0].key;
      var rest := bag[k := 0];
      BoundedBag(tasks[1..], rest, b);
      assert |bag| == |rest| + bag[k];
      assert |tasks| * b == |tasks[1..]| * b + b;
    }
  }

  /** Any run, finished or not, handles at most (sources + maxAttempts - 1) fetch
      results per task. */
  lemma BoundedWork(c: Config, s: State)
    requires FreshTasks(c) && Reached(c, s)
    ensures |s.handled| <= |c.tasks| * (|c.sources| + c.maxAttempts - 1)
  {
    var store: set<ChunkId>, es: seq<Event> :| Feasible(c, Init(c, store), es) && s == After(c, Init(c, store), es);
    var s0 := Init(c, store);
    InitInv(c, store);
    forall t | InPlay(s0, t)
      ensures Weighed(c, s0.handled, t)
    {
      assert t in s0.queue;
    }
    BudgetRun(c, s0, es);
    BoundedBag(c.tasks, s.handled, PerTask(c));
  }
}
