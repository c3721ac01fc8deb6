/** The swarm download scheduler: one result loop and one worker per source share a
    task queue and a bounded results channel. A run is any interleaving of the atomic
    steps below. `store` holds the chunk IDs put into the content engine, and
    `handled` is history: one key per fetch result the loop has processed. */
module Scheduler {
  import opened Shared

  datatype Key = Key(index: nat, chunk: ChunkId)

  datatype Task = Task(key: Key, attempts: nat, missed: set<Peer>)

  /** How a fetch followed by the local put went, as the result loop sees it. */
  datatype Fetch = Fetched | NotFound | Failed

  /** `from` is the position of the sending worker; the loop itself never reads it. */
  datatype Msg =
    | TaskResult(from: nat, task: Task, peer: Peer, fetch: Fetch)
    | WorkerDone(from: nat)

  datatype Worker =
    | Unstarted
    | Refused
    | Polling
    | Holding(task: Task)
    | Yielding
    | Sending(msg: Msg)
    | Exited

  datatype Outcome =
    | Succeeded
    | NoWorkers
    | Cancelled
    | NotFoundAnywhere(lost: Task)
    | AttemptsExhausted(lost: Task)
    | WorkersDied(remaining: nat)

  datatype Phase = Starting(next: nat) | Looping | Returned(outcome: Outcome)

  datatype Config = Config(tasks: seq<Task>, sources: seq<Peer>, maxAttempts: int) {
    function Capacity(): nat { 2 * |sources| }
  }

  datatype State = State(
    queue: seq<Task>,
    workers: seq<Worker>,
    results: seq<Msg>,
    completions: seq<Task>,
    pending: nat,
    active: nat,
    phase: Phase,
    store: set<ChunkId>,
    handled: multiset<Key>)

  datatype Event =
    | Connect(ok: bool)
    | StartLoop
    | Pop(w: nat)
    | Skip(w: nat)
    | Wake(w: nat, cancelled: bool)
    | Fetching(w: nat, fetch: Fetch)
    | Send(w: nat)
    | Receive
    | Cancel
    | Finish

  // ---------------------------------------------------------------- steps

  function Init(c: Config, store: set<ChunkId>): State {
    State(c.tasks, seq(|c.sources|, _ => Unstarted), [], [], |c.tasks|, 0, Starting(0), store, multiset{})
  }

  predicate Enabled(c: Config, s: State, e: Event) {
    match e
    case Connect(_) => s.phase.Starting? && s.phase.next < |s.workers|
    case StartLoop => s.phase == Starting(|s.workers|)
    case Pop(w) => w < |s.workers| && s.workers[w].Polling?
    case Skip(w) =>
      w < |s.workers| && w < |c.sources| && s.workers[w].Holding? && c.sources[w] in s.workers[w].task.missed
    case Wake(w, _) => w < |s.workers| && s.workers[w].Yielding?
    case Fetching(w, _) =>
      w < |s.workers| && w < |c.sources| && s.workers[w].Holding? && c.sources[w] !in s.workers[w].task.missed
    case Send(w) => w < |s.workers| && s.workers[w].Sending? && |s.results| < c.Capacity()
    case Receive => s.phase.Looping? && s.pending > 0 && s.active > 0 && s.results != []
    case Cancel => s.phase.Looping? && s.pending > 0 && s.active > 0
    case Finish => s.phase.Looping? && (s.pending == 0 || s.active == 0)
  }

  function Step(c: Config, s: State, e: Event): State
    requires Enabled(c, s, e)
  {
    match e
    case Connect(ok) =>
      var k := s.phase.next;
      s.(workers := s.workers[k := if ok then Polling else Refused],
         active := if ok then s.active + 1 else s.active,
         phase := Starting(k + 1))
    case StartLoop =>
      s.(phase := if s.active == 0 then Returned(NoWorkers) else Looping)
    case Pop(w) =>
      if s.queue == [] then s.(workers := s.workers[w := Sending(WorkerDone(w))])
      else s.(queue := s.queue[1..], workers := s.workers[w := Holding(s.queue[0])])
    case Skip(w) =>
      s.(queue := s.queue + [s.workers[w].task], workers := s.workers[w := Yielding])
    case Wake(w, cancelled) =>
      s.(workers := s.workers[w := if cancelled then Sending(WorkerDone(w)) else Polling])
    case Fetching(w, fetch) =>
      var t := s.workers[w].task;
      s.(workers := s.workers[w := Sending(TaskResult(w, t, c.sources[w], fetch))],
         store := if fetch.Fetched? then s.store + {t.key.chunk} else s.store)
    case Send(w) =>
      var m := s.workers[w].msg;
      s.(results := s.results + [m],
         workers := s.workers[w := if m.WorkerDone? then Exited else Polling])
    case Receive =>
      Handle(c, s.(results := s.results[1..]), s.results[0])
    case Cancel => s.(phase := Returned(Cancelled))
    case Finish =>
      s.(phase := Returned(if s.pending > 0 then WorkersDied(s.pending) else Succeeded))
  }

  /** What the loop does with one received message. */
  function Handle(c: Config, s: State, m: Msg): State
    requires m.TaskResult? && m.fetch.Fetched? ==> s.pending > 0
    requires m.WorkerDone? ==> s.active > 0
  {
    match m
    case WorkerDone(_) => s.(active := s.active - 1)
    case TaskResult(_, t, _, Fetched) =>
      s.(completions := s.completions + [t], pending := s.pending - 1, handled := s.handled + multiset{t.key})
    case TaskResult(_, t, p, NotFound) =>
      var t' := t.(missed := t.missed + {p});
      var s' := s.(handled := s.handled + multiset{t.key});
      if |t'.missed| < |c.sources| then s'.(queue := s'.queue + [t'])
      else s'.(phase := Returned(NotFoundAnywhere(t')))
    case TaskResult(_, t, _, Failed) =>
      var t' := t.(attempts := t.attempts + 1);
      var s' := s.(handled := s.handled + multiset{t.key});
      if t'.attempts < c.maxAttempts then s'.(queue := s'.queue + [t'])
      else s'.(phase := Returned(AttemptsExhausted(t')))
  }

  /** The steps `es` can be taken from `s` one after the other. */
  predicate Feasible(c: Config, s: State, es: seq<Event>)
    decreases |es|
  {
    es == [] || (Enabled(c, s, es[0]) && Feasible(c, Step(c, s, es[0]), es[1..]))
  }

  function After(c: Config, s: State, es: seq<Event>): State
    requires Feasible(c, s, es)
    decreases |es|
  {
    if es == [] then s else After(c, Step(c, s, es[0]), es[1..])
  }

  // ------------------------------------------------- where the tasks are

  /** Either every task, or the tasks with one key. */
  datatype Pick = All | Only(key: Key) {
    predicate Covers(t: Task) { All? || key == t.key }
  }

  function Tally(p: Pick, q: seq<Task>): nat {
    if q == [] then 0 else (if p.Covers(q[0]) then 1 else 0) + Tally(p, q[1..])
  }

  function Held(w: Worker): seq<Task> {
    match w
    case Holding(t) => [t]
    case Sending(TaskResult(_, t, _, _)) => [t]
    case _ => []
  }

  function HeldTally(p: Pick, ws: seq<Worker>): nat {
    if ws == [] then 0 else Tally(p, Held(ws[0])) + HeldTally(p, ws[1..])
  }

  function Carried(m: Msg): seq<Task> {
    if m.TaskResult? then [m.task] else []
  }

  function InFlightTally(p: Pick, ms: seq<Msg>): nat {
    if ms == [] then 0 else Tally(p, Carried(ms[0])) + InFlightTally(p, ms[1..])
  }

  function Dropped(s: State): seq<Task> {
    match s.phase
    case Returned(NotFoundAnywhere(t)) => [t]
    case Returned(AttemptsExhausted(t)) => [t]
    case _ => []
  }

  /** Queued, worker-held and in-channel tasks. */
  function LiveTally(p: Pick, s: State): nat {
    Tally(p, s.queue) + HeldTally(p, s.workers) + InFlightTally(p, s.results)
  }

  function Total(p: Pick, s: State): nat {
    LiveTally(p, s) + Tally(p, s.completions) + Tally(p, Dropped(s))
  }

  lemma {:induction false} TallyConcat(p: Pick, a: seq<Task>, b: seq<Task>)
    ensures Tally(p, a + b) == Tally(p, a) + Tally(p, b)
  {
    if a == [] {
      assert a + b == b;
    } else {
      TallyConcat(p, a[1..], b);
      assert (a + b)[1..] == a[1..] + b;
    }
  }

  lemma TallyOne(p: Pick, t: Task)
    ensures Tally(p, [t]) == if p.Covers(t) then 1 else 0
  {
    assert [t][1..] == [];
  }

  lemma {:induction false} TallyAll(q: seq<Task>)
    ensures Tally(All, q) == |q|
  {
    if q != [] {
      TallyAll(q[1..]);
    }
  }

  lemma {:induction false} TallyMember(p: Pick, q: seq<Task>, i: nat)
    requires i < |q| && p.Covers(q[i])
    ensures Tally(p, q) > 0
  {
    if i > 0 {
      TallyMember(p, q[1..], i - 1);
    }
  }

  lemma {:induction false} HeldTallyUpdate(p: Pick, ws: seq<Worker>, i: nat, x: Worker)
    requires i < |ws|
    ensures HeldTally(p, ws[i := x]) == HeldTally(p, ws) - Tally(p, Held(ws[i])) + Tally(p, Held(x))
  {
    if i == 0 {
      assert ws[i := x][1..] == ws[1..];
    } else {
      assert ws[i := x][1..] == ws[1..][i - 1 := x];
      HeldTallyUpdate(p, ws[1..], i - 1, x);
    }
  }

  lemma {:induction false} HeldTallyMember(p: Pick, ws: seq<Worker>, i: nat)
    requires i < |ws| && Held(ws[i]) != [] && p.Covers(Held(ws[i])[0])
    ensures HeldTally(p, ws) > 0
  {
    if i > 0 {
      HeldTallyMember(p, ws[1..], i - 1);
    }
  }

  lemma {:induction false} HeldTallyNone(p: Pick, ws: seq<Worker>)
    requires forall i :: 0 <= i < |ws| ==> Held(ws[i]) == []
    ensures HeldTally(p, ws) == 0
  {
    if ws != [] {
      HeldTallyNone(p, ws[1..]);
    }
  }

  lemma {:induction false} InFlightSend(p: Pick, ms: seq<Msg>, m: Msg)
    ensures InFlightTally(p, ms + [m]) == InFlightTally(p, ms) + Tally(p, Carried(m))
  {
    if ms == [] {
      assert ms + [m] == [m];
      assert InFlightTally(p, [m]) == Tally(p, Carried(m)) + InFlightTally(p, []);
    } else {
      InFlightSend(p, ms[1..], m);
      assert (ms + [m])[1..] == ms[1..] + [m];
    }
  }

  lemma {:induction false} InFlightMember(p: Pick, ms: seq<Msg>, i: nat)
    requires i < |ms| && ms[i].TaskResult? && p.Covers(ms[i].task)
    ensures InFlightTally(p, ms) > 0
  {
    if i > 0 {
      InFlightMember(p, ms[1..], i - 1);
    }
  }
}
