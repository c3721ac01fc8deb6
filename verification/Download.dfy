/** A resumable download of one manifest: session bits saved on disk, a scan for work
    left to do, the swarm scheduler, and the loop that turns completions into bits.
    A crash may happen between any two steps and loses only what is in memory. */
module Download {
  import opened Options
  import opened Scheduler
  import opened SchedulerSafety
  import opened Shared

  const MAX_ATTEMPTS := 3

  datatype Status = InProgress | Completed | Failed
  datatype Session = Session(done: seq<bool>, status: Status)
  datatype Process =
    | Idle
    | Scanning(sess: Session, next: nat, count: nat, tasks: seq<Task>)
    | Running(sess: Session, count: nat, config: Config, sched: State, consumed: nat)
    | Ended(ok: bool)

  /** `disk` is the saved session and `store` the chunks on disk: both outlive a crash. */
  datatype World = World(disk: Option<Session>, store: set<ChunkId>, process: Process)

  datatype Action =
    | Open(saved: bool)
    | Scan(seen: bool)
    | ScanDone(saved: bool, savedAgain: bool)
    | Swarm(e: Event)
    | Progress(saved: bool)
    | Conclude(saved: bool)
    | Crash
    | Ingest(chunk: ChunkId)

  datatype Job = Job(ids: seq<ChunkId>, peers: seq<Peer>)

  function Resumed(job: Job, disk: Option<Session>): Session {
    if disk.None? || disk.value.done == [] then Session(seq(|job.ids|, _ => false), InProgress)
    else Session(disk.value.done, InProgress)
  }

  function Save(w: World, sess: Session, saved: bool): World {
    if saved then w.(disk := Some(sess)) else w
  }

  predicate Enabled(job: Job, w: World, a: Action) {
    match a
    case Open(_) => w.process.Idle? || w.process.Ended?
    case Scan(seen) =>
      w.process.Scanning? && w.process.next < |job.ids| && (seen ==> job.ids[w.process.next] in w.store) &&
      w.process.next < |w.process.sess.done|
    case ScanDone(_, _) => w.process.Scanning? && w.process.next == |job.ids|
    case Swarm(e) => w.process.Running? && Scheduler.Enabled(w.process.config, w.process.sched, e)
    case Progress(_) => w.process.Running? && w.process.consumed < |w.process.sched.completions|
    case Conclude(_) =>
      w.process.Running? && w.process.sched.phase.Returned? && w.process.consumed == |w.process.sched.completions|
    case Crash => true
    case Ingest(_) => true
  }

  function Step(job: Job, w: World, a: Action): World
    requires Enabled(job, w, a)
  {
    match a
    case Open(saved) =>
      if job.peers == [] || !saved then w.(process := Ended(false))
      else
        var sess := Resumed(job, w.disk);
        Save(w, sess, true).(process := Scanning(sess, 0, 0, []))
    case Scan(seen) =>
      var Scanning(sess, i, count, tasks) := w.process;
      if sess.done[i] then w.(process := Scanning(sess, i + 1, count + 1, tasks))
      else if seen then
        w.(process := Scanning(sess.(done := sess.done[i := true]), i + 1, count + 1, tasks))
      else w.(process := Scanning(sess, i + 1, count, tasks + [Task(Key(i, job.ids[i]), 0, {})]))
    case ScanDone(saved, savedAgain) =>
      var Scanning(sess, i, count, tasks) := w.process;
      if tasks == [] then
        Save(Save(w, sess, saved), sess.(status := Completed), savedAgain).(process := Ended(true))
      else
        var c := Config(tasks, job.peers, MAX_ATTEMPTS);
        Save(w, sess, saved).(process := Running(sess, count, c, Init(c, w.store), 0))
    case Swarm(e) =>
      var sched := Scheduler.Step(w.process.config, w.process.sched, e);
      w.(store := sched.store, process := w.process.(sched := sched))
    case Progress(saved) =>
      var Running(sess, count, c, sched, consumed) := w.process;
      var i := sched.completions[consumed].key.index;
      var sess' := if i < |sess.done| then sess.(done := sess.done[i := true]) else sess;
      Save(w, sess', saved).(process := Running(sess', count + 1, c, sched, consumed + 1))
    case Conclude(saved) =>
      var ok := w.process.sched.phase.outcome.Succeeded?;
      var sess := w.process.sess.(status := if ok then Completed else Status.Failed);
      Save(w, sess, saved).(process := Ended(ok))
    case Crash => w.(process := Idle)
    case Ingest(chunk) =>
      var w' := w.(store := w.store + {chunk});
      if w.process.Running?
      then w'.(process := w.process.(sched := w.process.sched.(store := w'.store)))
      else w'
  }

  predicate Feasible(job: Job, w: World, acts: seq<Action>)
    decreases |acts|
  {
    acts == [] || (Enabled(job, w, acts[0]) && Feasible(job, Step(job, w, acts[0]), acts[1..]))
  }

  function After(job: Job, w: World, acts: seq<Action>): World
    requires Feasible(job, w, acts)
    decreases |acts|
  {
    if acts == [] then w else After(job, Step(job, w, acts[0]), acts[1..])
  }

  // ------------------------------------------------------------ invariants

  function CountTrue(b: seq<bool>): nat {
    if b == [] then 0 else CountTrue(b[..|b| - 1]) + (if b[|b| - 1] then 1 else 0)
  }

  lemma {:induction false} CountSet(b: seq<bool>, i: nat)
    requires i < |b| && !b[i]
    ensures CountTrue(b[i := true]) == CountTrue(b) + 1
  {
    var n := |b| - 1;
    if i == n {
      assert b[i := true][..n] == b[..n];
    } else {
      assert b[i := true][..n] == b[..n][i := true];
      CountSet(b[..n], i);
    }
  }

  /** Every set bit stands for a chunk that is stored. */
  ghost predicate Sound(job: Job, store: set<ChunkId>, done: seq<bool>) {
    && |done| == |job.ids|
    && forall i :: 0 <= i < |done| && done[i] ==> job.ids[i] in store
  }

  ghost predicate DiskInv(job: Job, w: World) {
    w.disk.Some? ==> w.disk.value.done == [] || Sound(job, w.store, w.disk.value.done)
  }

  function KeyOf(job: Job, i: nat): Key
    requires i < |job.ids|
  {
    Key(i, job.ids[i])
  }

  /** The tasks for the first `n` chunks whose bit is clear, in manifest order. */
  function Missing(ids: seq<ChunkId>, done: seq<bool>, n: nat): seq<Task>
    requires n <= |ids| == |done|
  {
    if n == 0 then []
    else if done[n - 1] then Missing(ids, done, n - 1)
    else Missing(ids, done, n - 1) + [Task(Key(n - 1, ids[n - 1]), 0, {})]
  }

  lemma {:induction false} MissingFrame(ids: seq<ChunkId>, a: seq<bool>, b: seq<bool>, n: nat)
    requires n <= |ids| == |a| == |b| && a[..n] == b[..n]
    ensures Missing(ids, a, n) == Missing(ids, b, n)
  {
    if n > 0 {
      assert a[n - 1] == a[..n][n - 1] == b[..n][n - 1] == b[n - 1];
      assert a[..n - 1] == a[..n][..n - 1] == b[..n][..n - 1] == b[..n - 1];
      MissingFrame(ids, a, b, n - 1);
    }
  }

  ghost predicate ScanInv(job: Job, w: World)
    requires w.process.Scanning?
  {
    var Scanning(sess, next, count, tasks) := w.process;
    && Sound(job, w.store, sess.done)
    && next <= |job.ids|
    && count == CountTrue(sess.done[..next])
    && tasks == Missing(job.ids, sess.done, next)
    && (forall t :: t in tasks ==>
          t.key.index < next && t == Task(KeyOf(job, t.key.index), 0, {}) && !sess.done[t.key.index])
    && (forall i, j :: 0 <= i < j < |tasks| ==> tasks[i].key.index != tasks[j].key.index)
    && (forall i :: 0 <= i < next && !sess.done[i] ==> Task(KeyOf(job, i), 0, {}) in tasks)
  }

  ghost predicate TasksMatch(job: Job, c: Config) {
    && FreshTasks(c)
    && (forall k :: Tally(Only(k), c.tasks) > 0 ==> k.index < |job.ids| && k == KeyOf(job, k.index))
  }

  ghost predicate BitsMatch(job: Job, done: seq<bool>, c: Config, completions: seq<Task>, consumed: nat)
    requires |done| == |job.ids|
  {
    && consumed <= |completions|
    && (forall i :: 0 <= i < |done| && !done[i] ==> Tally(Only(KeyOf(job, i)), c.tasks) > 0)
    && (forall q :: 0 <= q < |completions| ==>
          && completions[q].key.index < |done|
          && completions[q].key == KeyOf(job, completions[q].key.index)
          && (done[completions[q].key.index] <==> q < consumed))
    && (forall i :: 0 <= i < |done| && done[i] && Tally(Only(KeyOf(job, i)), c.tasks) > 0 ==>
          exists q :: 0 <= q < consumed && completions[q].key == KeyOf(job, i))
  }

  ghost predicate RunInv(job: Job, w: World)
    requires w.process.Running?
  {
    var Running(sess, count, c, sched, consumed) := w.process;
    && Sound(job, w.store, sess.done)
    && sched.store == w.store
    && Inv(c, sched)
    && TasksMatch(job, c)
    && BitsMatch(job, sess.done, c, sched.completions, consumed)
    && count == CountTrue(sess.done)
  }

  ghost predicate WorldInv(job: Job, w: World) {
    && DiskInv(job, w)
    && (w.process.Scanning? ==> ScanInv(job, w))
    && (w.process.Running? ==> RunInv(job, w))
    && (w.process == Ended(true) ==> forall i :: 0 <= i < |job.ids| ==> job.ids[i] in w.store)
  }

  // ---------------------------------------------------------- preservation

  /** A chunk that is marked already, or found in the store and marked now. */
  lemma ScanMarked(job: Job, w: World, w': World, seen: bool)
    requires w.process.Scanning? && ScanInv(job, w) && Enabled(job, w, Scan(seen)) && w' == Step(job, w, Scan(seen))
    requires w.process.sess.done[w.process.next] || seen
    ensures ScanInv(job, w')
  {
    var Scanning(sess, i, count, tasks) := w.process;
    var done' := w'.process.sess.done;
    assert done'[..i + 1][..i] == sess.done[..i];
    MissingFrame(job.ids, sess.done, done', i);
  }

  lemma ScanMissing(job: Job, w: World, w': World)
    requires w.process.Scanning? && ScanInv(job, w) && Enabled(job, w, Scan(false)) && w' == Step(job, w, Scan(false))
    requires !w.process.sess.done[w.process.next]
    ensures ScanInv(job, w')
  {
    var Scanning(sess, i, count, tasks) := w.process;
    assert sess.done[..i + 1][..i] == sess.done[..i];
    assert w'.process.tasks == tasks + [Task(KeyOf(job, i), 0, {})];
  }

  lemma ScanStep(job: Job, w: World, seen: bool)
    requires WorldInv(job, w) && Enabled(job, w, Scan(seen))
    ensures WorldInv(job, Step(job, w, Scan(seen)))
  {
    if w.process.sess.done[w.process.next] || seen {
      ScanMarked(job, w, Step(job, w, Scan(seen)), seen);
    } else {
      ScanMissing(job, w, Step(job, w, Scan(seen)));
    }
  }

  lemma {:induction false} TallyFromMember(q: seq<Task>, k: Key)
    requires Tally(Only(k), q) > 0
    ensures exists i :: 0 <= i < |q| && q[i].key == k
  {
    if q[0].key != k {
      TallyFromMember(q[1..], k);
      var i :| 0 <= i < |q[1..]| && q[1..][i].key == k;
      assert q[i + 1].key == k;
    }
  }

  /** The scan's tasks are what the scheduler may be started with. */
  lemma ScanTasks(job: Job, w: World)
    requires w.process.Scanning? && ScanInv(job, w) && w.process.next == |job.ids|
    ensures
      var Scanning(sess, next, count, tasks) := w.process;
      var c := Config(tasks, job.peers, MAX_ATTEMPTS);
      TasksMatch(job, c) && BitsMatch(job, sess.done, c, [], 0)
  {
    var Scanning(sess, next, count, tasks) := w.process;
    forall k | Tally(Only(k), tasks) > 0
      ensures k.index < |job.ids| && k == KeyOf(job, k.index) && !sess.done[k.index]
    {
      TallyFromMember(tasks, k);
    }
    forall i | 0 <= i < |sess.done| && !sess.done[i]
      ensures Tally(Only(KeyOf(job, i)), tasks) > 0
    {
      var t := Task(KeyOf(job, i), 0, {});
      var j :| 0 <= j < |tasks| && tasks[j] == t;
      TallyMember(Only(t.key), tasks, j);
    }
  }

  lemma ScanDoneStep(job: Job, w: World, saved: bool, savedAgain: bool)
    requires WorldInv(job, w) && Enabled(job, w, ScanDone(saved, savedAgain))
    ensures WorldInv(job, Step(job, w, ScanDone(saved, savedAgain)))
  {
    var Scanning(sess, next, count, tasks) := w.process;
    assert sess.done[..next] == sess.done;
    if tasks != [] {
      ScanTasks(job, w);
      InitInv(Config(tasks, job.peers, MAX_ATTEMPTS), w.store);
    }
  }

  lemma {:induction false} TallyTwice(q: seq<Task>, i: nat, j: nat)
    requires i < j < |q| && q[i].key == q[j].key
    ensures Tally(Only(q[i].key), q) >= 2
  {
    if i == 0 {
      TallyMember(Only(q[0].key), q[1..], j - 1);
    } else {
      TallyTwice(q[1..], i - 1, j - 1);
    }
  }

  /** No key completes twice, and only scheduled keys complete. */
  lemma CompletionsDistinct(c: Config, s: State, i: nat, j: nat)
    requires Inv(c, s) && FreshTasks(c) && i < j < |s.completions|
    ensures s.completions[i].key != s.completions[j].key
  {
    var k := s.completions[i].key;
    DistinctTally(c.tasks, k);
    assert Total(Only(k), s) == Tally(Only(k), c.tasks);
    if k == s.completions[j].key {
      TallyTwice(s.completions, i, j);
    }
  }

  lemma CompletionScheduled(c: Config, s: State, i: nat)
    requires Inv(c, s) && i < |s.completions|
    ensures Tally(Only(s.completions[i].key), c.tasks) > 0
  {
    var k := s.completions[i].key;
    TallyMember(Only(k), s.completions, i);
    assert Total(Only(k), s) == Tally(Only(k), c.tasks);
  }

  lemma BitsSwarm(job: Job, done: seq<bool>, c: Config, s: State, s': State, consumed: nat)
    requires |done| == |job.ids| && Inv(c, s') && TasksMatch(job, c)
    requires BitsMatch(job, done, c, s.completions, consumed)
    requires s.completions <= s'.completions
    ensures BitsMatch(job, done, c, s'.completions, consumed)
  {
    forall q | 0 <= q < |s'.completions|
      ensures s'.completions[q].key.index < |done|
      ensures s'.completions[q].key == KeyOf(job, s'.completions[q].key.index)
      ensures done[s'.completions[q].key.index] <==> q < consumed
    {
      CompletionScheduled(c, s', q);
      if |s.completions| <= q && done[s'.completions[q].key.index] {
        var r :| 0 <= r < consumed && s.completions[r].key == s'.completions[q].key;
        CompletionsDistinct(c, s', r, q);
      }
    }
  }

  lemma CompletionsGrow(c: Config, s: State, e: Event)
    requires Scheduler.Enabled(c, s, e)
    ensures s.completions <= Scheduler.Step(c, s, e).completions && s.store <= Scheduler.Step(c, s, e).store
  {}

  lemma SwarmStep(job: Job, w: World, e: Event)
    requires WorldInv(job, w) && Enabled(job, w, Swarm(e))
    ensures WorldInv(job, Step(job, w, Swarm(e)))
  {
    var Running(sess, count, c, s, consumed) := w.process;
    var s' := Scheduler.Step(c, s, e);
    InvStep(c, s, e);
    CompletionsGrow(c, s, e);
    BitsSwarm(job, sess.done, c, s, s', consumed);
  }

  lemma BitsProgress(job: Job, done: seq<bool>, c: Config, s: State, consumed: nat)
    requires |done| == |job.ids| && Inv(c, s) && TasksMatch(job, c)
    requires BitsMatch(job, done, c, s.completions, consumed) && consumed < |s.completions|
    ensures BitsMatch(job, done[s.completions[consumed].key.index := true], c, s.completions, consumed + 1)
  {
    var i := s.completions[consumed].key.index;
    var done' := done[i := true];
    forall q | 0 <= q < |s.completions|
      ensures done'[s.completions[q].key.index] <==> q < consumed + 1
    {
      if q < consumed {
        CompletionsDistinct(c, s, q, consumed);
      } else if q > consumed {
        CompletionsDistinct(c, s, consumed, q);
      }
    }
    forall j | 0 <= j < |done'| && done'[j] && Tally(Only(KeyOf(job, j)), c.tasks) > 0
      ensures exists q :: 0 <= q < consumed + 1 && s.completions[q].key == KeyOf(job, j)
    {
      if j == i {
        assert s.completions[consumed].key == KeyOf(job, j);
      }
    }
  }

  lemma ProgressRun(job: Job, w: World, w': World)
    requires w.process.Running? && RunInv(job, w) && w.process.consumed < |w.process.sched.completions|
    requires
      var Running(sess, count, c, s, consumed) := w.process;
      var i := s.completions[consumed].key.index;
      && i < |sess.done| && w'.store == w.store
      && w'.process == Running(sess.(done := sess.done[i := true]), count + 1, c, s, consumed + 1)
    ensures RunInv(job, w')
  {
    var Running(sess, count, c, s, consumed) := w.process;
    var i := s.completions[consumed].key.index;
    BitsProgress(job, sess.done, c, s, consumed);
    CountSet(sess.done, i);
    assert Sound(job, w.store, sess.done[i := true]);
  }

  lemma ProgressStep(job: Job, w: World, saved: bool)
    requires WorldInv(job, w) && Enabled(job, w, Progress(saved))
    ensures WorldInv(job, Step(job, w, Progress(saved)))
  {
    ProgressRun(job, w, Step(job, w, Progress(saved)));
    ProgressDisk(job, w, saved);
  }

  lemma ProgressDisk(job: Job, w: World, saved: bool)
    requires DiskInv(job, w) && Enabled(job, w, Progress(saved)) && RunInv(job, Step(job, w, Progress(saved)))
    ensures DiskInv(job, Step(job, w, Progress(saved)))
  {}

  lemma IngestInv(c: Config, s: State, store: set<ChunkId>)
    requires Inv(c, s) && s.store <= store
    ensures Inv(c, s.(store := store))
  {
    var s' := s.(store := store);
    assert AliveSet(s') == AliveSet(s);
    assert forall p :: Total(p, s') == Total(p, s);
  }

  /** When the scheduler succeeded and every completion was taken, every bit is set. */
  lemma AllBitsSet(job: Job, w: World, saved: bool)
    requires WorldInv(job, w) && Enabled(job, w, Conclude(saved)) && w.process.sched.phase.outcome.Succeeded?
    ensures forall i :: 0 <= i < |job.ids| ==> w.process.sess.done[i]
  {
    var Running(sess, count, c, s, consumed) := w.process;
    NothingLive(c, s);
    forall i | 0 <= i < |job.ids|
      ensures sess.done[i]
    {
      if !sess.done[i] {
        assert Tally(Only(KeyOf(job, i)), s.completions) > 0;
        TallyFromMember(s.completions, KeyOf(job, i));
      }
    }
  }

  lemma WorldStep(job: Job, w: World, a: Action)
    requires WorldInv(job, w) && Enabled(job, w, a)
    ensures WorldInv(job, Step(job, w, a))
  {
    match a
    case Scan(seen) => ScanStep(job, w, seen);
    case ScanDone(saved, savedAgain) => ScanDoneStep(job, w, saved, savedAgain);
    case Swarm(e) => SwarmStep(job, w, e);
    case Progress(saved) => ProgressStep(job, w, saved);
    case Conclude(saved) =>
      if w.process.sched.phase.outcome.Succeeded? {
        AllBitsSet(job, w, saved);
      }
    case Open(saved) =>
    case Crash =>
    case Ingest(chunk) =>
      if w.process.Running? {
        IngestInv(w.process.config, w.process.sched, w.store + {chunk});
      }
  }

  lemma {:induction false} WorldRun(job: Job, w: World, acts: seq<Action>)
    requires WorldInv(job, w) && Feasible(job, w, acts)
    ensures WorldInv(job, After(job, w, acts))
    decreases |acts|
  {
    if acts != [] {
      WorldStep(job, w, acts[0]);
      WorldRun(job, Step(job, w, acts[0]), acts[1..]);
    }
  }

  // -------------------------------------------------------------- results

  /** Some sequence of steps, crashes included, leads from nothing saved to `w`. */
  ghost predicate Reached(job: Job, w: World) {
    exists store: set<ChunkId>, acts: seq<Action> ::
      Feasible(job, World(None, store, Idle), acts) && w == After(job, World(None, store, Idle), acts)
  }

  lemma ReachedInv(job: Job, w: World)
    requires Reached(job, w)
    ensures WorldInv(job, w)
  {
    var store: set<ChunkId>, acts: seq<Action> :|
      Feasible(job, World(None, store, Idle), acts) && w == After(job, World(None, store, Idle), acts);
    WorldRun(job, World(None, store, Idle), acts);
  }

  /** Across any number of crashes and resumes: every bit saved on disk stands for a
      stored chunk, the progress counter equals the number of set bits, and a nil
      return means every chunk of the manifest is stored. */
  lemma ResumableDownload(job: Job, w: World)
    requires Reached(job, w)
    ensures w.disk.Some? ==> forall i :: 0 <= i < |w.disk.value.done| && w.disk.value.done[i] ==>
      i < |job.ids| && job.ids[i] in w.store
    ensures w.process.Running? ==> w.process.count == CountTrue(w.process.sess.done)
    ensures w.process == Ended(true) ==> forall i :: 0 <= i < |job.ids| ==> job.ids[i] in w.store
  {
    ReachedInv(job, w);
  }

  /** The last progress report of a successful download counts every chunk. */
  lemma FinalCountIsTotal(job: Job, w: World, saved: bool)
    requires Reached(job, w) && Enabled(job, w, Conclude(saved)) && w.process.sched.phase.outcome.Succeeded?
    ensures w.process.count == |job.ids|
  {
    ReachedInv(job, w);
    AllBitsSet(job, w, saved);
    CountAll(w.process.sess.done);
  }

  lemma {:induction false} CountAll(b: seq<bool>)
    requires forall i :: 0 <= i < |b| ==> b[i]
    ensures CountTrue(b) == |b|
  {
    if b != [] {
      CountAll(b[..|b| - 1]);
    }
  }

  // ------------------------------------------------------- the session object

  /** The bits after a stream of completions; an index out of range has no bit. */
  function Marked(done: seq<bool>, completions: seq<Task>): (r: seq<bool>)
    ensures |r| == |done|
  {
    if completions == [] then done
    else
      var n := |completions| - 1;
      var before, i := Marked(done, completions[..n]), completions[n].key.index;
      if i < |done| then before[i := true] else before
  }

  /** A bit is set exactly if it was set before or its chunk is among the completions. */
  lemma {:induction false} MarkedIff(done: seq<bool>, completions: seq<Task>, i: nat)
    requires i < |done|
    ensures Marked(done, completions)[i] <==>
      done[i] || exists q :: 0 <= q < |completions| && completions[q].key.index == i
  {
    if completions != [] {
      var n := |completions| - 1;
      MarkedIff(done, completions[..n], i);
      if completions[n].key.index != i {
        assert forall q :: 0 <= q < |completions| && completions[q].key.index == i ==>
          completions[..n][q].key.index == i;
      }
    }
  }

  /** Every completion sets a bit of its own. */
  predicate AllNew(done: seq<bool>, completions: seq<Task>) {
    && (forall q :: 0 <= q < |completions| ==> completions[q].key.index < |done| && !done[completions[q].key.index])
    && (forall q, r :: 0 <= q < r < |completions| ==> completions[q].key.index != completions[r].key.index)
  }

  lemma {:induction false} AllNewLast(done: seq<bool>, completions: seq<Task>)
    requires completions != []
    ensures
      var n := |completions| - 1;
      var i := completions[n].key.index;
      AllNew(done, completions) <==>
        AllNew(done, completions[..n]) && i < |done| && !Marked(done, completions[..n])[i]
  {
    var n := |completions| - 1;
    var i := completions[n].key.index;
    assert forall q :: 0 <= q < n ==> completions[..n][q] == completions[q];
    if i < |done| {
      MarkedIff(done, completions[..n], i);
    }
  }

  /** Counting every completion agrees with the number of set bits exactly if every
      completion sets a bit of its own; otherwise the counter runs ahead. */
  lemma {:induction false} CountIff(done: seq<bool>, completions: seq<Task>)
    ensures CountTrue(Marked(done, completions)) <= CountTrue(done) + |completions|
    ensures CountTrue(Marked(done, completions)) == CountTrue(done) + |completions| <==> AllNew(done, completions)
  {
    if completions != [] {
      var n := |completions| - 1;
      var before, i := Marked(done, completions[..n]), completions[n].key.index;
      CountIff(done, completions[..n]);
      AllNewLast(done, completions);
      if i < |done| {
        if before[i] {
          assert before[i := true] == before;
        } else {
          CountSet(before, i);
        }
      }
    }
  }

  class TransferSession {
    var done: array<bool>

    constructor (n: nat)
      ensures fresh(done) && done.Length == n && forall i :: 0 <= i < n ==> !done[i]
    {
      done := new bool[n](_ => false);
    }

    /** Mark chunks that are already stored and collect the tasks for the rest. */
    method Prepare(ids: seq<ChunkId>, has: seq<bool>) returns (tasks: seq<Task>, count: nat)
      requires done.Length == |ids| == |has|
      modifies done
      ensures forall i :: 0 <= i < |ids| ==> done[i] == (old(done[i]) || has[i])
      ensures tasks == Missing(ids, done[..], |ids|)
      ensures count == CountTrue(done[..]) && count + |tasks| == |ids|
    {
      tasks, count := [], 0;
      for i := 0 to |ids|
        invariant forall j :: 0 <= j < i ==> done[j] == (old(done[j]) || has[j])
        invariant forall j :: i <= j < |ids| ==> done[j] == old(done[j])
        invariant tasks == Missing(ids, done[..], i)
        invariant count == CountTrue(done[..i]) && count + |tasks| == i
      {
        ghost var before := done[..];
        if done[i] {
          count := count + 1;
        } else if has[i] {
          done[i] := true;
          count := count + 1;
          MissingFrame(ids, before, done[..], i);
        } else {
          tasks := tasks + [Task(Key(i, ids[i]), 0, {})];
        }
        assert done[..i + 1][..i] == before[..i];
      }
      assert done[..|ids|] == done[..];
    }

    /** Turn a stream of completions into bits, counting every one. */
    method Absorb(completions: seq<Task>, start: nat) returns (count: nat)
      modifies done
      ensures count == start + |completions| && done[..] == Marked(old(done[..]), completions)
      ensures start == CountTrue(old(done[..])) ==>
        (count == CountTrue(done[..]) <==> AllNew(old(done[..]), completions))
    {
      count := start;
      for q := 0 to |completions|
        invariant count == start + q && done[..] == Marked(old(done[..]), completions[..q])
      {
        var i := completions[q].key.index;
        ghost var before := done[..];
        assert completions[..q + 1][..q] == completions[..q];
        if i < done.Length {
          done[i] := true;
          assert done[..] == before[i := true];
        }
        count := count + 1;
      }
      assert completions[..|completions|] == completions;
      CountIff(old(done[..]), completions);
    }
  }
}
