/** Challenge epochs: each epoch samples the chunks of a file without replacement, and
    each provider/file key has one current epoch. */
module Epochs {
  import opened Bytes
  import opened Options
  import opened Shared

  type EpochId = string

  datatype Epoch = Epoch(
    provider: string, file: string, total: int, counter: nat, uncovered: seq<int>, active: bool, round: uint64)

  /** `picks` records, per epoch, the chunks selected so far in order. */
  datatype Store = Store(epochs: map<EpochId, Epoch>, latest: map<string, EpochId>, picks: map<EpochId, seq<int>>)

  datatype Error = MissingField | BadTotal | NoRandomness | UnknownEpoch | Inactive | Exhausted | NoPriorEpoch

  datatype Event =
    | Create(id: EpochId, provider: string, file: string, total: int, idOk: bool)
    | Select(id: EpochId, hash: bytes)

  const NUL: char := 0 as char

  function KeyOf(provider: string, file: string): string {
    provider + [NUL] + file
  }

  /** A byte string read as one big-endian number. */
  function FromBE(b: bytes): nat {
    if b == [] then 0 else 256 * FromBE(b[..|b| - 1]) + b[|b| - 1]
  }

  function UpTo(n: nat): (s: seq<int>)
    ensures |s| == n && forall i :: 0 <= i < n ==> s[i] == i
  {
    seq(n, i => i)
  }

  // ----------------------------------------------------------- operations

  function CreateError(e: Event): Option<Error>
    requires e.Create?
  {
    if e.provider == "" || e.file == "" then Some(MissingField)
    else if e.total <= 0 then Some(BadTotal)
    else if !e.idOk then Some(NoRandomness)
    else None
  }

  /** End the key's previous epoch and start one with every chunk eligible. */
  function CreateEpoch(s: Store, e: Event): Store
    requires e.Create? && CreateError(e).None?
  {
    var key := KeyOf(e.provider, e.file);
    var known := key in s.latest && s.latest[key] in s.epochs;
    var round := if known then (s.epochs[s.latest[key]].round + 1) % UINT64 else 0;
    var epochs := if known then s.epochs[s.latest[key] := s.epochs[s.latest[key]].(active := false)] else s.epochs;
    Store(epochs[e.id := Epoch(e.provider, e.file, e.total, 0, UpTo(e.total), true, round)],
          s.latest[key := e.id], s.picks[e.id := []])
  }

  function SelectError(s: Store, id: EpochId, hash: bytes): Option<Error> {
    if id == "" || hash == [] then Some(MissingField)
    else if id !in s.epochs then Some(UnknownEpoch)
    else if !s.epochs[id].active then Some(Inactive)
    else if s.epochs[id].uncovered == [] then Some(Exhausted)
    else None
  }

  function Position(s: Store, id: EpochId, hash: bytes): (i: nat)
    requires SelectError(s, id, hash).None?
    ensures i < |s.epochs[id].uncovered|
  {
    FromBE(hash) % |s.epochs[id].uncovered|
  }

  function Removed(l: seq<int>, i: nat): seq<int>
    requires i < |l|
  {
    l[..i] + l[i + 1..]
  }

  /** Give out the `i`-th uncovered chunk. */
  function Take(s: Store, id: EpochId, i: nat): Store
    requires id in s.epochs && i < |s.epochs[id].uncovered|
  {
    var e := s.epochs[id];
    Store(s.epochs[id := e.(uncovered := Removed(e.uncovered, i), counter := e.counter + 1)], s.latest,
          s.picks[id := (if id in s.picks then s.picks[id] else []) + [e.uncovered[i]]])
  }

  function SelectChunk(s: Store, id: EpochId, hash: bytes): Store
    requires SelectError(s, id, hash).None?
  {
    Take(s, id, Position(s, id, hash))
  }

  function Selection(s: Store, id: EpochId, hash: bytes): Result<int, Error> {
    var error := SelectError(s, id, hash);
    if error.None? then Ok(s.epochs[id].uncovered[Position(s, id, hash)]) else Err(error.value)
  }

  /** New epoch identifiers are drawn at random and taken to be unused. */
  predicate Enabled(s: Store, e: Event) {
    e.Create? ==> e.id !in s.epochs && e.id != ""
  }

  function Step(s: Store, e: Event): Store {
    match e
    case Create(_, _, _, _, _) => if CreateError(e).None? then CreateEpoch(s, e) else s
    case Select(id, hash) => if SelectError(s, id, hash).None? then SelectChunk(s, id, hash) else s
  }

  predicate Feasible(s: Store, es: seq<Event>)
    decreases |es|
  {
    es == [] || (Enabled(s, es[0]) && Feasible(Step(s, es[0]), es[1..]))
  }

  function After(s: Store, es: seq<Event>): Store
    decreases |es|
  {
    if es == [] then s else After(Step(s, es[0]), es[1..])
  }

  const EMPTY := Store(map[], map[], map[])

  // ------------------------------------------------------------ invariant

  /** The selected chunks followed by the uncovered ones list 0..total-1 once each. */
  ghost predicate Partition(total: int, picked: seq<int>, uncovered: seq<int>) {
    && |picked| + |uncovered| == total
    && Distinct(picked + uncovered)
    && forall x :: 0 <= x < total <==> x in picked || x in uncovered
  }

  ghost predicate GoodEpoch(s: Store, id: EpochId) {
    && id in s.epochs && id in s.picks
    && Partition(s.epochs[id].total, s.picks[id], s.epochs[id].uncovered)
    && s.epochs[id].total > 0
    && s.epochs[id].counter == |s.picks[id]|
  }

  /** An epoch is active exactly if it is the latest of its key. */
  ghost predicate Current(s: Store, id: EpochId) {
    && id in s.epochs
    && var key := KeyOf(s.epochs[id].provider, s.epochs[id].file);
       key in s.latest && (s.epochs[id].active <==> s.latest[key] == id)
  }

  ghost predicate Inv(s: Store) {
    && (forall id :: id in s.epochs ==> id != "" && GoodEpoch(s, id) && Current(s, id))
    && (forall key :: key in s.latest ==>
          s.latest[key] in s.epochs && KeyOf(s.epochs[s.latest[key]].provider, s.epochs[s.latest[key]].file) == key)
  }

  lemma PartitionStart(total: nat)
    ensures Partition(total, [], UpTo(total))
  {
    assert [] + UpTo(total) == UpTo(total);
    forall x | 0 <= x < total
      ensures x in UpTo(total)
    {
      assert UpTo(total)[x] == x;
    }
  }

  /** Moving one element from the uncovered list to the selected one. */
  lemma PartitionMove(total: int, picked: seq<int>, uncovered: seq<int>, i: nat)
    requires Partition(total, picked, uncovered) && i < |uncovered|
    ensures Partition(total, picked + [uncovered[i]], Removed(uncovered, i))
  {
    var p, n := |picked|, i;
    var before, after := picked + uncovered, (picked + [uncovered[i]]) + Removed(uncovered, i);
    assert forall k :: 0 <= k < |after| ==>
      after[k] == before[if k < p then k else if k == p then p + n else if k <= p + n then k - 1 else k];
    forall x
      ensures 0 <= x < total <==> x in picked + [uncovered[i]] || x in Removed(uncovered, i)
    {
      RemovedMember(uncovered, i, x);
      assert 0 <= x < total <==> x in picked || x in uncovered;
    }
  }

  lemma RemovedMember(l: seq<int>, i: nat, x: int)
    requires i < |l|
    ensures x in l <==> x == l[i] || x in Removed(l, i)
  {
    if x in l && x != l[i] {
      var k :| 0 <= k < |l| && l[k] == x;
      assert Removed(l, i)[if k < i then k else k - 1] == x;
    }
  }

  lemma CreateInv(s: Store, e: Event)
    requires Inv(s) && e.Create? && Enabled(s, e) && CreateError(e).None?
    ensures Inv(CreateEpoch(s, e))
  {
    var s' := CreateEpoch(s, e);
    PartitionStart(e.total);
    forall id | id in s'.epochs
      ensures id != "" && GoodEpoch(s', id) && Current(s', id)
    {
      if id != e.id {
        assert GoodEpoch(s, id) && Current(s, id);
      }
    }
  }

  lemma SelectInv(s: Store, id: EpochId, hash: bytes)
    requires Inv(s) && SelectError(s, id, hash).None?
    ensures Inv(SelectChunk(s, id, hash))
  {
    var s', i := SelectChunk(s, id, hash), Position(s, id, hash);
    assert GoodEpoch(s, id);
    PartitionMove(s.epochs[id].total, s.picks[id], s.epochs[id].uncovered, i);
    forall other | other in s'.epochs
      ensures other != "" && GoodEpoch(s', other) && Current(s', other)
    {
      assert GoodEpoch(s, other) && Current(s, other);
    }
  }

  lemma InvStep(s: Store, e: Event)
    requires Inv(s) && Enabled(s, e)
    ensures Inv(Step(s, e))
  {
    match e
    case Create(_, _, _, _, _) => if CreateError(e).None? { CreateInv(s, e); }
    case Select(id, hash) => if SelectError(s, id, hash).None? { SelectInv(s, id, hash); }
  }

  lemma {:induction false} InvRun(s: Store, es: seq<Event>)
    requires Inv(s) && Feasible(s, es)
    ensures Inv(After(s, es))
    decreases |es|
  {
    if es != [] {
      InvStep(s, es[0]);
      InvRun(Step(s, es[0]), es[1..]);
    }
  }

  // -------------------------------------------------------------- results

  ghost predicate Reached(s: Store) {
    exists es :: Feasible(EMPTY, es) && s == After(EMPTY, es)
  }

  lemma ReachedInv(s: Store)
    requires Reached(s)
    ensures Inv(s)
  {
    var es :| Feasible(EMPTY, es) && s == After(EMPTY, es);
    InvRun(EMPTY, es);
  }

  /** In every reachable store, selected and uncovered chunks partition [0, total), and
      the counter says how many are gone. */
  lemma SamplingWithoutReplacement(s: Store, id: EpochId)
    requires Reached(s) && id in s.epochs
    ensures id in s.picks && Partition(s.epochs[id].total, s.picks[id], s.epochs[id].uncovered)
    ensures s.epochs[id].counter == s.epochs[id].total - |s.epochs[id].uncovered|
  {
    ReachedInv(s);
    assert GoodEpoch(s, id);
  }

  /** An epoch that has given out `total` chunks has given out each exactly once. */
  lemma FullEpochIsPermutation(s: Store, id: EpochId)
    requires Reached(s) && id in s.epochs && s.epochs[id].counter == s.epochs[id].total
    ensures id in s.picks && |s.picks[id]| == s.epochs[id].total && Distinct(s.picks[id])
    ensures forall x :: x in s.picks[id] <==> 0 <= x < s.epochs[id].total
  {
    SamplingWithoutReplacement(s, id);
    assert s.picks[id] + s.epochs[id].uncovered == s.picks[id];
  }

  ghost predicate ActiveFor(s: Store, key: string, id: EpochId) {
    id in s.epochs && KeyOf(s.epochs[id].provider, s.epochs[id].file) == key && s.epochs[id].active
  }

  /** A key that ever had an epoch has exactly one active epoch, its latest. */
  lemma OneActiveEpoch(s: Store, key: string)
    requires Reached(s)
    ensures key in s.latest <==> exists id :: ActiveFor(s, key, id)
    ensures key in s.latest ==> forall id :: ActiveFor(s, key, id) <==> id == s.latest[key]
  {
    ReachedInv(s);
    forall id | ActiveFor(s, key, id)
      ensures key in s.latest && id == s.latest[key]
    {
      assert Current(s, id);
    }
    if key in s.latest {
      assert Current(s, s.latest[key]);
      assert ActiveFor(s, key, s.latest[key]);
    }
  }

  /** An epoch that is current and has chunks left always yields one of them. */
  lemma SelectSucceeds(s: Store, id: EpochId, hash: bytes)
    requires Reached(s) && hash != []
    ensures SelectError(s, id, hash).None? <==>
      id in s.epochs && ActiveFor(s, KeyOf(s.epochs[id].provider, s.epochs[id].file), id)
      && s.epochs[id].counter < s.epochs[id].total
  {
    ReachedInv(s);
    if id in s.epochs {
      assert GoodEpoch(s, id) && Current(s, id);
    }
  }

  /** Two splits of one key differ in which NUL separates the names. */
  lemma {:induction false} SplitsAtNul(p: string, f: string, q: string, g: string)
    requires KeyOf(p, f) == KeyOf(q, g) && |p| < |q|
    ensures p == q[..|p|] && q[|p|] == NUL
    ensures |g| < |f| && g == f[|f| - |g|..] && f[|f| - |g| - 1] == NUL
  {
    var key := KeyOf(p, f);
    assert key[..|p|] == p && key[|p|] == NUL && key[|p| + 1..] == f;
    assert key[..|q|] == q && key[|q|] == NUL && key[|q| + 1..] == g;
  }

  /** A NUL in a name can be taken for the separator. */
  lemma {:induction false} SplitElsewhere(p: string, f: string, k: nat)
    requires k <= |KeyOf(p, f)| - 1 && KeyOf(p, f)[k] == NUL
    ensures KeyOf(KeyOf(p, f)[..k], KeyOf(p, f)[k + 1..]) == KeyOf(p, f)
  {}

  /** No other pair has this pair's key exactly if neither name contains a NUL. */
  lemma {:induction false} KeyIsUniqueIff(p: string, f: string)
    ensures (forall q, g :: KeyOf(q, g) == KeyOf(p, f) ==> q == p && g == f) <==> NUL !in p && NUL !in f
  {
    if NUL !in p && NUL !in f {
      forall q, g | KeyOf(q, g) == KeyOf(p, f)
        ensures q == p && g == f
      {
        PlainKeyIsUnique(q, g, p, f);
      }
    } else if NUL in p {
      var k :| 0 <= k < |p| && p[k] == NUL;
      SplitElsewhere(p, f, k);
      assert |KeyOf(p, f)[..k]| != |p|;
    } else {
      var k :| 0 <= k < |f| && f[k] == NUL;
      SplitElsewhere(p, f, |p| + 1 + k);
      assert |KeyOf(p, f)[..|p| + 1 + k]| != |p|;
    }
  }

  lemma {:induction false} PlainKeyIsUnique(q: string, g: string, p: string, f: string)
    requires NUL !in p && NUL !in f && KeyOf(q, g) == KeyOf(p, f)
    ensures q == p && g == f
  {
    if |p| < |q| {
      SplitsAtNul(p, f, q, g);
      assert false;
    } else if |q| < |p| {
      SplitsAtNul(q, g, p, f);
      assert false;
    } else {
      var key := KeyOf(p, f);
      assert key[..|p|] == p && key[..|q|] == q && key[|p| + 1..] == f && key[|q| + 1..] == g;
    }
  }

  /** Among pairs of non-empty names, the only ones an epoch is ever created for: no other
      pair has this pair's key exactly if a NUL occurs at most where it would leave the
      other pair with an empty name. */
  lemma {:induction false} KeyIsUniqueAmongNamesIff(p: string, f: string)
    requires p != "" && f != ""
    ensures
      (forall q, g :: q != "" && g != "" && KeyOf(q, g) == KeyOf(p, f) ==> q == p && g == f)
      <==> NUL !in p[1..] && NUL !in f[..|f| - 1]
  {
    if NUL in p[1..] {
      var k :| 0 <= k < |p[1..]| && p[1..][k] == NUL;
      SplitElsewhere(p, f, k + 1);
      assert |KeyOf(p, f)[..k + 1]| != |p|;
    } else if NUL in f[..|f| - 1] {
      var k :| 0 <= k < |f[..|f| - 1]| && f[..|f| - 1][k] == NUL;
      SplitElsewhere(p, f, |p| + 1 + k);
      assert |KeyOf(p, f)[..|p| + 1 + k]| != |p|;
    } else {
      forall q, g | q != "" && g != "" && KeyOf(q, g) == KeyOf(p, f)
        ensures q == p && g == f
      {
        NamesAreUnique(q, g, p, f);
      }
    }
  }

  lemma {:induction false} NamesAreUnique(q: string, g: string, p: string, f: string)
    requires p != "" && f != "" && q != "" && g != "" && KeyOf(q, g) == KeyOf(p, f)
    requires NUL !in p[1..] && NUL !in f[..|f| - 1]
    ensures q == p && g == f
  {
    if |p| < |q| {
      SplitsAtNul(p, f, q, g);
      assert false;
    } else if |q| < |p| {
      SplitsAtNul(q, g, p, f);
      assert false;
    } else {
      var key := KeyOf(p, f);
      assert key[..|p|] == p && key[..|q|] == q && key[|p| + 1..] == f && key[|q| + 1..] == g;
    }
  }

  /** The key tells provider/file pairs apart as long as no provider has a NUL in it. */
  lemma {:induction false} KeyInjective(p: string, f: string, q: string, g: string)
    requires NUL !in p && NUL !in q && KeyOf(p, f) == KeyOf(q, g)
    ensures p == q && f == g
  {
    var a, b := KeyOf(p, f), KeyOf(q, g);
    assert a[|p|] == NUL && b[|q|] == NUL;
    assert forall k :: 0 <= k < |p| ==> a[k] == p[k];
    assert forall k :: 0 <= k < |q| ==> b[k] == q[k];
    assert |p| == |q|;
    assert p == a[..|p|] && q == b[..|q|] && f == a[|p| + 1..] && g == b[|q| + 1..];
  }

  lemma KeyCollision()
    ensures KeyOf("a" + [NUL] + "b", "c") == KeyOf("a", "b" + [NUL] + "c")
  {}

  /** A selected chunk was uncovered before, is not any more, and ends the history. */
  lemma SelectionIsNew(s: Store, id: EpochId, hash: bytes)
    requires Reached(s) && Selection(s, id, hash).Ok?
    ensures
      var x, s' := Selection(s, id, hash).value, Step(s, Select(id, hash));
      && x in s.epochs[id].uncovered && x !in s'.epochs[id].uncovered
      && id in s.picks && x !in s.picks[id] && s'.picks[id] == s.picks[id] + [x]
  {
    ReachedInv(s);
    assert GoodEpoch(s, id);
    var e, i := s.epochs[id], Position(s, id, hash);
    var before := s.picks[id] + e.uncovered;
    var after := (s.picks[id] + [e.uncovered[i]]) + Removed(e.uncovered, i);
    PartitionMove(e.total, s.picks[id], e.uncovered, i);
    assert after[|s.picks[id]|] == e.uncovered[i] && before[|s.picks[id]| + i] == e.uncovered[i];
    assert forall k :: 0 <= k < |s.picks[id]| ==> before[k] == s.picks[id][k];
    assert forall k :: 0 <= k < |Removed(e.uncovered, i)| ==>
      after[|s.picks[id]| + 1 + k] == Removed(e.uncovered, i)[k];
  }

  // ------------------------------------------------------ the epoch store

  method AllChunks(total: nat) returns (uncovered: seq<int>)
    ensures uncovered == UpTo(total)
  {
    uncovered := [];
    for i := 0 to total
      invariant uncovered == UpTo(i)
    {
      uncovered := uncovered + [i];
    }
  }

  method BigEndian(b: bytes) returns (value: nat)
    ensures value == FromBE(b)
  {
    value := 0;
    for i := 0 to |b|
      invariant value == FromBE(b[..i])
    {
      assert b[..i + 1][..i] == b[..i];
      value := 256 * value + b[i];
    }
    assert b[..|b|] == b;
  }

  datatype EpochState = EpochState(counter: nat, left: nat, active: bool, round: uint64)

  class EpochStore {
    var epochs: map<EpochId, Epoch>
    var latest: map<string, EpochId>
    ghost var picks: map<EpochId, seq<int>>

    ghost function View(): Store
      reads this
    {
      Store(epochs, latest, picks)
    }

    constructor ()
      ensures View() == EMPTY && Inv(View())
    {
      epochs, latest, picks := map[], map[], map[];
    }

    method NewEpoch(id: EpochId, provider: string, file: string, total: int, idOk: bool)
      returns (r: Result<EpochId, Error>)
      requires Inv(View()) && id !in epochs && id != ""
      modifies this
      ensures View() == Step(old(View()), Create(id, provider, file, total, idOk)) && Inv(View())
      ensures r ==
        match CreateError(Create(id, provider, file, total, idOk)) { case None => Ok(id) case Some(e) => Err(e) }
    {
      if provider == "" || file == "" { return Err(MissingField); }
      if total <= 0 { return Err(BadTotal); }
      if !idOk { return Err(NoRandomness); }
      CreateInv(View(), Create(id, provider, file, total, idOk));
      var uncovered := AllChunks(total);
      Enter(id, provider, file, total, uncovered);
      r := Ok(id);
    }

    method Enter(id: EpochId, provider: string, file: string, total: int, uncovered: seq<int>)
      requires provider != "" && file != "" && total > 0 && uncovered == UpTo(total)
      modifies this
      ensures View() == CreateEpoch(old(View()), Create(id, provider, file, total, true))
    {
      var key, round := KeyOf(provider, file), 0;
      if key in latest {
        var previous := latest[key];
        if previous in epochs {
          epochs := epochs[previous := epochs[previous].(active := false)];
          round := (epochs[previous].round + 1) % UINT64;
        }
      }
      epochs := epochs[id := Epoch(provider, file, total, 0, uncovered, true, round)];
      latest := latest[key := id];
      picks := picks[id := []];
    }

    method TakeOut(id: EpochId, i: nat) returns (chunk: int)
      requires id in epochs && i < |epochs[id].uncovered|
      modifies this
      ensures View() == Take(old(View()), id, i) && chunk == old(epochs)[id].uncovered[i]
    {
      var epoch := epochs[id];
      chunk := epoch.uncovered[i];
      var left := epoch.uncovered[..i] + epoch.uncovered[i + 1..];
      epochs := epochs[id := epoch.(uncovered := left, counter := epoch.counter + 1)];
      picks := picks[id := (if id in picks then picks[id] else []) + [chunk]];
    }

    /** Choose one uncovered chunk by the hash and remove it. */
    method SelectUncoveredChunk(id: EpochId, hash: bytes) returns (r: Result<int, Error>)
      requires Inv(View())
      modifies this
      ensures View() == Step(old(View()), Select(id, hash)) && Inv(View())
      ensures r == Selection(old(View()), id, hash)
    {
      if id == "" || hash == [] { return Err(MissingField); }
      if id !in epochs { return Err(UnknownEpoch); }
      if !epochs[id].active { return Err(Inactive); }
      if epochs[id].uncovered == [] { return Err(Exhausted); }
      SelectInv(View(), id, hash);
      var value := BigEndian(hash);
      var chunk := TakeOut(id, value % |epochs[id].uncovered|);
      r := Ok(chunk);
    }

    method GetEpochState(id: EpochId) returns (r: Result<EpochState, Error>)
      ensures r.Ok? <==> id != "" && id in epochs
      ensures r.Ok? && Inv(View()) ==> r.value.counter + r.value.left == epochs[id].total
      ensures r.Ok? ==>
        && r.value.left == |epochs[id].uncovered|
        && r.value.active == epochs[id].active && r.value.round == epochs[id].round
    {
      if id == "" { return Err(MissingField); }
      if id !in epochs { return Err(UnknownEpoch); }
      assert Inv(View()) ==> GoodEpoch(View(), id);
      r := Ok(EpochState(epochs[id].counter, |epochs[id].uncovered|, epochs[id].active, epochs[id].round));
    }

    /** Restart a provider/file pair with the chunk count of its latest epoch. */
    method StartNextEpoch(id: EpochId, provider: string, file: string, idOk: bool) returns (r: Result<EpochId, Error>)
      requires Inv(View()) && id !in epochs && id != ""
      modifies this
      ensures Inv(View())
      ensures r.Ok? <==> provider != "" && file != "" && KeyOf(provider, file) in old(latest) && idOk
      ensures r.Err? ==> View() == old(View())
      ensures r.Ok? ==>
        && View() == Step(old(View()),
           Create(id, provider, file, old(epochs[latest[KeyOf(provider, file)]].total), true))
        && !epochs[old(latest[KeyOf(provider, file)])].active
        && epochs[id].uncovered == UpTo(epochs[id].total)
    {
      if provider == "" || file == "" { return Err(MissingField); }
      var key := KeyOf(provider, file);
      if key !in latest { return Err(NoPriorEpoch); }
      assert GoodEpoch(View(), latest[key]);
      r := NewEpoch(id, provider, file, epochs[latest[key]].total, idOk);
    }
  }
}
