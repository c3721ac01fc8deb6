/** What a hash draws from an epoch, and how epochs of a key are numbered. */
module EpochDraws {
  import opened Arithmetic
  import opened Bytes
  import opened Options
  import opened Epochs
  import T = EpochTraffic

  // ------------------------------------------------------------- the hash decides

  /** The big-endian bytes of a number are read back as that number. */
  lemma {:induction false} ReadBack(width: nat, v: nat)
    requires v < Pow256(width)
    ensures FromBE(BE(width, v)) == v
  {
    if width > 0 {
      ReadBack(width - 1, v / 256);
      assert BE(width, v)[..width - 1] == BE(width - 1, v / 256);
    }
  }

  /** The first byte counts most. */
  lemma {:induction false} FirstByteCountsMost(b: byte, rest: bytes)
    ensures FromBE([b] + rest) == b * Pow256(|rest|) + FromBE(rest)
  {
    if rest == [] {
      assert [b] + rest == [b] && [b][..0] == [];
    } else {
      var init := rest[..|rest| - 1];
      assert ([b] + rest)[..|rest|] == [b] + init;
      FirstByteCountsMost(b, init);
    }
  }

  lemma {:induction false} WideEnough(i: nat)
    ensures i < Pow256(i + 1)
  {
    if i > 0 {
      WideEnough(i - 1);
    }
  }

  /** A number, in as many bytes as it is given in, draws the chunk at its remainder. */
  lemma NumberDraws(s: Store, id: EpochId, width: nat, v: nat)
    requires 0 < width && v < Pow256(width) && SelectError(s, id, BE(width, v)).None?
    ensures
      var left := s.epochs[id].uncovered;
      left != [] && Selection(s, id, BE(width, v)) == Ok(left[v % |left|])
  {
    ReadBack(width, v);
  }

  /** Every uncovered chunk of a current epoch can be drawn: by its own position among the
      uncovered ones. */
  lemma EveryChunkCanBeDrawn(s: Store, id: EpochId, i: nat)
    requires Reached(s) && id in s.epochs && s.epochs[id].active && i < |s.epochs[id].uncovered|
    ensures Selection(s, id, BE(i + 1, i)) == Ok(s.epochs[id].uncovered[i])
  {
    ReachedInv(s);
    assert id != "";
    WideEnough(i);
    NumberDraws(s, id, i + 1, i);
    SmallMod(i, |s.epochs[id].uncovered|);
  }

  // --------------------------------------------------------------- round numbers

  /** How many epochs these calls have started for the key. */
  function StartedFor(es: seq<Event>, key: string): nat {
    if es == [] then 0 else StartedFor(es[..|es| - 1], key) + if T.Replaces(es[|es| - 1], key) then 1 else 0
  }

  /** A count in 64 bits. */
  function Word(n: nat): uint64 {
    n % UINT64
  }

  /** The latest epoch of a key has the number of those before it. */
  ghost predicate NumberedAt(s: Store, es: seq<Event>, key: string) {
    && (key in s.latest <==> StartedFor(es, key) > 0)
    && (key in s.latest ==>
          s.latest[key] in s.epochs && s.epochs[s.latest[key]].round == Word(StartedFor(es, key) - 1))
  }

  ghost predicate Numbered(s: Store, es: seq<Event>) {
    forall key :: NumberedAt(s, es, key)
  }

  lemma NextWord(n: nat)
    requires n > 0
    ensures (Word(n - 1) + 1) % UINT64 == Word(n)
  {}

  lemma StartedSnoc(es: seq<Event>, e: Event, key: string)
    ensures StartedFor(es + [e], key) == StartedFor(es, key) + if T.Replaces(e, key) then 1 else 0
  {
    assert (es + [e])[..|es|] == es;
  }

  lemma NewRound(s: Store, es: seq<Event>, e: Event)
    requires e.Create? && CreateError(e).None? && NumberedAt(s, es, KeyOf(e.provider, e.file))
    ensures CreateEpoch(s, e).epochs[e.id].round == Word(StartedFor(es, KeyOf(e.provider, e.file)))
  {
    var n := StartedFor(es, KeyOf(e.provider, e.file));
    if n > 0 {
      NextWord(n);
    }
  }

  /** A call leaves the latest epoch of another key as it is, but for its chunks. */
  lemma OtherLatest(s: Store, e: Event, key: string)
    requires Inv(s) && Enabled(s, e) && !T.Replaces(e, key)
    ensures key in Step(s, e).latest <==> key in s.latest
    ensures key in s.latest ==>
      && s.latest[key] in s.epochs && Step(s, e).latest[key] == s.latest[key] && s.latest[key] in Step(s, e).epochs
      && Step(s, e).epochs[s.latest[key]].round == s.epochs[s.latest[key]].round
  {
    if key in s.latest {
      T.StepAges(s, e, s.latest[key]);
    }
  }

  lemma NumberedStep(s: Store, es: seq<Event>, e: Event)
    requires Inv(s) && Numbered(s, es) && Enabled(s, e)
    ensures Numbered(Step(s, e), es + [e])
    ensures e.Create? && CreateError(e).None? ==>
      Step(s, e).epochs[e.id].round == Word(StartedFor(es, KeyOf(e.provider, e.file)))
  {
    if e.Create? && CreateError(e).None? {
      assert NumberedAt(s, es, KeyOf(e.provider, e.file));
      NewRound(s, es, e);
    }
    forall key
      ensures NumberedAt(Step(s, e), es + [e], key)
    {
      assert NumberedAt(s, es, key);
      StartedSnoc(es, e, key);
      if !T.Replaces(e, key) {
        OtherLatest(s, e, key);
      }
    }
  }

  lemma {:induction false} NumberedRun(s: Store, seen: seq<Event>, es: seq<Event>)
    requires Inv(s) && Numbered(s, seen) && Feasible(s, es)
    ensures Numbered(After(s, es), seen + es)
    decreases |es|
  {
    if es == [] {
      assert seen + es == seen;
    } else {
      NumberedStep(s, seen, es[0]);
      InvStep(s, es[0]);
      NumberedRun(Step(s, es[0]), seen + [es[0]], es[1..]);
      assert seen + es == seen + [es[0]] + es[1..];
    }
  }

  /** After any run a new epoch gets the number of epochs started before for its provider
      and file, and keeps it whatever happens then. */
  lemma RoundsAreCounted(es: seq<Event>, e: Event, more: seq<Event>)
    requires Feasible(EMPTY, es) && Enabled(After(EMPTY, es), e) && e.Create? && CreateError(e).None?
    requires Feasible(Step(After(EMPTY, es), e), more)
    ensures
      var s := After(Step(After(EMPTY, es), e), more);
      && e.id in s.epochs
      && s.epochs[e.id].round == Word(StartedFor(es, KeyOf(e.provider, e.file)))
  {
    InvRun(EMPTY, es);
    NumberedRun(EMPTY, [], es);
    assert [] + es == es;
    NumberedStep(After(EMPTY, es), es, e);
    T.RunAges(Step(After(EMPTY, es), e), more, e.id);
  }
}
