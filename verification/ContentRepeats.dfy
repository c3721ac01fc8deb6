/** Files in which pieces share an identifier: only the last of them stays stored, under
    its own index. Exactly when reassembly still gives the input back. */
module ContentRepeats {
  import opened Arithmetic
  import opened Bytes
  import opened Options
  import opened Wire
  import opened Content
  import opened ContentSafety
  import opened Rearrangement

  // ----------------------------------------------------------- what stays stored

  /** The last place with the same identifier. */
  function LastPlace(ids: seq<Hash>, k: nat): (j: nat)
    requires k < |ids|
    ensures k <= j < |ids| && ids[j] == ids[k] && forall l :: j < l < |ids| ==> ids[l] != ids[k]
  {
    if ids[|ids| - 1] == ids[k] then |ids| - 1 else LastPlace(ids[..|ids| - 1], k)
  }

  function LastPlaces(ids: seq<Hash>): (to: seq<nat>)
    ensures |to| == |ids| && Forward(to)
  {
    seq(|ids|, k requires 0 <= k < |ids| => LastPlace(ids, k))
  }

  lemma {:induction false} FiledLast(x: Suite, key: Key, chunks: seq<Chunk>, before: Store, k: nat)
    requires k < |chunks|
    ensures IdOf(x, key, chunks[k]) in Filed(x, key, chunks, before)
    ensures
      Filed(x, key, chunks, before)[IdOf(x, key, chunks[k])]
        == Sealed(x, key, chunks[LastPlace(Ids(x, key, chunks), k)])
  {
    var init, ids := chunks[..|chunks| - 1], Ids(x, key, chunks);
    if ids[|ids| - 1] != ids[k] {
      assert ids[..|ids| - 1] == Ids(x, key, init);
      FiledLast(x, key, init, before, k);
    }
  }

  /** What the identifiers in manifest order read back as. */
  function ReadBack(x: Suite, key: Key, chunks: seq<Chunk>): (q: seq<Chunk>)
    ensures |q| == |chunks|
  {
    var to := LastPlaces(Ids(x, key, chunks));
    seq(|chunks|, k requires 0 <= k < |chunks| => Plains(x, key, chunks)[to[k]])
  }

  lemma {:induction false} FetchLast(x: Suite, key: Key, chunks: seq<Chunk>, before: Store, store: Store, k: nat)
    requires x.Correct() && Keeps(x, key, chunks, before, store) && k < |chunks|
    requires
      var last := chunks[LastPlace(Ids(x, key, chunks), k)];
      last.header.plainSize == |last.data|
    ensures Fetch(x, key, store, Ids(x, key, chunks)[k]) == Ok(Plain(x, key, chunks[LastPlace(Ids(x, key, chunks), k)]))
  {
    FiledLast(x, key, chunks, before, k);
    DecryptSealed(x, key, chunks[LastPlace(Ids(x, key, chunks), k)]);
  }

  lemma {:induction false} ReadBackAt(x: Suite, key: Key, chunks: seq<Chunk>, k: nat)
    requires k < |chunks|
    ensures ReadBack(x, key, chunks)[k] == Plain(x, key, chunks[LastPlace(Ids(x, key, chunks), k)])
  {
    var ids := Ids(x, key, chunks);
    assert LastPlaces(ids)[k] == LastPlace(ids, k);
    assert Plains(x, key, chunks)[LastPlace(ids, k)] == Plain(x, key, chunks[LastPlace(ids, k)]);
  }

  /** The headers give the sizes of the pieces. */
  ghost predicate RightSizes(chunks: seq<Chunk>) {
    forall k :: 0 <= k < |chunks| ==> chunks[k].header.plainSize == |chunks[k].data|
  }

  lemma {:induction false} ReadBackFetched(x: Suite, key: Key, chunks: seq<Chunk>, before: Store, store: Store)
    requires x.Correct() && RightSizes(chunks) && Keeps(x, key, chunks, before, store)
    ensures Fetched(x, key, store, Ids(x, key, chunks), ReadBack(x, key, chunks))
  {
    var ids, back := Ids(x, key, chunks), ReadBack(x, key, chunks);
    forall k | 0 <= k < |ids|
      ensures Fetch(x, key, store, ids[k]) == Ok(back[k])
    {
      FetchLast(x, key, chunks, before, store, k);
      ReadBackAt(x, key, chunks, k);
    }
  }

  lemma SplitSizes(input: bytes, size: nat, chunks: seq<Chunk>)
    requires 0 < size < UINT32 && |input| < 0x8000_0000_0000_0000 && IsSplit(input, size, chunks)
    ensures RightSizes(chunks)
  {
    forall k | 0 <= k < |chunks|
      ensures chunks[k].header.plainSize == |chunks[k].data|
    {
      SplitIsEven(input, size, chunks, k);
    }
  }

  // ------------------------------------------------------------- the sorted order

  function IndexOf(c: Chunk): nat {
    c.header.index
  }

  function Indices(chunks: seq<Chunk>): (at: seq<nat>)
    ensures |at| == |chunks| && forall k :: 0 <= k < |chunks| ==> at[k] == chunks[k].header.index
  {
    Mapped(IndexOf, chunks)
  }

  /** The chunks a sort yields, as places of the pieces. */
  lemma {:induction false} OrderArranges(
    x: Suite, key: Key, input: bytes, size: nat, chunks: seq<Chunk>, order: seq<Chunk>)
    requires 0 < size < UINT32 && |input| < 0x8000_0000_0000_0000 && IsSplit(input, size, chunks)
    requires |chunks| <= UINT32 && multiset(order) == multiset(ReadBack(x, key, chunks)) && SortedByIndex(order)
    ensures Arranges(LastPlaces(Ids(x, key, chunks)), Indices(order))
    ensures forall k :: 0 <= k < |order| ==>
      Indices(order)[k] < |chunks| && order[k] == Plains(x, key, chunks)[Indices(order)[k]]
  {
    var q, to := ReadBack(x, key, chunks), LastPlaces(Ids(x, key, chunks));
    assert |order| == |multiset(order)| == |multiset(q)| == |q|;
    forall k | 0 <= k < |q|
      ensures Indices(q)[k] == to[k]
    {
      PlainIndex(x, key, input, size, chunks, to[k]);
    }
    assert Indices(q) == to;
    MappedPermutes(IndexOf, order, q);
    forall k | 0 <= k < |order|
      ensures Indices(order)[k] < |chunks| && order[k] == Plains(x, key, chunks)[Indices(order)[k]]
    {
      assert order[k] in multiset(q);
      var l :| 0 <= l < |q| && q[l] == order[k];
      PlainIndex(x, key, input, size, chunks, to[l]);
    }
  }

  // ----------------------------------------------------------------- what is written

  function Data(chunks: seq<Chunk>): (data: seq<bytes>)
    ensures |data| == |chunks|
  {
    seq(|chunks|, k requires 0 <= k < |chunks| => chunks[k].data)
  }

  lemma LastEqual<T>(a: seq<T>, x: T, b: seq<T>, y: T)
    requires |a| == |b|
    ensures a + [x] == b + [y] <==> a == b && x == y
  {
    if a + [x] == b + [y] {
      assert (a + [x])[..|a|] == a && (b + [y])[..|b|] == b && (a + [x])[|a|] == x && (b + [y])[|b|] == y;
    }
  }

  /** Lists of pieces with the same lengths are written the same exactly if they agree. */
  lemma {:induction false} JoinedEqualIff(a: seq<Chunk>, b: seq<Chunk>)
    requires |a| == |b| && forall k :: 0 <= k < |a| ==> |a[k].data| == |b[k].data|
    ensures Joined(a) == Joined(b) <==> Data(a) == Data(b)
  {
    if a != [] {
      var n := |a| - 1;
      JoinedEqualIff(a[..n], b[..n]);
      assert Data(a) == Data(a[..n]) + [a[n].data] && Data(b) == Data(b[..n]) + [b[n].data];
      LastEqual(Data(a[..n]), a[n].data, Data(b[..n]), b[n].data);
      JoinedParts(Joined(a[..n]), a[n].data, Joined(b[..n]), b[n].data);
    }
  }

  lemma JoinedParts(a: bytes, x: bytes, b: bytes, y: bytes)
    requires |x| == |y|
    ensures a + x == b + y <==> a == b && x == y
  {
    if a + x == b + y {
      assert |a| == |b|;
      assert (a + x)[..|a|] == a && (b + y)[..|b|] == b && (a + x)[|a|..] == x && (b + y)[|b|..] == y;
    }
  }

  lemma OneMorePiece(x: nat, n: nat, y: nat, size: nat)
    requires x <= n * size && y <= size
    ensures x + y <= (n + 1) * size
  {
    MulStep(size, n + 1);
  }

  lemma {:induction false} JoinedLength(a: seq<Chunk>, size: nat)
    requires forall k :: 0 <= k < |a| ==> |a[k].data| <= size
    ensures |Joined(a)| <= |a| * size
  {
    if a != [] {
      JoinedLength(a[..|a| - 1], size);
      OneMorePiece(|Joined(a[..|a| - 1])|, |a| - 1, |a[|a| - 1].data|, size);
    }
  }

  lemma InputLength(input: bytes, size: nat, chunks: seq<Chunk>)
    requires 0 < size < UINT32 && |input| < 0x8000_0000_0000_0000 && IsSplit(input, size, chunks) && chunks != []
    ensures |input| == (|chunks| - 1) * size + |chunks[|chunks| - 1].data|
  {
    assert chunks[|chunks| - 1] == PieceAt(input, size, |chunks| - 1);
    PieceBounds(input, size, |chunks| - 1);
  }

  /** A short last piece written twice makes the output too short. */
  lemma TooShort(order: seq<Chunk>, size: nat, last: nat)
    requires |order| >= 2 && last < size && forall k :: 0 <= k < |order| ==> |order[k].data| <= size
    requires |order[|order| - 1].data| == last && |order[|order| - 2].data| == last
    ensures |Joined(order)| < (|order| - 1) * size + last
  {
    var n := |order|;
    JoinedLength(order[..n - 2], size);
    assert order[..n - 1][..n - 2] == order[..n - 2];
    assert |Joined(order)| == |Joined(order[..n - 2])| + last + last;
    assert (n - 1) * size == (n - 2) * size + size;
  }

  /** Chunks in sorted order, each a piece of the split. */
  ghost predicate Places(chunks: seq<Chunk>, order: seq<Chunk>, at: seq<nat>) {
    |order| == |at| == |chunks| && forall k :: 0 <= k < |at| ==> at[k] < |chunks| && order[k].data == chunks[at[k]].data
  }

  lemma PieceLengths(input: bytes, size: nat, chunks: seq<Chunk>)
    requires 0 < size < UINT32 && |input| < 0x8000_0000_0000_0000 && IsSplit(input, size, chunks)
    ensures forall k :: 0 <= k < |chunks| ==> |chunks[k].data| <= size
    ensures forall k :: 0 <= k < |chunks| - 1 ==> |chunks[k].data| == size
  {
    forall k | 0 <= k < |chunks|
      ensures |chunks[k].data| <= size && (k < |chunks| - 1 ==> |chunks[k].data| == size)
    {
      SplitIsEven(input, size, chunks, k);
    }
  }

  lemma RepeatedLastIsShort(input: bytes, size: nat, chunks: seq<Chunk>, order: seq<Chunk>, at: seq<nat>)
    requires 0 < size < UINT32 && |input| < 0x8000_0000_0000_0000 && IsSplit(input, size, chunks)
    requires Places(chunks, order, at) && |at| >= 2 && at[|at| - 2] == at[|at| - 1] == |at| - 1
    requires |chunks[|chunks| - 1].data| < size
    ensures |Joined(order)| < |input|
  {
    PieceLengths(input, size, chunks);
    InputLength(input, size, chunks);
    TooShort(order, size, |chunks[|chunks| - 1].data|);
  }

  /** Where the last entries lead. */
  lemma LastPlacesReached(to: seq<nat>, at: seq<nat>, k: nat)
    requires Arranges(to, at) && k < |at|
    ensures at[|at| - 1] == |at| - 1 && at[k] < |at|
    ensures k < |at| - 1 && at[k] == |at| - 1 ==> at[|at| - 2] == |at| - 1
  {
    ArrangedForward(to, at, |at| - 1);
    ArrangedForward(to, at, k);
    if k < |at| - 1 {
      ArrangedForward(to, at, |at| - 2);
    }
  }

  lemma SameLengths(input: bytes, size: nat, chunks: seq<Chunk>, order: seq<Chunk>, to: seq<nat>, at: seq<nat>)
    requires 0 < size < UINT32 && |input| < 0x8000_0000_0000_0000 && IsSplit(input, size, chunks)
    requires Arranges(to, at) && Places(chunks, order, at) && Joined(order) == input
    ensures forall k :: 0 <= k < |order| ==> |order[k].data| == |chunks[k].data|
  {
    PieceLengths(input, size, chunks);
    forall k | 0 <= k < |order|
      ensures |order[k].data| == |chunks[k].data|
    {
      LastPlacesReached(to, at, k);
      if k < |at| - 1 && at[k] == |at| - 1 && |chunks[|chunks| - 1].data| < size {
        RepeatedLastIsShort(input, size, chunks, order, at);
        assert false;
      }
    }
  }

  lemma UnmovedIsSame(chunks: seq<Chunk>, order: seq<Chunk>, at: seq<nat>)
    requires Places(chunks, order, at)
    ensures Unmoved(at, Data(chunks)) <==> Data(order) == Data(chunks)
  {
    assert forall k :: 0 <= k < |at| ==> Data(order)[k] == Data(chunks)[at[k]];
  }

  lemma SameDataSameLengths(a: seq<Chunk>, b: seq<Chunk>)
    requires |a| == |b| && Data(a) == Data(b)
    ensures forall k :: 0 <= k < |a| ==> |a[k].data| == |b[k].data|
  {
    assert forall k :: 0 <= k < |a| ==> Data(a)[k] == a[k].data && Data(b)[k] == b[k].data;
  }

  lemma OrderWritesIff(input: bytes, size: nat, chunks: seq<Chunk>, order: seq<Chunk>, to: seq<nat>, at: seq<nat>)
    requires 0 < size < UINT32 && |input| < 0x8000_0000_0000_0000 && IsSplit(input, size, chunks)
    requires Arranges(to, at) && Places(chunks, order, at)
    ensures Joined(order) == input <==> Smooth(to, Data(chunks))
  {
    SplitIsLossless(input, size, chunks);
    UnmovedIff(to, at, Data(chunks));
    UnmovedIsSame(chunks, order, at);
    if Joined(order) == input {
      SameLengths(input, size, chunks, order, to, at);
      JoinedEqualIff(order, chunks);
    } else if Data(order) == Data(chunks) {
      SameDataSameLengths(order, chunks);
      JoinedEqualIff(order, chunks);
      assert false;
    }
  }

  // -------------------------------------------------------------------------- result

  /** Between two places with one identifier there is nothing but copies of one piece. */
  predicate RepeatsAreRuns<T(==)>(ids: seq<Hash>, data: seq<T>)
    requires |data| == |ids|
  {
    forall i, m, j :: 0 <= i <= m <= j < |ids| && ids[i] == ids[j] ==> data[m] == data[i]
  }

  lemma SmoothIsRuns<T>(ids: seq<Hash>, data: seq<T>)
    requires |data| == |ids|
    ensures Smooth(LastPlaces(ids), data) <==> RepeatsAreRuns(ids, data)
  {
    var to := LastPlaces(ids);
    if RepeatsAreRuns(ids, data) {
      forall m | 0 < m < |to| && Crossed(to, m)
        ensures data[m] == data[m - 1]
      {
        var i :| 0 <= i < m && i < |to| && m <= to[i];
        assert ids[to[i]] == ids[i];
      }
    }
    if Smooth(to, data) {
      forall i, m, j | 0 <= i <= m <= j < |ids| && ids[i] == ids[j]
        ensures data[m] == data[i]
      {
        assert to[i] == LastPlace(ids, i) >= j;
        SmoothRun(to, data, i, m);
      }
    }
  }

  lemma WrittenIff(x: Suite, key: Key, input: bytes, size: nat, chunks: seq<Chunk>, got: seq<Chunk>, out: bytes)
    requires 0 < size < UINT32 && |input| < 0x8000_0000_0000_0000 && IsSplit(input, size, chunks) && |chunks| <= UINT32
    requires multiset(got) == multiset(ReadBack(x, key, chunks)) && Assembles(got, out)
    ensures out == input <==> RepeatsAreRuns(Ids(x, key, chunks), Data(chunks))
  {
    var order: seq<Chunk> :| multiset(order) == multiset(got) && SortedByIndex(order) && out == Joined(order);
    var to, at := LastPlaces(Ids(x, key, chunks)), Indices(order);
    OrderArranges(x, key, input, size, chunks, order);
    OrderWritesIff(input, size, chunks, order, to, at);
    SmoothIsRuns(Ids(x, key, chunks), Data(chunks));
  }

  /** For every input, every order of the manifest's chunk list and every sort: all chunks
      are read back, and what is written is the input exactly if all pieces between two
      with the same identifier are copies of one another. */
  lemma ReassembleIff(
    x: Suite, key: Key, input: bytes, size: nat, chunks: seq<Chunk>, before: Store, store: Store, ids: seq<Hash>)
    requires x.Correct() && 0 < size < UINT32 && |input| < 0x8000_0000_0000_0000
    requires IsSplit(input, size, chunks) && |chunks| <= UINT32
    requires Keeps(x, key, chunks, before, store) && multiset(ids) == multiset(Ids(x, key, chunks))
    ensures forall k :: 0 <= k < |ids| ==> Fetch(x, key, store, ids[k]).Ok?
    ensures forall got, out :: Fetched(x, key, store, ids, got) && Assembles(got, out) ==>
      (out == input <==> RepeatsAreRuns(Ids(x, key, chunks), Data(chunks)))
  {
    var all, back := Ids(x, key, chunks), ReadBack(x, key, chunks);
    SplitSizes(input, size, chunks);
    ReadBackFetched(x, key, chunks, before, store);
    forall k | 0 <= k < |ids|
      ensures Fetch(x, key, store, ids[k]).Ok?
    {
      PermutedFetches(x, key, store, all, back, ids, k);
    }
    forall got, out | Fetched(x, key, store, ids, got) && Assembles(got, out)
      ensures out == input <==> RepeatsAreRuns(all, Data(chunks))
    {
      FetchedPermutes(x, key, store, ids, got, all, back);
      WrittenIff(x, key, input, size, chunks, got, out);
    }
  }

  // Two pieces under one identifier.

  lemma LastOneStays(x: Suite, key: Key, c0: Chunk, c1: Chunk)
    requires x.Correct() && IdOf(x, key, c0) == IdOf(x, key, c1) && c1.header.plainSize == |c1.data|
    ensures
      var last := Plain(x, key, c1);
      Fetched(x, key, Filed(x, key, [c0, c1], map[]), Ids(x, key, [c0, c1]), [last, last])
  {
    DecryptSealed(x, key, c1);
    assert [c0, c1][..1] == [c0];
  }

  lemma JoinedTwice(c: Chunk)
    ensures Joined([c, c]) == c.data + c.data
  {
    assert [c, c][..1] == [c] && [c][..0] == [];
    assert Joined([c]) == [] + c.data;
  }

  lemma TwiceWritten(c: Chunk)
    ensures Assembles([c, c], c.data + c.data)
  {
    JoinedTwice(c);
    assert SortedByIndex([c, c]);
    InOrder([c, c]);
  }

  lemma InOrder(order: seq<Chunk>)
    requires SortedByIndex(order)
    ensures Assembles(order, Joined(order))
  {}

  lemma PairRuns(a: byte, b: byte, ids: seq<Hash>, data: seq<bytes>)
    requires |ids| == 2 && ids[0] == ids[1] && data == [[a], [b]]
    ensures RepeatsAreRuns(ids, data) <==> a == b
  {
    if RepeatsAreRuns(ids, data) {
      assert data[1] == data[0];
    }
  }

  lemma {:induction false} StillFiled(x: Suite, key: Key, chunks: seq<Chunk>, before: Store)
    ensures Keeps(x, key, chunks, before, Filed(x, key, chunks, before))
  {
    forall k | 0 <= k < |chunks|
      ensures IdOf(x, key, chunks[k]) in Filed(x, key, chunks, before)
    {
      FiledLast(x, key, chunks, before, k);
    }
  }

  /** If two one-byte pieces are filed under one identifier, only the later one is left and
      is written twice: reassembly works, and returns the input only if the bytes agree. */
  lemma OneIdentifierForTwo(x: Suite, key: Key, a: byte, b: byte, chunks: seq<Chunk>)
    requires x.Correct() && IsSplit([a, b], 1, chunks) && |chunks| == 2
    requires IdOf(x, key, chunks[0]) == IdOf(x, key, chunks[1])
    ensures
      var store, last := Filed(x, key, chunks, map[]), Plain(x, key, chunks[1]);
      && Fetched(x, key, store, Ids(x, key, chunks), [last, last]) && Assembles([last, last], [b, b])
      && forall got, out :: Fetched(x, key, store, Ids(x, key, chunks), got) && Assembles(got, out) ==>
           (out == [a, b] <==> a == b)
  {
    assert chunks == [chunks[0], chunks[1]];
    assert chunks[0] == PieceAt([a, b], 1, 0) && chunks[0].data == [a];
    assert chunks[1] == PieceAt([a, b], 1, 1) && chunks[1].data == [b];
    LastOneStays(x, key, chunks[0], chunks[1]);
    TwiceWritten(Plain(x, key, chunks[1]));
    StillFiled(x, key, chunks, map[]);
    ReassembleIff(x, key, [a, b], 1, chunks, map[], Filed(x, key, chunks, map[]), Ids(x, key, chunks));
    PairRuns(a, b, Ids(x, key, chunks), Data(chunks));
  }
}
