/** Why reassembly gives the ingested bytes back from any order of the chunk list. */
module ContentSafety {
  import opened Bytes
  import opened Options
  import opened Shared
  import opened Wire
  import opened Content

  // ------------------------------------------------------------- what is stored

  lemma {:induction false} FiledAt(x: Suite, key: Key, chunks: seq<Chunk>, before: Store, k: nat)
    requires Distinct(Ids(x, key, chunks)) && k < |chunks|
    ensures
      var id := IdOf(x, key, chunks[k]);
      id in Filed(x, key, chunks, before) && Filed(x, key, chunks, before)[id] == Sealed(x, key, chunks[k])
  {
    var init := chunks[..|chunks| - 1];
    if k < |init| {
      assert Ids(x, key, chunks)[k] == IdOf(x, key, chunks[k]) &&
        Ids(x, key, chunks)[|init|] == IdOf(x, key, chunks[|init|]);
      assert forall i :: 0 <= i < |init| ==> Ids(x, key, init)[i] == Ids(x, key, chunks)[i];
      FiledAt(x, key, init, before, k);
    }
  }

  /** The stored chunks read back as the plain ones under their stored headers. */
  function Plains(x: Suite, key: Key, chunks: seq<Chunk>): (plains: seq<Chunk>)
    ensures |plains| == |chunks|
    ensures forall k :: 0 <= k < |chunks| ==> plains[k] == Plain(x, key, chunks[k])
  {
    if chunks == [] then [] else Plains(x, key, chunks[..|chunks| - 1]) + [Plain(x, key, chunks[|chunks| - 1])]
  }

  lemma {:induction false} JoinedPlains(x: Suite, key: Key, chunks: seq<Chunk>)
    ensures Joined(Plains(x, key, chunks)) == Joined(chunks)
  {
    if chunks != [] {
      var init := chunks[..|chunks| - 1];
      JoinedPlains(x, key, init);
      Snoc(Plains(x, key, init), Plain(x, key, chunks[|chunks| - 1]));
    }
  }

  /** Every file of the content is still what ingestion stored there. */
  ghost predicate Keeps(x: Suite, key: Key, chunks: seq<Chunk>, before: Store, store: Store) {
    forall k :: 0 <= k < |chunks| ==>
      var id := IdOf(x, key, chunks[k]);
      id in store && id in Filed(x, key, chunks, before) && store[id] == Filed(x, key, chunks, before)[id]
  }

  lemma FetchStored(x: Suite, key: Key, chunks: seq<Chunk>, before: Store, store: Store, k: nat)
    requires x.Correct() && Distinct(Ids(x, key, chunks)) && Keeps(x, key, chunks, before, store) && k < |chunks|
    requires chunks[k].header.plainSize == |chunks[k].data|
    ensures Fetch(x, key, store, Ids(x, key, chunks)[k]) == Ok(Plains(x, key, chunks)[k])
  {
    FiledAt(x, key, chunks, before, k);
    DecryptSealed(x, key, chunks[k]);
  }

  /** The chunks of a file are stored with pairwise different nonces, unless two different
      nonce inputs have digests that agree in their first 12 bytes. */
  lemma StoredNoncesDiffer(x: Suite, key: Key, input: bytes, size: nat, chunks: seq<Chunk>, i: nat, j: nat)
    requires 0 < size < UINT32 && |input| < 0x8000_0000_0000_0000 && IsSplit(input, size, chunks)
    requires i < j < |chunks| <= UINT32
    ensures
      Sealed(x, key, chunks[i]).header.nonce == Sealed(x, key, chunks[j]).header.nonce <==>
        NonceInput(i) != NonceInput(j) && x.digest(NonceInput(i))[..12] == x.digest(NonceInput(j))[..12]
    ensures Sealed(x, key, chunks[i]).data == x.seal(key, Sealed(x, key, chunks[i]).header.nonce, chunks[i].data)
  {
    SplitIsEven(input, size, chunks, i);
    SplitIsEven(input, size, chunks, j);
    SmallMod(i, UINT32);
    SmallMod(j, UINT32);
    NoncesDiffer(x, i, j);
  }

  // ------------------------------------------------------ order does not matter

  function Without<T>(s: seq<T>, j: nat): seq<T>
    requires j < |s|
  {
    s[..j] + s[j + 1..]
  }

  lemma WithoutOne<T>(s: seq<T>, j: nat)
    requires j < |s|
    ensures multiset(s) == multiset(Without(s, j)) + multiset{s[j]}
    ensures multiset(Without(s, j)) == multiset(s) - multiset{s[j]}
  {
    assert s == s[..j] + [s[j]] + s[j + 1..];
  }

  /** Fetching a permuted list of identifiers gives a permutation of the chunks. */
  lemma {:induction false} FetchedPermutes(
    x: Suite, key: Key, store: Store, s: seq<Hash>, a: seq<Chunk>, t: seq<Hash>, b: seq<Chunk>)
    requires multiset(s) == multiset(t) && Fetched(x, key, store, s, a) && Fetched(x, key, store, t, b)
    ensures multiset(a) == multiset(b)
    decreases |s|
  {
    if s == [] {
      assert |multiset(t)| == 0;
    } else {
      assert s[0] in multiset(s);
      var j :| 0 <= j < |t| && t[j] == s[0];
      WithoutOne(s, 0);
      WithoutOne(t, j);
      FetchedWithout(x, key, store, s, a, 0);
      FetchedWithout(x, key, store, t, b, j);
      FetchedPermutes(x, key, store, Without(s, 0), Without(a, 0), Without(t, j), Without(b, j));
      WithoutOne(a, 0);
      WithoutOne(b, j);
    }
  }

  lemma FetchedWithout(x: Suite, key: Key, store: Store, s: seq<Hash>, a: seq<Chunk>, j: nat)
    requires Fetched(x, key, store, s, a) && j < |s|
    ensures Fetched(x, key, store, Without(s, j), Without(a, j))
  {}

  predicate StrictlySorted(chunks: seq<Chunk>) {
    forall i, j :: 0 <= i < j < |chunks| ==> chunks[i].header.index < chunks[j].header.index
  }

  /** There is only one way to sort chunks whose indices differ. */
  lemma {:induction false} OneSorting(a: seq<Chunk>, b: seq<Chunk>)
    requires multiset(a) == multiset(b) && SortedByIndex(a) && StrictlySorted(b)
    ensures a == b
  {
    assert |a| == |multiset(a)| == |multiset(b)| == |b|;
    if b != [] {
      SameHead(a, b);
      TailOf(a);
      TailOf(b);
      OneSorting(a[1..], b[1..]);
      assert a == [a[0]] + a[1..] && b == [b[0]] + b[1..];
    }
  }

  lemma TailOf<T>(a: seq<T>)
    requires a != []
    ensures multiset(a[1..]) == multiset(a) - multiset{a[0]}
  {
    assert a == [a[0]] + a[1..];
  }

  lemma SameHead(a: seq<Chunk>, b: seq<Chunk>)
    requires multiset(a) == multiset(b) && SortedByIndex(a) && StrictlySorted(b) && a != [] && b != []
    ensures a[0] == b[0]
  {
    assert a[0] in multiset(b) && b[0] in multiset(a);
    var j :| 0 <= j < |b| && b[j] == a[0];
    var k :| 0 <= k < |a| && a[k] == b[0];
  }

  // -------------------------------------------------------------------- result

  lemma PlainKeepsIndex(x: Suite, key: Key, c: Chunk)
    ensures Plain(x, key, c).header.index == c.header.index
  {}

  lemma {:induction false} PlainIndex(x: Suite, key: Key, input: bytes, size: nat, chunks: seq<Chunk>, k: nat)
    requires 0 < size < UINT32 && |input| < 0x8000_0000_0000_0000 && IsSplit(input, size, chunks)
    requires k < |chunks| <= UINT32
    ensures Plains(x, key, chunks)[k].header.index == k
  {
    SplitIsEven(input, size, chunks, k);
    PlainKeepsIndex(x, key, chunks[k]);
  }

  lemma PlainsSorted(x: Suite, key: Key, input: bytes, size: nat, chunks: seq<Chunk>)
    requires 0 < size < UINT32 && |input| < 0x8000_0000_0000_0000 && IsSplit(input, size, chunks) && |chunks| <= UINT32
    ensures StrictlySorted(Plains(x, key, chunks))
  {
    var plains := Plains(x, key, chunks);
    forall i, j | 0 <= i < j < |plains|
      ensures plains[i].header.index < plains[j].header.index
    {
      PlainIndex(x, key, input, size, chunks, i);
      PlainIndex(x, key, input, size, chunks, j);
    }
  }

  lemma AllFetched(x: Suite, key: Key, input: bytes, size: nat, chunks: seq<Chunk>, before: Store, store: Store)
    requires x.Correct() && 0 < size < UINT32 && |input| < 0x8000_0000_0000_0000 && IsSplit(input, size, chunks)
    requires Distinct(Ids(x, key, chunks)) && Keeps(x, key, chunks, before, store)
    ensures Fetched(x, key, store, Ids(x, key, chunks), Plains(x, key, chunks))
  {
    forall k | 0 <= k < |chunks|
      ensures Fetch(x, key, store, Ids(x, key, chunks)[k]) == Ok(Plains(x, key, chunks)[k])
    {
      SplitIsEven(input, size, chunks, k);
      FetchStored(x, key, chunks, before, store, k);
    }
  }

  lemma PermutedFetches(x: Suite, key: Key, store: Store, all: seq<Hash>, plains: seq<Chunk>, ids: seq<Hash>, k: nat)
    requires Fetched(x, key, store, all, plains) && multiset(ids) == multiset(all) && k < |ids|
    ensures Fetch(x, key, store, ids[k]).Ok?
  {
    assert ids[k] in multiset(ids);
    var j :| 0 <= j < |all| && all[j] == ids[k];
  }

  /** For every input and every order of the manifest's chunk list: all chunks are read
      back, and whichever way the sort is done, what is written is the input. */
  lemma ReassembleAfterIngest(
    x: Suite, key: Key, input: bytes, size: nat, chunks: seq<Chunk>, before: Store, store: Store, ids: seq<Hash>)
    requires x.Correct() && 0 < size < UINT32 && |input| < 0x8000_0000_0000_0000
    requires IsSplit(input, size, chunks) && |chunks| <= UINT32 && Distinct(Ids(x, key, chunks))
    requires Keeps(x, key, chunks, before, store) && multiset(ids) == multiset(Ids(x, key, chunks))
    ensures forall k :: 0 <= k < |ids| ==> Fetch(x, key, store, ids[k]).Ok?
    ensures forall got, out :: Fetched(x, key, store, ids, got) && Assembles(got, out) ==> out == input
  {
    var all, plains := Ids(x, key, chunks), Plains(x, key, chunks);
    AllFetched(x, key, input, size, chunks, before, store);
    forall k | 0 <= k < |ids|
      ensures Fetch(x, key, store, ids[k]).Ok?
    {
      PermutedFetches(x, key, store, all, plains, ids, k);
    }
    forall got, out | Fetched(x, key, store, ids, got) && Assembles(got, out)
      ensures out == input
    {
      FetchedPermutes(x, key, store, ids, got, all, plains);
      WrittenIsInput(x, key, input, size, chunks, got, out);
    }
  }

  lemma WrittenIsInput(x: Suite, key: Key, input: bytes, size: nat, chunks: seq<Chunk>, got: seq<Chunk>, out: bytes)
    requires 0 < size < UINT32 && |input| < 0x8000_0000_0000_0000 && IsSplit(input, size, chunks) && |chunks| <= UINT32
    requires multiset(got) == multiset(Plains(x, key, chunks)) && Assembles(got, out)
    ensures out == input
  {
    var order: seq<Chunk> :| multiset(order) == multiset(got) && SortedByIndex(order) && out == Joined(order);
    PlainsSorted(x, key, input, size, chunks);
    OneSorting(order, Plains(x, key, chunks));
    JoinedPlains(x, key, chunks);
    SplitIsLossless(input, size, chunks);
  }
}
