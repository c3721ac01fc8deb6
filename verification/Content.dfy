/** The content pipeline: split a file, encrypt and file each chunk under the digest of
    its ciphertext, and put the file together again from any order of chunks. */
module Content {
  import opened Arithmetic
  import opened Bytes
  import opened Options
  import opened Shared
  import opened Wire

  type Key = Hash

  const ZERO_HASH: Hash :=
    [0, 0, 0, 0, 0, 0, 0, 0, 0, 0, 0, 0, 0, 0, 0, 0, 0, 0, 0, 0, 0, 0, 0, 0, 0, 0, 0, 0, 0, 0, 0, 0]
  const ZERO_NONCE: Nonce := [0, 0, 0, 0, 0, 0, 0, 0, 0, 0, 0, 0]
  const NONCE_LABEL: bytes := [0x63, 0x69, 0x70, 0x68, 0x65, 0x72, 0x2D, 0x6E, 0x6F, 0x6E, 0x63, 0x65]

  datatype Error = NoKey | NotFound | Corrupted | CipherSize | NotAuthentic | PlainSize

  /** SHA-256 (section 6.2 of FIPS 180-4) and ChaCha20-Poly1305 (section 2.8 of RFC 8439). */
  datatype Suite = Suite(
    digest: bytes -> Hash, seal: (Key, Nonce, bytes) -> bytes, open: (Key, Nonce, bytes) -> Option<bytes>) {
    ghost predicate Correct() {
      forall k, n, p :: open(k, n, seal(k, n, p)) == Some(p)
    }

    function NonceFor(index: uint32): Nonce {
      digest(NONCE_LABEL + LE(8, index))[..12]
    }
  }

  datatype Manifest = Manifest(content: Hash, size: uint64, ids: seq<Hash>)

  // -------------------------------------------------------------- splitting

  /** The `k`-th chunk of the input; its index field has 32 bits. */
  function PieceAt(input: bytes, size: nat, k: nat): Chunk
    requires 0 < size < UINT32 && k * size < |input| < 0x8000_0000_0000_0000
  {
    var data := input[k * size..Min(k * size + size, |input|)];
    Chunk(ChunkHeader(1, ZERO_HASH, k % UINT32, k * size, |data|, 0, ZERO_NONCE), data)
  }

  ghost predicate IsSplit(input: bytes, size: nat, chunks: seq<Chunk>)
    requires 0 < size < UINT32 && |input| < 0x8000_0000_0000_0000
  {
    && (|chunks| - 1) * size < |input| <= |chunks| * size
    && forall k :: 0 <= k < |chunks| ==> k * size < |input| && chunks[k] == PieceAt(input, size, k)
  }

  lemma NextPiece(input: bytes, size: nat, k: nat, offset: nat)
    requires 0 < size < UINT32 && offset == k * size < |input| < 0x8000_0000_0000_0000
    ensures
      var n := Min(size, |input| - offset);
      && (k + 1) * size == offset + size
      && PieceAt(input, size, k)
         == Chunk(ChunkHeader(1, ZERO_HASH, k % UINT32, offset, n, 0, ZERO_NONCE), input[offset..offset + n])
  {
    MulStep(size, k + 1);
  }

  method Split(input: bytes, size: nat) returns (chunks: seq<Chunk>)
    requires 0 < size < UINT32 && |input| < 0x8000_0000_0000_0000
    ensures IsSplit(input, size, chunks)
  {
    chunks := [];
    var index, offset, more := 0, 0, true;
    while more
      invariant |chunks| == index && offset == Min(index * size, |input|)
      invariant more ==> offset == index * size
      invariant !more ==> offset == |input|
      invariant index > 0 ==> (index - 1) * size < |input|
      invariant forall k :: 0 <= k < index ==> k * size < |input| && chunks[k] == PieceAt(input, size, k)
      decreases |input| - offset, more
    {
      var n := Min(size, |input| - offset);
      if n > 0 {
        var header := ChunkHeader(1, ZERO_HASH, index % UINT32, offset, n, 0, ZERO_NONCE);
        chunks := chunks + [Chunk(header, input[offset..offset + n])];
        NextPiece(input, size, index, offset);
        index := index + 1;
        offset := offset + n;
      }
      if n < size {
        more := false;
      }
    }
  }

  function Joined(chunks: seq<Chunk>): bytes {
    if chunks == [] then [] else Joined(chunks[..|chunks| - 1]) + chunks[|chunks| - 1].data
  }

  function TotalSize(chunks: seq<Chunk>): nat {
    if chunks == [] then 0 else TotalSize(chunks[..|chunks| - 1]) + chunks[|chunks| - 1].header.plainSize
  }

  lemma PieceBounds(input: bytes, size: nat, k: nat)
    requires 0 < size < UINT32 && k * size < |input| < 0x8000_0000_0000_0000
    ensures
      var from, to := Min(k * size, |input|), Min((k + 1) * size, |input|);
      && 0 <= from < to <= |input| && to - from <= size
      && PieceAt(input, size, k).data == input[from..to] && PieceAt(input, size, k).header.plainSize == to - from
      && ((k + 1) * size < |input| ==> to - from == size)
  {
    MulStep(size, k + 1);
  }

  lemma {:induction false} JoinedPrefix(input: bytes, size: nat, chunks: seq<Chunk>, k: nat)
    requires 0 < size < UINT32 && |input| < 0x8000_0000_0000_0000 && IsSplit(input, size, chunks) && k <= |chunks|
    ensures 0 <= Min(k * size, |input|)
    ensures Joined(chunks[..k]) == input[..Min(k * size, |input|)]
    ensures TotalSize(chunks[..k]) == Min(k * size, |input|)
  {
    if k > 0 {
      JoinedPrefix(input, size, chunks, k - 1);
      var init, last := chunks[..k - 1], chunks[k - 1];
      assert last == PieceAt(input, size, k - 1);
      PieceBounds(input, size, k - 1);
      Snoc(init, last);
      assert chunks[..k] == init + [last];
    }
  }

  lemma Snoc(init: seq<Chunk>, last: Chunk)
    ensures Joined(init + [last]) == Joined(init) + last.data
    ensures TotalSize(init + [last]) == TotalSize(init) + last.header.plainSize
  {
    assert (init + [last])[..|init|] == init;
  }

  /** Splitting loses nothing: the pieces in order are the input, and their sizes add up
      to its length. */
  lemma SplitIsLossless(input: bytes, size: nat, chunks: seq<Chunk>)
    requires 0 < size < UINT32 && |input| < 0x8000_0000_0000_0000 && IsSplit(input, size, chunks)
    ensures Joined(chunks) == input && TotalSize(chunks) == |input|
  {
    JoinedPrefix(input, size, chunks, |chunks|);
    assert chunks[..|chunks|] == chunks && input[..|input|] == input;
  }

  /** No piece is empty, and all but the last are full. */
  lemma SplitIsEven(input: bytes, size: nat, chunks: seq<Chunk>, k: nat)
    requires 0 < size < UINT32 && |input| < 0x8000_0000_0000_0000 && IsSplit(input, size, chunks) && k < |chunks|
    ensures 0 < |chunks[k].data| <= size && chunks[k].header.plainSize == |chunks[k].data|
    ensures k < |chunks| - 1 ==> |chunks[k].data| == size
    ensures chunks[k].header.offset == k * size && chunks[k].header.index == k % UINT32
  {
    assert chunks[k] == PieceAt(input, size, k);
    PieceBounds(input, size, k);
    if k < |chunks| - 1 {
      MulMono(k + 1, |chunks| - 1, size);
    }
  }

  // -------------------------------------------------------------- encryption

  /** What the nonce of a chunk is derived from. */
  function NonceInput(index: uint32): bytes {
    NONCE_LABEL + LE(8, index)
  }

  /** Different chunks of a file have different nonces, unless two different inputs have
      digests that agree in their first 12 bytes. */
  lemma NoncesDiffer(x: Suite, i: uint32, j: uint32)
    requires i != j
    ensures NonceInput(i) != NonceInput(j)
    ensures x.NonceFor(i) == x.NonceFor(j) <==> x.digest(NonceInput(i))[..12] == x.digest(NonceInput(j))[..12]
  {
    Widths();
    FromLEOfLE(8, i);
    FromLEOfLE(8, j);
    assert NonceInput(i)[12..] == LE(8, i) && NonceInput(j)[12..] == LE(8, j);
  }

  function Encrypt(x: Suite, key: Key, c: Chunk): Chunk {
    var nonce := x.NonceFor(c.header.index);
    var ciphertext := x.seal(key, nonce, c.data);
    Chunk(c.header.(nonce := nonce, cipherSize := |ciphertext| % UINT32), ciphertext)
  }

  function Decrypt(x: Suite, key: Key, c: Chunk): Result<Chunk, Error> {
    if c.header.cipherSize != |c.data| % UINT32 then Err(CipherSize)
    else
      var plaintext := x.open(key, c.header.nonce, c.data);
      if plaintext.None? then Err(NotAuthentic)
      else if c.header.plainSize != |plaintext.value| % UINT32 then Err(PlainSize)
      else Ok(c.(data := plaintext.value))
  }

  /** The chunk as stored: encrypted, and named by its ciphertext. */
  function Sealed(x: Suite, key: Key, c: Chunk): Chunk {
    var e := Encrypt(x, key, c);
    e.(header := e.header.(id := x.digest(e.data)))
  }

  /** The chunk as read back: the stored header with the plain data. */
  function Plain(x: Suite, key: Key, c: Chunk): Chunk {
    Sealed(x, key, c).(data := c.data)
  }

  lemma DecryptSealed(x: Suite, key: Key, c: Chunk)
    requires x.Correct() && c.header.plainSize == |c.data| % UINT32
    ensures Decrypt(x, key, Sealed(x, key, c)) == Ok(Plain(x, key, c))
  {}

  // ------------------------------------------------------- ingest, reassemble

  type Store = map<Hash, Chunk>

  function IdOf(x: Suite, key: Key, c: Chunk): Hash {
    Sealed(x, key, c).header.id
  }

  function Ids(x: Suite, key: Key, chunks: seq<Chunk>): (ids: seq<Hash>)
    ensures |ids| == |chunks|
    ensures forall k :: 0 <= k < |chunks| ==> ids[k] == IdOf(x, key, chunks[k])
  {
    if chunks == [] then [] else Ids(x, key, chunks[..|chunks| - 1]) + [IdOf(x, key, chunks[|chunks| - 1])]
  }

  function Filed(x: Suite, key: Key, chunks: seq<Chunk>, store: Store): Store {
    if chunks == [] then store
    else
      var last := Sealed(x, key, chunks[|chunks| - 1]);
      Filed(x, key, chunks[..|chunks| - 1], store)[last.header.id := last]
  }

  lemma FiledSnoc(x: Suite, key: Key, pieces: seq<Chunk>, store: Store, i: nat)
    requires i < |pieces|
    ensures Ids(x, key, pieces[..i + 1]) == Ids(x, key, pieces[..i]) + [IdOf(x, key, pieces[i])]
    ensures TotalSize(pieces[..i + 1]) == TotalSize(pieces[..i]) + pieces[i].header.plainSize
    ensures Filed(x, key, pieces[..i + 1], store)
         == Filed(x, key, pieces[..i], store)[IdOf(x, key, pieces[i]) := Sealed(x, key, pieces[i])]
  {
    assert pieces[..i + 1][..i] == pieces[..i];
  }

  /** Read one chunk: present, intact and authentic. */
  function Fetch(x: Suite, key: Key, store: Store, id: Hash): Result<Chunk, Error> {
    if id !in store then Err(NotFound)
    else if x.digest(store[id].data) != id then Err(Corrupted)
    else Decrypt(x, key, store[id])
  }

  predicate SortedByIndex(chunks: seq<Chunk>) {
    forall i, j :: 0 <= i < j < |chunks| ==> chunks[i].header.index <= chunks[j].header.index
  }

  /** `out` is written by putting the chunks in some order of their indices. */
  ghost predicate Assembles(chunks: seq<Chunk>, out: bytes) {
    exists order: seq<Chunk> :: multiset(order) == multiset(chunks) && SortedByIndex(order) && out == Joined(order)
  }

  ghost predicate Fetched(x: Suite, key: Key, store: Store, ids: seq<Hash>, chunks: seq<Chunk>) {
    |chunks| == |ids| && forall k :: 0 <= k < |ids| ==> Fetch(x, key, store, ids[k]) == Ok(chunks[k])
  }

  lemma InsertSorted(order: seq<Chunk>, c: Chunk, k: nat)
    requires SortedByIndex(order) && k <= |order|
    requires k > 0 ==> order[k - 1].header.index <= c.header.index
    requires forall i :: k <= i < |order| ==> order[i].header.index > c.header.index
    ensures SortedByIndex(order[..k] + [c] + order[k..])
  {
    var longer := order[..k] + [c] + order[k..];
    assert forall i :: 0 <= i < |longer| ==>
      longer[i] == if i < k then order[i] else if i == k then c else order[i - 1];
  }

  lemma InsertSame(order: seq<Chunk>, c: Chunk, k: nat)
    requires k <= |order|
    ensures multiset(order[..k] + [c] + order[k..]) == multiset(order + [c])
  {
    assert order == order[..k] + order[k..];
  }

  /** Why an ingestion ends early. */
  datatype Failure = NoRandomness | KeyNotStored | ChunkNotStored | ReadFailed

  /** What the random generator, the key store, the chunk sink and the input do. */
  datatype Luck = Luck(random: bool, keyStored: bool, takes: nat -> bool, readOk: bool)

  /** How many of the first `n` pieces are stored before the sink refuses one. */
  function Accepted(takes: nat -> bool, n: nat): (k: nat)
    ensures k <= n && (forall i :: 0 <= i < k ==> takes(i)) && (k < n ==> !takes(k))
  {
    if n == 0 then 0
    else
      var k := Accepted(takes, n - 1);
      if k == n - 1 && takes(k) then n else k
  }

  lemma AcceptedUpTo(takes: nat -> bool, n: nat, k: nat)
    requires k <= n && (forall i :: 0 <= i < k ==> takes(i)) && (k < n ==> !takes(k))
    ensures Accepted(takes, n) == k
  {}

  /** The first pieces are stored and listed, and their sizes added up. */
  ghost predicate StoredUpTo(
    x: Suite, key: Key, pieces: seq<Chunk>, before: Store, ids: seq<Hash>, total: uint64, store: Store)
  {
    && |ids| <= |pieces| && ids == Ids(x, key, pieces[..|ids|]) && store == Filed(x, key, pieces[..|ids|], before)
    && total == TotalSize(pieces[..|ids|]) % UINT64
  }

  lemma StoredNext(x: Suite, key: Key, pieces: seq<Chunk>, before: Store, ids: seq<Hash>, total: uint64, i: nat)
    requires i == |ids| < |pieces| && StoredUpTo(x, key, pieces, before, ids, total, Filed(x, key, pieces[..i], before))
    ensures
      StoredUpTo(x, key, pieces, before, ids + [IdOf(x, key, pieces[i])],
                 (total + pieces[i].header.plainSize) % UINT64,
                 Filed(x, key, pieces[..i], before)[IdOf(x, key, pieces[i]) := Sealed(x, key, pieces[i])])
  {
    FiledSnoc(x, key, pieces, before, i);
    ModAdd(TotalSize(pieces[..i]), pieces[i].header.plainSize, UINT64);
  }

  class ContentEngine {
    const suite: Suite
    const chunkSize: nat
    var store: Store
    var keys: map<Hash, Key>

    constructor (x: Suite, size: nat)
      ensures suite == x && chunkSize == size && store == map[] && keys == map[]
    {
      suite, chunkSize, store, keys := x, size, map[], map[];
    }

    /** Encrypt one piece, name it by its ciphertext and store it. */
    method StoreOne(piece: Chunk, key: Key) returns (id: Hash)
      modifies this`store
      ensures id == IdOf(suite, key, piece) && store == old(store)[id := Sealed(suite, key, piece)]
    {
      var stored := Encrypt(suite, key, piece);
      id := suite.digest(stored.data);
      stored := stored.(header := stored.header.(id := id));
      store := store[id := stored];
    }

    /** Store the pieces in order, up to the first the sink does not take. */
    method StoreAll(pieces: seq<Chunk>, key: Key, takes: nat -> bool) returns (ids: seq<Hash>, total: uint64)
      modifies this`store
      ensures |ids| == Accepted(takes, |pieces|) && StoredUpTo(suite, key, pieces, old(store), ids, total, store)
    {
      ids, total := [], 0;
      var i := 0;
      while i < |pieces| && takes(i)
        invariant i == |ids| && StoredUpTo(suite, key, pieces, old(store), ids, total, store)
        invariant forall k :: 0 <= k < i ==> takes(k)
      {
        var id := StoreOne(pieces[i], key);
        StoredNext(suite, key, pieces, old(store), ids, total, i);
        ids := ids + [id];
        total := (total + pieces[i].header.plainSize) % UINT64;
        i := i + 1;
      }
      AcceptedUpTo(takes, |pieces|, i);
    }

    method StoreContent(pieces: seq<Chunk>, content: Hash, key: Key, luck: Luck) returns (r: Result<Manifest, Failure>)
      modifies this
      ensures r.Ok? ==> r.value == Manifest(content, TotalSize(pieces) % UINT64, Ids(suite, key, pieces))
      ensures r.Ok? <==> luck.random && luck.keyStored && Accepted(luck.takes, |pieces|) == |pieces| && luck.readOk
      ensures keys == if luck.random && luck.keyStored then old(keys)[content := key] else old(keys)
      ensures
        store == if luck.random && luck.keyStored
                 then Filed(suite, key, pieces[..Accepted(luck.takes, |pieces|)], old(store))
                 else old(store)
    {
      if !luck.random { return Err(NoRandomness); }
      if !luck.keyStored { return Err(KeyNotStored); }
      keys := keys[content := key];
      var ids, total := StoreAll(pieces, key, luck.takes);
      if |ids| < |pieces| { return Err(ChunkNotStored); }
      if !luck.readOk { return Err(ReadFailed); }
      assert pieces[..|ids|] == pieces;
      r := Ok(Manifest(content, total, ids));
    }

    /** `input` is what the stream delivers before it ends or fails. Whatever goes wrong,
        the store has gained exactly the pieces taken so far. */
    method Ingest(input: bytes, content: Hash, key: Key, luck: Luck)
      returns (r: Result<Manifest, Failure>, ghost chunks: seq<Chunk>)
      requires 0 < chunkSize < UINT32 && |input| < 0x8000_0000_0000_0000
      modifies this
      ensures IsSplit(input, chunkSize, chunks)
      ensures r.Ok? ==> r.value == Manifest(content, |input|, Ids(suite, key, chunks))
      ensures r.Ok? <==> luck.random && luck.keyStored && Accepted(luck.takes, |chunks|) == |chunks| && luck.readOk
      ensures keys == if luck.random && luck.keyStored then old(keys)[content := key] else old(keys)
      ensures
        store == if luck.random && luck.keyStored
                 then Filed(suite, key, chunks[..Accepted(luck.takes, |chunks|)], old(store))
                 else old(store)
    {
      var pieces := Split(input, chunkSize);
      chunks := pieces;
      SplitIsLossless(input, chunkSize, pieces);
      r := StoreContent(pieces, content, key, luck);
    }

    /** Insertion by index. */
    method SortChunks(chunks: seq<Chunk>) returns (order: seq<Chunk>)
      ensures multiset(order) == multiset(chunks) && SortedByIndex(order)
    {
      order := [];
      for i := 0 to |chunks|
        invariant multiset(order) == multiset(chunks[..i]) && SortedByIndex(order)
      {
        order := Insert(order, chunks[i]);
        assert chunks[..i + 1] == chunks[..i] + [chunks[i]];
      }
      assert chunks[..|chunks|] == chunks;
    }

    method Insert(order: seq<Chunk>, c: Chunk) returns (longer: seq<Chunk>)
      requires SortedByIndex(order)
      ensures multiset(longer) == multiset(order + [c]) && SortedByIndex(longer)
    {
      var k := |order|;
      while k > 0 && order[k - 1].header.index > c.header.index
        invariant 0 <= k <= |order|
        invariant forall i :: k <= i < |order| ==> order[i].header.index > c.header.index
      {
        k := k - 1;
      }
      longer := order[..k] + [c] + order[k..];
      InsertSorted(order, c, k);
      InsertSame(order, c, k);
    }

    /** Fetch in manifest order, stop at the first failure, sort, write. */
    method Reassemble(m: Manifest) returns (r: Result<bytes, Error>)
      ensures r.Ok? <==>
        m.content in keys && forall k :: 0 <= k < |m.ids| ==> Fetch(suite, keys[m.content], store, m.ids[k]).Ok?
      ensures r.Ok? ==> exists chunks ::
        Fetched(suite, keys[m.content], store, m.ids, chunks) && Assembles(chunks, r.value)
    {
      if m.content !in keys { return Err(NoKey); }
      var key := keys[m.content];
      var chunks: seq<Chunk> := [];
      for k := 0 to |m.ids|
        invariant |chunks| == k && forall i :: 0 <= i < k ==> Fetch(suite, key, store, m.ids[i]) == Ok(chunks[i])
      {
        var id := m.ids[k];
        if id !in store { return Err(NotFound); }
        if suite.digest(store[id].data) != id { return Err(Corrupted); }
        var plain := Decrypt(suite, key, store[id]);
        if plain.Err? { return Err(plain.error); }
        chunks := chunks + [plain.value];
      }
      var order := SortChunks(chunks);
      var out: bytes := [];
      for k := 0 to |order|
        invariant out == Joined(order[..k])
      {
        assert order[..k + 1][..k] == order[..k];
        out := out + order[k].data;
      }
      assert order[..|order|] == order;
      assert Assembles(chunks, out);
      assert Fetched(suite, key, store, m.ids, chunks);
      r := Ok(out);
    }
  }
}
