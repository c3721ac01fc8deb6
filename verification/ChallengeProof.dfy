/** Checking a provider's answer to an availability challenge. */
module ChallengeProof {
  import opened Bytes
  import opened Options
  import opened Merkle
  import opened MerklePlaces

  datatype Challenge = Challenge(
    id: text, contract: text, provider: text, file: text, chunk: int, nonce: bytes, createdAt: int)

  datatype Response = Response(
    id: text, contract: text, provider: text, file: text, chunk: int,
    hash: bytes, path: seq<bytes>, signature: bytes, respondedAt: int)

  datatype Rejection =
    | EmptyChallenge | WrongChallenge | WrongContract | WrongProvider | WrongFile | WrongChunk
    | Late | BadRoot | BadPath | BadKey | BadSignature

  /** What the provider signs: chunk hash, one-time nonce and challenge identifier. */
  function DigestInput(hash: bytes, nonce: bytes, id: text): bytes {
    hash + nonce + id
  }

  function ProofDigest(h: Hasher, hash: bytes, nonce: bytes, id: text): bytes {
    h.sha(DigestInput(hash, nonce, id))
  }

  /** None when every check passes; otherwise the first check that fails. A zero
      timeout disables the deadline and an empty key disables the signature check. */
  function Verify(h: Hasher, verifySig: (bytes, bytes, bytes) -> bool, c: Challenge, r: Response,
                  root: bytes, key: bytes, timeout: int): Option<Rejection> {
    if c.id == [] then Some(EmptyChallenge)
    else if r.id != c.id then Some(WrongChallenge)
    else if r.contract != c.contract then Some(WrongContract)
    else if r.provider != c.provider then Some(WrongProvider)
    else if r.file != c.file then Some(WrongFile)
    else if r.chunk != c.chunk then Some(WrongChunk)
    else if timeout > 0 && r.respondedAt > c.createdAt + timeout then Some(Late)
    else if |root| != 32 then Some(BadRoot)
    else if !Accepts(h, r.hash, r.chunk, r.path, root) then Some(BadPath)
    else if |key| == 0 then None
    else if |key| != 32 then Some(BadKey)
    else if |r.signature| != 64 || !verifySig(key, ProofDigest(h, r.hash, c.nonce, c.id), r.signature)
    then Some(BadSignature)
    else None
  }

  /** The answer names the challenge and its provider, file and chunk, comes in time, and
      is signed over the challenge's nonce unless no key is asked for. */
  ghost predicate InForm(
    h: Hasher, verifySig: (bytes, bytes, bytes) -> bool, c: Challenge, r: Response, key: bytes, timeout: int)
  {
    && c.id != [] && (r.id, r.contract, r.provider, r.file, r.chunk) == (c.id, c.contract, c.provider, c.file, c.chunk)
    && (timeout > 0 ==> r.respondedAt <= c.createdAt + timeout)
    && (key != [] ==>
          |key| == 32 && |r.signature| == 64 && verifySig(key, ProofDigest(h, r.hash, c.nonce, c.id), r.signature))
  }

  /** A provider that holds the chunk, answers in time with the tree's own audit path
      and signs the digest is always accepted. */
  lemma HonestResponseAccepted(
    h: Hasher, verifySig: (bytes, bytes, bytes) -> bool, t: Tree, c: Challenge, r: Response, key: bytes, timeout: int)
    requires h.Sized() && Built(h, t) && 0 <= c.chunk < |t.leaves| && InForm(h, verifySig, c, r, key, timeout)
    requires r.hash == t.leaves[c.chunk] && r.path == AuditPath(h, t.leaves, c.chunk)
    ensures Verify(h, verifySig, c, r, t.root, key, timeout).None?
  {
    GeneratedProofVerifies(h, t, c.chunk);
  }

  /** For every tree, challenge and answer, with paths of any length: a genuine answer in
      form is accepted; an accepted answer is in form and genuine, or its path exhibits a
      hash collision with the genuine one. */
  lemma AcceptedResponseIsGenuine(
    h: Hasher, verifySig: (bytes, bytes, bytes) -> bool, t: Tree, c: Challenge, r: Response, key: bytes, timeout: int)
    requires h.Sized() && Built(h, t)
    ensures Verify(h, verifySig, c, r, t.root, key, timeout).None? ==>
      && c.chunk >= 0 && InForm(h, verifySig, c, r, key, timeout)
      && (Genuine(h, t.leaves, r.hash, c.chunk, r.path) || Collides(h, t.leaves, r.hash, c.chunk, r.path))
    ensures
      && c.chunk >= 0 && InForm(h, verifySig, c, r, key, timeout)
      && |r.hash| == 32 && Hashes(r.path) && Genuine(h, t.leaves, r.hash, c.chunk, r.path)
      ==> Verify(h, verifySig, c, r, t.root, key, timeout).None?
  {
    RootIsTop(h, t);
    if c.chunk >= 0 {
      AcceptedIffGenuine(h, t, r.hash, c.chunk, r.path);
    }
  }

  /** Whether an accepted answer proves the challenged chunk can be told from the length of
      its path: for a path no longer than the tree is deep it does exactly if the path has
      full length, or the node that the path meets happens to equal the leaf. A longer path
      goes on below a leaf, which then is the hash of two hashes. */
  lemma ResponseProvesChunkIff(
    h: Hasher, verifySig: (bytes, bytes, bytes) -> bool, t: Tree, c: Challenge, r: Response, key: bytes, timeout: int)
    requires h.Sized() && Built(h, t) && 0 <= c.chunk < |t.leaves|
    requires Verify(h, verifySig, c, r, t.root, key, timeout).None?
    requires !Collides(h, t.leaves, r.hash, c.chunk, r.path)
    ensures |r.path| == Depth(|t.leaves|) ==>
      r.hash == t.leaves[c.chunk] && r.path == AuditPath(h, t.leaves, c.chunk)
    ensures |r.path| < Depth(|t.leaves|) ==>
      (r.hash == t.leaves[c.chunk] <==>
       NodeAt(h, t.leaves, Depth(|t.leaves|) - |r.path|, c.chunk) == t.leaves[c.chunk])
    ensures |r.path| > Depth(|t.leaves|) ==>
      var m := |r.path| - Depth(|t.leaves|);
      var leaf, pair := Place(|t.leaves|, 0, Halved(c.chunk, m)), PairAt(h, r.hash, c.chunk, r.path, m - 1);
      |pair.0| == |pair.1| == 32 && t.leaves[leaf] == h.Pair(pair.0, pair.1)
  {
    if |r.path| <= Depth(|t.leaves|) {
      ShortPathCarriesNode(h, t, r.hash, c.chunk, r.path);
      PlaceOfNode(|t.leaves|, 0, c.chunk);
    } else {
      LongPathHashesPair(h, t, r.hash, c.chunk, r.path);
    }
  }

  /** The check does not look at the path's length: an answer in form that carries the
      file's root with no path is accepted for every chunk index. */
  lemma RootResponseAccepted(
    h: Hasher, verifySig: (bytes, bytes, bytes) -> bool, t: Tree, c: Challenge, r: Response, key: bytes, timeout: int)
    requires h.Sized() && Built(h, t) && c.chunk >= 0 && InForm(h, verifySig, c, r, key, timeout)
    requires r.hash == t.root && r.path == []
    ensures Verify(h, verifySig, c, r, t.root, key, timeout).None?
  {
    RootAccepted(h, t, c.chunk);
  }

  // ------------------------------------------------------- what the digest binds

  /** The signed bytes determine the chunk hash, and the nonce and the identifier once the
      length of the nonce is known. */
  lemma DigestInputInjective(a: bytes, n: bytes, i: text, b: bytes, m: bytes, j: text)
    requires |a| == |b| == 32 && DigestInput(a, n, i) == DigestInput(b, m, j)
    ensures a == b && n + i == m + j
    ensures |n| == |m| ==> n == m && i == j
  {
    var u, v := DigestInput(a, n, i), DigestInput(b, m, j);
    assert u[..32] == a && v[..32] == b && u[32..] == n + i && v[32..] == m + j;
    assert (n + i)[..|n|] == n && (n + i)[|n|..] == i && (m + j)[..|m|] == m && (m + j)[|m|..] == j;
  }

  /** So one digest for two challenges with nonces of one length is one for the same chunk
      hash, nonce and identifier, or a hash collision. */
  lemma DigestBinds(h: Hasher, a: bytes, n: bytes, i: text, b: bytes, m: bytes, j: text)
    requires |a| == |b| == 32 && |n| == |m| && ProofDigest(h, a, n, i) == ProofDigest(h, b, m, j)
    ensures
      var u, v := DigestInput(a, n, i), DigestInput(b, m, j);
      (a, n, i) == (b, m, j) || (u != v && h.sha(u) == h.sha(v))
  {
    if DigestInput(a, n, i) == DigestInput(b, m, j) {
      DigestInputInjective(a, n, i, b, m, j);
    }
  }

  /** With nonces of any length there is no separator between nonce and identifier: no other
      nonce and non-empty identifier have these bytes exactly if the two are one byte. */
  lemma NonceIsBoundIff(hash: bytes, nonce: bytes, id: text)
    requires id != []
    ensures
      (forall n, i :: i != [] && DigestInput(hash, n, i) == DigestInput(hash, nonce, id) ==> n == nonce && i == id)
      <==> nonce == [] && |id| == 1
  {
    if |id| > 1 {
      assert DigestInput(hash, nonce + [id[0]], id[1..]) == DigestInput(hash, nonce, id) by {
        assert id == [id[0]] + id[1..];
      }
      assert nonce + [id[0]] != nonce;
    } else if nonce != [] {
      var k := |nonce| - 1;
      assert DigestInput(hash, nonce[..k], [nonce[k]] + id) == DigestInput(hash, nonce, id) by {
        assert nonce == nonce[..k] + [nonce[k]];
      }
      assert nonce[..k] != nonce;
    } else {
      forall n, i | i != [] && DigestInput(hash, n, i) == DigestInput(hash, nonce, id)
        ensures n == nonce && i == id
      {
        assert |DigestInput(hash, n, i)| == |hash| + 1;
        assert DigestInput(hash, n, i)[|hash|] == i[0];
      }
    }
  }
}
