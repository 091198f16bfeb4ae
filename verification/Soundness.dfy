/** What acceptance proves about a stream that travelled through an adversary. */
module Soundness {
  import opened Bytes
  import opened Primitives
  import opened Messages
  import opened Chain
  import opened Records
  import opened Server
  import opened Acceptance

  /** Only what was sealed under the session key opens.  `sealed` holds every such pair: the
      stream's own, and also the request the client sealed under the same key. */
  ghost predicate OnlySealedOpen(c: Crypto, sealed: set<(Nonce, bytes)>) {
    forall n: bytes, ct: bytes :: c.open(n, ct).Some? ==> exists pair :: pair in sealed && pair.0 == n && pair.1 == ct
  }

  /** What the adversary cannot do in one transaction: forge a signature under the handshake's
      key, make something open that was never sealed, or hit one of the finitely many hash
      collisions that the two streams point at. */
  ghost predicate Secure(c: Crypto, s: Strategy, plains: seq<bytes>, sealed: set<(Nonce, bytes)>, xs: seq<Chunk>)
    requires |plains| < TWO_TO_32
  {
    && Unforgeable(c, SignedLog(c, s, plains))
    && OnlySealedOpen(c, sealed)
    && CollisionFree(c, Links(xs), Links(Served(c, s, plains)))
  }

  /** The server's own signatures verify and its own ciphertexts open.  The laws speak only of what
      the server did sign and seal in this stream, so they do not contradict `Secure`. */
  ghost predicate Correct(c: Crypto, s: Strategy, plains: seq<bytes>)
    requires |plains| < TWO_TO_32
  {
    && (forall i: nat, m | m in SignedLog(c, s, plains) :: SignatureWorks(c, i, m))
    && (if s.BufferAndSign? then RoundTrips(c, |plains|, Concat(plains))
        else forall i | 0 <= i < |plains| :: RoundTrips(c, i, plains[i]))
  }

  ghost predicate SignatureWorks(c: Crypto, i: nat, m: Message) {
    var signature := c.sign(i, Encode(m));
    signature != [] && c.verify(Encode(m), signature)
  }

  ghost predicate RoundTrips(c: Crypto, i: nat, plaintext: bytes) {
    c.open(c.nonce(i), c.seal(c.nonce(i), plaintext)) == Some(plaintext)
  }

  /** Rows that open and fold in the same link carry the same nonce and ciphertext. */
  lemma SameLinkSameContent(c: Crypto, sealed: set<(Nonce, bytes)>, x: Chunk, y: Chunk)
    requires OnlySealedOpen(c, sealed)
    requires Opens(c, x) && |y.nonce| == NONCE_BYTES
    requires x.ToLink() == y.ToLink()
    ensures SameContent(x, y)
  {
    var pair :| pair in sealed && pair.0 == x.nonce && pair.1 == x.ciphertext;
    Unconcat(x.nonce, x.ciphertext, y.nonce, y.ciphertext);
  }

  /** A prefix of the served stream is the stream of a prefix. */
  lemma {:induction false} ServedPrefix(c: Crypto, s: Strategy, plains: seq<bytes>, n: nat)
    requires |plains| < TWO_TO_32 && !s.BufferAndSign?
    requires n <= |plains|
    ensures Served(c, s, plains)[..n] == Served(c, s, plains[..n])
    decreases |plains|
  {
    if n == |plains| {
      assert plains[..n] == plains && Served(c, s, plains)[..n] == Served(c, s, plains);
    } else {
      ServedPrefix(c, s, Init(plains), n);
      assert Init(plains)[..n] == plains[..n];
      assert Served(c, s, plains)[..n] == Served(c, s, Init(plains))[..n];
    }
  }

  lemma AtEnd<T>(xs: seq<T>, front: seq<T>, y: T)
    requires |front| < |xs| && xs[..|front| + 1] == front + [y]
    ensures xs[|front|] == y
  {
    assert xs[|front|] == xs[..|front| + 1][|front|];
  }

  lemma LastServed(c: Crypto, s: Strategy, front: seq<bytes>, plaintext: bytes, before: seq<Chunk>)
    requires !s.BufferAndSign? && |front| + 1 < TWO_TO_32 && before == Served(c, s, front)
    ensures Served(c, s, front + [plaintext]) == before + [ServedChunk(c, s, before, plaintext)]
  {
    ServedAppend(c, s, front, plaintext);
  }

  /** Row i of the served stream. */
  lemma ServedRow(c: Crypto, s: Strategy, plains: seq<bytes>, xs: seq<Chunk>, i: nat)
    requires |plains| < TWO_TO_32 && !s.BufferAndSign?
    requires i < |plains| && xs == Served(c, s, plains)
    ensures xs[i] == ServedChunk(c, s, xs[..i], plains[i])
  {
    var front, before := plains[..i], xs[..i];
    ServedPrefix(c, s, plains, i);
    ServedPrefix(c, s, plains, i + 1);
    assert plains[..i + 1] == front + [plains[i]];
    LastServed(c, s, front, plains[i], before);
    AtEnd(xs, before, ServedChunk(c, s, before, plains[i]));
  }

  lemma FieldsOfChunk(c: Crypto, s: Strategy, before: seq<Chunk>, plaintext: bytes)
    requires |before| < TWO_TO_32 && !s.BufferAndSign?
    ensures var i, x := |before|, ServedChunk(c, s, before, plaintext);
            && x.index == i && x.nonce == c.nonce(i) && x.ciphertext == c.seal(c.nonce(i), plaintext)
            && (s.PerChunk? ==> x.signature == c.sign(i, ChunkMessage(StreamContext(c), i, x.nonce, x.ciphertext)))
            && (s.HashChain? ==>
                  && x.chainHash == ChainHash(c, Links(before + [x]))
                  && x.signature == if Scheduled(s.checkpointInterval, i + 1)
                                    then c.sign(i, CheckpointMessage(StreamContext(c), i, ChainHash(c, Links(before + [x]))))
                                    else [])
  {
    var i := |before|;
    var bare := Chunk(i, c.nonce(i), c.seal(c.nonce(i), plaintext), [], []);
    assert Links(before + [ServedChunk(c, s, before, plaintext)]) == Links(before + [bare]);
  }

  lemma FieldsAt(c: Crypto, s: Strategy, xs: seq<Chunk>, i: nat, plaintext: bytes)
    requires i < |xs| && i < TWO_TO_32 && !s.BufferAndSign?
    requires xs[i] == ServedChunk(c, s, xs[..i], plaintext)
    ensures xs[i].index == i && xs[i].nonce == c.nonce(i) && xs[i].ciphertext == c.seal(c.nonce(i), plaintext)
    ensures s.PerChunk? ==>
              xs[i].signature == c.sign(i, ChunkMessage(StreamContext(c), i, xs[i].nonce, xs[i].ciphertext))
    ensures s.HashChain? ==>
              && xs[i].chainHash == ChainHash(c, Links(xs[..i + 1]))
              && xs[i].signature == if Scheduled(s.checkpointInterval, i + 1)
                                    then c.sign(i, CheckpointMessage(StreamContext(c), i, ChainHash(c, Links(xs[..i + 1]))))
                                    else []
  {
    FieldsOfChunk(c, s, xs[..i], plaintext);
    assert xs[..i + 1] == xs[..i] + [xs[i]];
  }

  /** What a served row holds. */
  lemma ServedFields(c: Crypto, s: Strategy, plains: seq<bytes>, i: nat)
    requires |plains| < TWO_TO_32 && !s.BufferAndSign?
    requires i < |plains|
    ensures var xs := Served(c, s, plains);
            && xs[i].index == i && xs[i].nonce == c.nonce(i) && xs[i].ciphertext == c.seal(c.nonce(i), plains[i])
            && (s.PerChunk? ==>
                  xs[i].signature == c.sign(i, ChunkMessage(StreamContext(c), i, xs[i].nonce, xs[i].ciphertext)))
            && (s.HashChain? ==>
                  && xs[i].chainHash == ChainHash(c, Links(xs[..i + 1]))
                  && xs[i].signature == if Scheduled(s.checkpointInterval, i + 1)
                                        then c.sign(i, CheckpointMessage(StreamContext(c), i, ChainHash(c, Links(xs[..i + 1]))))
                                        else [])
  {
    var xs := Served(c, s, plains);
    ServedRow(c, s, plains, xs, i);
    FieldsAt(c, s, xs, i, plains[i]);
  }

  /** A checkpoint in the log was made on a scheduled prefix of the stream. */
  lemma LoggedCheckpoint(c: Crypto, k: nat, plains: seq<bytes>, m: Message) returns (j: nat)
    requires |plains| < TWO_TO_32
    requires m in SignedLog(c, HashChain(k), plains) && m.Checkpoint?
    ensures j <= |plains| && Scheduled(k, j)
    ensures m.chainHash == ChainHash(c, Links(Served(c, HashChain(k), plains))[..j])
  {
    var sent := Served(c, HashChain(k), plains);
    var i :| 0 <= i < |sent| && Scheduled(k, i + 1) && m == CheckpointAt(c, sent, i);
    j := i + 1;
  }

  /** A checkpoint that verifies against the client's own running hash proves that everything
      absorbed so far is the server's prefix, of the same length, although the checkpoint carries
      no count; or the walk back along the two chains ends at a collision.  Nothing is assumed
      about the hash. */
  lemma CheckpointSoundnessOrCollision(c: Crypto, k: nat, plains: seq<bytes>, xs: seq<Chunk>, p: nat) returns (j: nat)
    requires |plains| < TWO_TO_32
    requires p < |xs|
    requires Unforgeable(c, SignedLog(c, HashChain(k), plains))
    requires CheckpointValid(c, xs, p)
    ensures j <= |plains| && Scheduled(k, j)
    ensures var (a, b) := (Links(xs)[..p + 1], Links(Served(c, HashChain(k), plains))[..j]);
            (j == p + 1 && a == b) || IsCollision(c.hash, FindCollision(c, a, b))
  {
    var sent := Served(c, HashChain(k), plains);
    var m := Checkpoint(StreamContext(c), xs[p].index, ChainHash(c, Links(xs[..p + 1])));
    VerifiedIsLogged(c, SignedLog(c, HashChain(k), plains), m, xs[p].signature);
    j := LoggedCheckpoint(c, k, plains, m);
    LinksOfPrefix(xs, p + 1);
    ChainBinding(c, Links(xs)[..p + 1], Links(sent)[..j]);
    assert |Links(xs)[..p + 1]| == p + 1 && |Links(sent)[..j]| == j;
  }

  /** The same theorem for two streams whose chains do not collide. */
  lemma CheckpointSoundness(c: Crypto, k: nat, plains: seq<bytes>, xs: seq<Chunk>, p: nat)
    requires |plains| < TWO_TO_32
    requires p < |xs|
    requires Unforgeable(c, SignedLog(c, HashChain(k), plains))
    requires CollisionFree(c, Links(xs), Links(Served(c, HashChain(k), plains)))
    requires CheckpointValid(c, xs, p)
    ensures p < |plains| && Scheduled(k, p + 1)
    ensures Links(xs)[..p + 1] == Links(Served(c, HashChain(k), plains))[..p + 1]
  {
    var j := CheckpointSoundnessOrCollision(c, k, plains, xs, p);
    NoCollisionAt(c, Links(xs), Links(Served(c, HashChain(k), plains)), p + 1, j);
  }

  /** An accepted terminal record of a hash chain proves the whole stream, with nothing assumed
      about the hash and without a single comparison of indices by the client. */
  lemma TerminalSoundnessOrCollision(
    c: Crypto, k': nat, k: nat, plains: seq<bytes>, xs: seq<Chunk>, final: Option<Terminal>)
    requires |plains| < TWO_TO_32 && |xs| < TWO_TO_32
    requires Unforgeable(c, SignedLog(c, HashChain(k), plains))
    requires FinalOk(c, HashChain(k'), xs, final)
    ensures |xs| == |plains|
    ensures var (a, b) := (Links(xs), Links(Served(c, HashChain(k), plains)));
            a == b || IsCollision(c.hash, FindCollision(c, a, b))
  {
    var sent := Served(c, HashChain(k), plains);
    var m := Final(StreamContext(c), |xs|, ChainHash(c, Links(xs)));
    VerifiedIsLogged(c, SignedLog(c, HashChain(k), plains), m, final.value.signature);
    assert m == FinalMessage(c, HashChain(k), plains);
    ChainBinding(c, Links(xs), Links(sent));
  }

  /** A per-chunk row that passes all three checks is the server's row for that position. */
  lemma PerChunkRowSoundness(
    c: Crypto, plains: seq<bytes>, sealed: set<(Nonce, bytes)>, xs: seq<Chunk>, p: nat)
    requires |plains| < TWO_TO_32
    requires p < |xs|
    requires Unforgeable(c, SignedLog(c, PerChunk, plains)) && OnlySealedOpen(c, sealed)
    requires ChunkOk(c, PerChunk, xs, p)
    ensures p < |plains| && SameContent(xs[p], Served(c, PerChunk, plains)[p])
  {
    var sent := Served(c, PerChunk, plains);
    var m := OneChunk(StreamContext(c), xs[p].index, xs[p].Envelope());
    VerifiedIsLogged(c, SignedLog(c, PerChunk, plains), m, xs[p].signature);
    var i :| 0 <= i < |sent| && m == OneChunk(StreamContext(c), i, sent[i].Envelope());
    ServedFields(c, PerChunk, plains, i);
    SameLinkSameContent(c, sealed, xs[p], sent[i]);
  }

  /** Every prefix that `per_chunk` has let through, before or without a rejection, is already the
      server's own prefix. */
  lemma PerChunkPrefixSoundness(
    c: Crypto, plains: seq<bytes>, sealed: set<(Nonce, bytes)>, xs: seq<Chunk>, q: nat)
    requires |plains| < TWO_TO_32
    requires q <= FirstBad(c, PerChunk, xs, 0)
    requires Unforgeable(c, SignedLog(c, PerChunk, plains)) && OnlySealedOpen(c, sealed)
    ensures q <= |plains| && SameContents(xs[..q], Served(c, PerChunk, plains)[..q])
  {
    var sent := Served(c, PerChunk, plains);
    if q > 0 {
      PerChunkRowSoundness(c, plains, sealed, xs, q - 1);
    }
    forall p | 0 <= p < q ensures SameContent(xs[p], sent[p]) {
      PerChunkRowSoundness(c, plains, sealed, xs, p);
    }
  }

  /** The client's strategy against the server's: the same one, except that a client may check a
      hash chain against an interval of its own choosing (0 when the schedule is not enforced). */
  predicate Compatible(client: Strategy, server: Strategy) {
    client == server || (client.HashChain? && server.HashChain?)
  }

  lemma AcceptedPerChunk(
    c: Crypto, plains: seq<bytes>, sealed: set<(Nonce, bytes)>, xs: seq<Chunk>, final: Option<Terminal>)
    requires |plains| < TWO_TO_32 && |xs| < TWO_TO_32
    requires Unforgeable(c, SignedLog(c, PerChunk, plains)) && OnlySealedOpen(c, sealed)
    requires Accepted(c, PerChunk, xs, final)
    ensures SameContents(xs, Served(c, PerChunk, plains))
  {
    var sent := Served(c, PerChunk, plains);
    var m := End(StreamContext(c), final.value.nChunks);
    VerifiedIsLogged(c, SignedLog(c, PerChunk, plains), m, final.value.signature);
    assert m == FinalMessage(c, PerChunk, plains);
    PerChunkPrefixSoundness(c, plains, sealed, xs, |xs|);
    assert xs[..|xs|] == xs && sent[..|xs|] == sent;
  }

  /** A row that opens and folds in the link of the server's row at its place is that row. */
  lemma LinkedRow(c: Crypto, k: nat, plains: seq<bytes>, sealed: set<(Nonce, bytes)>, xs: seq<Chunk>, i: nat)
    requires |plains| < TWO_TO_32 && i < |xs| && i < |plains|
    requires OnlySealedOpen(c, sealed) && Opens(c, xs[i])
    requires Links(xs)[i] == Links(Served(c, HashChain(k), plains))[i]
    ensures SameContent(xs[i], Served(c, HashChain(k), plains)[i])
  {
    ServedFields(c, HashChain(k), plains, i);
    SameLinkSameContent(c, sealed, xs[i], Served(c, HashChain(k), plains)[i]);
  }

  lemma AcceptedHashChain(
    c: Crypto, k': nat, k: nat, plains: seq<bytes>, sealed: set<(Nonce, bytes)>,
    xs: seq<Chunk>, final: Option<Terminal>)
    requires |plains| < TWO_TO_32 && |xs| < TWO_TO_32
    requires Secure(c, HashChain(k), plains, sealed, xs)
    requires Accepted(c, HashChain(k'), xs, final)
    ensures SameContents(xs, Served(c, HashChain(k), plains))
  {
    var sent := Served(c, HashChain(k), plains);
    TerminalSoundnessOrCollision(c, k', k, plains, xs, final);
    NoCollisionAt(c, Links(xs), Links(sent), |xs|, |sent|);
    assert Links(xs)[..|xs|] == Links(xs) && Links(sent)[..|sent|] == Links(sent);
    forall i | 0 <= i < |xs| ensures SameContent(xs[i], sent[i]) {
      assert ChunkOk(c, HashChain(k'), xs, i);
      LinkedRow(c, k, plains, sealed, xs, i);
    }
  }

  /** An accepted stream is the stream that was sent: same length, same positions, same nonces
      and ciphertexts, whatever the adversary did on the way. */
  lemma AcceptedIsGenuine(
    c: Crypto, client: Strategy, s: Strategy, plains: seq<bytes>, sealed: set<(Nonce, bytes)>,
    xs: seq<Chunk>, final: Option<Terminal>)
    requires |plains| < TWO_TO_32 && |xs| < TWO_TO_32
    requires Compatible(client, s) && !s.BufferAndSign?
    requires Secure(c, s, plains, sealed, xs)
    requires Accepted(c, client, xs, final)
    ensures SameContents(xs, Served(c, s, plains))
  {
    match s
    case PerChunk => AcceptedPerChunk(c, plains, sealed, xs, final);
    case HashChain(k) => AcceptedHashChain(c, client.checkpointInterval, k, plains, sealed, xs, final);
  }

  /** The server's own row, at its own place after its own prefix, is accepted by a client that
      follows the server's schedule or enforces none. */
  lemma GenuineRowOk(c: Crypto, client: Strategy, s: Strategy, plains: seq<bytes>, xs: seq<Chunk>, p: nat)
    requires |plains| < TWO_TO_32 && !s.BufferAndSign?
    requires client == s || (client == HashChain(0) && s.HashChain?)
    requires Correct(c, s, plains)
    requires p < |xs| && p < |plains| && xs[..p + 1] == Served(c, s, plains)[..p + 1]
    ensures ChunkOk(c, client, xs, p)
    ensures c.open(xs[p].nonce, xs[p].ciphertext) == Some(plains[p])
  {
    var sent := Served(c, s, plains);
    ServedFields(c, s, plains, p);
    assert xs[p] == xs[..p + 1][p] == sent[p];
    assert RoundTrips(c, p, plains[p]);
    match s
    case PerChunk =>
      var m := OneChunk(StreamContext(c), p, sent[p].Envelope());
      assert m in SignedLog(c, s, plains);
      assert SignatureWorks(c, p, m);
    case HashChain(k) =>
      if Scheduled(k, p + 1) {
        var m := CheckpointAt(c, sent, p);
        assert m in SignedLog(c, s, plains);
        assert SignatureWorks(c, p, m);
        LinksOfPrefix(sent, p + 1);
      }
  }

  /** The server's own terminal record is accepted after the server's own rows. */
  lemma GenuineFinalOk(c: Crypto, client: Strategy, s: Strategy, plains: seq<bytes>, xs: seq<Chunk>)
    requires |plains| < TWO_TO_32
    requires Compatible(client, s)
    requires Correct(c, s, plains)
    requires |xs| == |Served(c, s, plains)| && Links(xs) == Links(Served(c, s, plains))
    ensures FinalOk(c, client, xs, Some(ServedFinal(c, s, plains)))
  {
    assert FinalMessage(c, s, plains) in SignedLog(c, s, plains);
    assert SignatureWorks(c, |plains|, FinalMessage(c, s, plains));
    assert s.BufferAndSign? ==> RoundTrips(c, |plains|, Concat(plains));
  }

  /** The buffered strategy: an accepted terminal record is the one that was sent. */
  lemma BufferedSoundness(
    c: Crypto, plains: seq<bytes>, sealed: set<(Nonce, bytes)>, xs: seq<Chunk>, final: Option<Terminal>)
    requires |plains| < TWO_TO_32 && |xs| < TWO_TO_32
    requires Secure(c, BufferAndSign, plains, sealed, xs)
    requires Accepted(c, BufferAndSign, xs, final)
    ensures var sent := ServedFinal(c, BufferAndSign, plains);
            final.value.nonce == sent.nonce && final.value.ciphertext == sent.ciphertext
  {
    var sent := ServedFinal(c, BufferAndSign, plains);
    var t := final.value;
    VerifiedIsLogged(c, SignedLog(c, BufferAndSign, plains), Buffered(StreamContext(c), t.nonce + t.ciphertext), t.signature);
    SameLinkSameContent(c, sealed, Chunk(0, t.nonce, t.ciphertext, [], []), Chunk(0, sent.nonce, sent.ciphertext, [], []));
  }
}
