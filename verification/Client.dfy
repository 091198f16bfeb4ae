/** What a client accepts: the reference definition that the clients' code is proved against. */
module Acceptance {
  import opened Bytes
  import opened Primitives
  import opened Messages
  import opened Chain
  import opened Records

  predicate Opens(c: Crypto, x: Chunk) {
    c.open(x.nonce, x.ciphertext).Some?
  }

  predicate ChunkSignatureValid(c: Crypto, x: Chunk) {
    c.verify(ChunkMessage(StreamContext(c), x.index, x.nonce, x.ciphertext), x.signature)
  }

  /** The checkpoint signature on row `p`, checked against the client's own running hash. */
  predicate CheckpointValid(c: Crypto, xs: seq<Chunk>, p: nat)
    requires p < |xs|
  {
    c.verify(CheckpointMessage(StreamContext(c), xs[p].index, ChainHash(c, Links(xs[..p + 1]))), xs[p].signature)
  }

  /** Does the row at position `p` of what arrived give the client no reason to reject? */
  predicate ChunkOk(c: Crypto, s: Strategy, xs: seq<Chunk>, p: nat)
    requires p < |xs|
  {
    match s
    case BufferAndSign => true
    case PerChunk => ChunkSignatureValid(c, xs[p]) && xs[p].index == p && Opens(c, xs[p])
    case HashChain(k) =>
      && Opens(c, xs[p])
      && (Scheduled(k, p + 1) ==> xs[p].Signed())
      && (xs[p].Signed() ==> CheckpointValid(c, xs, p))
  }

  predicate FinalOk(c: Crypto, s: Strategy, xs: seq<Chunk>, final: Option<Terminal>)
    requires |xs| < TWO_TO_32
  {
    && final.Some?
    && TerminalOf(s, final.value)
    && match final.value
       case FinalBuffered(nonce, ciphertext, signature) =>
         c.verify(BufferedMessage(StreamContext(c), nonce, ciphertext), signature) && c.open(nonce, ciphertext).Some?
       case FinalPerChunk(nChunks, signature) =>
         c.verify(EndMessage(StreamContext(c), nChunks), signature) && nChunks == |xs|
       case FinalChain(finalChainHash, nChunks, signature) =>
         var h := ChainHash(c, Links(xs));
         finalChainHash == h && nChunks == |xs| && c.verify(FinalChainMessage(StreamContext(c), |xs|, h), signature)
  }

  ghost predicate Accepted(c: Crypto, s: Strategy, xs: seq<Chunk>, final: Option<Terminal>)
    requires |xs| < TWO_TO_32
  {
    (forall p | 0 <= p < |xs| :: ChunkOk(c, s, xs, p)) && FinalOk(c, s, xs, final)
  }

  /** The first row from position `p` on that is not acceptable; |xs| when there is none. */
  function FirstBad(c: Crypto, s: Strategy, xs: seq<Chunk>, p: nat): (r: nat)
    requires p <= |xs|
    ensures p <= r <= |xs|
    ensures forall i | p <= i < r :: ChunkOk(c, s, xs, i)
    ensures r < |xs| ==> !ChunkOk(c, s, xs, r)
    decreases |xs| - p
  {
    if p == |xs| || !ChunkOk(c, s, xs, p) then p else FirstBad(c, s, xs, p + 1)
  }

  /** Where the stream is first rejected: a row, or |xs| for the terminal record or its absence. */
  function RejectedAt(c: Crypto, s: Strategy, xs: seq<Chunk>, final: Option<Terminal>): (r: Option<nat>)
    requires |xs| < TWO_TO_32
    ensures r.None? <==> Accepted(c, s, xs, final)
    ensures r.Some? ==> r.value <= |xs|
  {
    var p := FirstBad(c, s, xs, 0);
    if p < |xs| then Some(p) else if FinalOk(c, s, xs, final) then None else Some(|xs|)
  }

  /** How many of the first `p` chunks a checkpoint covers: up to and including the last one that
      carries a signature. */
  function CoveredBy(s: Strategy, xs: seq<Chunk>, p: nat): (n: nat)
    requires p <= |xs|
    ensures n <= p
    ensures s.HashChain? ==> (n > 0 ==> xs[n - 1].Signed()) && forall i | n <= i < p :: !xs[i].Signed()
    ensures !s.HashChain? ==> n == p
  {
    if !s.HashChain? || p == 0 || xs[p - 1].Signed() then p else CoveredBy(s, xs, p - 1)
  }
}

/** The client-side verification functions: crypto/streaming.py, lines 309-431. */
module Verify {
  import opened Bytes
  import opened Primitives
  import opened Messages
  import opened Chain
  import opened Records

  datatype ChunkResult = ChunkResult(signatureValid: bool, inOrder: bool, plaintext: Option<bytes>)

  datatype FinalResult = FinalResult(signatureValid: bool, countMatches: bool, chainMatches: bool)
  {
    predicate StreamFullyVerified() {
      chainMatches && countMatches && signatureValid
    }
  }

  datatype ChainResult = ChainResult(
    chainOkSoFar: bool,
    plaintext: Option<bytes>,
    checkpoint: bool,
    checkpointValid: bool,
    checkpointMissing: bool)

  function VerifyBufferAndSignFinal(c: Crypto, nonce: bytes, ciphertext: bytes, signature: bytes): ChunkResult {
    var valid := c.verify(BufferedMessage(StreamContext(c), nonce, ciphertext), signature);
    ChunkResult(valid, true, if valid then c.open(nonce, ciphertext) else None)
  }

  function VerifyPerChunk(c: Crypto, x: Chunk, expectedIndex: nat): ChunkResult {
    var valid := c.verify(ChunkMessage(StreamContext(c), x.index, x.nonce, x.ciphertext), x.signature);
    ChunkResult(valid, x.index == expectedIndex, if valid then c.open(x.nonce, x.ciphertext) else None)
  }

  function VerifyPerChunkFinal(c: Crypto, nChunks: u32, signature: bytes, nReceived: nat): FinalResult {
    FinalResult(c.verify(EndMessage(StreamContext(c), nChunks), signature), nChunks == nReceived, true)
  }

  /** The client's own recomputation of the chain. */
  class HashChainClientState {
    const c: Crypto
    const checkpointInterval: nat
    const ctx: Digest
    var runningHash: Digest
    var nAbsorbed: nat
    ghost var absorbed: seq<Link>

    ghost predicate Valid()
      reads this
    {
      ctx == StreamContext(c) && runningHash == ChainHash(c, absorbed) && nAbsorbed == |absorbed|
    }

    constructor (c: Crypto, checkpointInterval: nat)
      ensures Valid()
      ensures this.c == c && this.checkpointInterval == checkpointInterval && absorbed == []
    {
      this.c := c;
      this.checkpointInterval := checkpointInterval;
      ctx := StreamContext(c);
      runningHash := ChainHash(c, []);
      nAbsorbed := 0;
      absorbed := [];
    }

    method Absorb(index: u32, nonce: bytes, ciphertext: bytes) returns (h: Digest)
      requires Valid()
      modifies this
      ensures Valid()
      ensures absorbed == old(absorbed) + [Link(index, nonce + ciphertext)]
      ensures h == runningHash
    {
      absorbed := absorbed + [Link(index, nonce + ciphertext)];
      assert Init(absorbed) == old(absorbed);
      runningHash := c.hash(runningHash + BigEndian(index) + (nonce + ciphertext));
      nAbsorbed := nAbsorbed + 1;
      h := runningHash;
    }

    /** Absorbs one row and checks what it carries. */
    method VerifyHashChainChunk(x: Chunk) returns (r: ChainResult)
      requires Valid()
      modifies this
      ensures Valid()
      ensures absorbed == old(absorbed) + [x.ToLink()]
      ensures r.plaintext == c.open(x.nonce, x.ciphertext)
      ensures r.chainOkSoFar <==> x.chainHash == ChainHash(c, absorbed)
      ensures r.checkpoint <==> x.Signed()
      ensures r.checkpointMissing <==> Scheduled(checkpointInterval, |absorbed|) && !x.Signed()
      ensures r.checkpointValid <==>
                x.Signed() && c.verify(CheckpointMessage(StreamContext(c), x.index, ChainHash(c, absorbed)), x.signature)
    {
      var expected := Absorb(x.index, x.nonce, x.ciphertext);
      var k := checkpointInterval;
      var missing := k != 0 && nAbsorbed % k == 0 && x.signature == [];
      var valid := false;
      if x.signature != [] {
        valid := c.verify(CheckpointMessage(ctx, x.index, expected), x.signature);
      }
      r := ChainResult(expected == x.chainHash, c.open(x.nonce, x.ciphertext), x.signature != [], valid, missing);
    }

    method VerifyHashChainFinal(finalChainHash: bytes, nChunks: u32, signature: bytes) returns (r: FinalResult)
      requires Valid() && |absorbed| < TWO_TO_32
      ensures r.StreamFullyVerified() <==>
                && finalChainHash == ChainHash(c, absorbed)
                && nChunks == |absorbed|
                && c.verify(FinalChainMessage(StreamContext(c), |absorbed|, ChainHash(c, absorbed)), signature)
      ensures r.signatureValid <==> c.verify(FinalChainMessage(StreamContext(c), |absorbed|, ChainHash(c, absorbed)), signature)
    {
      r := FinalResult(c.verify(FinalChainMessage(ctx, nAbsorbed, runningHash), signature),
                       nChunks == nAbsorbed, finalChainHash == runningHash);
    }
  }
}
