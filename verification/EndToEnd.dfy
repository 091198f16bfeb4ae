/** The closed-form cost and exposure models: analysis/streaming_model_validation.py, lines 251-273,
    and webapp/findings.py, lines 122-128. */
module CostModel {
  import opened Primitives
  import opened Records
  import opened Chunker

  /** Protocol v2, whose per_chunk streams end in a signed record. */
  function ExpectedSignatureCount(s: Strategy, nChunks: nat): nat {
    match s
    case BufferAndSign => 1
    case PerChunk => nChunks + 1
    case HashChain(k) => if k == 0 then 1 else nChunks / k + 1
  }

  /** A signature algorithm by the shortest and longest signatures it makes. */
  datatype Algorithm = Algorithm(minBytes: nat, maxBytes: nat)

  const ML_DSA_65 := Algorithm(3309, 3309)
  const ECDSA_P256 := Algorithm(70, 72)

  /** The algorithms the model knows, by name; any other name is an error. */
  function AlgorithmNamed(sigAlgorithm: string): Option<Algorithm> {
    if sigAlgorithm == "ML-DSA-65" then Some(ML_DSA_65)
    else if sigAlgorithm == "ECDSA-P256-SHA256" then Some(ECDSA_P256)
    else None
  }

  function ExpectedSignatureBytes(sigAlgorithm: string, nSignatures: nat): Option<(nat, nat)> {
    match AlgorithmNamed(sigAlgorithm)
    case None => None
    case Some(a) => Some((nSignatures * a.minBytes, nSignatures * a.maxBytes))
  }

  /** Fixed lengths for ML-DSA-65, a range for ECDSA, and an error for any other name. */
  lemma BytesByName(sigAlgorithm: string, n: nat)
    ensures ExpectedSignatureBytes("ML-DSA-65", n) == Some((3309 * n, 3309 * n))
    ensures ExpectedSignatureBytes("ECDSA-P256-SHA256", n) == Some((70 * n, 72 * n))
    ensures ExpectedSignatureBytes(sigAlgorithm, n).None? <==> sigAlgorithm != "ML-DSA-65" && sigAlgorithm != "ECDSA-P256-SHA256"
  {
  }

  /** (signatures, bytes, largest exposure in tokens) of a hash chain; k == 0 is the absent interval. */
  function AnalyticModel(nTokens: nat, chunk: nat, k: nat, signatureBytes: nat): (nat, nat, nat)
    requires chunk > 0
  {
    var nChunks := CeilDiv(nTokens, chunk);
    var nSig := if k > 0 then nChunks / k + 1 else 1;
    var exposure := if k > 0 then k * chunk else nChunks * chunk;
    (nSig, nSig * signatureBytes, Min(exposure, nTokens))
  }
}

/** The whole path of a genuine response: token chunker, signing strategy, benchmark client. */
module EndToEnd {
  import opened Bytes
  import opened Primitives
  import opened Messages
  import opened Records
  import opened Server
  import opened Acceptance
  import opened Soundness
  import opened Replay
  import opened Campaign
  import opened Exposure
  import opened Chunker
  import opened BenchClient
  import opened CostModel
  import opened Arithmetic

  /** Every signature the server makes has a length that the algorithm allows. */
  ghost predicate Sized(c: Crypto, s: Strategy, plains: seq<bytes>, a: Algorithm)
    requires |plains| < TWO_TO_32
  {
    forall i: nat, m | m in SignedLog(c, s, plains) :: SizedSignature(c, i, m, a)
  }

  ghost predicate SizedSignature(c: Crypto, i: nat, m: Message, a: Algorithm) {
    a.minBytes <= |c.sign(i, Encode(m))| <= a.maxBytes
  }

  /** What the client learns from the server's own row. */
  lemma GenuineRow(c: Crypto, s: Strategy, plains: seq<bytes>, p: nat)
    requires |plains| < TWO_TO_32 && !s.BufferAndSign?
    requires p < |plains|
    requires Correct(c, s, plains)
    ensures var row := RowOf(c, s, Served(c, s, plains), p);
            && row.signatureOk && row.aeadOk && row.inOrder && row.text == plains[p]
            && (s.PerChunk? ==> row.covers && row.signed)
            && (s.HashChain? ==>
                  && (row.covers <==> Scheduled(s.checkpointInterval, p + 1))
                  && (row.signed <==> Scheduled(s.checkpointInterval, p + 1)))
  {
    var xs := Served(c, s, plains);
    GenuineRowOk(c, s, s, plains, xs, p);
    ServedFields(c, s, plains, p);
    if s.HashChain? {
      ServedCheckpoints(c, s.checkpointInterval, plains);
    }
  }

  /** The bytes of its signature. */
  lemma GenuineRowBytes(c: Crypto, s: Strategy, plains: seq<bytes>, a: Algorithm, p: nat)
    requires |plains| < TWO_TO_32 && !s.BufferAndSign?
    requires p < |plains|
    requires Correct(c, s, plains) && Sized(c, s, plains, a)
    ensures RowSized(RowOf(c, s, Served(c, s, plains), p), a)
  {
    var xs := Served(c, s, plains);
    ServedFields(c, s, plains, p);
    match s
    case PerChunk =>
      var m := OneChunk(StreamContext(c), p, xs[p].Envelope());
      assert m in SignedLog(c, s, plains);
      assert SizedSignature(c, p, m, a);
    case HashChain(k) =>
      ServedCheckpoints(c, k, plains);
      if Scheduled(k, p + 1) {
        LinksOfPrefix(xs, p + 1);
        var m := CheckpointAt(c, xs, p);
        assert m in SignedLog(c, s, plains);
        assert SizedSignature(c, p, m, a);
      }
  }

  /** One more chunk adds a signature to the closed form, or with a schedule only every k-th does. */
  lemma CountStep(s: Strategy, n: nat)
    requires !s.BufferAndSign?
    ensures ExpectedSignatureCount(s, 0) == 1
    ensures ExpectedSignatureCount(s, n + 1) ==
            ExpectedSignatureCount(s, n) + if s.PerChunk? || Scheduled(s.checkpointInterval, n + 1) then 1 else 0
  {
    if s.HashChain? && s.checkpointInterval > 0 {
      ModStep(s.checkpointInterval, n);
      ModOf(s.checkpointInterval, 0, 0);
    }
  }

  lemma {:induction false} ScheduledRows(s: Strategy, rows: seq<Row>, p: nat)
    requires !s.BufferAndSign? && p <= |rows|
    requires forall i | 0 <= i < |rows| :: rows[i].signed <==> s.PerChunk? || Scheduled(s.checkpointInterval, i + 1)
    ensures SignedRows(rows, p) + 1 == ExpectedSignatureCount(s, p)
  {
    if p > 0 {
      ScheduledRows(s, rows, p - 1);
      CountStep(s, p - 1);
    } else {
      CountStep(s, 0);
    }
  }

  /** Counting: one signature per row, or one per k rows. */
  lemma GenuineSignedRows(c: Crypto, s: Strategy, plains: seq<bytes>, p: nat)
    requires |plains| < TWO_TO_32 && !s.BufferAndSign?
    requires p <= |plains|
    requires Correct(c, s, plains)
    ensures SignedRows(RowsOf(c, s, Served(c, s, plains)), p) + 1 == ExpectedSignatureCount(s, p)
  {
    var rows := RowsOf(c, s, Served(c, s, plains));
    forall i | 0 <= i < |rows| ensures rows[i].signed <==> s.PerChunk? || Scheduled(s.checkpointInterval, i + 1) {
      GenuineRow(c, s, plains, i);
    }
    ScheduledRows(s, rows, p);
  }

  lemma {:induction false} SignatureBytesBounds(rows: seq<Row>, a: Algorithm, p: nat)
    requires p <= |rows|
    requires forall i | 0 <= i < |rows| :: RowSized(rows[i], a)
    ensures Within(SignedRows(rows, p), SignatureBytes(rows, p), a)
  {
    if p > 0 {
      SignatureBytesBounds(rows, a, p - 1);
      assert RowSized(rows[p - 1], a);
      BoundsStep(SignedRows(rows, p - 1), SignatureBytes(rows, p - 1), rows[p - 1].signatureBytes, a);
    }
  }

  predicate RowSized(row: Row, a: Algorithm) {
    if row.signed then a.minBytes <= row.signatureBytes <= a.maxBytes else row.signatureBytes == 0
  }

  /** The total is what n signatures of this algorithm can have. */
  predicate Within(n: nat, total: nat, a: Algorithm) {
    n * a.minBytes <= total <= n * a.maxBytes
  }

  /** Bounds on a total, one signature further. */
  lemma BoundsStep(n: nat, total: nat, more: nat, a: Algorithm)
    requires Within(n, total, a)
    ensures a.minBytes <= more <= a.maxBytes ==> Within(n + 1, total + more, a)
  {
    OneMore(n, a.minBytes);
    OneMore(n, a.maxBytes);
  }

  lemma OneMore(n: nat, x: nat)
    ensures (n + 1) * x == n * x + x
  {
  }

  lemma GenuineRowsBounds(c: Crypto, s: Strategy, plains: seq<bytes>, a: Algorithm)
    requires |plains| < TWO_TO_32 && !s.BufferAndSign?
    requires Correct(c, s, plains) && Sized(c, s, plains, a)
    ensures var rows := RowsOf(c, s, Served(c, s, plains)); Within(SignedRows(rows, |rows|), SignatureBytes(rows, |rows|), a)
  {
    var rows := RowsOf(c, s, Served(c, s, plains));
    forall i | 0 <= i < |rows| ensures RowSized(rows[i], a) {
      GenuineRowBytes(c, s, plains, a, i);
    }
    SignatureBytesBounds(rows, a, |rows|);
  }

  /** The same for the terminal record, and so for the whole stream. */
  lemma GenuineTotalBytes(c: Crypto, s: Strategy, plains: seq<bytes>, a: Algorithm)
    requires |plains| < TWO_TO_32 && !s.BufferAndSign?
    requires Correct(c, s, plains) && Sized(c, s, plains, a)
    ensures var rows := RowsOf(c, s, Served(c, s, plains));
            Within(ExpectedSignatureCount(s, |plains|), SignatureBytes(rows, |rows|) + |ServedFinal(c, s, plains).signature|, a)
  {
    var rows := RowsOf(c, s, Served(c, s, plains));
    GenuineSignedRows(c, s, plains, |plains|);
    GenuineRowsBounds(c, s, plains, a);
    FinalBytes(c, s, plains, a);
    var n := ExpectedSignatureCount(s, |plains|) - 1;
    assert n == SignedRows(rows, |rows|);
    BoundsStep(n, SignatureBytes(rows, |rows|), |ServedFinal(c, s, plains).signature|, a);
  }

  lemma FinalBytes(c: Crypto, s: Strategy, plains: seq<bytes>, a: Algorithm)
    requires |plains| < TWO_TO_32
    requires Sized(c, s, plains, a)
    ensures a.minBytes <= |ServedFinal(c, s, plains).signature| <= a.maxBytes
  {
    assert FinalMessage(c, s, plains) in SignedLog(c, s, plains);
    assert SizedSignature(c, |plains|, FinalMessage(c, s, plains), a);
  }

  /** The exposure of a genuine stream for rows of any weight, in chunks or in tokens. */
  lemma GenuineExposure(c: Crypto, s: Strategy, plains: seq<bytes>, weight: seq<nat>, size: nat)
    requires |plains| < TWO_TO_32 && s.HashChain?
    requires Correct(c, s, plains)
    requires |weight| == |plains| && Even(weight, size)
    ensures var covers := Covers(RowsOf(c, s, Served(c, s, plains)));
            PeakOfRun(covers, weight, true) ==
            if s.checkpointInterval == 0 then Sum(weight) else Min(s.checkpointInterval * size, Sum(weight))
  {
    var covers := Covers(RowsOf(c, s, Served(c, s, plains)));
    forall i | 0 <= i < |covers| ensures covers[i] <==> Scheduled(s.checkpointInterval, i + 1) {
      GenuineRow(c, s, plains, i);
    }
    PeakOfScheduledRun(covers, weight, size, s.checkpointInterval);
  }

  lemma {:induction false} SumOfOnes(n: nat)
    ensures Sum(Ones(n)) == n && Even(Ones(n), 1)
  {
    if n > 0 {
      SumOfOnes(n - 1);
      assert Init(Ones(n)) == Ones(n - 1);
    }
  }

  /** Chunks on display without a signature, at worst, in a genuine stream of n chunks. */
  function ExpectedUnverified(s: Strategy, n: nat): nat {
    match s
    case BufferAndSign => 0
    case PerChunk => Min(n, 1)
    case HashChain(k) => if k == 0 then n else Min(k, n)
  }

  lemma GenuineUnverified(c: Crypto, s: Strategy, plains: seq<bytes>)
    requires |plains| < TWO_TO_32 && !s.BufferAndSign?
    requires Correct(c, s, plains)
    ensures PeakOfRun(Covers(RowsOf(c, s, Served(c, s, plains))), Ones(|plains|), s.HashChain?)
            == ExpectedUnverified(s, |plains|)
  {
    var n := |plains|;
    match s
    case PerChunk =>
      var covers := Covers(RowsOf(c, s, Served(c, s, plains)));
      forall i | 0 <= i < n ensures covers[i] {
        GenuineRow(c, s, plains, i);
      }
      AlwaysCovered(covers, Ones(n), n);
    case HashChain(k) =>
      SumOfOnes(n);
      GenuineExposure(c, s, plains, Ones(n), 1);
  }

  lemma CeilDivCovers(n: nat, size: nat)
    requires size > 0
    ensures n <= CeilDiv(n, size) * size
  {
    var q, r := (n + size - 1) / size, (n + size - 1) % size;
    assert n + size - 1 == size * q + r;
    assert size * q == q * size;
  }

  /** The analytic model in terms of the signature count; without an interval everything is exposed. */
  lemma ModelValues(n: nat, size: nat, k: nat, signatureBytes: nat)
    requires size > 0
    ensures var count := ExpectedSignatureCount(HashChain(k), CeilDiv(n, size));
      AnalyticModel(n, size, k, signatureBytes) == (count, count * signatureBytes, if k == 0 then n else Min(k * size, n))
  {
    CeilDivCovers(n, size);
  }

  /** The analytic model of the dashboard is exact: a genuine hash-chain response of these tokens
      makes its number of signatures, and at worst leaves its number of tokens uncovered. */
  lemma AnalyticModelExact(
    c: Crypto, k: nat, enc: char -> bytes, tokens: seq<string>, size: nat, signatureBytes: nat)
    requires size > 0 && |Groups(tokens, size)| < TWO_TO_32
    requires var plains := Plaintexts(enc, Groups(tokens, size));
             Correct(c, HashChain(k), plains) && Sized(c, HashChain(k), plains, Algorithm(signatureBytes, signatureBytes))
    ensures var s := HashChain(k);
            var plains := Plaintexts(enc, Groups(tokens, size));
            var rows := RowsOf(c, s, Served(c, s, plains));
            var (nSig, nBytes, exposure) := AnalyticModel(|tokens|, size, k, signatureBytes);
            && SignedRows(rows, |rows|) + 1 == nSig
            && SignatureBytes(rows, |rows|) + |ServedFinal(c, s, plains).signature| == nBytes
            && PeakOfRun(Covers(rows), Sizes(Groups(tokens, size)), true) == exposure
  {
    var s := HashChain(k);
    var groups := Groups(tokens, size);
    var plains := Plaintexts(enc, groups);
    GroupCount(tokens, size);
    GroupSizes(tokens, size);
    GenuineSignedRows(c, s, plains, |plains|);
    GenuineTotalBytes(c, s, plains, Algorithm(signatureBytes, signatureBytes));
    GenuineExposure(c, s, plains, Sizes(groups), size);
    ModelValues(|tokens|, size, k, signatureBytes);
  }

  /** What the client puts together from a genuine stream is all of its text. */
  lemma GenuineTexts(c: Crypto, s: Strategy, plains: seq<bytes>)
    requires |plains| < TWO_TO_32 && !s.BufferAndSign?
    requires Correct(c, s, plains)
    ensures Texts(RowsOf(c, s, Served(c, s, plains))) == plains
  {
    forall p | 0 <= p < |plains| ensures Texts(RowsOf(c, s, Served(c, s, plains)))[p] == plains[p] {
      GenuineRow(c, s, plains, p);
    }
  }

  /** End to end: for every list of tokens, chunk size, strategy and interval, the response is accepted
      with every flag up, the client has put together exactly the encoding of all tokens joined, and
      signature count, signature bytes and exposure are those of the closed forms. */
  method Respond(c: Crypto, s: Strategy, enc: char -> bytes, tokens: seq<string>, requestedSize: int, sigAlgorithm: string)
    returns (m: Report)
    requires |Groups(tokens, ChunkSize(requestedSize))| < TWO_TO_32
    requires AlgorithmNamed(sigAlgorithm).Some?
    requires var plains := Plaintexts(enc, Groups(tokens, ChunkSize(requestedSize)));
             Correct(c, s, plains) && Sized(c, s, plains, AlgorithmNamed(sigAlgorithm).value)
    ensures m.Clean()
    ensures m.reconstructed == EncodeText(enc, Join(tokens))
    ensures var n := CeilDiv(|tokens|, if requestedSize >= 1 then requestedSize else 1);
            && m.nChunks == (if s.BufferAndSign? then 0 else n)
            && m.nSignatures == ExpectedSignatureCount(s, n)
            && m.maxUnverifiedChunks == ExpectedUnverified(s, n)
            && var (lo, hi) := ExpectedSignatureBytes(sigAlgorithm, ExpectedSignatureCount(s, n)).value;
               lo <= m.totalSignatureBytes <= hi
    ensures sigAlgorithm == "ML-DSA-65" ==> m.totalSignatureBytes == 3309 * m.nSignatures
    ensures sigAlgorithm == "ECDSA-P256-SHA256" ==> 70 * m.nSignatures <= m.totalSignatureBytes <= 72 * m.nSignatures
  {
    var size := ChunkSize(requestedSize);
    ghost var plains := Plaintexts(enc, Groups(tokens, size));
    GroupCount(tokens, size);
    PlaintextsJoin(enc, tokens, size);
    var rows, final, signed := EventGenerator(c, s, enc, tokens, requestedSize);
    GenuineAccepted(c, s, s, plains);
    m := RunStreamingTransaction(c, s, rows, Some(final));
    GenuineReport(c, s, plains, AlgorithmNamed(sigAlgorithm).value, m);
  }

  lemma GenuineReport(c: Crypto, s: Strategy, plains: seq<bytes>, a: Algorithm, m: Report)
    requires |plains| < TWO_TO_32
    requires Correct(c, s, plains) && Sized(c, s, plains, a)
    requires m.Clean()
    requires var final := ServedFinal(c, s, plains);
             if s.BufferAndSign?
             then m.nSignatures == 1 && m.totalSignatureBytes == |final.signature| && m.maxUnverifiedChunks == 0
                  && Some(m.reconstructed) == c.open(final.nonce, final.ciphertext)
             else Describes(m, RowsOf(c, s, Served(c, s, plains)), Some(final), s.HashChain?)
    ensures m.reconstructed == Concat(plains)
    ensures m.nSignatures == ExpectedSignatureCount(s, |plains|)
    ensures m.maxUnverifiedChunks == ExpectedUnverified(s, |plains|)
    ensures Within(ExpectedSignatureCount(s, |plains|), m.totalSignatureBytes, a)
  {
    if s.BufferAndSign? {
      assert RoundTrips(c, |plains|, Concat(plains));
      FinalBytes(c, s, plains, a);
    } else {
      GenuineTexts(c, s, plains);
      GenuineSignedRows(c, s, plains, |plains|);
      GenuineUnverified(c, s, plains);
      GenuineTotalBytes(c, s, plains, a);
    }
  }

  /** An accepted stream opens to the plaintexts that were sent. */
  lemma AcceptedTexts(
    c: Crypto, s: Strategy, plains: seq<bytes>, sealed: set<(Nonce, bytes)>, xs: seq<Chunk>, final: Option<Terminal>)
    requires |plains| < TWO_TO_32 && |xs| < TWO_TO_32 && !s.BufferAndSign?
    requires Correct(c, s, plains) && Secure(c, s, plains, sealed, xs)
    requires Accepted(c, s, xs, final)
    ensures Texts(RowsOf(c, s, xs)) == plains
  {
    AcceptedIsGenuine(c, s, s, plains, sealed, xs, final);
    forall p | 0 <= p < |plains| ensures Texts(RowsOf(c, s, xs))[p] == plains[p] {
      assert ChunkOk(c, s, xs, p);
      assert SameContent(xs[p], Served(c, s, plains)[p]);
      ServedFields(c, s, plains, p);
      assert RoundTrips(c, p, plains[p]);
    }
  }

  lemma AcceptedEnvelope(c: Crypto, plains: seq<bytes>, sealed: set<(Nonce, bytes)>, final: Option<Terminal>)
    requires |plains| < TWO_TO_32
    requires Correct(c, BufferAndSign, plains) && Secure(c, BufferAndSign, plains, sealed, [])
    requires Accepted(c, BufferAndSign, [], final)
    ensures c.open(final.value.nonce, final.value.ciphertext) == Some(Concat(plains))
  {
    BufferedSoundness(c, plains, sealed, [], final);
    assert RoundTrips(c, |plains|, Concat(plains));
  }

  /** Integrity end to end: whatever the adversary has made of the response, if the client's report is
      clean then the client has put together exactly the encoding of all tokens joined. */
  method ReceiveThroughAdversary(
    c: Crypto, s: Strategy, enc: char -> bytes, tokens: seq<string>, size: nat, ghost sealed: set<(Nonce, bytes)>,
    xs: seq<Chunk>, final: Option<Terminal>)
    returns (m: Report)
    requires size > 0 && |Groups(tokens, size)| < TWO_TO_32 && |xs| < TWO_TO_32
    requires s.BufferAndSign? ==> xs == []
    requires final.Some? ==> TerminalOf(s, final.value)
    requires var plains := Plaintexts(enc, Groups(tokens, size)); Correct(c, s, plains) && Secure(c, s, plains, sealed, xs)
    ensures m.Clean() <==> Accepted(c, s, xs, final)
    ensures m.Clean() ==> m.reconstructed == EncodeText(enc, Join(tokens))
  {
    m := RunStreamingTransaction(c, s, xs, final);
    if m.Clean() {
      ghost var plains := Plaintexts(enc, Groups(tokens, size));
      PlaintextsJoin(enc, tokens, size);
      if s.BufferAndSign? {
        AcceptedEnvelope(c, plains, sealed, final);
      } else {
        AcceptedTexts(c, s, plains, sealed, xs, final);
      }
    }
  }
}
