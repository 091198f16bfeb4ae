/** The benchmark client: api/secure_streaming_client.py, lines 48-86 and 116-256. */
module BenchClient {
  import opened Bytes
  import opened Primitives
  import opened Messages
  import opened Records
  import opened Acceptance
  import opened Verify
  import opened Exposure

  /** What the client learns from one chunk row. */
  datatype Row = Row(
    signatureOk: bool,
    aeadOk: bool,
    inOrder: bool,
    signed: bool,
    covers: bool,
    text: bytes,
    signatureBytes: nat)

  /** That, for row p of what arrived. */
  function RowOf(c: Crypto, s: Strategy, xs: seq<Chunk>, p: nat): Row
    requires p < |xs| && !s.BufferAndSign?
  {
    var x := xs[p];
    var text := match c.open(x.nonce, x.ciphertext) case Some(text) => text case None => [];
    match s
    case PerChunk =>
      var valid := ChunkSignatureValid(c, x);
      Row(valid, valid && Opens(c, x), x.index == p, true, valid && x.index == p, if valid then text else [], |x.signature|)
    case HashChain(k) =>
      var valid := x.Signed() && CheckpointValid(c, xs, p);
      Row((Scheduled(k, p + 1) ==> x.Signed()) && (x.Signed() ==> valid), Opens(c, x), true, x.Signed(), valid, text, |x.signature|)
  }

  /** Field by field, what a row says. */
  lemma RowMeans(c: Crypto, s: Strategy, xs: seq<Chunk>, p: nat)
    requires p < |xs| && !s.BufferAndSign?
    ensures var row, x := RowOf(c, s, xs, p), xs[p];
      && (row.signatureOk <==> if s.PerChunk? then ChunkSignatureValid(c, x)
                               else (Scheduled(s.checkpointInterval, p + 1) ==> x.Signed()) && (x.Signed() ==> CheckpointValid(c, xs, p)))
      && (row.aeadOk <==> Opens(c, x) && (s.PerChunk? ==> ChunkSignatureValid(c, x)))
      && (row.inOrder <==> s.PerChunk? ==> x.index == p)
      && (row.signed <==> s.PerChunk? || x.Signed())
      && (row.covers <==> if s.PerChunk? then ChunkSignatureValid(c, x) && x.index == p else x.Signed() && CheckpointValid(c, xs, p))
      && row.text == (if row.aeadOk then c.open(x.nonce, x.ciphertext).value else [])
      && row.signatureBytes == |x.signature|
  {
  }

  function RowsOf(c: Crypto, s: Strategy, xs: seq<Chunk>): (rows: seq<Row>)
    requires !s.BufferAndSign?
    ensures |rows| == |xs| && forall p | 0 <= p < |xs| :: rows[p] == RowOf(c, s, xs, p)
  {
    seq(|xs|, p requires 0 <= p < |xs| => RowOf(c, s, xs, p))
  }

  function Covers(rows: seq<Row>): (r: seq<bool>)
    ensures |r| == |rows| && forall p | 0 <= p < |rows| :: r[p] == rows[p].covers
  {
    seq(|rows|, p requires 0 <= p < |rows| => rows[p].covers)
  }

  function Texts(rows: seq<Row>): (r: seq<bytes>)
    ensures |r| == |rows| && forall p | 0 <= p < |rows| :: r[p] == rows[p].text
  {
    seq(|rows|, p requires 0 <= p < |rows| => rows[p].text)
  }

  function Ones(n: nat): (r: seq<nat>)
    ensures |r| == n && forall p | 0 <= p < n :: r[p] == 1
  {
    seq(n, _ => 1)
  }

  function SignedRows(rows: seq<Row>, p: nat): nat
    requires p <= |rows|
  {
    if p == 0 then 0 else SignedRows(rows, p - 1) + if rows[p - 1].signed then 1 else 0
  }

  function SignatureBytes(rows: seq<Row>, p: nat): nat
    requires p <= |rows|
  {
    if p == 0 then 0 else SignatureBytes(rows, p - 1) + rows[p - 1].signatureBytes
  }

  /** What the client has added up after some rows. */
  datatype Tally = Tally(
    nChunks: nat,
    nSignatures: nat,
    signatureBytes: nat,
    signaturesValid: bool,
    aeadOk: bool,
    inOrder: bool,
    pending: nat,
    maxUnverified: nat,
    text: bytes)

  function Add(t: Tally, row: Row): Tally {
    Tally(t.nChunks + 1, t.nSignatures + (if row.signed then 1 else 0), t.signatureBytes + row.signatureBytes,
          t.signaturesValid && row.signatureOk, t.aeadOk && row.aeadOk, t.inOrder && row.inOrder,
          if row.covers then 0 else t.pending + 1,
          if row.covers then Max(t.maxUnverified, t.pending + 1) else t.maxUnverified,
          t.text + row.text)
  }

  function TallyOf(rows: seq<Row>, p: nat): Tally
    requires p <= |rows|
  {
    if p == 0 then Tally(0, 0, 0, true, true, true, 0, 0, []) else Add(TallyOf(rows, p - 1), rows[p - 1])
  }

  lemma {:induction false} CountsMean(rows: seq<Row>, p: nat)
    requires p <= |rows|
    ensures var t := TallyOf(rows, p);
      t.nChunks == p && t.nSignatures == SignedRows(rows, p) && t.signatureBytes == SignatureBytes(rows, p)
  {
    if p > 0 { CountsMean(rows, p - 1); }
  }

  lemma {:induction false} VerdictsMean(rows: seq<Row>, p: nat)
    requires p <= |rows|
    ensures var t := TallyOf(rows, p);
      && (t.signaturesValid <==> forall i | 0 <= i < p :: rows[i].signatureOk)
      && (t.aeadOk <==> forall i | 0 <= i < p :: rows[i].aeadOk)
      && (t.inOrder <==> forall i | 0 <= i < p :: rows[i].inOrder)
  {
    if p > 0 { VerdictsMean(rows, p - 1); }
  }

  lemma {:induction false} BacklogMeans(rows: seq<Row>, p: nat)
    requires p <= |rows|
    ensures var t := TallyOf(rows, p);
      && t.pending == Backlog(Covers(rows), Ones(|rows|), p)
      && t.maxUnverified == Peak(Covers(rows), Ones(|rows|), p)
  {
    if p > 0 { BacklogMeans(rows, p - 1); }
  }

  lemma {:induction false} TextMeans(rows: seq<Row>, p: nat)
    requires p <= |rows|
    ensures TallyOf(rows, p).text == Concat(Texts(rows)[..p])
  {
    if p > 0 {
      TextMeans(rows, p - 1);
      assert Init(Texts(rows)[..p]) == Texts(rows)[..p - 1];
    }
  }

  /** What the running totals mean. */
  lemma TallyMeans(rows: seq<Row>, p: nat)
    requires p <= |rows|
    ensures var t := TallyOf(rows, p);
            && t.nChunks == p
            && t.nSignatures == SignedRows(rows, p)
            && t.signatureBytes == SignatureBytes(rows, p)
            && (t.signaturesValid <==> forall i | 0 <= i < p :: rows[i].signatureOk)
            && (t.aeadOk <==> forall i | 0 <= i < p :: rows[i].aeadOk)
            && (t.inOrder <==> forall i | 0 <= i < p :: rows[i].inOrder)
            && t.pending == Backlog(Covers(rows), Ones(|rows|), p)
            && t.maxUnverified == Peak(Covers(rows), Ones(|rows|), p)
            && t.text == Concat(Texts(rows)[..p])
  {
    CountsMean(rows, p);
    VerdictsMean(rows, p);
    BacklogMeans(rows, p);
    TextMeans(rows, p);
  }

  function CoverPending(t: Tally): Tally {
    if t.pending > 0 then t.(maxUnverified := Max(t.maxUnverified, t.pending), pending := 0) else t
  }

  /** Accounts for one row, statement by statement as the client does. */
  method AddRow(before: Tally, row: Row) returns (t: Tally)
    ensures t == Add(before, row)
  {
    t := before.(
      signaturesValid := before.signaturesValid && row.signatureOk,
      aeadOk := before.aeadOk && row.aeadOk,
      inOrder := before.inOrder && row.inOrder);
    t := t.(
      signatureBytes := t.signatureBytes + row.signatureBytes,
      nChunks := t.nChunks + 1,
      nSignatures := t.nSignatures + if row.signed then 1 else 0);
    t := t.(text := t.text + row.text, pending := t.pending + 1);
    if row.covers {
      t := CoverPending(t);
    }
  }

  function ToReport(t: Tally, verified: bool, final: Option<Terminal>): Report {
    Report(t.nChunks, t.nSignatures + (if final.Some? then 1 else 0),
           t.signatureBytes + (if final.Some? then |final.value.signature| else 0),
           t.signaturesValid, t.aeadOk, t.inOrder, verified, t.maxUnverified, t.text)
  }

  datatype Report = Report(
    nChunks: nat,
    nSignatures: nat,
    totalSignatureBytes: nat,
    allSignaturesValid: bool,
    allAeadOk: bool,
    allInOrder: bool,
    streamFullyVerified: bool,
    maxUnverifiedChunks: nat,
    reconstructed: bytes)
  {
    /** The verdict together with the three flags. */
    predicate Clean() {
      streamFullyVerified && allSignaturesValid && allAeadOk && allInOrder
    }
  }

  /** The report says about the rows what there is to say, up to the verdict. */
  ghost predicate Describes(m: Report, rows: seq<Row>, final: Option<Terminal>, finalCovers: bool) {
    && m.nChunks == |rows|
    && m.nSignatures == SignedRows(rows, |rows|) + (if final.Some? then 1 else 0)
    && m.totalSignatureBytes == SignatureBytes(rows, |rows|) + (if final.Some? then |final.value.signature| else 0)
    && (m.allSignaturesValid <==> forall i | 0 <= i < |rows| :: rows[i].signatureOk)
    && (m.allAeadOk <==> forall i | 0 <= i < |rows| :: rows[i].aeadOk)
    && (m.allInOrder <==> forall i | 0 <= i < |rows| :: rows[i].inOrder)
    && m.maxUnverifiedChunks == PeakOfRun(Covers(rows), Ones(|rows|), finalCovers)
    && m.reconstructed == Concat(Texts(rows))
  }

  lemma RowsTallied(rows: seq<Row>)
    ensures var t := TallyOf(rows, |rows|);
            && t.nChunks == |rows|
            && t.nSignatures == SignedRows(rows, |rows|)
            && t.signatureBytes == SignatureBytes(rows, |rows|)
            && (t.signaturesValid <==> forall i | 0 <= i < |rows| :: rows[i].signatureOk)
            && (t.aeadOk <==> forall i | 0 <= i < |rows| :: rows[i].aeadOk)
            && (t.inOrder <==> forall i | 0 <= i < |rows| :: rows[i].inOrder)
            && t.maxUnverified == PeakOfRun(Covers(rows), Ones(|rows|), false)
            && Max(t.maxUnverified, t.pending) == PeakOfRun(Covers(rows), Ones(|rows|), true)
            && t.text == Concat(Texts(rows))
  {
    TallyMeans(rows, |rows|);
    assert Texts(rows)[..|rows|] == Texts(rows);
  }

  /** The three flags together say that every row is acceptable. */
  lemma FlagsMean(c: Crypto, s: Strategy, xs: seq<Chunk>, m: Report, final: Option<Terminal>, finalCovers: bool)
    requires !s.BufferAndSign?
    requires Describes(m, RowsOf(c, s, xs), final, finalCovers)
    ensures m.allSignaturesValid && m.allAeadOk && m.allInOrder <==> forall i | 0 <= i < |xs| :: ChunkOk(c, s, xs, i)
  {
    var rows := RowsOf(c, s, xs);
    forall i | 0 <= i < |xs|
      ensures ChunkOk(c, s, xs, i) <==> rows[i].signatureOk && rows[i].aeadOk && rows[i].inOrder
    {
      assert rows[i] == RowOf(c, s, xs, i);
    }
  }

  /** And each for itself. */
  lemma EachFlagMeans(c: Crypto, s: Strategy, xs: seq<Chunk>, m: Report, final: Option<Terminal>, finalCovers: bool)
    requires !s.BufferAndSign?
    requires Describes(m, RowsOf(c, s, xs), final, finalCovers)
    ensures m.allSignaturesValid <==> forall p | 0 <= p < |xs| ::
              if s.PerChunk? then ChunkSignatureValid(c, xs[p])
              else (Scheduled(s.checkpointInterval, p + 1) ==> xs[p].Signed()) && (xs[p].Signed() ==> CheckpointValid(c, xs, p))
    ensures m.allAeadOk <==> forall p | 0 <= p < |xs| :: Opens(c, xs[p]) && (s.PerChunk? ==> ChunkSignatureValid(c, xs[p]))
    ensures m.allInOrder <==> forall p | 0 <= p < |xs| :: s.PerChunk? ==> xs[p].index == p
  {
    var rows := RowsOf(c, s, xs);
    forall p | 0 <= p < |xs|
      ensures rows[p].signatureOk <==> if s.PerChunk? then ChunkSignatureValid(c, xs[p])
                else (Scheduled(s.checkpointInterval, p + 1) ==> xs[p].Signed()) && (xs[p].Signed() ==> CheckpointValid(c, xs, p))
      ensures rows[p].aeadOk <==> Opens(c, xs[p]) && (s.PerChunk? ==> ChunkSignatureValid(c, xs[p]))
      ensures rows[p].inOrder <==> s.PerChunk? ==> xs[p].index == p
    {
      RowMeans(c, s, xs, p);
    }
  }

  method RunStreamingTransaction(c: Crypto, s: Strategy, xs: seq<Chunk>, final: Option<Terminal>) returns (m: Report)
    requires |xs| < TWO_TO_32
    requires s.BufferAndSign? ==> xs == []
    requires final.Some? ==> TerminalOf(s, final.value)
    ensures m.Clean() <==> Accepted(c, s, xs, final)
    ensures s.HashChain? ==> (m.streamFullyVerified <==> FinalOk(c, s, xs, final))
    ensures !s.HashChain? ==> (m.streamFullyVerified <==> m.Clean())
    ensures !s.BufferAndSign? ==>
              && (m.allSignaturesValid <==> forall p | 0 <= p < |xs| ::
                    if s.PerChunk? then ChunkSignatureValid(c, xs[p])
                    else (Scheduled(s.checkpointInterval, p + 1) ==> xs[p].Signed()) && (xs[p].Signed() ==> CheckpointValid(c, xs, p)))
              && (m.allAeadOk <==> forall p | 0 <= p < |xs| :: Opens(c, xs[p]) && (s.PerChunk? ==> ChunkSignatureValid(c, xs[p])))
              && (m.allInOrder <==> forall p | 0 <= p < |xs| :: s.PerChunk? ==> xs[p].index == p)
    ensures !s.BufferAndSign? ==>
              Describes(m, RowsOf(c, s, xs), final, s.HashChain? && FinalOk(c, s, xs, final))
    ensures m.nChunks == |xs|
    ensures s.BufferAndSign? ==> m.nSignatures == (if final.Some? then 1 else 0) && m.maxUnverifiedChunks == 0
    ensures s.BufferAndSign? ==> m.totalSignatureBytes == if final.Some? then |final.value.signature| else 0
    ensures s.BufferAndSign? && final.Some? ==>
              var t := final.value;
              var valid := c.verify(BufferedMessage(StreamContext(c), t.nonce, t.ciphertext), t.signature);
              && (m.allSignaturesValid <==> valid)
              && (m.allAeadOk <==> valid && c.open(t.nonce, t.ciphertext).Some?)
    ensures s.BufferAndSign? && m.Clean() ==> Some(m.reconstructed) == c.open(final.value.nonce, final.value.ciphertext)
  {
    match s {
      case BufferAndSign =>
        m := ReceiveBuffered(c, final);
      case PerChunk =>
        m := ReceivePerChunk(c, xs, final);
        FlagsMean(c, s, xs, m, final, false);
        EachFlagMeans(c, s, xs, m, final, false);
      case HashChain(k) =>
        m := ReceiveHashChain(c, k, xs, final);
        FlagsMean(c, s, xs, m, final, FinalOk(c, s, xs, final));
        EachFlagMeans(c, s, xs, m, final, FinalOk(c, s, xs, final));
    }
  }

  method ReceiveBuffered(c: Crypto, final: Option<Terminal>) returns (m: Report)
    requires final.Some? ==> TerminalOf(BufferAndSign, final.value)
    ensures m.streamFullyVerified <==> m.Clean()
    ensures m.Clean() <==> Accepted(c, BufferAndSign, [], final)
    ensures m.nChunks == 0 && m.maxUnverifiedChunks == 0
    ensures m.nSignatures == if final.Some? then 1 else 0
    ensures m.totalSignatureBytes == if final.Some? then |final.value.signature| else 0
    ensures final.Some? ==>
              var t := final.value;
              var valid := c.verify(BufferedMessage(StreamContext(c), t.nonce, t.ciphertext), t.signature);
              && (m.allSignaturesValid <==> valid)
              && (m.allAeadOk <==> valid && c.open(t.nonce, t.ciphertext).Some?)
    ensures m.Clean() ==> Some(m.reconstructed) == c.open(final.value.nonce, final.value.ciphertext)
  {
    m := Report(0, 0, 0, true, true, true, false, 0, []);
    if final.Some? {
      var t := final.value;
      var r := VerifyBufferAndSignFinal(c, t.nonce, t.ciphertext, t.signature);
      var text := match r.plaintext case Some(text) => text case None => [];
      m := Report(0, 1, |t.signature|, r.signatureValid, r.plaintext.Some?, true,
                  r.signatureValid && r.plaintext.Some?, 0, text);
    }
  }

  /** Verifies row p of a per-chunk stream. */
  method ReceiveSigned(c: Crypto, xs: seq<Chunk>, p: nat) returns (row: Row)
    requires p < |xs|
    ensures row == RowOf(c, PerChunk, xs, p)
  {
    var x := xs[p];
    var r := VerifyPerChunk(c, x, p);
    var text := match r.plaintext case Some(text) => text case None => [];
    row := Row(r.signatureValid, r.plaintext.Some?, r.inOrder, true, r.signatureValid && r.inOrder, text, |x.signature|);
  }

  method ReceivePerChunk(c: Crypto, xs: seq<Chunk>, final: Option<Terminal>) returns (m: Report)
    requires |xs| < TWO_TO_32
    requires final.Some? ==> TerminalOf(PerChunk, final.value)
    ensures Describes(m, RowsOf(c, PerChunk, xs), final, false)
    ensures m.streamFullyVerified <==>
              FinalOk(c, PerChunk, xs, final) && m.allSignaturesValid && m.allAeadOk && m.allInOrder
  {
    ghost var rows := RowsOf(c, PerChunk, xs);
    var tally := TallyOf([], 0);
    var expectedIndex := 0;
    for p := 0 to |xs|
      invariant expectedIndex == p
      invariant tally == TallyOf(rows, p)
    {
      var row := ReceiveSigned(c, xs, expectedIndex);
      expectedIndex := expectedIndex + 1;
      tally := AddRow(tally, row);
    }
    var verified := false;
    if final.Some? {
      var r := VerifyPerChunkFinal(c, final.value.nChunks, final.value.signature, expectedIndex);
      verified := r.StreamFullyVerified() && tally.signaturesValid && tally.aeadOk && tally.inOrder;
    }
    RowsTallied(rows);
    m := ToReport(tally, verified, final);
  }

  /** Verifies row p of a hash-chain stream. */
  method ReceiveChained(chainState: HashChainClientState, xs: seq<Chunk>, p: nat) returns (row: Row)
    requires p < |xs|
    requires chainState.Valid() && chainState.absorbed == Links(xs)[..p]
    modifies chainState
    ensures chainState.Valid() && chainState.absorbed == Links(xs)[..p + 1]
    ensures row == RowOf(chainState.c, HashChain(chainState.checkpointInterval), xs, p)
  {
    var x := xs[p];
    LinksOfPrefix(xs, p + 1);
    var r := chainState.VerifyHashChainChunk(x);
    assert chainState.absorbed == Links(xs)[..p + 1];
    var text := match r.plaintext case Some(text) => text case None => [];
    var signatureOk := !r.checkpointMissing && (r.checkpoint ==> r.checkpointValid);
    row := Row(signatureOk, r.plaintext.Some?, true, r.checkpoint, r.checkpointValid, text, |x.signature|);
  }

  method CheckFinalChain(chainState: HashChainClientState, xs: seq<Chunk>, final: Option<Terminal>) returns (verified: bool)
    requires |xs| < TWO_TO_32
    requires chainState.Valid() && chainState.absorbed == Links(xs)
    requires final.Some? ==> final.value.FinalChain?
    ensures verified <==> FinalOk(chainState.c, HashChain(chainState.checkpointInterval), xs, final)
  {
    verified := false;
    if final.Some? {
      var t := final.value;
      var r := chainState.VerifyHashChainFinal(t.finalChainHash, t.nChunks, t.signature);
      verified := r.StreamFullyVerified();
    }
  }

  /** Under hash_chain the verdict is the terminal record's alone; the flags are kept beside it. */
  method ReceiveHashChain(c: Crypto, k: nat, xs: seq<Chunk>, final: Option<Terminal>) returns (m: Report)
    requires |xs| < TWO_TO_32
    requires final.Some? ==> TerminalOf(HashChain(k), final.value)
    ensures Describes(m, RowsOf(c, HashChain(k), xs), final, FinalOk(c, HashChain(k), xs, final))
    ensures m.streamFullyVerified <==> FinalOk(c, HashChain(k), xs, final)
  {
    ghost var rows := RowsOf(c, HashChain(k), xs);
    var tally := TallyOf([], 0);
    var chainState := new HashChainClientState(c, k);
    for p := 0 to |xs|
      invariant chainState.Valid() && chainState.c == c && chainState.checkpointInterval == k
      invariant chainState.absorbed == Links(xs)[..p]
      invariant tally == TallyOf(rows, p)
    {
      var row := ReceiveChained(chainState, xs, p);
      tally := AddRow(tally, row);
    }
    RowsTallied(rows);
    assert Links(xs)[..|xs|] == Links(xs);
    var verified := CheckFinalChain(chainState, xs, final);
    if verified {
      tally := CoverPending(tally);
    }
    m := ToReport(tally, verified, final);
  }
}
