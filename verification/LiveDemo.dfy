/** The live demo's client: webapp/demo_transaction.py, lines 242-343 and 387-392. */
module LiveDemo {
  import opened Bytes
  import opened Primitives
  import opened Messages
  import opened Chain
  import opened Records
  import opened Server
  import opened Acceptance
  import opened Verify
  import opened Soundness
  import opened Arithmetic

  datatype Reason =
    | SignatureInvalid
    | AeadFailed
    | OutOfOrder
    | CheckpointMissing
    | CheckpointMismatch
    | EndSignatureInvalid
    | CountMismatch
    | TerminalSignatureInvalid
    | TerminalMismatch
    | Truncated

  /** Where the page says the stream was rejected. */
  datatype Place = AtChunk(index: u32) | AtEnd

  datatype Status = Verified | Pending | Rejected

  /** Appending a row does not change the verdict on the rows before it. */
  lemma OkOfPrefix(c: Crypto, s: Strategy, xs: seq<Chunk>, x: Chunk, p: nat)
    requires p < |xs|
    ensures ChunkOk(c, s, xs + [x], p) <==> ChunkOk(c, s, xs, p)
  {
    assert (xs + [x])[..p + 1] == xs[..p + 1];
  }

  lemma {:induction false} FirstBadOfPrefix(c: Crypto, s: Strategy, xs: seq<Chunk>, x: Chunk, p: nat)
    requires p <= |xs|
    ensures FirstBad(c, s, xs, p) < |xs| ==> FirstBad(c, s, xs + [x], p) == FirstBad(c, s, xs, p)
    ensures FirstBad(c, s, xs, p) == |xs| ==>
              FirstBad(c, s, xs + [x], p) == if ChunkOk(c, s, xs + [x], |xs|) then |xs| + 1 else |xs|
    decreases |xs| - p
  {
    if p < |xs| {
      OkOfPrefix(c, s, xs, x, p);
      FirstBadOfPrefix(c, s, xs, x, p + 1);
    }
  }

  /** The first failure latches: the place of the first bad row among those processed. */
  function FirstFailure(c: Crypto, s: Strategy, xs: seq<Chunk>): Option<Place> {
    var p := FirstBad(c, s, xs, 0);
    if p < |xs| then Some(AtChunk(xs[p].index)) else None
  }

  /** The check that row p fails first. */
  function RowReason(c: Crypto, s: Strategy, xs: seq<Chunk>, p: nat): (r: Option<Reason>)
    requires p < |xs| && !s.BufferAndSign?
    ensures r.None? <==> ChunkOk(c, s, xs, p)
    ensures r == Some(SignatureInvalid) <==> s.PerChunk? && !ChunkSignatureValid(c, xs[p])
    ensures r == Some(AeadFailed) <==> !Opens(c, xs[p]) && (s.PerChunk? ==> ChunkSignatureValid(c, xs[p]))
    ensures r == Some(OutOfOrder) <==> s.PerChunk? && ChunkSignatureValid(c, xs[p]) && Opens(c, xs[p]) && xs[p].index != p
    ensures r == Some(CheckpointMissing) <==>
            s.HashChain? && Opens(c, xs[p]) && Scheduled(s.checkpointInterval, p + 1) && !xs[p].Signed()
    ensures r == Some(CheckpointMismatch) <==> s.HashChain? && Opens(c, xs[p]) && xs[p].Signed() && !CheckpointValid(c, xs, p)
  {
    if s.PerChunk? then
      if !ChunkSignatureValid(c, xs[p]) then Some(SignatureInvalid)
      else if !Opens(c, xs[p]) then Some(AeadFailed)
      else if xs[p].index != p then Some(OutOfOrder) else None
    else
      if !Opens(c, xs[p]) then Some(AeadFailed)
      else if Scheduled(s.checkpointInterval, p + 1) && !xs[p].Signed() then Some(CheckpointMissing)
      else if xs[p].Signed() && !CheckpointValid(c, xs, p) then Some(CheckpointMismatch) else None
  }

  /** The check that the terminal record fails first. */
  function FinalReason(c: Crypto, s: Strategy, xs: seq<Chunk>, t: Terminal): (r: Option<Reason>)
    requires |xs| < TWO_TO_32 && TerminalOf(s, t)
    ensures r.None? <==> FinalOk(c, s, xs, Some(t))
    ensures r == Some(AeadFailed) <==> s.BufferAndSign? && c.verify(BufferedMessage(StreamContext(c), t.nonce, t.ciphertext), t.signature)
                                       && c.open(t.nonce, t.ciphertext).None?
    ensures r == Some(CountMismatch) <==> s.PerChunk? && c.verify(EndMessage(StreamContext(c), t.nChunks), t.signature) && t.nChunks != |xs|
    ensures r == Some(TerminalMismatch) <==>
            s.HashChain? && c.verify(FinalChainMessage(StreamContext(c), |xs|, ChainHash(c, Links(xs))), t.signature)
            && (t.nChunks != |xs| || t.finalChainHash != ChainHash(c, Links(xs)))
    ensures r == Some(SignatureInvalid) ==> s.BufferAndSign?
    ensures r == Some(EndSignatureInvalid) ==> s.PerChunk?
    ensures r == Some(TerminalSignatureInvalid) ==> s.HashChain?
    ensures r.Some? ==> r.value in {AeadFailed, CountMismatch, TerminalMismatch, SignatureInvalid, EndSignatureInvalid, TerminalSignatureInvalid}
  {
    var ctx := StreamContext(c);
    match t
    case FinalBuffered(nonce, ciphertext, signature) =>
      if !c.verify(BufferedMessage(ctx, nonce, ciphertext), signature) then Some(SignatureInvalid)
      else if c.open(nonce, ciphertext).None? then Some(AeadFailed) else None
    case FinalPerChunk(nChunks, signature) =>
      if !c.verify(EndMessage(ctx, nChunks), signature) then Some(EndSignatureInvalid)
      else if nChunks != |xs| then Some(CountMismatch) else None
    case FinalChain(finalChainHash, nChunks, signature) =>
      if !c.verify(FinalChainMessage(ctx, |xs|, ChainHash(c, Links(xs))), signature) then Some(TerminalSignatureInvalid)
      else if nChunks != |xs| || finalChainHash != ChainHash(c, Links(xs)) then Some(TerminalMismatch) else None
  }

  /** The reason that latches: that of the first bad row among those processed. */
  function FirstReason(c: Crypto, s: Strategy, xs: seq<Chunk>): Option<Reason> {
    var p := FirstBad(c, s, xs, 0);
    if p < |xs| && !s.BufferAndSign? then RowReason(c, s, xs, p) else None
  }

  lemma ReasonOfPrefix(c: Crypto, s: Strategy, xs: seq<Chunk>, x: Chunk, p: nat)
    requires p < |xs| && !s.BufferAndSign?
    ensures RowReason(c, s, xs + [x], p) == RowReason(c, s, xs, p)
  {
    assert (xs + [x])[..p + 1] == xs[..p + 1];
  }

  /** Does the last row cover everything so far, without a failure before it? */
  predicate CoversAll(c: Crypto, s: Strategy, xs: seq<Chunk>)
    requires xs != []
  {
    s.HashChain? && Last(xs).Signed() && CheckpointValid(c, xs, |xs| - 1) && FirstFailure(c, s, xs).None?
  }

  /** Rows on the page that no verified signature covers yet. */
  function Uncovered(c: Crypto, s: Strategy, xs: seq<Chunk>): nat {
    if xs == [] || CoversAll(c, s, xs) then 0 else Uncovered(c, s, Init(xs)) + 1
  }

  /** The most that there have been. */
  function MostUncovered(c: Crypto, s: Strategy, xs: seq<Chunk>): nat {
    if xs == [] then 0 else Max(MostUncovered(c, s, Init(xs)), Uncovered(c, s, Init(xs)) + 1)
  }

  class LiveClient {
    const c: Crypto
    const strategy: Strategy
    const chainState: HashChainClientState
    var expected: nat
    var pending: nat
    var maxUnverified: nat
    var failed: Option<Reason>
    var rejectedAt: Option<Place>
    var terminal: bool
    ghost var xs: seq<Chunk>

    ghost predicate Valid()
      reads this, chainState
    {
      && chainState.Valid()
      && chainState.c == c
      && (strategy.HashChain? ==>
            chainState.checkpointInterval == strategy.checkpointInterval && chainState.absorbed == Links(xs))
      && (strategy.PerChunk? ==> expected == |xs|)
      && (strategy.BufferAndSign? ==> xs == [])
    }

    /** The verdict so far is the one on the rows processed so far. */
    ghost predicate Decided()
      reads this
    {
      && rejectedAt == FirstFailure(c, strategy, xs)
      && failed == FirstReason(c, strategy, xs)
      && (failed.Some? <==> rejectedAt.Some?)
    }

    /** And so are the numbers of uncovered rows. */
    ghost predicate Latched()
      reads this
    {
      && Decided()
      && (strategy.HashChain? ==> pending == Uncovered(c, strategy, xs) && maxUnverified == MostUncovered(c, strategy, xs))
    }

    constructor (c: Crypto, strategy: Strategy)
      ensures Valid() && Latched() && fresh(chainState)
      ensures this.c == c && this.strategy == strategy
      ensures xs == [] && !terminal && pending == 0
    {
      this.c := c;
      this.strategy := strategy;
      chainState := new HashChainClientState(c, if strategy.HashChain? then strategy.checkpointInterval else 0);
      expected, pending, maxUnverified := 0, 0, 0;
      failed, rejectedAt, terminal := None, None, false;
      xs := [];
    }

    method Fail(reason: Reason, place: Place)
      modifies this`failed, this`rejectedAt
      ensures failed == if old(failed).None? then Some(reason) else old(failed)
      ensures rejectedAt == if old(failed).None? then Some(place) else old(rejectedAt)
    {
      if failed.None? {
        failed := Some(reason);
        rejectedAt := Some(place);
      }
    }

    method CheckSigned(x: Chunk) returns (reason: Option<Reason>)
      requires Valid() && strategy.PerChunk?
      modifies this`expected
      ensures expected == old(expected) + 1
      ensures reason == RowReason(c, strategy, xs + [x], |xs|)
    {
      var r := VerifyPerChunk(c, x, expected);
      expected := expected + 1;
      reason := if r.signatureValid && r.plaintext.Some? && r.inOrder then None
                else if !r.signatureValid then Some(SignatureInvalid)
                else if r.plaintext.None? then Some(AeadFailed)
                else Some(OutOfOrder);
    }

    method CheckChained(x: Chunk) returns (reason: Option<Reason>, covering: bool)
      requires Valid() && strategy.HashChain?
      modifies chainState
      ensures chainState.Valid() && chainState.absorbed == Links(xs + [x])
      ensures reason == RowReason(c, strategy, xs + [x], |xs|)
      ensures covering <==> x.Signed() && CheckpointValid(c, xs + [x], |xs|)
    {
      var r := chainState.VerifyHashChainChunk(x);
      assert chainState.absorbed == Links(xs + [x]);
      assert (xs + [x])[..|xs| + 1] == xs + [x];
      reason := if r.plaintext.None? then Some(AeadFailed)
                else if r.checkpointMissing then Some(CheckpointMissing)
                else if r.checkpoint && !r.checkpointValid then Some(CheckpointMismatch)
                else None;
      covering := r.checkpoint && r.checkpointValid;
    }

    /** Latches the first failure. */
    method Note(x: Chunk, reason: Option<Reason>)
      requires Decided() && !strategy.BufferAndSign?
      requires reason == RowReason(c, strategy, xs + [x], |xs|)
      modifies this`failed, this`rejectedAt, this`xs
      ensures Decided() && xs == old(xs) + [x]
    {
      FirstBadOfPrefix(c, strategy, xs, x, 0);
      if FirstBad(c, strategy, xs, 0) < |xs| {
        ReasonOfPrefix(c, strategy, xs, x, FirstBad(c, strategy, xs, 0));
      }
      if reason.Some? {
        Fail(reason.value, AtChunk(x.index));
      }
      xs := xs + [x];
    }

    /** Counts the last row as uncovered, or everything as covered. */
    method CountRow(covering: bool) returns (covered: bool)
      requires strategy.HashChain? && xs != [] && Decided()
      requires pending == Uncovered(c, strategy, Init(xs)) && maxUnverified == MostUncovered(c, strategy, Init(xs))
      requires covering <==> Last(xs).Signed() && CheckpointValid(c, xs, |xs| - 1)
      modifies this`pending, this`maxUnverified
      ensures Latched()
      ensures covered <==> CoversAll(c, strategy, xs)
    {
      pending := pending + 1;
      maxUnverified := Max(maxUnverified, pending);
      covered := covering && failed.None?;
      if covered {
        pending := 0;
      }
    }

    method ProcessSigned(x: Chunk) returns (status: Status)
      requires Valid() && Latched() && strategy.PerChunk?
      modifies this
      ensures Valid() && Latched() && xs == old(xs) + [x] && terminal == old(terminal)
      ensures status == if failed.Some? then Rejected else Verified
    {
      var reason := CheckSigned(x);
      Note(x, reason);
      status := if failed.None? then Verified else Rejected;
    }

    /** Absorbs a row, and latches its failure if it is the first. */
    method AbsorbAndNote(x: Chunk) returns (covering: bool)
      requires Valid() && Decided() && strategy.HashChain?
      modifies this`failed, this`rejectedAt, this`xs, chainState
      ensures Valid() && Decided() && xs == old(xs) + [x]
      ensures covering <==> x.Signed() && CheckpointValid(c, xs, |xs| - 1)
    {
      var reason;
      reason, covering := CheckChained(x);
      Note(x, reason);
    }

    method ProcessChained(x: Chunk) returns (status: Status, covered: bool)
      requires Valid() && Latched() && strategy.HashChain?
      modifies this, chainState
      ensures Valid() && Latched() && xs == old(xs) + [x] && terminal == old(terminal)
      ensures status == if failed.Some? then Rejected else Pending
      ensures covered <==> CoversAll(c, strategy, xs)
    {
      var covering := AbsorbAndNote(x);
      assert Init(xs) == old(xs) && Last(xs) == x;
      covered := CountRow(covering);
      status := if failed.None? then Pending else Rejected;
    }

    /** Verifies one chunk row.  `covered` is the event that tells the page that every chunk so far is
        covered by a verified signature. */
    method ProcessChunk(x: Chunk) returns (status: Status, covered: bool)
      requires Valid() && Latched() && !strategy.BufferAndSign?
      modifies this, chainState
      ensures Valid() && Latched() && xs == old(xs) + [x] && terminal == old(terminal)
      ensures status == if failed.Some? then Rejected else if strategy.PerChunk? then Verified else Pending
      ensures covered <==> CoversAll(c, strategy, xs)
    {
      covered := false;
      if strategy.PerChunk? {
        status := ProcessSigned(x);
      } else {
        status, covered := ProcessChained(x);
      }
    }

    method CheckFinal(t: Terminal) returns (reason: Option<Reason>)
      requires Valid() && |xs| < TWO_TO_32
      requires TerminalOf(strategy, t)
      ensures reason == FinalReason(c, strategy, xs, t)
    {
      match t {
        case FinalBuffered(nonce, ciphertext, signature) =>
          var r := VerifyBufferAndSignFinal(c, nonce, ciphertext, signature);
          reason := if r.signatureValid && r.plaintext.Some? then None
                    else if r.signatureValid then Some(AeadFailed) else Some(SignatureInvalid);
        case FinalPerChunk(nChunks, signature) =>
          var r := VerifyPerChunkFinal(c, nChunks, signature, expected);
          reason := if r.StreamFullyVerified() then None
                    else if !r.signatureValid then Some(EndSignatureInvalid) else Some(CountMismatch);
        case FinalChain(finalChainHash, nChunks, signature) =>
          var r := chainState.VerifyHashChainFinal(finalChainHash, nChunks, signature);
          reason := if r.StreamFullyVerified() then None
                    else if !r.signatureValid then Some(TerminalSignatureInvalid) else Some(TerminalMismatch);
      }
    }

    method ProcessFinal(t: Terminal) returns (verified: bool)
      requires Valid() && Latched() && |xs| < TWO_TO_32
      requires TerminalOf(strategy, t)
      modifies this`failed, this`rejectedAt, this`terminal
      ensures terminal
      ensures verified <==> failed.None?
      ensures failed.None? <==> Accepted(c, strategy, xs, Some(t))
      ensures failed == if old(failed).Some? then old(failed) else FinalReason(c, strategy, xs, t)
      ensures rejectedAt == PlaceOf(xs, RejectedAt(c, strategy, xs, Some(t)), true)
    {
      terminal := true;
      var reason := CheckFinal(t);
      if reason.Some? {
        Fail(reason.value, AtEnd);
      }
      verified := failed.None?;
    }

    /** The stream has ended without a terminal record. */
    method EndWithoutTerminal()
      requires Latched() && |xs| < TWO_TO_32 && !terminal
      modifies this`failed
      ensures failed == if old(failed).Some? then old(failed) else Some(Truncated)
      ensures rejectedAt == PlaceOf(xs, RejectedAt(c, strategy, xs, None), false)
    {
      if failed.None? {
        failed := Some(Truncated);
      }
    }
  }

  /** The place on the page for a position of rejection.  A missing terminal record is a failure
      without a place. */
  function PlaceOf(xs: seq<Chunk>, position: Option<nat>, terminal: bool): Option<Place>
    requires position.Some? ==> position.value <= |xs|
  {
    match position
    case None => None
    case Some(p) => if p < |xs| then Some(AtChunk(xs[p].index)) else if terminal then Some(AtEnd) else None
  }

  /** The page's promise: whenever it marks the chunks shown so far as covered by a verified
      signature, they are the chunks the server sent. */
  lemma CoveredIsGenuine(
    c: Crypto, k: nat, k': nat, plains: seq<bytes>, sealed: set<(Nonce, bytes)>, xs: seq<Chunk>)
    requires |plains| < TWO_TO_32 && xs != []
    requires Secure(c, HashChain(k'), plains, sealed, xs)
    requires FirstFailure(c, HashChain(k), xs).None?
    requires CheckpointValid(c, xs, |xs| - 1)
    ensures |xs| <= |plains| && SameContents(xs, Served(c, HashChain(k'), plains)[..|xs|])
  {
    var sent := Served(c, HashChain(k'), plains);
    CheckpointSoundness(c, k', plains, xs, |xs| - 1);
    forall i | 0 <= i < |xs| ensures SameContent(xs[i], sent[i]) {
      ServedFields(c, HashChain(k'), plains, i);
      assert ChunkOk(c, HashChain(k), xs, i);
      assert Links(xs)[i] == Links(xs)[..|xs|][i] == Links(sent)[..|xs|][i] == Links(sent)[i];
      SameLinkSameContent(c, sealed, xs[i], sent[i]);
    }
  }

  /** What the page promises about exposure: as long as nothing has failed, fewer than k rows are on it
      uncovered, and there have never been more than k. */
  lemma {:induction false} PageExposure(c: Crypto, k: nat, xs: seq<Chunk>)
    requires k > 0 && FirstFailure(c, HashChain(k), xs).None?
    ensures Uncovered(c, HashChain(k), xs) <= |xs| % k < k
    ensures MostUncovered(c, HashChain(k), xs) <= k
    decreases |xs|
  {
    if xs != [] {
      var n := |xs| - 1;
      FirstBadOfPrefix(c, HashChain(k), Init(xs), Last(xs), 0);
      assert Init(xs) + [Last(xs)] == xs;
      PageExposure(c, k, Init(xs));
      ModStep(k, n);
      assert ChunkOk(c, HashChain(k), xs, n);
    }
  }
}
