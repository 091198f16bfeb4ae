/** The attack-replay client and how late it can catch an attack:
    threats/streaming_mitm_experiment.py, lines 129-181. */
module Replay {
  import opened Bytes
  import opened Primitives
  import opened Messages
  import opened Records
  import opened Server
  import opened Acceptance
  import opened Verify
  import opened Soundness
  import opened Arithmetic

  /** `position` is None for a stream that is accepted, and the length of the stream when only the
      terminal record or its absence reveals the attack. */
  datatype Outcome = NotApplicable | Outcome(position: Option<nat>, covered: nat)

  method ReplayThroughClient(
    c: Crypto, s: Strategy, mutated: seq<Chunk>, final: Option<Terminal>, enforceSchedule: bool)
    returns (r: Outcome)
    requires |mutated| < TWO_TO_32
    requires final.Some? ==> TerminalOf(s, final.value)
    ensures s.BufferAndSign? <==> r.NotApplicable?
    ensures r.Outcome? ==>
              var client := if s.HashChain? && !enforceSchedule then HashChain(0) else s;
              && r.position == RejectedAt(c, client, mutated, final)
              && r.covered == (if r.position.None? then |mutated| else CoveredBy(client, mutated, r.position.value))
  {
    match s {
      case BufferAndSign =>
        r := NotApplicable;
      case PerChunk =>
        r := ReplayPerChunk(c, mutated, final);
      case HashChain(k) =>
        r := ReplayHashChain(c, if enforceSchedule then k else 0, mutated, final);
    }
  }

  method ReplayPerChunk(c: Crypto, mutated: seq<Chunk>, final: Option<Terminal>) returns (r: Outcome)
    requires |mutated| < TWO_TO_32
    requires final.Some? ==> TerminalOf(PerChunk, final.value)
    ensures r.Outcome? && r.position == RejectedAt(c, PerChunk, mutated, final)
    ensures r.covered == if r.position.None? then |mutated| else r.position.value
  {
    var expectedIndex := 0;
    for pos := 0 to |mutated|
      invariant expectedIndex == pos
      invariant FirstBad(c, PerChunk, mutated, 0) == FirstBad(c, PerChunk, mutated, pos)
    {
      var v := VerifyPerChunk(c, mutated[pos], expectedIndex);
      expectedIndex := expectedIndex + 1;
      if !v.inOrder || !v.signatureValid || v.plaintext.None? {
        return Outcome(Some(pos), pos);
      }
    }
    var ok := final.Some? && VerifyPerChunkFinal(c, final.value.nChunks, final.value.signature, expectedIndex).StreamFullyVerified();
    return Outcome(if ok then None else Some(|mutated|), |mutated|);
  }

  method CheckRow(chainState: HashChainClientState, xs: seq<Chunk>, p: nat) returns (ok: bool)
    requires p < |xs|
    requires chainState.Valid() && chainState.absorbed == Links(xs)[..p]
    modifies chainState
    ensures chainState.Valid() && chainState.absorbed == Links(xs)[..p + 1]
    ensures ok <==> ChunkOk(chainState.c, HashChain(chainState.checkpointInterval), xs, p)
  {
    LinksOfPrefix(xs, p + 1);
    var v := chainState.VerifyHashChainChunk(xs[p]);
    assert chainState.absorbed == Links(xs)[..p + 1];
    ok := v.plaintext.Some? && !v.checkpointMissing && (v.checkpoint ==> v.checkpointValid);
  }

  method ReplayHashChain(c: Crypto, k: nat, mutated: seq<Chunk>, final: Option<Terminal>) returns (r: Outcome)
    requires |mutated| < TWO_TO_32
    requires final.Some? ==> TerminalOf(HashChain(k), final.value)
    ensures r.Outcome? && r.position == RejectedAt(c, HashChain(k), mutated, final)
    ensures r.covered == if r.position.None? then |mutated| else CoveredBy(HashChain(k), mutated, r.position.value)
  {
    var chainState := new HashChainClientState(c, k);
    var covered := 0;
    for pos := 0 to |mutated|
      invariant chainState.Valid() && chainState.c == c && chainState.checkpointInterval == k
      invariant chainState.absorbed == Links(mutated)[..pos]
      invariant covered == CoveredBy(HashChain(k), mutated, pos)
      invariant FirstBad(c, HashChain(k), mutated, 0) == FirstBad(c, HashChain(k), mutated, pos)
    {
      var ok := CheckRow(chainState, mutated, pos);
      if !ok {
        return Outcome(Some(pos), covered);
      }
      if mutated[pos].signature != [] {
        covered := pos + 1;
      }
    }
    assert Links(mutated)[..|mutated|] == Links(mutated);
    var ok := false;
    if final.Some? {
      var v := chainState.VerifyHashChainFinal(final.value.finalChainHash, final.value.nChunks, final.value.signature);
      ok := v.StreamFullyVerified();
    }
    return Outcome(if ok then None else Some(|mutated|), if ok then |mutated| else covered);
  }

  /** The first position at which what arrived is not what was sent: another record, one too many, or
      none where one was sent. */
  ghost predicate DiffersFirstAt(xs: seq<Chunk>, sent: seq<Chunk>, d: nat) {
    && d <= |xs| && d <= |sent| && (d < |xs| || d < |sent|)
    && SameContents(xs[..d], sent[..d])
    && (d < |xs| && d < |sent| ==> !SameContent(xs[d], sent[d]))
  }

  /** The last position of the checkpoint window that position d falls into. */
  function WindowEnd(k: nat, d: nat): nat
    requires k > 0
  {
    k * (d / k + 1) - 1
  }

  lemma WindowEndProperties(k: nat, d: nat)
    requires k > 0
    ensures d <= WindowEnd(k, d) < d + k
    ensures Scheduled(k, WindowEnd(k, d) + 1)
    ensures forall n | d < n <= WindowEnd(k, d) :: !Scheduled(k, n)
  {
    var q, r := d / k, d % k;
    assert d == k * q + r;
    assert k * (q + 1) == k * q + k;
    ModOf(k, q + 1, 0);
    forall n | d < n <= WindowEnd(k, d) ensures !Scheduled(k, n) {
      ModOf(k, q, n - k * q);
    }
  }

  /** From position d on, no row that arrived carries a checkpoint signature that verifies, or the
      row at d, if there is one, does not even open. */
  ghost predicate DeadFrom(c: Crypto, xs: seq<Chunk>, d: nat)
    requires d <= |xs|
  {
    d < |xs| && Opens(c, xs[d]) ==> forall p | d <= p < |xs| :: !CheckpointValid(c, xs, p)
  }

  /** That is so from the first difference on. */
  lemma DeadFromDifference(
    c: Crypto, k: nat, plains: seq<bytes>, sealed: set<(Nonce, bytes)>, xs: seq<Chunk>, d: nat)
    requires |plains| < TWO_TO_32
    requires Secure(c, HashChain(k), plains, sealed, xs)
    requires DiffersFirstAt(xs, Served(c, HashChain(k), plains), d)
    ensures DeadFrom(c, xs, d)
  {
    var sent := Served(c, HashChain(k), plains);
    forall p | d <= p < |xs| && Opens(c, xs[d]) && CheckpointValid(c, xs, p) ensures false {
      CheckpointSoundness(c, k, plains, xs, p);
      ServedFields(c, HashChain(k), plains, d);
      assert Links(xs)[d] == Links(xs)[..p + 1][d] == Links(sent)[..p + 1][d] == Links(sent)[d];
      SameLinkSameContent(c, sealed, xs[d], sent[d]);
    }
  }

  /** At every rejection fewer than k chunks are on display without a checkpoint covering them. */
  lemma BacklogBound(c: Crypto, k: nat, xs: seq<Chunk>, final: Option<Terminal>)
    requires k > 0 && |xs| < TWO_TO_32
    requires RejectedAt(c, HashChain(k), xs, final).Some?
    ensures var pos := RejectedAt(c, HashChain(k), xs, final).value;
            pos - CoveredBy(HashChain(k), xs, pos) <= k - 1
  {
    var pos := RejectedAt(c, HashChain(k), xs, final).value;
    var covered := CoveredBy(HashChain(k), xs, pos);
    WindowEndProperties(k, covered);
    assert WindowEnd(k, covered) < pos ==> ChunkOk(c, HashChain(k), xs, WindowEnd(k, covered));
  }

  lemma DifferenceRejected(
    c: Crypto, client: Strategy, s: Strategy, plains: seq<bytes>, sealed: set<(Nonce, bytes)>,
    xs: seq<Chunk>, final: Option<Terminal>, d: nat)
    requires |plains| < TWO_TO_32 && |xs| < TWO_TO_32
    requires Compatible(client, s) && !s.BufferAndSign?
    requires Secure(c, s, plains, sealed, xs)
    requires DiffersFirstAt(xs, Served(c, s, plains), d)
    ensures RejectedAt(c, client, xs, final).Some?
  {
    if Accepted(c, client, xs, final) {
      AcceptedIsGenuine(c, client, s, plains, sealed, xs, final);
    }
  }

  lemma BeforeBad(c: Crypto, k: nat, xs: seq<Chunk>, i: nat)
    requires i < FirstBad(c, HashChain(k), xs, 0)
    ensures Opens(c, xs[i])
    ensures Scheduled(k, i + 1) ==> xs[i].Signed()
    ensures xs[i].Signed() ==> CheckpointValid(c, xs, i)
  {
    assert ChunkOk(c, HashChain(k), xs, i);
  }

  lemma DetectedInWindow(c: Crypto, k: nat, xs: seq<Chunk>, d: nat)
    requires k > 0 && d <= |xs| && DeadFrom(c, xs, d)
    ensures FirstBad(c, HashChain(k), xs, 0) <= WindowEnd(k, d)
  {
    WindowEndProperties(k, d);
    if WindowEnd(k, d) < FirstBad(c, HashChain(k), xs, 0) {
      BeforeBad(c, k, xs, d);
      BeforeBad(c, k, xs, WindowEnd(k, d));
    }
  }

  lemma NothingCoveredFrom(c: Crypto, k: nat, xs: seq<Chunk>, d: nat, pos: nat)
    requires d <= |xs| && DeadFrom(c, xs, d)
    requires pos <= FirstBad(c, HashChain(k), xs, 0)
    ensures CoveredBy(HashChain(k), xs, pos) <= d
  {
    var covered := CoveredBy(HashChain(k), xs, pos);
    if covered > d {
      BeforeBad(c, k, xs, d);
      BeforeBad(c, k, xs, covered - 1);
    }
  }

  /** Bounded detection delay.  Whatever the adversary made of the stream, if it first differs from
      what was sent at position d, or has ended there too early, a client that enforces the schedule rejects it within the
      checkpoint window of d, nothing from d on is ever covered by a signature, and fewer than k
      chunks are unverified at that moment. */
  lemma BoundedDetection(
    c: Crypto, k: nat, k': nat, plains: seq<bytes>, sealed: set<(Nonce, bytes)>,
    xs: seq<Chunk>, final: Option<Terminal>, d: nat)
    requires |plains| < TWO_TO_32 && |xs| < TWO_TO_32 && k > 0
    requires Secure(c, HashChain(k'), plains, sealed, xs)
    requires DiffersFirstAt(xs, Served(c, HashChain(k'), plains), d)
    ensures var r := RejectedAt(c, HashChain(k), xs, final);
            && r.Some?
            && r.value <= Min(WindowEnd(k, d), |xs|)
            && CoveredBy(HashChain(k), xs, r.value) <= d
            && r.value - CoveredBy(HashChain(k), xs, r.value) <= k - 1
  {
    DifferenceRejected(c, HashChain(k), HashChain(k'), plains, sealed, xs, final, d);
    var pos := RejectedAt(c, HashChain(k), xs, final).value;
    DeadFromDifference(c, k', plains, sealed, xs, d);
    DetectedInWindow(c, k, xs, d);
    NothingCoveredFrom(c, k, xs, d, pos);
    BacklogBound(c, k, xs, final);
  }

  /** What makes a client stop at a row once the stream has been changed. */
  predicate Trips(c: Crypto, k: nat, xs: seq<Chunk>, p: nat)
    requires p < |xs|
  {
    !Opens(c, xs[p]) || xs[p].Signed() || Scheduled(k, p + 1)
  }

  function FirstTrip(c: Crypto, k: nat, xs: seq<Chunk>, p: nat): (r: nat)
    requires p <= |xs|
    ensures p <= r <= |xs|
    ensures forall i | p <= i < r :: !Trips(c, k, xs, i)
    ensures r < |xs| ==> Trips(c, k, xs, r)
    decreases |xs| - p
  {
    if p == |xs| || Trips(c, k, xs, p) then p else FirstTrip(c, k, xs, p + 1)
  }

  lemma FirstBadAfterGenuinePrefix(
    c: Crypto, client: Strategy, s: Strategy, plains: seq<bytes>, xs: seq<Chunk>, d: nat)
    requires |plains| < TWO_TO_32 && !s.BufferAndSign?
    requires client == s || (client == HashChain(0) && s.HashChain?)
    requires Correct(c, s, plains)
    requires d <= |xs| && d <= |plains| && xs[..d] == Served(c, s, plains)[..d]
    ensures FirstBad(c, client, xs, 0) >= d
  {
    var p := FirstBad(c, client, xs, 0);
    if p < d {
      assert xs[..p + 1] == xs[..d][..p + 1] == Served(c, s, plains)[..p + 1];
      GenuineRowOk(c, client, s, plains, xs, p);
    }
  }

  /** A row that gives no reason to look at a signature passes. */
  lemma NoTripNoRejection(c: Crypto, k: nat, xs: seq<Chunk>, d: nat)
    requires d <= FirstBad(c, HashChain(k), xs, 0)
    ensures FirstBad(c, HashChain(k), xs, 0) >= FirstTrip(c, k, xs, d)
  {
    var bad := FirstBad(c, HashChain(k), xs, 0);
    assert bad < FirstTrip(c, k, xs, d) ==> !Trips(c, k, xs, bad);
  }

  /** A row that carries a signature, is due for one, or does not open stops the client, once the
      stream has been changed. */
  lemma TripRejects(c: Crypto, k: nat, xs: seq<Chunk>, d: nat)
    requires d <= |xs| && DeadFrom(c, xs, d)
    ensures FirstBad(c, HashChain(k), xs, 0) <= FirstTrip(c, k, xs, d)
  {
    var trip := FirstTrip(c, k, xs, d);
    if trip < FirstBad(c, HashChain(k), xs, 0) {
      BeforeBad(c, k, xs, d);
      BeforeBad(c, k, xs, trip);
    }
  }

  lemma DeadStreamRejected(c: Crypto, k: nat, xs: seq<Chunk>, final: Option<Terminal>, d: nat)
    requires d <= |xs| < TWO_TO_32 && DeadFrom(c, xs, d)
    requires d <= FirstBad(c, HashChain(k), xs, 0)
    requires RejectedAt(c, HashChain(k), xs, final).Some?
    ensures RejectedAt(c, HashChain(k), xs, final) == Some(FirstTrip(c, k, xs, d))
  {
    NoTripNoRejection(c, k, xs, d);
    TripRejects(c, k, xs, d);
  }

  /** Where exactly a changed hash-chain stream is rejected: after a genuine prefix of length d,
      it is the first row from d on that carries a signature, falls on the enforced schedule, or
      does not open; and the terminal record when there is no such row. */
  lemma ExactDetection(
    c: Crypto, k: nat, k': nat, plains: seq<bytes>, sealed: set<(Nonce, bytes)>,
    xs: seq<Chunk>, final: Option<Terminal>, d: nat)
    requires |plains| < TWO_TO_32 && |xs| < TWO_TO_32
    requires k == 0 || k == k'
    requires Correct(c, HashChain(k'), plains) && Secure(c, HashChain(k'), plains, sealed, xs)
    requires DiffersFirstAt(xs, Served(c, HashChain(k'), plains), d)
    requires xs[..d] == Served(c, HashChain(k'), plains)[..d]
    ensures RejectedAt(c, HashChain(k), xs, final) == Some(FirstTrip(c, k, xs, d))
  {
    FirstBadAfterGenuinePrefix(c, HashChain(k), HashChain(k'), plains, xs, d);
    DeadFromDifference(c, k', plains, sealed, xs, d);
    DifferenceRejected(c, HashChain(k), HashChain(k'), plains, sealed, xs, final, d);
    DeadStreamRejected(c, k, xs, final, d);
  }

  /** A changed per-chunk stream is rejected at the very row that differs. */
  lemma ExactDetectionPerChunk(
    c: Crypto, plains: seq<bytes>, sealed: set<(Nonce, bytes)>, xs: seq<Chunk>, final: Option<Terminal>, d: nat)
    requires |plains| < TWO_TO_32 && |xs| < TWO_TO_32
    requires Correct(c, PerChunk, plains) && Secure(c, PerChunk, plains, sealed, xs)
    requires DiffersFirstAt(xs, Served(c, PerChunk, plains), d)
    requires xs[..d] == Served(c, PerChunk, plains)[..d]
    ensures RejectedAt(c, PerChunk, xs, final) == Some(d)
  {
    FirstBadAfterGenuinePrefix(c, PerChunk, PerChunk, plains, xs, d);
    DifferenceStopsPerChunk(c, plains, sealed, xs, d);
    DifferenceRejected(c, PerChunk, PerChunk, plains, sealed, xs, final, d);
  }

  lemma DifferenceStopsPerChunk(
    c: Crypto, plains: seq<bytes>, sealed: set<(Nonce, bytes)>, xs: seq<Chunk>, d: nat)
    requires |plains| < TWO_TO_32
    requires Unforgeable(c, SignedLog(c, PerChunk, plains)) && OnlySealedOpen(c, sealed)
    requires DiffersFirstAt(xs, Served(c, PerChunk, plains), d)
    ensures FirstBad(c, PerChunk, xs, 0) <= d
  {
    if FirstBad(c, PerChunk, xs, 0) > d {
      PerChunkRowSoundness(c, plains, sealed, xs, d);
    }
  }

  /** The position at which a stream that was changed at d is stopped. */
  function StopsAt(c: Crypto, s: Strategy, xs: seq<Chunk>, d: nat): nat
    requires d <= |xs|
  {
    match s
    case HashChain(k) => FirstTrip(c, k, xs, d)
    case _ => d
  }

  lemma ExactDetectionOf(
    c: Crypto, s: Strategy, plains: seq<bytes>, sealed: set<(Nonce, bytes)>,
    xs: seq<Chunk>, final: Option<Terminal>, d: nat)
    requires |plains| < TWO_TO_32 && |xs| < TWO_TO_32 && !s.BufferAndSign?
    requires Correct(c, s, plains) && Secure(c, s, plains, sealed, xs)
    requires DiffersFirstAt(xs, Served(c, s, plains), d)
    requires xs[..d] == Served(c, s, plains)[..d]
    ensures RejectedAt(c, s, xs, final) == Some(StopsAt(c, s, xs, d))
  {
    match s
    case PerChunk => ExactDetectionPerChunk(c, plains, sealed, xs, final, d);
    case HashChain(k) => ExactDetection(c, k, k, plains, sealed, xs, final, d);
  }

  /** A stream cut short is rejected exactly where it was cut. */
  lemma ExactTruncation(
    c: Crypto, client: Strategy, s: Strategy, plains: seq<bytes>, sealed: set<(Nonce, bytes)>,
    final: Option<Terminal>, cut: nat)
    requires |plains| < TWO_TO_32 && !s.BufferAndSign?
    requires client == s || (client == HashChain(0) && s.HashChain?)
    requires cut <= |plains| && (cut < |plains| || final.None?)
    requires Correct(c, s, plains) && Secure(c, s, plains, sealed, Served(c, s, plains)[..cut])
    ensures RejectedAt(c, client, Served(c, s, plains)[..cut], final) == Some(cut)
  {
    var xs := Served(c, s, plains)[..cut];
    assert xs[..cut] == xs;
    FirstBadAfterGenuinePrefix(c, client, s, plains, xs, cut);
    if Accepted(c, client, xs, final) {
      AcceptedIsGenuine(c, client, s, plains, sealed, xs, final);
    }
  }

  /** No genuine stream is rejected, under either client. */
  lemma GenuineAccepted(c: Crypto, client: Strategy, s: Strategy, plains: seq<bytes>)
    requires |plains| < TWO_TO_32
    requires client == s || (client == HashChain(0) && s.HashChain?)
    requires Correct(c, s, plains)
    ensures Accepted(c, client, Served(c, s, plains), Some(ServedFinal(c, s, plains)))
  {
    var xs := Served(c, s, plains);
    forall p | 0 <= p < |xs| ensures ChunkOk(c, client, xs, p) {
      GenuineRowOk(c, client, s, plains, xs, p);
    }
    GenuineFinalOk(c, client, s, plains, xs);
  }
}
