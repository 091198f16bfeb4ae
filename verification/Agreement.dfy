/** The three separately written clients reach the same verdict. */
module Agreement {
  import opened Bytes
  import opened Primitives
  import opened Chain
  import opened Records
  import opened Server
  import opened Acceptance
  import opened Soundness
  import opened Replay
  import opened Campaign
  import opened BenchClient
  import opened LiveDemo
  import opened OnlineAttack

  /** The live demo's client on a stream that nobody rewrites on the way. */
  method ReceiveLive(c: Crypto, s: Strategy, xs: seq<Chunk>, final: Option<Terminal>)
    returns (failed: Option<Reason>, rejectedAt: Option<Place>)
    requires |xs| < TWO_TO_32
    requires s.BufferAndSign? ==> xs == []
    requires final.Some? ==> TerminalOf(s, final.value)
    ensures failed.None? <==> Accepted(c, s, xs, final)
    ensures rejectedAt == PlaceOf(xs, RejectedAt(c, s, xs, final), final.Some?)
  {
    var receiver := new LiveClient(c, s);
    if !s.BufferAndSign? {
      Deliver(receiver, xs);
    }
    assert receiver.xs == xs;
    if final.Some? {
      var verified := receiver.ProcessFinal(final.value);
    } else {
      receiver.EndWithoutTerminal();
    }
    failed, rejectedAt := receiver.failed, receiver.rejectedAt;
  }

  /** For every record sequence, whoever made it: the replay client accepts it exactly when the live
      demo ends without a failure, and exactly when the benchmark client's verdict and its three flags
      are all true; and where the replay client rejects is the place that the live demo shows. */
  method Compare(c: Crypto, s: Strategy, xs: seq<Chunk>, final: Option<Terminal>)
    returns (replay: Outcome, bench: Report, failed: Option<Reason>, rejectedAt: Option<Place>)
    requires |xs| < TWO_TO_32
    requires s.BufferAndSign? ==> xs == []
    requires final.Some? ==> TerminalOf(s, final.value)
    ensures failed.None? <==> bench.Clean()
    ensures s.BufferAndSign? <==> replay.NotApplicable?
    ensures replay.Outcome? ==>
              && (replay.position.None? <==> bench.Clean())
              && (replay.position.Some? ==> replay.position.value <= |xs|)
              && rejectedAt == PlaceOf(xs, replay.position, final.Some?)
  {
    replay := ReplayThroughClient(c, s, xs, final, true);
    bench := RunStreamingTransaction(c, s, xs, final);
    failed, rejectedAt := ReceiveLive(c, s, xs, final);
  }

  /** What the benchmark client's hash-chain verdict alone says, exactly: with the genuine terminal
      record it is true if and only if indices and envelopes of the stream are the sent ones.  It
      says nothing about checkpoints. */
  lemma VerdictExact(c: Crypto, k: nat, k': nat, plains: seq<bytes>, sealed: set<(Nonce, bytes)>, xs: seq<Chunk>)
    requires |plains| < TWO_TO_32 && |xs| < TWO_TO_32
    requires Correct(c, HashChain(k), plains) && Secure(c, HashChain(k), plains, sealed, xs)
    ensures FinalOk(c, HashChain(k'), xs, Some(ServedFinal(c, HashChain(k), plains)))
        <==> Links(xs) == Links(Served(c, HashChain(k), plains))
  {
    var sent, final := Served(c, HashChain(k), plains), Some(ServedFinal(c, HashChain(k), plains));
    if FinalOk(c, HashChain(k'), xs, final) {
      TerminalSoundnessOrCollision(c, k', k, plains, xs, final);
      NoCollisionAt(c, Links(xs), Links(sent), |xs|, |sent|);
      assert Links(xs)[..|xs|] == Links(xs) && Links(sent)[..|sent|] == Links(sent);
    }
    if Links(xs) == Links(sent) {
      GenuineFinalOk(c, HashChain(k'), HashChain(k), plains, xs);
    }
  }

  /** Under hash_chain the benchmark client's verdict alone is not enough: on every genuine stream
      with a checkpoint, stripping the checkpoints leaves the verdict true, though the other clients
      reject at the first missing one. */
  lemma VerdictAloneMissesStripping(c: Crypto, k: nat, plains: seq<bytes>)
    requires |plains| < TWO_TO_32
    requires 0 < k <= |plains|
    requires Correct(c, HashChain(k), plains)
    ensures var xs := StripAll(Served(c, HashChain(k), plains));
            var final := Some(ServedFinal(c, HashChain(k), plains));
            && FinalOk(c, HashChain(k), xs, final)
            && RejectedAt(c, HashChain(k), xs, final) == Some(k - 1)
  {
    StripAcceptedWhenNotEnforced(c, k, plains);
    StripCaught(c, k, plains, Some(ServedFinal(c, HashChain(k), plains)));
  }

  /** The attacks of the live demo that are also attacks of the campaign. */
  function Offline(attack: OnlineAttack): Option<Attack> {
    match attack
    case DropOne(i) => Some(Drop(i))
    case ReorderOne(i) => Some(Reorder(i))
    case DuplicateOne(i) => Some(Duplicate(i))
    case TruncateAfter(i) => Some(Truncate(i + 1))
    case StripCheckpoints => Some(CheckpointStrip)
    case _ => None
  }

  /** Working record by record with one record held back, the live adversary delivers exactly what the
      campaign's whole-list mutation delivers, wherever the campaign can place that attack. */
  lemma OnlineRefinesCampaign(attack: OnlineAttack, s: Strategy, cap: Capture, donor: Capture)
    requires Offline(attack).Some? && cap.final.Some? && TerminalOf(s, cap.final.value)
    requires !s.BufferAndSign?
    requires Drawn(Offline(attack).value, cap, donor)
    requires Mutate(cap, donor, Offline(attack).value, s).Some?
    ensures var m := Mutate(cap, donor, Offline(attack).value, s).value;
            && m.chunks == Rewritten(attack, s, cap.chunks)
            && m.final == RewrittenFinal(attack, s, |cap.chunks|, cap.final.value)
  {
  }

  /** The one place where they differ: the last chunk has no successor to be swapped with, so a live
      reorder there never releases the held record and comes out as a drop. */
  lemma ReorderOfLastChunkIsDrop(s: Strategy, chunks: seq<Chunk>, i: nat)
    requires i < |chunks|
    ensures Rewritten(ReorderOne(i), s, chunks) == Rewritten(DropOne(i), s, chunks) <==> i == |chunks| - 1
  {
    if i + 1 < |chunks| {
      assert |Rewritten(ReorderOne(i), s, chunks)| == |chunks|;
      assert |Rewritten(DropOne(i), s, chunks)| == |chunks| - 1;
    }
  }
}
