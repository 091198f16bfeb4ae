/** What a trial of the campaign measures, attack by attack: threats/streaming_attack_campaign.py, lines
    65-120 and 140-157. */
module CampaignTable {
  import opened Bytes
  import opened Primitives
  import opened Records
  import opened Server
  import opened Acceptance
  import opened Soundness
  import opened Replay
  import opened Campaign
  import opened Arithmetic

  /** What a trial that applied has shown: where the client rejected, how much was covered by then,
      how much was delivered, and how much of that was genuine. */
  datatype Observation = Observation(position: Option<nat>, covered: nat, delivered: nat, genuine: nat)

  /** The records that arrive. */
  function Delivered(n: nat, donorLength: nat, attack: Attack): int {
    match attack
    case Drop(_) => n - 1
    case Duplicate(_) => n + 1
    case Truncate(cut) => cut
    case SessionReplay => donorLength
    case DropBeforeCheckpoint(_) => n - 1
    case DropAfterCheckpoint(_) => n - 1
    case _ => n
  }

  /** The first position that is affected. */
  function AffectedFrom(s: Strategy, attack: Attack): nat {
    FirstAffected(attack, if s.HashChain? && s.checkpointInterval > 0 then s.checkpointInterval - 1 else 0)
  }

  /** What is covered before position f of a genuine stream: everything, or up to the last checkpoint. */
  function CoveredBefore(s: Strategy, f: nat): nat {
    match s
    case HashChain(k) => if k > 0 then f - f % k else 0
    case _ => f
  }

  function Expected(s: Strategy, n: nat, donorLength: nat, attack: Attack): Observation
    requires attack.Drop? ==> attack.i < n
  {
    var delivered := Delivered(n, donorLength, attack);
    Observation(Some(CaughtAt(s, n, attack)), CoveredBefore(s, AffectedFrom(s, attack)),
                if delivered > 0 then delivered else 0, AffectedFrom(s, attack))
  }

  /** The streams agree before position f, and at f one has ended or the records differ. */
  ghost predicate PartAt(xs: seq<Chunk>, sent: seq<Chunk>, f: nat) {
    && f <= |xs| && f <= |sent| && xs[..f] == sent[..f]
    && (f < |xs| && f < |sent| ==> xs[f] != sent[f])
  }

  lemma DeliveredIs(cap: Capture, donor: Capture, attack: Attack, s: Strategy)
    requires Drawn(attack, cap, donor) && Mutate(cap, donor, attack, s).Some?
    ensures |Mutate(cap, donor, attack, s).value.chunks| == Delivered(|cap.chunks|, |donor.chunks|, attack)
  {
    if Adaptive(attack) {
      AdaptiveMutation(cap, donor, attack, s);
    }
  }

  lemma DropParts(sent: seq<Chunk>, i: nat)
    requires i < |sent| && forall p | 0 <= p < |sent| :: sent[p].index == p
    ensures PartAt(Without(sent, i), sent, i) && DiffersFirstAt(Without(sent, i), sent, i)
  {
    var xs := Without(sent, i);
    assert xs[..i] == sent[..i];
    assert i < |xs| ==> xs[i] == sent[i + 1];
  }

  lemma SwapParts(sent: seq<Chunk>, i: nat)
    requires i + 1 < |sent| && forall p | 0 <= p < |sent| :: sent[p].index == p
    ensures PartAt(Swapped(sent, i), sent, i) && DiffersFirstAt(Swapped(sent, i), sent, i)
  {
    var xs := Swapped(sent, i);
    assert xs[..i] == sent[..i] && xs[i] == sent[i + 1];
  }

  lemma DoubleParts(sent: seq<Chunk>, i: nat)
    requires i < |sent| && forall p | 0 <= p < |sent| :: sent[p].index == p
    ensures PartAt(Doubled(sent, i), sent, i + 1) && DiffersFirstAt(Doubled(sent, i), sent, i + 1)
  {
    DoubledDiffers(sent, i);
    assert Doubled(sent, i)[i + 1] == sent[i];
  }

  /** The first affected position is that: all records before it are the genuine ones, and the one at it is
      not, or one of the streams ends there. */
  lemma StaticParts(sent: seq<Chunk>, final: Option<Terminal>, donor: Capture, attack: Attack, s: Strategy, m: Mutation)
    requires !Adaptive(attack) && sent != [] && forall p | 0 <= p < |sent| :: sent[p].index == p
    requires forall i | 0 <= i < |donor.chunks| && i < |sent| :: donor.chunks[i] != sent[i]
    requires Drawn(attack, Capture(sent, final), donor) && Mutate(Capture(sent, final), donor, attack, s) == Some(m)
    ensures m.firstAffected == AffectedFrom(s, attack) && PartAt(m.chunks, sent, m.firstAffected)
  {
    match attack
    case Drop(i) => DropParts(sent, i);
    case Reorder(i) => SwapParts(sent, i);
    case Duplicate(i) => DoubleParts(sent, i);
    case ReplayDonor(i) => assert m.chunks[..i] == sent[..i];
    case Truncate(cut) => assert m.chunks[..cut] == sent[..cut];
    case SessionReplay =>
  }

  lemma AdaptiveParts(k: nat, cap: Capture, donor: Capture, attack: Attack, m: Mutation)
    requires k > 0 && Adaptive(attack) && OnSchedule(k, cap.chunks)
    requires forall p | 0 <= p < |cap.chunks| :: cap.chunks[p].index == p
    requires Drawn(attack, cap, donor) && Mutate(cap, donor, attack, HashChain(k)) == Some(m)
    ensures m.firstAffected == AffectedFrom(HashChain(k), attack) && PartAt(m.chunks, cap.chunks, m.firstAffected)
  {
    AdaptiveMutation(cap, donor, attack, HashChain(k));
    StartOfMutation(k, attack, cap, donor);
    DrawnCheckpoint(k, attack, cap, donor);
    if attack.CheckpointStrip? {
      StripKeepsPrefix(k, cap.chunks);
      ScheduleStart(k);
    }
  }

  lemma MutationParts(c: Crypto, s: Strategy, plains: seq<bytes>, cap: Capture, donor: Capture, attack: Attack, m: Mutation)
    requires 0 < |plains| < TWO_TO_32 && !s.BufferAndSign? && Correct(c, s, plains)
    requires forall i | 0 <= i < |donor.chunks| :: !Opens(c, donor.chunks[i])
    requires cap == Captured(c, s, plains) && Drawn(attack, cap, donor) && Mutate(cap, donor, attack, s) == Some(m)
    ensures m.firstAffected == AffectedFrom(s, attack) && PartAt(m.chunks, cap.chunks, m.firstAffected)
  {
    if Adaptive(attack) {
      AdaptiveMutation(cap, donor, attack, s);
      ServedCheckpoints(c, s.checkpointInterval, plains);
      ServedOpens(c, s, plains);
      DrawnCheckpoint(s.checkpointInterval, attack, cap, donor);
      AdaptiveParts(s.checkpointInterval, cap, donor, attack, m);
    } else {
      ServedOpens(c, s, plains);
      forall i | 0 <= i < |donor.chunks| && i < |cap.chunks| ensures donor.chunks[i] != cap.chunks[i] {
        assert Opens(c, cap.chunks[i]);
      }
      StaticParts(cap.chunks, cap.final, donor, attack, s, m);
    }
  }

  /** The largest multiple of k up to f, found from the schedule. */
  lemma LastScheduled(k: nat, n: nat, f: nat)
    requires n <= f && (n == 0 || Scheduled(k, n)) && forall q | n < q <= f :: !Scheduled(k, q)
    ensures n == CoveredBefore(HashChain(k), f)
  {
    if k > 0 {
      var q, r := f / k, f % k;
      assert f == k * q + r;
      ModOf(k, q, 0);
      assert k * q + 0 == f - r;
      assert f - r == 0 || Scheduled(k, f - r);
      assert f - r <= n;
      if n > f - r {
        ModOf(k, q, n - (f - r));
      }
    }
  }

  /** A stream that is genuine before f and has no signed record from f up to p: covered at p is what a
      genuine stream has covered at f. */
  lemma CoveredOf(k: nat, xs: seq<Chunk>, f: nat, p: nat)
    requires f <= p <= |xs|
    requires forall q | 0 <= q < f :: xs[q].Signed() <==> Scheduled(k, q + 1)
    requires CoveredBy(HashChain(k), xs, p) <= f
    ensures CoveredBy(HashChain(k), xs, p) == CoveredBefore(HashChain(k), f)
  {
    var n := CoveredBy(HashChain(k), xs, p);
    forall q | n < q <= f ensures !Scheduled(k, q) {
      assert !xs[q - 1].Signed();
    }
    LastScheduled(k, n, f);
  }

  /** Behind the first affected record only drops, reorders and duplicates can go on, and of those no
      signature behind it verifies. */
  lemma CoveredAtMost(c: Crypto, k: nat, plains: seq<bytes>, sealed: set<(Nonce, bytes)>, xs: seq<Chunk>, f: nat, p: nat)
    requires |plains| < TWO_TO_32 && f <= p <= FirstBad(c, HashChain(k), xs, 0)
    requires Secure(c, HashChain(k), plains, sealed, xs)
    requires p > f ==> DiffersFirstAt(xs, Served(c, HashChain(k), plains), f)
    ensures CoveredBy(HashChain(k), xs, p) <= f
  {
    if p > f {
      DeadFromDifference(c, k, plains, sealed, xs, f);
      NothingCoveredFrom(c, k, xs, f, p);
    }
  }

  lemma PartsInContent(k: nat, cap: Capture, donor: Capture, attack: Attack, m: Mutation)
    requires forall p | 0 <= p < |cap.chunks| :: cap.chunks[p].index == p
    requires Drawn(attack, cap, donor) && Mutate(cap, donor, attack, HashChain(k)) == Some(m)
    requires attack.Drop? || attack.Reorder? || attack.Duplicate? || attack.DropAfterCheckpoint?
    ensures DiffersFirstAt(m.chunks, cap.chunks, m.firstAffected)
  {
    match attack
    case Drop(i) => DropParts(cap.chunks, i);
    case Reorder(i) => SwapParts(cap.chunks, i);
    case Duplicate(i) => DoubleParts(cap.chunks, i);
    case DropAfterCheckpoint(j) => DropParts(cap.chunks, j + 1);
  }

  /** All others are rejected at the first affected position. */
  lemma RejectedAtOnce(k: nat, n: nat, attack: Attack)
    requires attack.Drop? || attack.Reorder? || attack.Duplicate? ==> attack.i < n
    requires CaughtAt(HashChain(k), n, attack) > AffectedFrom(HashChain(k), attack)
    ensures attack.Drop? || attack.Reorder? || attack.Duplicate? || attack.DropAfterCheckpoint?
  {
  }

  /** The table: for every attack, position, interval and length, a trial shows exactly what it says. */
  lemma TrialShows(
    c: Crypto, s: Strategy, plains: seq<bytes>, sealed: set<(Nonce, bytes)>, cap: Capture, donor: Capture, attack: Attack, m: Mutation)
    requires 0 < |plains| && |plains| + 1 < TWO_TO_32 && |donor.chunks| < TWO_TO_32 && !s.BufferAndSign?
    requires Correct(c, s, plains)
    requires forall i | 0 <= i < |donor.chunks| :: !Opens(c, donor.chunks[i])
    requires cap == Captured(c, s, plains) && Drawn(attack, cap, donor) && Mutate(cap, donor, attack, s) == Some(m)
    requires Secure(c, s, plains, sealed, m.chunks)
    ensures |m.chunks| < TWO_TO_32
    ensures var position := RejectedAt(c, s, m.chunks, m.final);
      && position.Some?
      && Observation(position, CoveredBy(s, m.chunks, position.value), |m.chunks|, m.firstAffected)
         == Expected(s, |plains|, |donor.chunks|, attack)
  {
    CampaignCaught(c, s, plains, sealed, cap, donor, attack, m);
    DeliveredIs(cap, donor, attack, s);
    MutationParts(c, s, plains, cap, donor, attack, m);
    match s
    case PerChunk =>
      AffectedPerChunk(cap, donor, attack);
    case HashChain(k) =>
      CoveredInTrial(c, k, plains, sealed, cap, donor, attack, m);
  }

  lemma CoveredInTrial(
    c: Crypto, k: nat, plains: seq<bytes>, sealed: set<(Nonce, bytes)>, cap: Capture, donor: Capture, attack: Attack, m: Mutation)
    requires 0 < |plains| && |plains| + 1 < TWO_TO_32 && |m.chunks| < TWO_TO_32
    requires Correct(c, HashChain(k), plains)
    requires cap == Captured(c, HashChain(k), plains) && Drawn(attack, cap, donor) && Mutate(cap, donor, attack, HashChain(k)) == Some(m)
    requires m.firstAffected == AffectedFrom(HashChain(k), attack) && PartAt(m.chunks, cap.chunks, m.firstAffected)
    requires RejectedAt(c, HashChain(k), m.chunks, m.final) == Some(CaughtAt(HashChain(k), |plains|, attack))
    requires Secure(c, HashChain(k), plains, sealed, m.chunks)
    ensures CoveredBy(HashChain(k), m.chunks, CaughtAt(HashChain(k), |plains|, attack)) == CoveredBefore(HashChain(k), m.firstAffected)
  {
    var p, f := CaughtAt(HashChain(k), |plains|, attack), m.firstAffected;
    ServedCheckpoints(c, k, plains);
    CaughtBehind(k, cap, donor, attack);
    if p > f {
      ServedOpens(c, HashChain(k), plains);
      RejectedAtOnce(k, |plains|, attack);
      PartsInContent(k, cap, donor, attack, m);
    }
    CoveredAtMost(c, k, plains, sealed, m.chunks, f, p);
    forall q | 0 <= q < f ensures m.chunks[q].Signed() <==> Scheduled(k, q + 1) {
      assert m.chunks[q] == m.chunks[..f][q] == cap.chunks[q];
    }
    CoveredOf(k, m.chunks, f, p);
  }

  /** Nothing is rejected before it is affected. */
  lemma CaughtBehind(k: nat, cap: Capture, donor: Capture, attack: Attack)
    requires OnSchedule(k, cap.chunks)
    requires Drawn(attack, cap, donor) && Mutate(cap, donor, attack, HashChain(k)).Some?
    ensures AffectedFrom(HashChain(k), attack) <= CaughtAt(HashChain(k), |cap.chunks|, attack)
  {
    if k > 0 {
      StartOfMutation(k, attack, cap, donor);
      CaughtWithinWindow(k, |cap.chunks|, attack);
    } else {
      NoCheckpoints(cap.chunks);
    }
  }

  lemma {:induction false} NoCheckpoints(chunks: seq<Chunk>)
    requires OnSchedule(0, chunks)
    ensures CheckpointPositions(chunks) == []
  {
    if chunks != [] {
      NoCheckpoints(Init(chunks));
    }
  }

  /** A per-chunk client stops at the first affected record. */
  lemma AffectedPerChunk(cap: Capture, donor: Capture, attack: Attack)
    requires Drawn(attack, cap, donor) && Mutate(cap, donor, attack, PerChunk).Some?
    ensures Mutate(cap, donor, attack, PerChunk).value.firstAffected == CaughtAt(PerChunk, |cap.chunks|, attack)
  {
  }

  /** A record that the adversary did not make: it comes from one of the captures, with its own signature,
      none, or that of another captured record. */
  ghost predicate Captive(x: Chunk, cap: Capture, donor: Capture) {
    && (exists y :: y in cap.chunks + donor.chunks && Strip(x) == Strip(y))
    && (x.signature == [] || exists y :: y in cap.chunks + donor.chunks && x.signature == y.signature)
  }

  lemma FromCaptures(x: Chunk, y: Chunk, z: Chunk, cap: Capture, donor: Capture)
    requires y in cap.chunks + donor.chunks && Strip(x) == Strip(y)
    requires x.signature == [] || (z in cap.chunks + donor.chunks && x.signature == z.signature)
    ensures Captive(x, cap, donor)
  {
  }

  /** No attack forges anything: every record that arrives is captive, and so is the terminal record, which
      only a cut loses and only a session replay takes from the donor. */
  lemma NothingForged(cap: Capture, donor: Capture, attack: Attack, s: Strategy, m: Mutation)
    requires Drawn(attack, cap, donor) && Mutate(cap, donor, attack, s) == Some(m)
    ensures forall x | x in m.chunks :: Captive(x, cap, donor)
    ensures m.final == if attack.Truncate? then None else if attack.SessionReplay? then donor.final else cap.final
    ensures attack.ReplayDonor? ==> m.chunks == cap.chunks[attack.i := donor.chunks[attack.i]]
    ensures attack.SessionReplay? ==> m.chunks == donor.chunks
  {
    forall x | x in m.chunks ensures Captive(x, cap, donor) {
      var p :| 0 <= p < |m.chunks| && m.chunks[p] == x;
      if x in cap.chunks + donor.chunks {
        FromCaptures(x, x, x, cap, donor);
      } else {
        assert attack.CheckpointStrip? || attack.CheckpointMove?;
        AlteredRecord(cap, donor, attack, s, m, p);
      }
    }
  }

  lemma AlteredRecord(cap: Capture, donor: Capture, attack: Attack, s: Strategy, m: Mutation, p: nat)
    requires attack.CheckpointStrip? || attack.CheckpointMove?
    requires Drawn(attack, cap, donor) && Mutate(cap, donor, attack, s) == Some(m) && p < |m.chunks|
    ensures Captive(m.chunks[p], cap, donor)
  {
    AdaptiveMutation(cap, donor, attack, s);
    var from := if attack.CheckpointMove? && p == attack.j + 1 then attack.j else p;
    assert cap.chunks[p] in cap.chunks + donor.chunks && cap.chunks[from] in cap.chunks + donor.chunks;
    FromCaptures(m.chunks[p], cap.chunks[p], cap.chunks[from], cap, donor);
  }
}
