/** The sequence attacks of the stream-integrity campaign and where each one is caught:
    threats/streaming_attack_campaign.py, lines 61-120. */
module Campaign {
  import opened Bytes
  import opened Primitives
  import opened Records
  import opened Server
  import opened Acceptance
  import opened Soundness
  import opened Replay
  import opened Arithmetic

  /** An attack together with the position the random generator chose for it. */
  datatype Attack =
    | Drop(i: nat)
    | Reorder(i: nat)
    | Duplicate(i: nat)
    | ReplayDonor(i: nat)
    | Truncate(cut: nat)
    | SessionReplay
    | CheckpointStrip
    | CheckpointMove(j: nat)
    | DropBeforeCheckpoint(j: nat)
    | DropAfterCheckpoint(j: nat)
    | ReorderAcross(j: nat)

  datatype Capture = Capture(chunks: seq<Chunk>, final: Option<Terminal>)

  datatype Mutation = Mutation(chunks: seq<Chunk>, final: Option<Terminal>, firstAffected: nat)

  function CheckpointPositions(chunks: seq<Chunk>): (r: seq<nat>)
    ensures forall j: nat :: j in r <==> j < |chunks| && chunks[j].Signed()
    ensures forall j | j in r :: r[0] <= j
  {
    if chunks == [] then []
    else
      var r := CheckpointPositions(Init(chunks));
      assert r != [] ==> r[0] in r;
      if Last(chunks).Signed() then r + [|chunks| - 1] else r
  }

  function Strip(x: Chunk): Chunk {
    x.(signature := [])
  }

  function StripAll(chunks: seq<Chunk>): (r: seq<Chunk>)
    ensures |r| == |chunks| && forall i | 0 <= i < |chunks| :: r[i] == Strip(chunks[i])
  {
    seq(|chunks|, i requires 0 <= i < |chunks| => Strip(chunks[i]))
  }

  function Without<T>(chunks: seq<T>, i: nat): seq<T>
    requires i < |chunks|
  {
    chunks[..i] + chunks[i + 1..]
  }

  function Swapped<T>(chunks: seq<T>, i: nat): seq<T>
    requires i + 1 < |chunks|
  {
    chunks[i := chunks[i + 1]][i + 1 := chunks[i]]
  }

  function Doubled<T>(chunks: seq<T>, i: nat): seq<T>
    requires i < |chunks|
  {
    chunks[..i + 1] + [chunks[i]] + chunks[i + 1..]
  }

  function Moved(chunks: seq<Chunk>, j: nat): (r: seq<Chunk>)
    requires j + 1 < |chunks|
    ensures |r| == |chunks| && forall i | 0 <= i < |chunks| :: Strip(r[i]) == Strip(chunks[i])
    ensures r[j].signature == [] && r[j + 1].signature == chunks[j].signature
    ensures forall i | 0 <= i < |chunks| && i != j && i != j + 1 :: r[i] == chunks[i]
  {
    chunks[j + 1 := chunks[j + 1].(signature := chunks[j].signature)][j := Strip(chunks[j])]
  }

  /** The positions the generator can draw. */
  predicate Drawn(attack: Attack, cap: Capture, donor: Capture) {
    var n := |cap.chunks|;
    match attack
    case Drop(i) => i < n
    case Reorder(i) => i + 1 < n
    case Duplicate(i) => i < n
    case ReplayDonor(i) => i < n && i < |donor.chunks|
    case Truncate(cut) => 1 <= cut <= n
    case SessionReplay => true
    case CheckpointStrip => true
    case CheckpointMove(j) => CheckpointPositions(cap.chunks) != [] ==> j in CheckpointPositions(cap.chunks)
    case DropBeforeCheckpoint(j) => CheckpointPositions(cap.chunks) != [] ==> j in CheckpointPositions(cap.chunks)
    case DropAfterCheckpoint(j) => CheckpointPositions(cap.chunks) != [] ==> j in CheckpointPositions(cap.chunks)
    case ReorderAcross(j) => CheckpointPositions(cap.chunks) != [] ==> j in CheckpointPositions(cap.chunks)
  }

  predicate Adaptive(attack: Attack) {
    attack.CheckpointStrip? || attack.CheckpointMove? || attack.DropBeforeCheckpoint? || attack.DropAfterCheckpoint?
    || attack.ReorderAcross?
  }

  /** Is there a neighbour for the drawn checkpoint to be played against? */
  predicate HasRoom(attack: Attack, n: nat)
    requires Adaptive(attack)
  {
    match attack
    case CheckpointStrip => true
    case DropBeforeCheckpoint(j) => 0 < j < n
    case _ => attack.j + 1 < n
  }

  function Adapted(chunks: seq<Chunk>, attack: Attack): seq<Chunk>
    requires Adaptive(attack) && HasRoom(attack, |chunks|)
  {
    match attack
    case CheckpointStrip => StripAll(chunks)
    case CheckpointMove(j) => Moved(chunks, j)
    case DropBeforeCheckpoint(j) => Without(chunks, j - 1)
    case DropAfterCheckpoint(j) => Without(chunks, j + 1)
    case ReorderAcross(j) => Swapped(chunks, j)
  }

  /** The first position whose content is no longer that of the genuine stream.  Stripping affects the
      first checkpoint first. */
  function FirstAffected(attack: Attack, firstCheckpoint: nat): nat {
    match attack
    case Drop(i) => i
    case Reorder(i) => i
    case Duplicate(i) => i + 1
    case ReplayDonor(i) => i
    case Truncate(cut) => cut
    case SessionReplay => 0
    case CheckpointStrip => firstCheckpoint
    case CheckpointMove(j) => j
    case DropBeforeCheckpoint(j) => if j > 0 then j - 1 else 0
    case DropAfterCheckpoint(j) => j + 1
    case ReorderAcross(j) => j
  }

  /** The mutated stream, or None when the attack does not apply to this one. */
  function Mutate(cap: Capture, donor: Capture, attack: Attack, s: Strategy): Option<Mutation>
    requires Drawn(attack, cap, donor)
  {
    var chunks, final, n := cap.chunks, cap.final, |cap.chunks|;
    match attack
    case Drop(i) => Some(Mutation(Without(chunks, i), final, FirstAffected(attack, 0)))
    case Reorder(i) => Some(Mutation(Swapped(chunks, i), final, FirstAffected(attack, 0)))
    case Duplicate(i) => Some(Mutation(Doubled(chunks, i), final, FirstAffected(attack, 0)))
    case ReplayDonor(i) => Some(Mutation(chunks[i := donor.chunks[i]], final, FirstAffected(attack, 0)))
    case Truncate(cut) => Some(Mutation(chunks[..cut], None, FirstAffected(attack, 0)))
    case SessionReplay => Some(Mutation(donor.chunks, donor.final, FirstAffected(attack, 0)))
    case _ =>
      var ck := CheckpointPositions(chunks);
      if !s.HashChain? || ck == [] || !HasRoom(attack, n) then None
      else
        Some(Mutation(Adapted(chunks, attack), final, FirstAffected(attack, ck[0])))
  }

  /** The end of the window of position i, or the end of a stream without checkpoints. */
  function WindowEndOr(k: nat, i: nat, end: nat): (p: nat)
    ensures p <= end
  {
    if k == 0 then end else Min(WindowEnd(k, i), end)
  }

  function DropPosition(s: Strategy, n: nat, i: nat): nat
    requires i < n
  {
    match s
    case HashChain(k) =>
      if i == n - 1 || Scheduled(k, i + 1) then i
      else if k == 0 then n - 1
      else
        var w := WindowEnd(k, i);
        Min(if w > 0 then w - 1 else 0, n - 1)
    case _ => i
  }

  function ReorderPosition(s: Strategy, n: nat, i: nat): nat {
    match s
    case HashChain(k) => if Scheduled(k, i + 1) || Scheduled(k, i + 2) then i else WindowEndOr(k, i, n)
    case _ => i
  }

  function DuplicatePosition(s: Strategy, n: nat, i: nat): nat {
    match s
    case HashChain(k) => if Scheduled(k, i + 1) then i + 1 else WindowEndOr(k, i, n + 1)
    case _ => i + 1
  }

  /** Where the client catches each attack on a stream of n chunks. */
  function CaughtAt(s: Strategy, n: nat, attack: Attack): nat
    requires attack.Drop? ==> attack.i < n
  {
    match attack
    case Drop(i) => DropPosition(s, n, i)
    case Reorder(i) => ReorderPosition(s, n, i)
    case Duplicate(i) => DuplicatePosition(s, n, i)
    case ReplayDonor(i) => i
    case Truncate(cut) => cut
    case SessionReplay => 0
    case CheckpointStrip => if s.HashChain? && s.checkpointInterval > 0 then s.checkpointInterval - 1 else 0
    case CheckpointMove(j) => j
    case DropBeforeCheckpoint(j) => if j > 0 then j - 1 else 0
    case DropAfterCheckpoint(j) =>
      if s.HashChain? && s.checkpointInterval > 1 then Min(j + s.checkpointInterval - 1, if n > 0 then n - 1 else 0) else j + 1
    case ReorderAcross(j) => j
  }

  predicate OnSchedule(k: nat, xs: seq<Chunk>) {
    forall i | 0 <= i < |xs| :: xs[i].Signed() <==> Scheduled(k, i + 1)
  }

  /** A served stream carries checkpoints at exactly the scheduled positions. */
  lemma ServedCheckpoints(c: Crypto, k: nat, plains: seq<bytes>)
    requires |plains| < TWO_TO_32
    requires Correct(c, HashChain(k), plains)
    ensures OnSchedule(k, Served(c, HashChain(k), plains))
  {
    var sent := Served(c, HashChain(k), plains);
    forall i | 0 <= i < |sent| ensures sent[i].Signed() <==> Scheduled(k, i + 1) {
      ServedFields(c, HashChain(k), plains, i);
      if Scheduled(k, i + 1) {
        LinksOfPrefix(sent, i + 1);
        assert CheckpointAt(c, sent, i) in SignedLog(c, HashChain(k), plains);
        assert SignatureWorks(c, i, CheckpointAt(c, sent, i));
      }
    }
  }

  lemma ServedOpens(c: Crypto, s: Strategy, plains: seq<bytes>)
    requires |plains| < TWO_TO_32 && !s.BufferAndSign?
    requires Correct(c, s, plains)
    ensures forall i | 0 <= i < |plains| :: Opens(c, Served(c, s, plains)[i])
    ensures forall i | 0 <= i < |plains| :: Served(c, s, plains)[i].index == i
  {
    forall i | 0 <= i < |plains|
      ensures Opens(c, Served(c, s, plains)[i]) && Served(c, s, plains)[i].index == i
    {
      ServedFields(c, s, plains, i);
      assert RoundTrips(c, i, plains[i]);
    }
  }

  /** Past position d every row opens, and signatures and schedule leave position `trip` as the
      first one to stop at. */
  lemma FirstTripIs(c: Crypto, k: nat, xs: seq<Chunk>, d: nat, trip: nat)
    requires d <= trip <= |xs|
    requires forall p | d <= p < trip :: Opens(c, xs[p]) && !xs[p].Signed()
    requires forall n | d < n <= trip :: !Scheduled(k, n)
    requires trip < |xs| ==> Trips(c, k, xs, trip)
    ensures FirstTrip(c, k, xs, d) == trip
  {
    var r := FirstTrip(c, k, xs, d);
    assert r < trip ==> !Trips(c, k, xs, r);
  }

  /** No multiple of k lies strictly between i + 1 and the end of i's window. */
  lemma QuietUntilWindowEnd(k: nat, i: nat, end: nat)
    requires i <= end
    ensures var w := WindowEndOr(k, i, end);
            && i <= w
            && (forall n | i < n <= w :: !Scheduled(k, n))
            && (w < end ==> Scheduled(k, w + 1))
  {
    if k > 0 {
      WindowEndProperties(k, i);
    }
  }

  lemma DropCaught(
    c: Crypto, s: Strategy, plains: seq<bytes>, sealed: set<(Nonce, bytes)>, final: Option<Terminal>, i: nat)
    requires |plains| < TWO_TO_32 && !s.BufferAndSign?
    requires i < |plains|
    requires Correct(c, s, plains) && Secure(c, s, plains, sealed, Without(Served(c, s, plains), i))
    ensures RejectedAt(c, s, Without(Served(c, s, plains), i), final) == Some(DropPosition(s, |plains|, i))
  {
    var sent, n := Served(c, s, plains), |plains|;
    var xs := Without(sent, i);
    if i == n - 1 {
      assert xs == sent[..i];
      ExactTruncation(c, s, s, plains, sealed, final, i);
    } else {
      ServedOpens(c, s, plains);
      assert xs[..i] == sent[..i] && xs[i] == sent[i + 1];
      assert DiffersFirstAt(xs, sent, i);
      ExactDetectionOf(c, s, plains, sealed, xs, final, i);
      if s.HashChain? {
        ServedCheckpoints(c, s.checkpointInterval, plains);
        DropTrip(c, s.checkpointInterval, sent, i);
      }
    }
  }

  /** The first row to stop at after a drop: a checkpoint arrives one position too early. */
  lemma DropTrip(c: Crypto, k: nat, sent: seq<Chunk>, i: nat)
    requires i + 1 < |sent|
    requires forall p | 0 <= p < |sent| :: Opens(c, sent[p])
    requires OnSchedule(k, sent)
    ensures FirstTrip(c, k, Without(sent, i), i) == DropPosition(HashChain(k), |sent|, i)
  {
    var xs, n := Without(sent, i), |sent|;
    assert forall p | i <= p < n - 1 :: xs[p] == sent[p + 1];
    var trip := DropPosition(HashChain(k), n, i);
    if !Scheduled(k, i + 1) {
      QuietUntilWindowEnd(k, i, n);
      var w := WindowEndOr(k, i, n);
      assert Scheduled(k, w + 1) || w == n;
      assert trip == w - 1;
    }
    FirstTripIs(c, k, xs, i, trip);
  }

  lemma ReorderCaught(
    c: Crypto, s: Strategy, plains: seq<bytes>, sealed: set<(Nonce, bytes)>, final: Option<Terminal>, i: nat)
    requires |plains| < TWO_TO_32 && !s.BufferAndSign?
    requires i + 1 < |plains|
    requires Correct(c, s, plains) && Secure(c, s, plains, sealed, Swapped(Served(c, s, plains), i))
    ensures RejectedAt(c, s, Swapped(Served(c, s, plains), i), final) == Some(ReorderPosition(s, |plains|, i))
  {
    var sent, n := Served(c, s, plains), |plains|;
    var xs := Swapped(sent, i);
    ServedOpens(c, s, plains);
    assert xs[..i] == sent[..i] && xs[i] == sent[i + 1];
    assert DiffersFirstAt(xs, sent, i);
    ExactDetectionOf(c, s, plains, sealed, xs, final, i);
    if s.HashChain? {
      ServedCheckpoints(c, s.checkpointInterval, plains);
      ReorderTrip(c, s.checkpointInterval, sent, i);
    }
  }

  lemma ReorderTrip(c: Crypto, k: nat, sent: seq<Chunk>, i: nat)
    requires i + 1 < |sent|
    requires forall p | 0 <= p < |sent| :: Opens(c, sent[p])
    requires OnSchedule(k, sent)
    ensures FirstTrip(c, k, Swapped(sent, i), i) == ReorderPosition(HashChain(k), |sent|, i)
  {
    var xs, n := Swapped(sent, i), |sent|;
    var trip := ReorderPosition(HashChain(k), n, i);
    if !Scheduled(k, i + 1) && !Scheduled(k, i + 2) {
      QuietUntilWindowEnd(k, i, n);
      forall p | i <= p < trip ensures !xs[p].Signed() {
        assert !Scheduled(k, p + 1);
      }
    }
    FirstTripIs(c, k, xs, i, trip);
  }

  lemma DuplicateCaught(
    c: Crypto, s: Strategy, plains: seq<bytes>, sealed: set<(Nonce, bytes)>, final: Option<Terminal>, i: nat)
    requires |plains| + 1 < TWO_TO_32 && !s.BufferAndSign?
    requires i < |plains|
    requires Correct(c, s, plains) && Secure(c, s, plains, sealed, Doubled(Served(c, s, plains), i))
    ensures RejectedAt(c, s, Doubled(Served(c, s, plains), i), final) == Some(DuplicatePosition(s, |plains|, i))
  {
    var sent, n := Served(c, s, plains), |plains|;
    var xs := Doubled(sent, i);
    ServedOpens(c, s, plains);
    DoubledDiffers(sent, i);
    ExactDetectionOf(c, s, plains, sealed, xs, final, i + 1);
    if s.HashChain? {
      ServedCheckpoints(c, s.checkpointInterval, plains);
      DuplicateTrip(c, s.checkpointInterval, sent, i);
    }
  }

  lemma DoubledDiffers(sent: seq<Chunk>, i: nat)
    requires i < |sent|
    requires forall p | 0 <= p < |sent| :: sent[p].index == p
    ensures Doubled(sent, i)[..i + 1] == sent[..i + 1]
    ensures DiffersFirstAt(Doubled(sent, i), sent, i + 1)
  {
    assert Doubled(sent, i)[i + 1] == sent[i];
  }

  lemma DuplicateTrip(c: Crypto, k: nat, sent: seq<Chunk>, i: nat)
    requires i < |sent|
    requires forall p | 0 <= p < |sent| :: Opens(c, sent[p])
    requires OnSchedule(k, sent)
    ensures FirstTrip(c, k, Doubled(sent, i), i + 1) == DuplicatePosition(HashChain(k), |sent|, i)
  {
    var xs, n := Doubled(sent, i), |sent|;
    assert forall p | i < p <= n :: xs[p] == sent[p - 1];
    var trip := DuplicatePosition(HashChain(k), n, i);
    if !Scheduled(k, i + 1) {
      QuietUntilWindowEnd(k, i, n + 1);
      forall p | i + 1 <= p < trip ensures !xs[p].Signed() {
        assert !Scheduled(k, p);
      }
    }
    FirstTripIs(c, k, xs, i + 1, trip);
  }

  /** A record of another session in place of chunk i. */
  lemma ReplayCaught(
    c: Crypto, s: Strategy, plains: seq<bytes>, sealed: set<(Nonce, bytes)>, final: Option<Terminal>, i: nat, y: Chunk)
    requires |plains| < TWO_TO_32 && !s.BufferAndSign?
    requires i < |plains|
    requires !Opens(c, y)
    requires Correct(c, s, plains) && Secure(c, s, plains, sealed, Served(c, s, plains)[i := y])
    ensures RejectedAt(c, s, Served(c, s, plains)[i := y], final) == Some(i)
  {
    var sent := Served(c, s, plains);
    var xs := sent[i := y];
    ServedOpens(c, s, plains);
    assert xs[..i] == sent[..i];
    assert DiffersFirstAt(xs, sent, i);
    ExactDetectionOf(c, s, plains, sealed, xs, final, i);
  }

  /** Another session's whole stream. */
  lemma SessionReplayCaught(
    c: Crypto, s: Strategy, plains: seq<bytes>, sealed: set<(Nonce, bytes)>, xs: seq<Chunk>, final: Option<Terminal>)
    requires 0 < |plains| < TWO_TO_32 && |xs| < TWO_TO_32 && !s.BufferAndSign?
    requires xs != [] ==> !Opens(c, xs[0])
    requires Correct(c, s, plains) && Secure(c, s, plains, sealed, xs)
    ensures RejectedAt(c, s, xs, final) == Some(0)
  {
    var sent := Served(c, s, plains);
    if xs == [] {
      assert xs == sent[..0];
      ExactTruncation(c, s, s, plains, sealed, final, 0);
    } else {
      ServedOpens(c, s, plains);
      assert DiffersFirstAt(xs, sent, 0);
      ExactDetectionOf(c, s, plains, sealed, xs, final, 0);
    }
  }

  /** A scheduled row whose signature is gone stops an enforcing client. */
  lemma MissingCheckpointStops(c: Crypto, k: nat, xs: seq<Chunk>, final: Option<Terminal>, j: nat)
    requires j < |xs| < TWO_TO_32
    requires FirstBad(c, HashChain(k), xs, 0) >= j
    requires !xs[j].Signed() && Scheduled(k, j + 1)
    ensures RejectedAt(c, HashChain(k), xs, final) == Some(j)
  {
    if FirstBad(c, HashChain(k), xs, 0) > j {
      BeforeBad(c, k, xs, j);
    }
  }

  lemma StripCaught(c: Crypto, k: nat, plains: seq<bytes>, final: Option<Terminal>)
    requires |plains| < TWO_TO_32
    requires 0 < k <= |plains|
    requires Correct(c, HashChain(k), plains)
    ensures RejectedAt(c, HashChain(k), StripAll(Served(c, HashChain(k), plains)), final) == Some(k - 1)
  {
    var sent := Served(c, HashChain(k), plains);
    var xs := StripAll(sent);
    ServedCheckpoints(c, k, plains);
    ScheduleStart(k);
    StripKeepsPrefix(k, sent);
    FirstBadAfterGenuinePrefix(c, HashChain(k), HashChain(k), plains, xs, k - 1);
    MissingCheckpointStops(c, k, xs, final, k - 1);
  }

  lemma StripKeepsPrefix(k: nat, sent: seq<Chunk>)
    requires 0 < k <= |sent|
    requires OnSchedule(k, sent)
    ensures StripAll(sent)[..k - 1] == sent[..k - 1]
  {
    ScheduleStart(k);
    forall i | 0 <= i < k - 1 ensures StripAll(sent)[i] == sent[i] {
      assert !Scheduled(k, i + 1);
    }
  }

  lemma MoveCaught(c: Crypto, k: nat, plains: seq<bytes>, final: Option<Terminal>, j: nat)
    requires |plains| < TWO_TO_32
    requires j + 1 < |plains| && Scheduled(k, j + 1)
    requires Correct(c, HashChain(k), plains)
    ensures RejectedAt(c, HashChain(k), Moved(Served(c, HashChain(k), plains), j), final) == Some(j)
  {
    var sent := Served(c, HashChain(k), plains);
    var xs := Moved(sent, j);
    assert xs[..j] == sent[..j];
    FirstBadAfterGenuinePrefix(c, HashChain(k), HashChain(k), plains, xs, j);
    MissingCheckpointStops(c, k, xs, final, j);
  }

  /** A client that does not enforce the schedule accepts the stripped stream, whatever k is. */
  lemma StripAcceptedWhenNotEnforced(c: Crypto, k: nat, plains: seq<bytes>)
    requires |plains| < TWO_TO_32
    requires Correct(c, HashChain(k), plains)
    ensures Accepted(c, HashChain(0), StripAll(Served(c, HashChain(k), plains)), Some(ServedFinal(c, HashChain(k), plains)))
  {
    var sent := Served(c, HashChain(k), plains);
    var xs := StripAll(sent);
    assert Links(xs) == Links(sent);
    ServedOpens(c, HashChain(k), plains);
    GenuineFinalOk(c, HashChain(0), HashChain(k), plains, xs);
  }

  /** A mutation adds at most one record. */
  lemma MutatedShort(cap: Capture, donor: Capture, attack: Attack, s: Strategy)
    requires Drawn(attack, cap, donor) && Mutate(cap, donor, attack, s).Some?
    ensures |Mutate(cap, donor, attack, s).value.chunks| <= Max(|cap.chunks| + 1, |donor.chunks|)
  {
  }

  function Captured(c: Crypto, s: Strategy, plains: seq<bytes>): Capture
    requires |plains| < TWO_TO_32
  {
    Capture(Served(c, s, plains), Some(ServedFinal(c, s, plains)))
  }

  /** The campaign, for every stream, interval and position: each applicable attack is caught, at
      exactly the tabulated position.  A donor's records do not open under the victim's key. */
  lemma CampaignCaught(
    c: Crypto, s: Strategy, plains: seq<bytes>, sealed: set<(Nonce, bytes)>, cap: Capture, donor: Capture, attack: Attack, m: Mutation)
    requires 0 < |plains| && |plains| + 1 < TWO_TO_32 && |donor.chunks| < TWO_TO_32 && !s.BufferAndSign?
    requires Correct(c, s, plains)
    requires forall i | 0 <= i < |donor.chunks| :: !Opens(c, donor.chunks[i])
    requires cap == Captured(c, s, plains) && Drawn(attack, cap, donor) && Mutate(cap, donor, attack, s) == Some(m)
    requires Secure(c, s, plains, sealed, m.chunks)
    ensures |m.chunks| < TWO_TO_32
    ensures RejectedAt(c, s, m.chunks, m.final) == Some(CaughtAt(s, |plains|, attack))
  {
    MutatedShort(cap, donor, attack, s);
    if Adaptive(attack) {
      AdaptiveMutation(cap, donor, attack, s);
      ServedCheckpoints(c, s.checkpointInterval, plains);
      DrawnCheckpoint(s.checkpointInterval, attack, cap, donor);
      AdaptiveCaught(c, s.checkpointInterval, plains, sealed, m.chunks, m.final, attack);
    } else {
      StaticCaught(c, s, plains, sealed, donor, attack, m);
    }
  }

  lemma AdaptiveMutation(cap: Capture, donor: Capture, attack: Attack, s: Strategy)
    requires Adaptive(attack) && Drawn(attack, cap, donor) && Mutate(cap, donor, attack, s).Some?
    ensures s.HashChain? && HasRoom(attack, |cap.chunks|)
    ensures Mutate(cap, donor, attack, s).value.chunks == Adapted(cap.chunks, attack)
  {
  }

  lemma StaticCaught(
    c: Crypto, s: Strategy, plains: seq<bytes>, sealed: set<(Nonce, bytes)>, donor: Capture, attack: Attack, m: Mutation)
    requires 0 < |plains| && |plains| + 1 < TWO_TO_32 && |donor.chunks| < TWO_TO_32 && !s.BufferAndSign?
    requires Correct(c, s, plains)
    requires forall i | 0 <= i < |donor.chunks| :: !Opens(c, donor.chunks[i])
    requires !Adaptive(attack) && Drawn(attack, Captured(c, s, plains), donor)
    requires Mutate(Captured(c, s, plains), donor, attack, s) == Some(m) && |m.chunks| < TWO_TO_32
    requires Secure(c, s, plains, sealed, m.chunks)
    ensures RejectedAt(c, s, m.chunks, m.final) == Some(CaughtAt(s, |plains|, attack))
  {
    match attack
    case Drop(i) => DropCaught(c, s, plains, sealed, m.final, i);
    case Reorder(i) => ReorderCaught(c, s, plains, sealed, m.final, i);
    case Duplicate(i) => DuplicateCaught(c, s, plains, sealed, m.final, i);
    case ReplayDonor(i) => ReplayCaught(c, s, plains, sealed, m.final, i, donor.chunks[i]);
    case Truncate(cut) => ExactTruncation(c, s, s, plains, sealed, None, cut);
    case SessionReplay => SessionReplayCaught(c, s, plains, sealed, m.chunks, m.final);
  }

  lemma AdaptiveCaught(
    c: Crypto, k: nat, plains: seq<bytes>, sealed: set<(Nonce, bytes)>, xs: seq<Chunk>, final: Option<Terminal>, attack: Attack)
    requires 0 < k <= |plains| < TWO_TO_32
    requires Adaptive(attack) && HasRoom(attack, |plains|)
    requires !attack.CheckpointStrip? ==> Scheduled(k, attack.j + 1)
    requires xs == Adapted(Served(c, HashChain(k), plains), attack) && |xs| < TWO_TO_32
    requires Correct(c, HashChain(k), plains) && Secure(c, HashChain(k), plains, sealed, xs)
    ensures RejectedAt(c, HashChain(k), xs, final) == Some(CaughtAt(HashChain(k), |plains|, attack))
  {
    AdaptivePosition(k, |plains|, attack);
    match attack
    case CheckpointStrip => StripCaught(c, k, plains, final);
    case CheckpointMove(j) => MoveCaught(c, k, plains, final, j);
    case _ => NeighbourCaught(c, k, plains, sealed, xs, final, attack);
  }

  /** The attacks that drop or swap a neighbour of the checkpoint. */
  lemma NeighbourCaught(
    c: Crypto, k: nat, plains: seq<bytes>, sealed: set<(Nonce, bytes)>, xs: seq<Chunk>, final: Option<Terminal>, attack: Attack)
    requires 0 < k <= |plains| < TWO_TO_32
    requires attack.DropBeforeCheckpoint? || attack.DropAfterCheckpoint? || attack.ReorderAcross?
    requires HasRoom(attack, |plains|)
    requires xs == Adapted(Served(c, HashChain(k), plains), attack) && |xs| < TWO_TO_32
    requires Correct(c, HashChain(k), plains) && Secure(c, HashChain(k), plains, sealed, xs)
    ensures RejectedAt(c, HashChain(k), xs, final) == Some(PositionAsDropOrReorder(k, |plains|, attack))
  {
    match attack
    case DropBeforeCheckpoint(j) => DropCaught(c, HashChain(k), plains, sealed, final, j - 1);
    case DropAfterCheckpoint(j) => DropCaught(c, HashChain(k), plains, sealed, final, j + 1);
    case ReorderAcross(j) => ReorderCaught(c, HashChain(k), plains, sealed, final, j);
  }

  /** The adaptive attacks are drops and reorders at a checkpoint, or leave one missing. */
  function PositionAsDropOrReorder(k: nat, n: nat, attack: Attack): nat
    requires k > 0 && Adaptive(attack) && HasRoom(attack, n)
  {
    match attack
    case CheckpointStrip => k - 1
    case CheckpointMove(j) => j
    case DropBeforeCheckpoint(j) => DropPosition(HashChain(k), n, j - 1)
    case DropAfterCheckpoint(j) => DropPosition(HashChain(k), n, j + 1)
    case ReorderAcross(j) => ReorderPosition(HashChain(k), n, j)
  }

  lemma AdaptivePosition(k: nat, n: nat, attack: Attack)
    requires k > 0 && Adaptive(attack) && HasRoom(attack, n)
    requires !attack.CheckpointStrip? ==> Scheduled(k, attack.j + 1)
    ensures CaughtAt(HashChain(k), n, attack) == PositionAsDropOrReorder(k, n, attack)
  {
    match attack
    case DropBeforeCheckpoint(j) => DropAroundCheckpoint(k, n, j);
    case DropAfterCheckpoint(j) => DropAroundCheckpoint(k, n, j);
    case _ =>
  }

  /** The checkpoint an adaptive attack works on is a scheduled position; the first one, which
      stripping affects first, is k - 1. */
  lemma DrawnCheckpoint(k: nat, attack: Attack, cap: Capture, donor: Capture)
    requires OnSchedule(k, cap.chunks)
    requires Adaptive(attack)
    requires Drawn(attack, cap, donor) && Mutate(cap, donor, attack, HashChain(k)).Some?
    ensures !attack.CheckpointStrip? ==> attack.j < |cap.chunks| && Scheduled(k, attack.j + 1)
    ensures 0 < k <= |cap.chunks|
    ensures attack.CheckpointStrip? ==> CheckpointPositions(cap.chunks)[0] == k - 1
  {
    var ck := CheckpointPositions(cap.chunks);
    var first := ck[0];
    assert first in ck;
    assert Scheduled(k, first + 1);
    ScheduleStart(k);
    assert first >= k - 1;
    assert (k - 1) as nat in ck;
  }

  lemma ScheduleStart(k: nat)
    requires k > 0
    ensures Scheduled(k, k)
    ensures forall n | 0 < n < k :: !Scheduled(k, n)
  {
    assert k * 1 + 0 == k;
    ModOf(k, 1, 0);
  }

  /** Around a checkpoint at j: its own window ends at j, the next one at j + k. */
  lemma NeighboursOfCheckpoint(k: nat, j: nat)
    requires Scheduled(k, j + 1)
    ensures k == 1 ==> Scheduled(k, j) && Scheduled(k, j + 2)
    ensures k > 1 ==> !Scheduled(k, j + 2) && WindowEnd(k, j + 1) == j + k
    ensures k > 1 && j > 0 ==> !Scheduled(k, j) && WindowEnd(k, j - 1) == j
  {
    var q := (j + 1) / k;
    assert j + 1 == k * q;
    if k > 1 {
      ModOf(k, q, 0);
      ModOf(k, q, 1);
      assert k * (q + 1) == k * q + k;
      if j > 0 {
        assert k * (q - 1) == k * q - k;
        assert q >= 1;
        ModOf(k, q - 1, k - 1);
        ModOf(k, q - 1, k - 2);
      }
    }
  }

  lemma DropAroundCheckpoint(k: nat, n: nat, j: nat)
    requires j < n && Scheduled(k, j + 1)
    ensures j > 0 ==> DropPosition(HashChain(k), n, j - 1) == CaughtAt(HashChain(k), n, DropBeforeCheckpoint(j))
    ensures j + 1 < n ==> DropPosition(HashChain(k), n, j + 1) == CaughtAt(HashChain(k), n, DropAfterCheckpoint(j))
  {
    NeighboursOfCheckpoint(k, j);
  }

  /** What the campaign reports as exposure: a client that enforces a schedule of k shows fewer than
      k attacker-influenced chunks before it rejects, and fewer than k that no signature covers. */
  lemma CampaignExposure(
    c: Crypto, k: nat, plains: seq<bytes>, sealed: set<(Nonce, bytes)>, cap: Capture, donor: Capture, attack: Attack, m: Mutation)
    requires 0 < k && 0 < |plains| && |plains| + 1 < TWO_TO_32 && |donor.chunks| < TWO_TO_32
    requires Correct(c, HashChain(k), plains)
    requires forall i | 0 <= i < |donor.chunks| :: !Opens(c, donor.chunks[i])
    requires cap == Captured(c, HashChain(k), plains) && Drawn(attack, cap, donor) && Mutate(cap, donor, attack, HashChain(k)) == Some(m)
    requires Secure(c, HashChain(k), plains, sealed, m.chunks)
    ensures |m.chunks| < TWO_TO_32
    ensures var pos := RejectedAt(c, HashChain(k), m.chunks, m.final);
            && pos.Some?
            && m.firstAffected <= pos.value < m.firstAffected + k
            && pos.value - CoveredBy(HashChain(k), m.chunks, pos.value) < k
  {
    CampaignCaught(c, HashChain(k), plains, sealed, cap, donor, attack, m);
    BacklogBound(c, k, m.chunks, m.final);
    ServedCheckpoints(c, k, plains);
    StartOfMutation(k, attack, cap, donor);
    CaughtWithinWindow(k, |plains|, attack);
  }

  lemma StartOfMutation(k: nat, attack: Attack, cap: Capture, donor: Capture)
    requires k > 0 && OnSchedule(k, cap.chunks)
    requires Drawn(attack, cap, donor) && Mutate(cap, donor, attack, HashChain(k)).Some?
    ensures Mutate(cap, donor, attack, HashChain(k)).value.firstAffected == FirstAffected(attack, k - 1)
    ensures Adaptive(attack) ==> HasRoom(attack, |cap.chunks|)
  {
    if Adaptive(attack) {
      DrawnCheckpoint(k, attack, cap, donor);
    }
  }

  lemma DropWithin(k: nat, n: nat, i: nat)
    requires k > 0 && i < n
    ensures i <= DropPosition(HashChain(k), n, i) < i + k
  {
    WindowEndProperties(k, i);
    assert !Scheduled(k, i + 1) ==> WindowEnd(k, i) > i;
  }

  lemma ReorderWithin(k: nat, n: nat, i: nat)
    requires k > 0 && i < n
    ensures i <= ReorderPosition(HashChain(k), n, i) < i + k
  {
    WindowEndProperties(k, i);
  }

  lemma DuplicateWithin(k: nat, n: nat, i: nat)
    requires k > 0 && i < n
    ensures i + 1 <= DuplicatePosition(HashChain(k), n, i) < i + 1 + k
  {
    WindowEndProperties(k, i);
    assert !Scheduled(k, i + 1) ==> WindowEnd(k, i) > i;
  }

  /** The tabulated position is less than one interval after the first affected one. */
  lemma CaughtWithinWindow(k: nat, n: nat, attack: Attack)
    requires k > 0
    requires attack.Drop? || attack.Reorder? || attack.Duplicate? ==> attack.i < n
    requires Adaptive(attack) ==> HasRoom(attack, n)
    ensures FirstAffected(attack, k - 1) <= CaughtAt(HashChain(k), n, attack) < FirstAffected(attack, k - 1) + k
  {
    match attack
    case Drop(i) => DropWithin(k, n, i);
    case Reorder(i) => ReorderWithin(k, n, i);
    case Duplicate(i) => DuplicateWithin(k, n, i);
    case _ =>
  }
}
