/** What the live demo's page shows for each attack on a genuine stream: webapp/demo_transaction.py,
    lines 171-180 and 345-392. */
module LiveOutcome {
  import opened Bytes
  import opened Primitives
  import opened Messages
  import opened Chain
  import opened Records
  import opened Server
  import opened Acceptance
  import opened Soundness
  import opened Replay
  import opened Campaign
  import opened LiveDemo
  import opened OnlineAttack
  import opened Agreement
  import opened Arithmetic

  /** The rearranging attacks that change a stream of n chunks. */
  predicate Rearranges(attack: OnlineAttack, s: Strategy, n: nat) {
    match attack
    case DropOne(i) => i < n
    case ReorderOne(i) => i < n
    case DuplicateOne(i) => i < n
    case TruncateAfter(i) => i < n
    case StripCheckpoints => s.HashChain? && 0 < s.checkpointInterval <= n
    case _ => false
  }

  /** The campaign's attack with the same effect; a reorder of the last chunk is a drop. */
  function Counterpart(attack: OnlineAttack, s: Strategy, n: nat): Attack
    requires Rearranges(attack, s, n)
  {
    if attack.ReorderOne? && attack.i + 1 == n then Drop(attack.i) else Offline(attack).value
  }

  /** The index that the record at position p of the rewritten stream carries. */
  function IndexAt(attack: OnlineAttack, s: Strategy, n: nat, p: nat): int
    requires Rearranges(attack, s, n)
  {
    match Counterpart(attack, s, n)
    case Drop(i) => if p < i then p else p + 1
    case Reorder(i) => if p == i then i + 1 else if p == i + 1 then i else p
    case Duplicate(i) => if p <= i then p else p - 1
    case _ => p
  }

  /** The records that still arrive. */
  function Arriving(attack: OnlineAttack, s: Strategy, n: nat): int
    requires Rearranges(attack, s, n)
  {
    match Counterpart(attack, s, n)
    case Drop(_) => n - 1
    case Duplicate(_) => n + 1
    case Truncate(cut) => cut
    case _ => n
  }

  lemma RewrittenShape(attack: OnlineAttack, s: Strategy, sent: seq<Chunk>)
    requires Rearranges(attack, s, |sent|) && Numbered(sent)
    ensures var xs := Rewritten(attack, s, sent);
      && |xs| == Arriving(attack, s, |sent|)
      && forall p | 0 <= p < |xs| :: xs[p].index == IndexAt(attack, s, |sent|, p)
  {
  }

  /** The page's place for a position: the number in the record that arrives there, the end, or nothing
      where the terminal record is missing. */
  function Shown(attack: OnlineAttack, s: Strategy, n: nat, p: nat): Option<Place>
    requires Rearranges(attack, s, n)
    requires n < TWO_TO_32
  {
    var index := IndexAt(attack, s, n, p);
    if p < Arriving(attack, s, n) && 0 <= index < TWO_TO_32 then Some(AtChunk(index))
    else if attack.TruncateAfter? then None else Some(AtEnd)
  }

  lemma ShownPlace(attack: OnlineAttack, s: Strategy, sent: seq<Chunk>, final: Terminal, p: nat)
    requires Rearranges(attack, s, |sent|) && Numbered(sent) && |sent| + 1 < TWO_TO_32
    requires !s.BufferAndSign? && TerminalOf(s, final) && p <= Arriving(attack, s, |sent|)
    ensures |Rewritten(attack, s, sent)| == Arriving(attack, s, |sent|)
    ensures PlaceOf(Rewritten(attack, s, sent), Some(p), RewrittenFinal(attack, s, |sent|, final).Some?) == Shown(attack, s, |sent|, p)
  {
    RewrittenShape(attack, s, sent);
  }

  /** When the number is the position: never after a drop or a duplicate, always after a cut or a
      stripping, and after a reorder exactly where the swapped pair lies inside a checkpoint window, so
      that it is only caught behind the pair. */
  lemma NumberIsPosition(attack: OnlineAttack, s: Strategy, n: nat, p: nat)
    requires Rearranges(attack, s, n) && !s.BufferAndSign?
    requires p == CaughtAt(s, n, Counterpart(attack, s, n)) < Arriving(attack, s, n)
    ensures IndexAt(attack, s, n, p) == p <==>
            match Counterpart(attack, s, n)
            case Drop(_) => false
            case Duplicate(_) => false
            case Reorder(i) => s.HashChain? && !Scheduled(s.checkpointInterval, i + 1) && !Scheduled(s.checkpointInterval, i + 2)
            case _ => true
  {
    if s.HashChain? && s.checkpointInterval > 0 {
      match Counterpart(attack, s, n)
      case Drop(i) => DropWithin(s.checkpointInterval, n, i);
      case Duplicate(i) => DuplicateWithin(s.checkpointInterval, n, i);
      case Reorder(i) => PairInsideWindow(s.checkpointInterval, n, i);
      case _ =>
    }
  }

  lemma PairInsideWindow(k: nat, n: nat, i: nat)
    requires k > 0 && i + 1 < n
    ensures var p := ReorderPosition(HashChain(k), n, i);
      p != i + 1 && (p == i <==> Scheduled(k, i + 1) || Scheduled(k, i + 2))
  {
    WindowEndProperties(k, i);
    var w := WindowEnd(k, i);
    assert Scheduled(k, w + 1);
    assert w == i ==> Scheduled(k, i + 1);
    assert w == i + 1 ==> Scheduled(k, i + 2);
  }

  /** Every rearranging attack on a genuine stream is rejected at the campaign's position, and the page
      shows the number of the record that arrives there. */
  lemma LiveAttackCaught(
    c: Crypto, s: Strategy, plains: seq<bytes>, sealed: set<(Nonce, bytes)>, attack: OnlineAttack,
    xs: seq<Chunk>, final: Option<Terminal>)
    requires 0 < |plains| && |plains| + 1 < TWO_TO_32 && !s.BufferAndSign?
    requires Rearranges(attack, s, |plains|)
    requires xs == Rewritten(attack, s, Served(c, s, plains))
    requires final == RewrittenFinal(attack, s, |plains|, ServedFinal(c, s, plains))
    requires Correct(c, s, plains) && Secure(c, s, plains, sealed, xs)
    ensures |xs| < TWO_TO_32
    ensures var p := CaughtAt(s, |plains|, Counterpart(attack, s, |plains|));
      && RejectedAt(c, s, xs, final) == Some(p)
      && PlaceOf(xs, Some(p), final.Some?) == Shown(attack, s, |plains|, p)
  {
    var cap, donor := Captured(c, s, plains), Capture([], None);
    ServedOpens(c, s, plains);
    Applies(c, s, plains, attack);
    var counterpart := Counterpart(attack, s, |plains|);
    CampaignCaught(c, s, plains, sealed, cap, donor, counterpart, Mutate(cap, donor, counterpart, s).value);
    RewrittenShape(attack, s, cap.chunks);
    ShownPlace(attack, s, cap.chunks, cap.final.value, CaughtAt(s, |plains|, counterpart));
  }

  /** What the campaign would call it. */
  predicate IsCounterpart(attack: OnlineAttack, s: Strategy, cap: Capture)
    requires Rearranges(attack, s, |cap.chunks|) && cap.final.Some? && TerminalOf(s, cap.final.value)
  {
    var n, donor := |cap.chunks|, Capture([], None);
    && Drawn(Counterpart(attack, s, n), cap, donor)
    && var m := Mutate(cap, donor, Counterpart(attack, s, n), s);
    m.Some? && m.value.chunks == Rewritten(attack, s, cap.chunks) && m.value.final == RewrittenFinal(attack, s, n, cap.final.value)
  }

  lemma StaticCounterpart(attack: OnlineAttack, s: Strategy, cap: Capture)
    requires Rearranges(attack, s, |cap.chunks|) && cap.final.Some? && TerminalOf(s, cap.final.value)
    requires !s.BufferAndSign? && !attack.StripCheckpoints?
    ensures IsCounterpart(attack, s, cap)
  {
  }

  lemma StrippingCounterpart(k: nat, cap: Capture)
    requires 0 < k <= |cap.chunks| && OnSchedule(k, cap.chunks) && cap.final.Some? && cap.final.value.FinalChain?
    ensures IsCounterpart(StripCheckpoints, HashChain(k), cap)
  {
    ScheduleStart(k);
    assert (k - 1) as nat in CheckpointPositions(cap.chunks);
  }

  /** The counterpart can be drawn, applies, and does what the live attack does. */
  lemma Applies(c: Crypto, s: Strategy, plains: seq<bytes>, attack: OnlineAttack)
    requires 0 < |plains| < TWO_TO_32 && !s.BufferAndSign?
    requires Rearranges(attack, s, |plains|) && Correct(c, s, plains)
    ensures IsCounterpart(attack, s, Captured(c, s, plains))
  {
    if attack.StripCheckpoints? {
      ServedCheckpoints(c, s.checkpointInterval, plains);
      StrippingCounterpart(s.checkpointInterval, Captured(c, s, plains));
    } else {
      StaticCounterpart(attack, s, Captured(c, s, plains));
    }
  }

  /** The attacks that leave a stream of n chunks as it is: the target is past the end, or there is nothing
      of the kind to attack.  A signature flip is idle only under per_chunk, as the other strategies'
      terminal signature is flipped wherever the target is. */
  predicate Idle(attack: OnlineAttack, s: Strategy, n: nat) {
    match attack
    case NoAttack => true
    case TamperCiphertext(i) => !s.BufferAndSign? && i >= n
    case TamperSignature(i) => s.PerChunk? && i >= n
    case TruncateAfter(i) => !s.BufferAndSign? && i >= n
    case _ => !Rearranges(attack, s, n)
  }

  /** These change nothing, and nothing is rejected. */
  lemma IdleAccepted(c: Crypto, s: Strategy, plains: seq<bytes>, attack: OnlineAttack)
    requires |plains| < TWO_TO_32 && Idle(attack, s, |Served(c, s, plains)|) && Correct(c, s, plains)
    ensures var sent, final := Served(c, s, plains), ServedFinal(c, s, plains);
      && Rewritten(attack, s, sent) == sent && RewrittenFinal(attack, s, |sent|, final) == Some(final)
      && RejectedAt(c, s, sent, Some(final)).None?
  {
    var sent := Served(c, s, plains);
    GenuineAccepted(c, s, s, plains);
    if attack.StripCheckpoints? && s.HashChain? {
      ServedCheckpoints(c, s.checkpointInterval, plains);
      if s.checkpointInterval > 0 { ScheduleStart(s.checkpointInterval); }
      assert StripAll(sent) == sent;
    }
  }

  /** A flipped ciphertext is rejected at the first record from there on that carries a signature, is due
      for one or does not open: in particular at the flipped record itself unless it still opens.
      The page shows that record's number.  (AES-GCM ciphertexts are never empty: they end in a tag.) */
  lemma TamperedCiphertextCaught(
    c: Crypto, s: Strategy, plains: seq<bytes>, sealed: set<(Nonce, bytes)>, i: nat, xs: seq<Chunk>, final: Terminal)
    requires i < |plains| < TWO_TO_32 && !s.BufferAndSign?
    requires Served(c, s, plains)[i].ciphertext != []
    requires xs == Rewritten(TamperCiphertext(i), s, Served(c, s, plains)) && final == ServedFinal(c, s, plains)
    requires Correct(c, s, plains) && Secure(c, s, plains, sealed, xs)
    ensures |xs| == |plains| && RewrittenFinal(TamperCiphertext(i), s, |plains|, final) == Some(final)
    ensures var p := StopsAt(c, s, xs, i);
      && RejectedAt(c, s, xs, Some(final)) == Some(p)
      && (Opens(c, xs[i]) || p == i)
      && PlaceOf(xs, Some(p), true) == Some(if p < |plains| then AtChunk(p) else AtEnd)
  {
    var sent := Served(c, s, plains);
    ServedOpens(c, s, plains);
    assert xs[..i] == sent[..i];
    assert DiffersFirstAt(xs, sent, i);
    ExactDetectionOf(c, s, plains, sealed, xs, Some(final), i);
  }

  /** A row's verdict depends on the links up to it and on the row itself. */
  lemma OkOfLinks(c: Crypto, s: Strategy, xs: seq<Chunk>, ys: seq<Chunk>, p: nat)
    requires p < |xs| == |ys| && Links(xs) == Links(ys) && xs[p] == ys[p]
    ensures ChunkOk(c, s, xs, p) <==> ChunkOk(c, s, ys, p)
  {
    LinksOfPrefix(xs, p + 1);
    LinksOfPrefix(ys, p + 1);
  }

  /** The bytes that the signature on row i of a stream is checked against. */
  function SignedBytes(c: Crypto, s: Strategy, xs: seq<Chunk>, i: nat): bytes
    requires i < |xs| && !s.BufferAndSign?
  {
    if s.PerChunk? then ChunkMessage(StreamContext(c), xs[i].index, xs[i].nonce, xs[i].ciphertext)
    else CheckpointMessage(StreamContext(c), xs[i].index, ChainHash(c, Links(xs[..i + 1])))
  }

  /** A flipped signature is rejected if and only if it does not verify: on the target record, where there
      is one and it carries a signature, or on the terminal record of the other strategies than
      per_chunk, whose signature is flipped too wherever the target is. */
  lemma TamperedSignatureCaught(c: Crypto, s: Strategy, plains: seq<bytes>, i: nat)
    requires |plains| < TWO_TO_32 && Correct(c, s, plains)
    ensures var sent, final := Served(c, s, plains), ServedFinal(c, s, plains);
      var xs, t := Rewritten(TamperSignature(i), s, sent), RewrittenFinal(TamperSignature(i), s, |sent|, final);
      RejectedAt(c, s, xs, t) ==
        if i < |sent| && sent[i].Signed() && !c.verify(SignedBytes(c, s, sent, i), FlipMiddleByte(sent[i].signature)) then Some(i)
        else if !s.PerChunk? && !c.verify(Encode(FinalMessage(c, s, plains)), FlipMiddleByte(final.signature)) then Some(|sent|)
        else None
  {
    var sent := Served(c, s, plains);
    var xs := Rewritten(TamperSignature(i), s, sent);
    assert Links(xs) == Links(sent);
    GenuineAccepted(c, s, s, plains);
    forall p | 0 <= p < |xs| && p != i ensures ChunkOk(c, s, xs, p) {
      OkOfLinks(c, s, xs, sent, p);
    }
    FlippedFinal(c, s, plains, xs, i);
    if i < |sent| {
      FlippedRow(c, s, sent, xs, i);
      OnlySuspect(c, s, xs, i);
    }
  }

  lemma OnlySuspect(c: Crypto, s: Strategy, xs: seq<Chunk>, i: nat)
    requires i < |xs| && forall p | 0 <= p < |xs| && p != i :: ChunkOk(c, s, xs, p)
    ensures FirstBad(c, s, xs, 0) == if ChunkOk(c, s, xs, i) then |xs| else i
  {
  }

  lemma FlippedRow(c: Crypto, s: Strategy, sent: seq<Chunk>, xs: seq<Chunk>, i: nat)
    requires !s.BufferAndSign? && i < |sent| && xs == Rewritten(TamperSignature(i), s, sent)
    requires ChunkOk(c, s, sent, i)
    requires Links(xs) == Links(sent)
    ensures ChunkOk(c, s, xs, i) <==> !sent[i].Signed() || c.verify(SignedBytes(c, s, sent, i), FlipMiddleByte(sent[i].signature))
  {
    LinksOfPrefix(xs, i + 1);
    LinksOfPrefix(sent, i + 1);
  }

  lemma FlippedFinal(c: Crypto, s: Strategy, plains: seq<bytes>, xs: seq<Chunk>, i: nat)
    requires |plains| < TWO_TO_32 && Correct(c, s, plains)
    requires Links(xs) == Links(Served(c, s, plains)) && |xs| == |Served(c, s, plains)|
    ensures var final := ServedFinal(c, s, plains);
      FinalOk(c, s, xs, RewrittenFinal(TamperSignature(i), s, |xs|, final)) <==>
        s.PerChunk? || c.verify(Encode(FinalMessage(c, s, plains)), FlipMiddleByte(final.signature))
  {
    GenuineFinalOk(c, s, s, plains, xs);
    assert FinalMessage(c, s, plains) in SignedLog(c, s, plains);
    assert SignatureWorks(c, |plains|, FinalMessage(c, s, plains));
  }

  /** A buffered response has only its envelope to attack: with a flipped ciphertext it is rejected at the
      end, and a cut leaves nothing. */
  lemma BufferedAttackCaught(c: Crypto, plains: seq<bytes>, sealed: set<(Nonce, bytes)>, attack: OnlineAttack)
    requires |plains| < TWO_TO_32 && (attack.TamperCiphertext? || attack.TruncateAfter?)
    requires ServedFinal(c, BufferAndSign, plains).ciphertext != []
    requires Secure(c, BufferAndSign, plains, sealed, [])
    ensures var t := RewrittenFinal(attack, BufferAndSign, 0, ServedFinal(c, BufferAndSign, plains));
      && RejectedAt(c, BufferAndSign, [], t) == Some(0)
      && PlaceOf([], Some(0), t.Some?) == if attack.TruncateAfter? then None else Some(AtEnd)
  {
    var t := RewrittenFinal(attack, BufferAndSign, 0, ServedFinal(c, BufferAndSign, plains));
    if Accepted(c, BufferAndSign, [], t) {
      BufferedSoundness(c, plains, sealed, [], t);
    }
  }

  /** The page on a genuine stream: after p rows of a hash chain, those since the last checkpoint are
      uncovered, and the most there have been is a full window, or all where there are fewer. */
  lemma {:induction false} GenuinePage(c: Crypto, k: nat, plains: seq<bytes>, p: nat)
    requires p <= |plains| < TWO_TO_32 && Correct(c, HashChain(k), plains)
    ensures var shown := Served(c, HashChain(k), plains)[..p];
      && Uncovered(c, HashChain(k), shown) == (if k == 0 then p else p % k)
      && MostUncovered(c, HashChain(k), shown) == if k == 0 then p else Min(k, p)
  {
    var s, sent := HashChain(k), Served(c, HashChain(k), plains);
    if p > 0 {
      GenuinePage(c, k, plains, p - 1);
      assert Init(sent[..p]) == sent[..p - 1];
      GenuineCovers(c, k, plains, p);
      PageStep(k, p - 1);
    } else if k > 0 {
      ModOf(k, 0, 0);
    }
  }

  lemma GenuineCovers(c: Crypto, k: nat, plains: seq<bytes>, p: nat)
    requires 0 < p <= |plains| < TWO_TO_32 && Correct(c, HashChain(k), plains)
    ensures CoversAll(c, HashChain(k), Served(c, HashChain(k), plains)[..p]) <==> Scheduled(k, p)
  {
    var s, sent := HashChain(k), Served(c, HashChain(k), plains);
    var shown := sent[..p];
    FirstBadAfterGenuinePrefix(c, s, s, plains, shown, p);
    GenuineRowOk(c, s, s, plains, shown, p - 1);
    ServedCheckpoints(c, k, plains);
    assert Last(shown) == sent[p - 1];
  }

  lemma PageStep(k: nat, n: nat)
    ensures k > 0 && Scheduled(k, n + 1) ==> (n + 1) % k == 0 && n % k + 1 == k <= n + 1
    ensures k > 0 && !Scheduled(k, n + 1) ==> (n + 1) % k == n % k + 1 < k
    ensures k > 0 ==> n % k <= n
    ensures k > 0 ==> Max(Min(k, n), n % k + 1) == Min(k, n + 1)
  {
    if k > 0 {
      ModStep(k, n);
      assert n == k * (n / k) + n % k;
      if n < k { ModOf(k, 0, n); }
    }
  }
}
