/** The live demo's on-path adversary, which rewrites a stream while it passes through, one record
    at a time: webapp/demo_transaction.py, lines 158-169 and 345-392. */
module OnlineAttack {
  import opened Bytes
  import opened Primitives
  import opened Records
  import opened Acceptance
  import opened Campaign
  import opened LiveDemo

  datatype OnlineAttack =
    | NoAttack
    | TamperCiphertext(i: nat)
    | TamperSignature(i: nat)
    | DropOne(i: nat)
    | ReorderOne(i: nat)
    | DuplicateOne(i: nat)
    | TruncateAfter(i: nat)
    | StripCheckpoints

  /** One byte in the middle has all its bits inverted. */
  function FlipMiddleByte(raw: bytes): (r: bytes)
    ensures |r| == |raw|
    ensures raw != [] ==> r != raw && r[|raw| / 2] as int == 255 - raw[|raw| / 2] as int
    ensures forall i | 0 <= i < |raw| && i != |raw| / 2 :: r[i] == raw[i]
  {
    if raw == [] then raw else raw[|raw| / 2 := 255 - raw[|raw| / 2]]
  }

  /** The whole-list mutation that an online attack amounts to on a genuine stream. */
  function Rewritten(attack: OnlineAttack, s: Strategy, chunks: seq<Chunk>): (r: seq<Chunk>)
    ensures |r| <= |chunks| + 1
  {
    var n := |chunks|;
    match attack
    case NoAttack => chunks
    case TamperCiphertext(i) =>
      if i < n then chunks[i := chunks[i].(ciphertext := FlipMiddleByte(chunks[i].ciphertext))] else chunks
    case TamperSignature(i) =>
      if i < n && chunks[i].Signed() then chunks[i := chunks[i].(signature := FlipMiddleByte(chunks[i].signature))] else chunks
    case DropOne(i) => if i < n then Without(chunks, i) else chunks
    case ReorderOne(i) => if i + 1 < n then Swapped(chunks, i) else if i < n then Without(chunks, i) else chunks
    case DuplicateOne(i) => if i < n then Doubled(chunks, i) else chunks
    case TruncateAfter(i) => if i < n then chunks[..i + 1] else chunks
    case StripCheckpoints => if s.HashChain? then StripAll(chunks) else chunks
  }

  function FlipSignature(t: Terminal): Terminal {
    match t
    case FinalBuffered(nonce, ciphertext, signature) => FinalBuffered(nonce, ciphertext, FlipMiddleByte(signature))
    case FinalPerChunk(nChunks, signature) => FinalPerChunk(nChunks, FlipMiddleByte(signature))
    case FinalChain(h, nChunks, signature) => FinalChain(h, nChunks, FlipMiddleByte(signature))
  }

  /** The connection is cut before the terminal record. */
  predicate Cuts(attack: OnlineAttack, s: Strategy, n: nat) {
    attack.TruncateAfter? && (s.BufferAndSign? || attack.i < n)
  }

  function RewrittenFinal(attack: OnlineAttack, s: Strategy, n: nat, t: Terminal): (r: Option<Terminal>)
    requires TerminalOf(s, t)
    ensures r.Some? ==> TerminalOf(s, r.value)
  {
    if Cuts(attack, s, n) then None
    else match attack
         case TamperCiphertext(_) =>
           if s.BufferAndSign? then Some(t.(ciphertext := FlipMiddleByte(t.ciphertext))) else Some(t)
         case TamperSignature(_) =>
           if !s.PerChunk? && t.signature != [] then Some(FlipSignature(t)) else Some(t)
         case _ => Some(t)
  }

  /** A flip touches one byte of the field it is named after, in the target record and, where that is
      flipped too, in the terminal record; everything else goes on as it came. */
  lemma TamperTouches(attack: OnlineAttack, s: Strategy, chunks: seq<Chunk>, t: Terminal)
    requires (attack.TamperCiphertext? || attack.TamperSignature?) && TerminalOf(s, t)
    ensures var xs := Rewritten(attack, s, chunks);
      && |xs| == |chunks| && (forall p | 0 <= p < |chunks| && p != attack.i :: xs[p] == chunks[p])
      && (attack.i < |chunks| ==>
            var x, y := xs[attack.i], chunks[attack.i];
            && x.index == y.index && x.nonce == y.nonce && x.chainHash == y.chainHash
            && x.ciphertext == (if attack.TamperCiphertext? then FlipMiddleByte(y.ciphertext) else y.ciphertext)
            && x.signature == (if attack.TamperSignature? then FlipMiddleByte(y.signature) else y.signature))
    ensures var out := RewrittenFinal(attack, s, |chunks|, t);
      && out.Some?
      && out.value.signature == (if attack.TamperSignature? && !s.PerChunk? then FlipMiddleByte(t.signature) else t.signature)
      && (s.BufferAndSign? ==> out.value.nonce == t.nonce)
      && (s.BufferAndSign? ==>
            out.value.ciphertext == if attack.TamperCiphertext? then FlipMiddleByte(t.ciphertext) else t.ciphertext)
      && (!s.BufferAndSign? ==> out.value.nChunks == t.nChunks)
      && (s.HashChain? ==> out.value.finalChainHash == t.finalChainHash)
  {
  }

  /** The rows of a captured stream are numbered from 0. */
  predicate Numbered(chunks: seq<Chunk>) {
    forall p | 0 <= p < |chunks| :: chunks[p].index == p
  }

  /** The adversary; it can hold back one record. */
  class Adversary {
    const attack: OnlineAttack
    const strategy: Strategy
    var held: Option<Chunk>

    constructor (attack: OnlineAttack, strategy: Strategy)
      ensures this.attack == attack && this.strategy == strategy && held == None
    {
      this.attack := attack;
      this.strategy := strategy;
      held := None;
    }

    predicate IsTarget(x: Chunk) {
      match attack
      case NoAttack => false
      case StripCheckpoints => false
      case _ => x.index == attack.i
    }

    /** What has been let through of the rows seen so far, and what is held back. */
    ghost predicate Passed(seen: seq<Chunk>, emitted: seq<Chunk>)
      reads this
    {
      && Numbered(seen)
      && emitted == Rewritten(attack, strategy, seen)
      && held == if attack.ReorderOne? && |seen| == attack.i + 1 then Some(seen[attack.i]) else None
    }

    /** The reorder attack holds its target back until the next row has gone on. */
    method HoldOrRelease(x: Chunk, ghost seen: seq<Chunk>, ghost emitted: seq<Chunk>) returns (batch: seq<Chunk>)
      requires Passed(seen, emitted) && attack.ReorderOne?
      requires x.index == |seen|
      modifies this
      ensures Passed(seen + [x], emitted + batch)
    {
      ReorderStep(seen, x, attack.i);
      batch := [x];
      if IsTarget(x) {
        held := Some(x);
        batch := [];
      } else if held.Some? {
        batch := [x, held.value];
        held := None;
      }
    }

    /** One row arrives: what goes on instead of it, and whether the connection is cut after that. */
    method OnChunk(x: Chunk, ghost seen: seq<Chunk>, ghost emitted: seq<Chunk>) returns (batch: seq<Chunk>, cut: bool)
      requires Passed(seen, emitted)
      requires x.index == |seen|
      requires !Cuts(attack, strategy, |seen|)
      modifies this
      ensures Passed(seen + [x], emitted + batch)
      ensures cut <==> Cuts(attack, strategy, |seen| + 1)
    {
      batch := [x];
      match attack {
        case NoAttack =>
        case TamperCiphertext(_) =>
          TamperStep(attack, strategy, seen, x);
          if IsTarget(x) {
            batch := [x.(ciphertext := FlipMiddleByte(x.ciphertext))];
          }
        case TamperSignature(_) =>
          TamperStep(attack, strategy, seen, x);
          if x.signature != [] && IsTarget(x) {
            batch := [x.(signature := FlipMiddleByte(x.signature))];
          }
        case DropOne(i) =>
          DropStep(seen, x, i);
          if IsTarget(x) {
            batch := [];
          }
        case DuplicateOne(i) =>
          DuplicateStep(seen, x, i);
          if IsTarget(x) {
            batch := [x, x];
          }
        case ReorderOne(_) =>
          batch := HoldOrRelease(x, seen, emitted);
        case TruncateAfter(_) =>
        case StripCheckpoints =>
          StripStep(seen, x);
          if strategy.HashChain? && x.signature != [] {
            batch := [x.(signature := [])];
          }
      }
      cut := attack.TruncateAfter? && IsTarget(x);
    }

    method OnFinal(t: Terminal, ghost n: nat) returns (out: Option<Terminal>)
      requires TerminalOf(strategy, t)
      requires strategy.BufferAndSign? || !Cuts(attack, strategy, n)
      ensures out == RewrittenFinal(attack, strategy, n, t)
    {
      out := Some(t);
      if attack.TamperCiphertext? && strategy.BufferAndSign? {
        out := Some(t.(ciphertext := FlipMiddleByte(t.ciphertext)));
      } else if attack.TamperSignature? && t.signature != [] && !strategy.PerChunk? {
        out := Some(FlipSignature(t));
      }
      if attack.TruncateAfter? && strategy.BufferAndSign? {
        out := None;
      }
    }
  }

  // How the whole-list mutation of a longer prefix follows from that of a shorter one.

  lemma TamperStep(attack: OnlineAttack, s: Strategy, seen: seq<Chunk>, x: Chunk)
    requires attack.TamperCiphertext? || attack.TamperSignature?
    ensures |seen| != attack.i ==> Rewritten(attack, s, seen + [x]) == Rewritten(attack, s, seen) + [x]
    ensures |seen| == attack.i && attack.TamperCiphertext? ==>
              Rewritten(attack, s, seen + [x]) == Rewritten(attack, s, seen) + [x.(ciphertext := FlipMiddleByte(x.ciphertext))]
    ensures |seen| == attack.i && attack.TamperSignature? && x.Signed() ==>
              Rewritten(attack, s, seen + [x]) == Rewritten(attack, s, seen) + [x.(signature := FlipMiddleByte(x.signature))]
    ensures |seen| == attack.i && attack.TamperSignature? && !x.Signed() ==>
              Rewritten(attack, s, seen + [x]) == Rewritten(attack, s, seen) + [x]
  {
  }

  lemma StripStep(seen: seq<Chunk>, x: Chunk)
    ensures StripAll(seen + [x]) == StripAll(seen) + [Strip(x)]
  {
  }

  lemma DropStep(seen: seq<Chunk>, x: Chunk, i: nat)
    ensures i < |seen| ==> Without(seen + [x], i) == Without(seen, i) + [x]
    ensures i == |seen| ==> Without(seen + [x], i) == seen
  {
  }

  lemma DuplicateStep(seen: seq<Chunk>, x: Chunk, i: nat)
    ensures i < |seen| ==> Doubled(seen + [x], i) == Doubled(seen, i) + [x]
    ensures i == |seen| ==> Doubled(seen + [x], i) == seen + [x, x]
  {
  }

  lemma ReorderStep(seen: seq<Chunk>, x: Chunk, i: nat)
    ensures i == |seen| ==> Without(seen + [x], i) == seen
    ensures i == |seen| - 1 ==> Swapped(seen + [x], i) == Without(seen, i) + [x, seen[i]]
    ensures i < |seen| - 1 ==> Swapped(seen + [x], i) == Swapped(seen, i) + [x]
  {
  }

  /** Row n of a stream, through the adversary, to the client. */
  method Relay(adversary: Adversary, receiver: LiveClient, chunks: seq<Chunk>, n: nat) returns (cut: bool)
    requires n < |chunks| && Numbered(chunks)
    requires receiver.Valid() && receiver.Latched() && !receiver.strategy.BufferAndSign?
    requires adversary.Passed(chunks[..n], receiver.xs)
    requires !Cuts(adversary.attack, adversary.strategy, n)
    modifies adversary, receiver, receiver.chainState
    ensures receiver.Valid() && receiver.Latched() && receiver.terminal == old(receiver.terminal)
    ensures adversary.Passed(chunks[..n + 1], receiver.xs)
    ensures cut <==> Cuts(adversary.attack, adversary.strategy, n + 1)
  {
    var batch;
    batch, cut := adversary.OnChunk(chunks[n], chunks[..n], receiver.xs);
    assert chunks[..n] + [chunks[n]] == chunks[..n + 1];
    Deliver(receiver, batch);
  }

  /** The chunk rows of a stream, through the adversary, to the client. */
  method PassThrough(adversary: Adversary, receiver: LiveClient, chunks: seq<Chunk>) returns (cut: bool)
    requires Numbered(chunks)
    requires adversary.strategy.BufferAndSign? ==> chunks == []
    requires adversary.strategy.BufferAndSign? <==> receiver.strategy.BufferAndSign?
    requires receiver.Valid() && receiver.Latched() && receiver.xs == [] && !receiver.terminal
    requires adversary.held == None
    modifies adversary, receiver, receiver.chainState
    ensures receiver.Valid() && receiver.Latched() && !receiver.terminal
    ensures receiver.xs == Rewritten(adversary.attack, adversary.strategy, chunks)
    ensures cut <==> !adversary.strategy.BufferAndSign? && Cuts(adversary.attack, adversary.strategy, |chunks|)
  {
    var n := 0;
    cut := false;
    NothingSeen(adversary.attack, adversary.strategy);
    assert chunks[..0] == [];
    while n < |chunks| && !cut
      invariant 0 <= n <= |chunks|
      invariant receiver.Valid() && receiver.Latched() && !receiver.terminal
      invariant adversary.Passed(chunks[..n], receiver.xs)
      invariant cut <==> !adversary.strategy.BufferAndSign? && Cuts(adversary.attack, adversary.strategy, n)
      invariant cut ==> n == adversary.attack.i + 1
      decreases |chunks| - n, !cut
    {
      cut := Relay(adversary, receiver, chunks, n);
      n := n + 1;
    }
    RewrittenAfterCut(adversary.attack, adversary.strategy, chunks, n, cut);
  }

  lemma NothingSeen(attack: OnlineAttack, s: Strategy)
    ensures Rewritten(attack, s, []) == []
    ensures s.BufferAndSign? || !Cuts(attack, s, 0)
  {
  }

  /** What was let through when the loop ended is the mutation of the whole list. */
  lemma RewrittenAfterCut(attack: OnlineAttack, s: Strategy, chunks: seq<Chunk>, n: nat, cut: bool)
    requires n <= |chunks|
    requires if cut then attack.TruncateAfter? && n == attack.i + 1 else n == |chunks|
    ensures Rewritten(attack, s, chunks[..n]) == Rewritten(attack, s, chunks)
  {
    if cut {
      assert chunks[..n][..n] == chunks[..n];
    } else {
      assert chunks[..n] == chunks;
    }
  }

  /** The live demo: the adversary in front of the client. */
  method RunStreamingTransactionLive(
    c: Crypto, s: Strategy, enforceSchedule: bool, attack: OnlineAttack, chunks: seq<Chunk>, final: Terminal)
    returns (failed: Option<Reason>, rejectedAt: Option<Place>)
    requires |chunks| + 1 < TWO_TO_32 && Numbered(chunks)
    requires s.BufferAndSign? ==> chunks == []
    requires TerminalOf(s, final)
    ensures var client := if s.HashChain? && !enforceSchedule then HashChain(0) else s;
            var xs := Rewritten(attack, s, chunks);
            var t := RewrittenFinal(attack, s, |chunks|, final);
            && (failed.None? <==> Accepted(c, client, xs, t))
            && rejectedAt == PlaceOf(xs, RejectedAt(c, client, xs, t), t.Some?)
  {
    var client := if s.HashChain? && !enforceSchedule then HashChain(0) else s;
    var adversary := new Adversary(attack, s);
    var receiver := new LiveClient(c, client);
    var cut := PassThrough(adversary, receiver, chunks);
    var t := None;
    if !cut {
      t := adversary.OnFinal(final, |chunks|);
    }
    if t.Some? {
      var verified := receiver.ProcessFinal(t.value);
    } else {
      receiver.EndWithoutTerminal();
    }
    failed, rejectedAt := receiver.failed, receiver.rejectedAt;
  }

  method Deliver(receiver: LiveClient, batch: seq<Chunk>)
    requires receiver.Valid() && receiver.Latched() && !receiver.strategy.BufferAndSign?
    modifies receiver, receiver.chainState
    ensures receiver.Valid() && receiver.Latched()
    ensures receiver.xs == old(receiver.xs) + batch
    ensures receiver.terminal == old(receiver.terminal)
  {
    for i := 0 to |batch|
      invariant receiver.Valid() && receiver.Latched()
      invariant receiver.xs == old(receiver.xs) + batch[..i]
      invariant receiver.terminal == old(receiver.terminal)
    {
      var status, covered := receiver.ProcessChunk(batch[i]);
    }
  }
}
