/** The wire records of a stream and the server that produces them: crypto/streaming.py,
    lines 141-302. */
module Records {
  import opened Bytes
  import opened Primitives
  import opened Chain

  /** A checkpoint interval of 0 stands for the absent one (None or 0 in the source). */
  datatype Strategy = BufferAndSign | PerChunk | HashChain(checkpointInterval: nat)

  /** A chunk as it arrives.  An empty signature stands for the absent one; `per_chunk` rows have
      no chain hash.  The nonce is whatever is on the wire, not necessarily 12 bytes. */
  datatype Chunk = Chunk(index: u32, nonce: bytes, ciphertext: bytes, chainHash: bytes, signature: bytes)
  {
    predicate Signed() {
      signature != []
    }

    function Envelope(): bytes {
      nonce + ciphertext
    }

    function ToLink(): Link {
      Link(index, Envelope())
    }
  }

  datatype Terminal =
    | FinalBuffered(nonce: bytes, ciphertext: bytes, signature: bytes)
    | FinalPerChunk(nChunks: u32, signature: bytes)
    | FinalChain(finalChainHash: bytes, nChunks: u32, signature: bytes)

  predicate TerminalOf(s: Strategy, t: Terminal) {
    match s
    case BufferAndSign => t.FinalBuffered?
    case PerChunk => t.FinalPerChunk?
    case HashChain(_) => t.FinalChain?
  }

  function Links(xs: seq<Chunk>): (links: seq<Link>)
    ensures |links| == |xs|
    ensures forall i | 0 <= i < |xs| :: links[i] == xs[i].ToLink()
  {
    seq(|xs|, i requires 0 <= i < |xs| => xs[i].ToLink())
  }

  lemma LinksOfPrefix(xs: seq<Chunk>, n: nat)
    requires n <= |xs|
    ensures Links(xs[..n]) == Links(xs)[..n]
  {
  }

  /** The two records carry the same content: position, nonce and ciphertext. */
  predicate SameContent(x: Chunk, y: Chunk) {
    x.index == y.index && x.nonce == y.nonce && x.ciphertext == y.ciphertext
  }

  predicate SameContents(xs: seq<Chunk>, ys: seq<Chunk>) {
    |xs| == |ys| && forall i | 0 <= i < |xs| :: SameContent(xs[i], ys[i])
  }

  /** The checkpoint schedule: does the `count`-th chunk carry a signature? */
  predicate Scheduled(k: nat, count: nat) {
    k > 0 && count % k == 0
  }

  function Concat(parts: seq<bytes>): bytes {
    if parts == [] then [] else Concat(Init(parts)) + Last(parts)
  }

  lemma {:induction false} ConcatAppend(a: seq<bytes>, b: seq<bytes>)
    ensures Concat(a + b) == Concat(a) + Concat(b)
    decreases |b|
  {
    if b == [] {
      assert a + b == a;
    } else {
      assert Init(a + b) == a + Init(b) && Last(a + b) == Last(b);
      ConcatAppend(a, Init(b));
      assert Concat(a + b) == (Concat(a) + Concat(Init(b))) + Last(b);
      assert Concat(b) == Concat(Init(b)) + Last(b);
    }
  }
}

module Server {
  import opened Bytes
  import opened Primitives
  import opened Messages
  import opened Chain
  import opened Records
  import opened Arithmetic

  /** The row sent for a chunk, after the rows `before` it. */
  function ServedChunk(c: Crypto, s: Strategy, before: seq<Chunk>, plaintext: bytes): (x: Chunk)
    requires !s.BufferAndSign?
    requires |before| < TWO_TO_32
  {
    var i := |before|;
    var nonce := c.nonce(i);
    var bare := Chunk(i, nonce, c.seal(nonce, plaintext), [], []);
    match s
    case PerChunk =>
      bare.(signature := c.sign(i, ChunkMessage(StreamContext(c), i, nonce, bare.ciphertext)))
    case HashChain(k) =>
      var h := ChainHash(c, Links(before + [bare]));
      bare.(chainHash := h,
            signature := if Scheduled(k, i + 1) then c.sign(i, CheckpointMessage(StreamContext(c), i, h)) else [])
  }

  /** All chunk rows of a stream of plaintexts; `buffer_and_sign` sends none. */
  function Served(c: Crypto, s: Strategy, plains: seq<bytes>): (xs: seq<Chunk>)
    requires |plains| < TWO_TO_32
    ensures |xs| == if s.BufferAndSign? then 0 else |plains|
  {
    if s.BufferAndSign? || plains == [] then []
    else
      var before := Served(c, s, Init(plains));
      before + [ServedChunk(c, s, before, Last(plains))]
  }

  function ServedFinal(c: Crypto, s: Strategy, plains: seq<bytes>): (t: Terminal)
    requires |plains| < TWO_TO_32
    ensures TerminalOf(s, t)
  {
    var n, ctx := |plains|, StreamContext(c);
    match s
    case BufferAndSign =>
      var nonce := c.nonce(n);
      var ciphertext := c.seal(nonce, Concat(plains));
      FinalBuffered(nonce, ciphertext, c.sign(n, BufferedMessage(ctx, nonce, ciphertext)))
    case PerChunk =>
      FinalPerChunk(n, c.sign(n, EndMessage(ctx, n)))
    case HashChain(_) =>
      var h := ChainHash(c, Links(Served(c, s, plains)));
      FinalChain(h, n, c.sign(n, FinalChainMessage(ctx, n, h)))
  }

  /** What the checkpoint signature on row `i` says. */
  ghost function CheckpointAt(c: Crypto, sent: seq<Chunk>, i: nat): Message
    requires i < |sent| && |sent| < TWO_TO_32
  {
    Checkpoint(StreamContext(c), i, ChainHash(c, Links(sent)[..i + 1]))
  }

  /** What is signed while the chunk rows go out. */
  ghost function ChunkLog(c: Crypto, s: Strategy, sent: seq<Chunk>): set<Message>
    requires |sent| < TWO_TO_32
  {
    match s
    case BufferAndSign => {}
    case PerChunk => set i | 0 <= i < |sent| :: OneChunk(StreamContext(c), i, sent[i].Envelope())
    case HashChain(k) =>
      set i | 0 <= i < |sent| && Scheduled(k, i + 1) :: CheckpointAt(c, sent, i)
  }

  /** What is signed at the end. */
  ghost function FinalMessage(c: Crypto, s: Strategy, plains: seq<bytes>): Message
    requires |plains| < TWO_TO_32
  {
    var n, ctx := |plains|, StreamContext(c);
    match s
    case BufferAndSign => Buffered(ctx, c.nonce(n) + c.seal(c.nonce(n), Concat(plains)))
    case PerChunk => End(ctx, n)
    case HashChain(_) => Final(ctx, n, ChainHash(c, Links(Served(c, s, plains))))
  }

  /** Everything the handshake's key ever signs: one stream per handshake. */
  ghost function SignedLog(c: Crypto, s: Strategy, plains: seq<bytes>): set<Message>
    requires |plains| < TWO_TO_32
  {
    ChunkLog(c, s, Served(c, s, plains)) + {FinalMessage(c, s, plains)}
  }

  /** The log grows by the one message that the new row's signature is on. */
  lemma ChunkLogStep(c: Crypto, s: Strategy, before: seq<Chunk>, x: Chunk)
    requires |before| + 1 < TWO_TO_32
    ensures s.PerChunk? ==> ChunkLog(c, s, before + [x]) ==
                            ChunkLog(c, s, before) + {OneChunk(StreamContext(c), |before|, x.Envelope())}
    ensures s.HashChain? && Scheduled(s.checkpointInterval, |before| + 1) ==>
              ChunkLog(c, s, before + [x]) ==
              ChunkLog(c, s, before) + {Checkpoint(StreamContext(c), |before|, ChainHash(c, Links(before + [x])))}
    ensures s.HashChain? && !Scheduled(s.checkpointInterval, |before| + 1) ==>
              ChunkLog(c, s, before + [x]) == ChunkLog(c, s, before)
  {
    var after := before + [x];
    var n := |before|;
    match s
    case BufferAndSign =>
    case PerChunk =>
      forall m | m in ChunkLog(c, s, before) ensures m in ChunkLog(c, s, after) {
        var i :| 0 <= i < n && m == OneChunk(StreamContext(c), i, before[i].Envelope());
        assert after[i] == before[i];
      }
      assert after[n] == x;
    case HashChain(k) =>
      forall i | 0 <= i < n ensures CheckpointAt(c, after, i) == CheckpointAt(c, before, i) {
        assert Links(after)[..i + 1] == Links(before)[..i + 1];
      }
      assert Links(after)[..n + 1] == Links(after);
      forall m | m in ChunkLog(c, s, before) ensures m in ChunkLog(c, s, after) {
        var i :| 0 <= i < n && Scheduled(k, i + 1) && m == CheckpointAt(c, before, i);
        assert m == CheckpointAt(c, after, i);
      }
      if Scheduled(k, n + 1) {
        assert CheckpointAt(c, after, n) in ChunkLog(c, s, after);
      }
  }

  lemma ServedAppend(c: Crypto, s: Strategy, plains: seq<bytes>, plaintext: bytes)
    requires |plains| + 1 < TWO_TO_32
    ensures Served(c, s, plains + [plaintext]) ==
            if s.BufferAndSign? then [] else Served(c, s, plains) + [ServedChunk(c, s, Served(c, s, plains), plaintext)]
  {
    assert Init(plains + [plaintext]) == plains;
  }

  /** Folding one more row into the running hash. */
  lemma ChainAppend(c: Crypto, before: seq<Chunk>, x: Chunk)
    ensures Links(before + [x]) == Links(before) + [x.ToLink()]
    ensures ChainHash(c, Links(before + [x])) == c.hash(ChainHash(c, Links(before)) + BigEndian(x.index) + x.Envelope())
  {
    assert Links(before + [x]) == Links(before) + [x.ToLink()];
    assert Init(Links(before + [x])) == Links(before);
  }

  /** The row that follows `before` in a hash chain, and what it does to the chain and the log. */
  lemma ChainedRow(c: Crypto, k: nat, before: seq<Chunk>, plaintext: bytes)
    requires |before| + 1 < TWO_TO_32
    ensures var (s, i) := (HashChain(k), |before|);
            var x := ServedChunk(c, s, before, plaintext);
            var h := c.hash(ChainHash(c, Links(before)) + BigEndian(i) + x.Envelope());
            && x.chainHash == h == ChainHash(c, Links(before + [x]))
            && ChunkLog(c, s, before + [x]) ==
               ChunkLog(c, s, before) + if Scheduled(k, i + 1) then {Checkpoint(StreamContext(c), i, h)} else {}
  {
    var x := ServedChunk(c, HashChain(k), before, plaintext);
    ChainAppend(c, before, x.(chainHash := [], signature := []));
    ChainAppend(c, before, x);
    ChunkLogStep(c, HashChain(k), before, x);
  }

  /** The counter of chunks since the last checkpoint, after n chunks. */
  predicate CountsSince(k: nat, since: nat, n: nat) {
    since == if k == 0 then n else n % k
  }

  /** One more chunk: a checkpoint is due exactly on schedule, and starts the count again. */
  lemma CountOneMore(k: nat, since: nat, n: nat)
    requires CountsSince(k, since, n)
    ensures k != 0 && since + 1 >= k <==> Scheduled(k, n + 1)
    ensures CountsSince(k, if k != 0 && since + 1 >= k then 0 else since + 1, n + 1)
  {
    if k > 0 { ModStep(k, n); }
  }

  /** One streaming transaction's server side: the strategy classes of crypto/streaming.py, told
      apart by `strategy`. */
  class SigningStrategy {
    const c: Crypto
    const strategy: Strategy
    const ctx: Digest
    var buffer: bytes
    var runningHash: Digest
    var sinceCheckpoint: nat
    ghost var plains: seq<bytes>
    ghost var signed: set<Message>

    ghost predicate Valid()
      reads this
    {
      && ctx == StreamContext(c)
      && |plains| < TWO_TO_32
      && (strategy.BufferAndSign? ==> buffer == Concat(plains))
      && (strategy.HashChain? ==>
            && runningHash == ChainHash(c, Links(Served(c, strategy, plains)))
            && CountsSince(strategy.checkpointInterval, sinceCheckpoint, |plains|))
      && signed == ChunkLog(c, strategy, Served(c, strategy, plains))
    }

    constructor (c: Crypto, strategy: Strategy)
      ensures Valid()
      ensures this.c == c && this.strategy == strategy && plains == []
    {
      this.c := c;
      this.strategy := strategy;
      ctx := StreamContext(c);
      buffer := [];
      runningHash := ChainHash(c, []);
      sinceCheckpoint := 0;
      plains := [];
      signed := {};
      new;
      assert Links([]) == [];
    }

    /** Takes the next chunk; the row to send at once, or none for `buffer_and_sign`. */
    method AddChunk(plaintext: bytes, index: u32) returns (row: Option<Chunk>)
      requires Valid()
      requires index == |plains| && |plains| + 1 < TWO_TO_32
      modifies this
      ensures Valid()
      ensures plains == old(plains) + [plaintext]
      ensures if strategy.BufferAndSign? then row == None
              else row.Some? && Served(c, strategy, plains) == Served(c, strategy, old(plains)) + [row.value]
    {
      ServedAppend(c, strategy, plains, plaintext);
      match strategy {
        case BufferAndSign =>
          assert Init(plains + [plaintext]) == plains;
          buffer := buffer + plaintext;
          row := None;
          plains := plains + [plaintext];
        case PerChunk =>
          var x := AddSigned(plaintext, index);
          row := Some(x);
        case HashChain(_) =>
          var x := AddChained(plaintext, index);
          row := Some(x);
      }
    }

    method AddSigned(plaintext: bytes, index: u32) returns (x: Chunk)
      requires Valid() && strategy.PerChunk?
      requires index == |plains| && |plains| + 1 < TWO_TO_32
      modifies this
      ensures Valid()
      ensures plains == old(plains) + [plaintext]
      ensures x == ServedChunk(c, strategy, Served(c, strategy, old(plains)), plaintext)
    {
      ServedAppend(c, strategy, plains, plaintext);
      var nonce := c.nonce(index);
      var ciphertext := c.seal(nonce, plaintext);
      var signature := c.sign(index, ChunkMessage(ctx, index, nonce, ciphertext));
      signed := signed + {OneChunk(ctx, index, nonce + ciphertext)};
      x := Chunk(index, nonce, ciphertext, [], signature);
      ChunkLogStep(c, strategy, Served(c, strategy, plains), x);
      plains := plains + [plaintext];
    }

    method AddChained(plaintext: bytes, index: u32) returns (x: Chunk)
      requires Valid() && strategy.HashChain?
      requires index == |plains| && |plains| + 1 < TWO_TO_32
      modifies this
      ensures Valid()
      ensures plains == old(plains) + [plaintext]
      ensures x == ServedChunk(c, strategy, Served(c, strategy, old(plains)), plaintext)
    {
      var k := strategy.checkpointInterval;
      ghost var before := Served(c, strategy, plains);
      ServedAppend(c, strategy, plains, plaintext);
      ChainedRow(c, k, before, plaintext);
      CountOneMore(k, sinceCheckpoint, |plains|);
      var nonce := c.nonce(index);
      var ciphertext := c.seal(nonce, plaintext);
      runningHash := c.hash(runningHash + BigEndian(index) + (nonce + ciphertext));
      sinceCheckpoint := sinceCheckpoint + 1;
      x := Chunk(index, nonce, ciphertext, runningHash, []);
      if k != 0 && sinceCheckpoint >= k {
        x := x.(signature := c.sign(index, CheckpointMessage(ctx, index, runningHash)));
        signed := signed + {Checkpoint(ctx, index, runningHash)};
        sinceCheckpoint := 0;
      }
      plains := plains + [plaintext];
    }

    method Finalize(nChunks: u32) returns (final: Terminal)
      requires Valid()
      requires nChunks == |plains|
      modifies this`signed
      ensures final == ServedFinal(c, strategy, plains)
      ensures signed == SignedLog(c, strategy, plains)
    {
      match strategy {
        case BufferAndSign =>
          var nonce := c.nonce(nChunks);
          var ciphertext := c.seal(nonce, buffer);
          signed := signed + {Buffered(ctx, nonce + ciphertext)};
          final := FinalBuffered(nonce, ciphertext, c.sign(nChunks, BufferedMessage(ctx, nonce, ciphertext)));
        case PerChunk =>
          signed := signed + {End(ctx, nChunks)};
          final := FinalPerChunk(nChunks, c.sign(nChunks, EndMessage(ctx, nChunks)));
        case HashChain(_) =>
          signed := signed + {Final(ctx, nChunks, runningHash)};
          final := FinalChain(runningHash, nChunks, c.sign(nChunks, FinalChainMessage(ctx, nChunks, runningHash)));
      }
    }
  }
}
