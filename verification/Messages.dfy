/** The messages a streaming server signs: crypto/streaming.py, lines 98-134. */
module Messages {
  import opened Bytes
  import opened Primitives

  // b"PQ-Shield-stream-v2"
  const DOMAIN: bytes := [80, 81, 45, 83, 104, 105, 101, 108, 100, 45, 115, 116, 114, 101, 97, 109, 45, 118, 50]

  const GEN: bytes := [71, 69, 78]
  const BUF: bytes := [66, 85, 70]
  const CHK: bytes := [67, 72, 75]
  const END: bytes := [69, 78, 68]
  const CKP: bytes := [67, 75, 80]
  const FIN: bytes := [70, 73, 78]

  function ContextPreimage(handshakeId: bytes): bytes {
    DOMAIN + [0] + handshakeId
  }

  /** The labels in clear, and the layout of the context's input: the domain, a zero byte, the id. */
  lemma LabelsSpell(handshakeId: bytes)
    ensures DOMAIN == Ascii("PQ-Shield-stream-v2") && GEN == Ascii("GEN")
    ensures BUF == Ascii("BUF") && CHK == Ascii("CHK") && END == Ascii("END") && CKP == Ascii("CKP") && FIN == Ascii("FIN")
    ensures ContextPreimage(handshakeId) == Ascii("PQ-Shield-stream-v2") + [0] + handshakeId
  {
  }

  function StreamContext(c: Crypto): Digest {
    c.hash(ContextPreimage(c.handshakeId))
  }

  /** What a signature says.  An envelope is nonce || ciphertext. */
  datatype Message =
    | Buffered(ctx: Digest, envelope: bytes)
    | OneChunk(ctx: Digest, index: u32, envelope: bytes)
    | End(ctx: Digest, nChunks: u32)
    | Checkpoint(ctx: Digest, index: u32, chainHash: Digest)
    | Final(ctx: Digest, nChunks: u32, chainHash: Digest)

  /** The bytes that are signed for it. */
  function Encode(m: Message): bytes {
    match m
    case Buffered(ctx, envelope) => BUF + ctx + envelope
    case OneChunk(ctx, index, envelope) => CHK + ctx + BigEndian(index) + envelope
    case End(ctx, nChunks) => END + ctx + BigEndian(nChunks)
    case Checkpoint(ctx, index, chainHash) => CKP + ctx + BigEndian(index) + chainHash
    case Final(ctx, nChunks, chainHash) => FIN + ctx + BigEndian(nChunks) + chainHash
  }

  function BufferedMessage(ctx: Digest, nonce: bytes, ciphertext: bytes): bytes {
    Encode(Buffered(ctx, nonce + ciphertext))
  }

  function ChunkMessage(ctx: Digest, index: u32, nonce: bytes, ciphertext: bytes): bytes {
    Encode(OneChunk(ctx, index, nonce + ciphertext))
  }

  function EndMessage(ctx: Digest, nChunks: u32): bytes {
    Encode(End(ctx, nChunks))
  }

  function CheckpointMessage(ctx: Digest, index: u32, chainHash: Digest): bytes {
    Encode(Checkpoint(ctx, index, chainHash))
  }

  function FinalChainMessage(ctx: Digest, nChunks: u32, chainHash: Digest): bytes {
    Encode(Final(ctx, nChunks, chainHash))
  }

  /** Reads a signed message back: the label fixes the role, the role fixes the layout. */
  function Decode(b: bytes): Option<Message> {
    if |b| < 35 then None else
    var role, ctx, rest := b[..3], b[3..35], b[35..];
    if role == BUF then Some(Buffered(ctx, rest))
    else if |rest| < 4 then None
    else
      var number, tail := FromBigEndian(rest[..4]), rest[4..];
      if role == CHK then Some(OneChunk(ctx, number, tail))
      else if role == END && tail == [] then Some(End(ctx, number))
      else if role == CKP && |tail| == 32 then Some(Checkpoint(ctx, number, tail))
      else if role == FIN && |tail| == 32 then Some(Final(ctx, number, tail))
      else None
  }

  lemma DecodeParts(role: bytes, ctx: Digest, rest: bytes)
    requires |role| == 3
    ensures var b := role + ctx + rest; b[..3] == role && b[3..35] == ctx && b[35..] == rest
  {
  }

  lemma DecodeNumber(n: u32, tail: bytes)
    ensures var rest := BigEndian(n) + tail; rest[..4] == BigEndian(n) && rest[4..] == tail
    ensures FromBigEndian((BigEndian(n) + tail)[..4]) == n
  {
    assert (BigEndian(n) + tail)[..4] == BigEndian(n);
    BigEndianRoundTrip(n, BigEndian(n));
  }

  lemma Regroup(a: bytes, b: bytes, x: bytes, y: bytes)
    ensures a + b + x + y == a + b + (x + y)
  {
  }

  function Label(m: Message): string {
    match m
    case Buffered(_, _) => "BUF"
    case OneChunk(_, _, _) => "CHK"
    case End(_, _) => "END"
    case Checkpoint(_, _, _) => "CKP"
    case Final(_, _, _) => "FIN"
  }

  /** Every message starts with its role's label and the session's context. */
  lemma EncodeStarts(m: Message)
    ensures Ascii(Label(m)) + m.ctx <= Encode(m)
  {
    LabelsSpell([]);
  }

  /** A signed message can be read back, whatever its role. */
  lemma DecodeEncode(m: Message)
    ensures Decode(Encode(m)) == Some(m)
  {
    match m
    case Buffered(ctx, envelope) =>
      DecodeParts(BUF, ctx, envelope);
    case OneChunk(ctx, index, envelope) =>
      Regroup(CHK, ctx, BigEndian(index), envelope);
      DecodeParts(CHK, ctx, BigEndian(index) + envelope);
      DecodeNumber(index, envelope);
    case End(ctx, nChunks) =>
      assert BigEndian(nChunks) + [] == BigEndian(nChunks);
      DecodeParts(END, ctx, BigEndian(nChunks));
      DecodeNumber(nChunks, []);
    case Checkpoint(ctx, index, chainHash) =>
      Regroup(CKP, ctx, BigEndian(index), chainHash);
      DecodeParts(CKP, ctx, BigEndian(index) + chainHash);
      DecodeNumber(index, chainHash);
    case Final(ctx, nChunks, chainHash) =>
      Regroup(FIN, ctx, BigEndian(nChunks), chainHash);
      DecodeParts(FIN, ctx, BigEndian(nChunks) + chainHash);
      DecodeNumber(nChunks, chainHash);
  }

  /** No message of one role, session, index or length is signed as the bytes of another one. */
  lemma EncodeInjective(m: Message, m': Message)
    requires Encode(m) == Encode(m')
    ensures m == m'
  {
    DecodeEncode(m);
    DecodeEncode(m');
  }

  /** A message signed in one session never reads as a message of another session, unless the two
      handshake ids collide under the hash. */
  lemma SessionsSeparated(c: Crypto, c': Crypto, m: Message, m': Message)
    requires c.hash == c'.hash
    requires m.ctx == StreamContext(c) && m'.ctx == StreamContext(c')
    requires Encode(m) == Encode(m')
    ensures c.handshakeId == c'.handshakeId
         || IsCollision(c.hash, (ContextPreimage(c.handshakeId), ContextPreimage(c'.handshakeId)))
  {
    EncodeInjective(m, m');
    if ContextPreimage(c.handshakeId) == ContextPreimage(c'.handshakeId) {
      Unconcat(DOMAIN + [0], c.handshakeId, DOMAIN + [0], c'.handshakeId);
    }
  }

  /** Nothing verifies that is not the encoding of a message in the log of what was signed. */
  ghost predicate Unforgeable(c: Crypto, log: set<Message>) {
    forall m: bytes, s: bytes :: c.verify(m, s) ==> exists a :: a in log && Encode(a) == m
  }

  lemma VerifiedIsLogged(c: Crypto, log: set<Message>, m: Message, s: bytes)
    requires Unforgeable(c, log)
    requires c.verify(Encode(m), s)
    ensures m in log
  {
    var a :| a in log && Encode(a) == Encode(m);
    EncodeInjective(a, m);
  }
}
