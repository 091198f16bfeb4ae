/** The authenticated handshake: crypto/handshake_auth.py, lines 30-45 and 77-99. */
module Transcript {
  import opened Bytes
  import opened Primitives

  // b"PQ-Shield-handshake-v1"
  const DOMAIN: bytes := [80, 81, 45, 83, 104, 105, 101, 108, 100, 45, 104, 97, 110, 100, 115, 104, 97, 107, 101, 45, 118, 49]

  lemma DomainSpells()
    ensures DOMAIN == Ascii("PQ-Shield-handshake-v1")
  {
  }

  /** Everything that a client relies on from a handshake.  Names are in their UTF-8 bytes. */
  datatype Handshake = Handshake(handshakeId: bytes, kexAlgorithm: bytes, sigAlgorithm: bytes, kexPublicKey: bytes, sigPublicKey: bytes)
  {
    function Fields(): seq<bytes> {
      [handshakeId, kexAlgorithm, sigAlgorithm, kexPublicKey, sigPublicKey]
    }

    /** No field is too long for its length prefix; the packing raises an error otherwise. */
    predicate Packable() {
      forall f | f in Fields() :: |f| < TWO_TO_32
    }
  }

  function Field(f: bytes): bytes
    requires |f| < TWO_TO_32
  {
    BigEndian(|f|) + f
  }

  function Serialize(h: Handshake): bytes
    requires h.Packable()
  {
    DOMAIN + [0] + Field(h.handshakeId) + Field(h.kexAlgorithm) + Field(h.sigAlgorithm) + Field(h.kexPublicKey) + Field(h.sigPublicKey)
  }

  function Digested(hash: bytes -> Digest, h: Handshake): Digest
    requires h.Packable()
  {
    hash(Serialize(h))
  }

  /** Reads one field off the front. */
  function ParseField(b: bytes): Option<(bytes, bytes)> {
    if |b| < 4 then None
    else
      var n := FromBigEndian(b[..4]);
      if |b| < 4 + n then None else Some((b[4..4 + n], b[4 + n..]))
  }

  lemma ParseFieldInverts(f: bytes, rest: bytes)
    requires |f| < TWO_TO_32
    ensures ParseField(Field(f) + rest) == Some((f, rest))
  {
    var b := Field(f) + rest;
    assert b[..4] == BigEndian(|f|);
    BigEndianRoundTrip(|f|, BigEndian(|f|));
    assert b[4..4 + |f|] == f && b[4 + |f|..] == rest;
  }

  lemma ParsedFieldIsEncoded(b: bytes)
    requires ParseField(b).Some?
    ensures var (f, rest) := ParseField(b).value; |f| < TWO_TO_32 && b == Field(f) + rest
  {
    BigEndianRoundTrip(0, b[..4]);
    var n := FromBigEndian(b[..4]);
    assert b == b[..4] + b[4..4 + n] + b[4 + n..];
  }

  function Concatenated(fields: seq<bytes>): bytes
    requires forall f | f in fields :: |f| < TWO_TO_32
  {
    if fields == [] then [] else Field(fields[0]) + Concatenated(fields[1..])
  }

  /** Reads exactly n fields. */
  function ParseFields(b: bytes, n: nat): Option<seq<bytes>> {
    if n == 0 then if b == [] then Some([]) else None
    else match ParseField(b)
         case None => None
         case Some((f, rest)) =>
           match ParseFields(rest, n - 1)
           case None => None
           case Some(fields) => Some([f] + fields)
  }

  lemma ParseOneMore(f: bytes, rest: bytes, fields: seq<bytes>)
    requires |f| < TWO_TO_32 && ParseFields(rest, |fields|) == Some(fields)
    ensures ParseFields(Field(f) + rest, |fields| + 1) == Some([f] + fields)
  {
    ParseFieldInverts(f, rest);
  }

  lemma {:induction false} ParseFieldsInverts(fields: seq<bytes>)
    requires forall f | f in fields :: |f| < TWO_TO_32
    ensures ParseFields(Concatenated(fields), |fields|) == Some(fields)
  {
    if fields != [] {
      var f, rest := fields[0], fields[1..];
      ParseFieldsInverts(rest);
      ParseOneMore(f, Concatenated(rest), rest);
      assert fields == [f] + rest;
    }
  }

  lemma {:induction false} ParsedFieldsAreEncoded(b: bytes, n: nat)
    requires ParseFields(b, n).Some?
    ensures var fields := ParseFields(b, n).value;
      |fields| == n && (forall f | f in fields :: |f| < TWO_TO_32) && b == Concatenated(fields)
  {
    if n > 0 {
      ParsedFieldIsEncoded(b);
      var (f, rest) := ParseField(b).value;
      ParsedFieldsAreEncoded(rest, n - 1);
      var fields := ParseFields(b, n).value;
      assert fields[1..] == ParseFields(rest, n - 1).value;
    }
  }

  /** Reads a serialized transcript back. */
  function Parse(b: bytes): Option<Handshake> {
    if |b| < |DOMAIN| + 1 || b[..|DOMAIN| + 1] != DOMAIN + [0] then None
    else match ParseFields(b[|DOMAIN| + 1..], 5)
         case None => None
         case Some(fields) => if |fields| == 5 then Some(Handshake(fields[0], fields[1], fields[2], fields[3], fields[4])) else None
  }

  lemma SerializeIsFields(h: Handshake)
    requires h.Packable()
    ensures Serialize(h) == DOMAIN + [0] + Concatenated(h.Fields())
  {
    var f := h.Fields();
    assert f[1..] == [f[1], f[2], f[3], f[4]] && f[1..][1..] == [f[2], f[3], f[4]];
    assert f[1..][1..][1..] == [f[3], f[4]] && f[1..][1..][1..][1..] == [f[4]] && f[1..][1..][1..][1..][1..] == [];
    FiveParts(DOMAIN + [0], Field(f[0]), Field(f[1]), Field(f[2]), Field(f[3]), Field(f[4]));
    UnfoldFive(f[0], f[1], f[2], f[3], f[4]);
  }

  lemma FiveParts(p: bytes, a: bytes, b: bytes, c: bytes, d: bytes, e: bytes)
    ensures p + a + b + c + d + e == p + (a + (b + (c + (d + e))))
  {
  }

  lemma UnfoldFive(a: bytes, b: bytes, c: bytes, d: bytes, e: bytes)
    requires forall f | f in [a, b, c, d, e] :: |f| < TWO_TO_32
    ensures Concatenated([a, b, c, d, e]) == Field(a) + (Field(b) + (Field(c) + (Field(d) + Field(e))))
  {
    assert [a, b, c, d, e][1..] == [b, c, d, e] && [b, c, d, e][1..] == [c, d, e];
    assert [c, d, e][1..] == [d, e] && [d, e][1..] == [e] && [e][1..] == [];
    assert Concatenated([e]) == Field(e) + [] == Field(e);
    assert Concatenated([c, d, e]) == Field(c) + (Field(d) + Field(e));
  }

  /** The encoding is uniquely decodable: what was serialized is read back, and nothing else is read. */
  lemma SerializeRoundTrip(h: Handshake)
    requires h.Packable()
    ensures Parse(Serialize(h)) == Some(h)
  {
    SerializeIsFields(h);
    var b := Serialize(h);
    assert b[..|DOMAIN| + 1] == DOMAIN + [0] && b[|DOMAIN| + 1..] == Concatenated(h.Fields());
    ParseFieldsInverts(h.Fields());
  }

  lemma ParsedParts(b: bytes)
    requires Parse(b).Some?
    ensures b == DOMAIN + [0] + b[|DOMAIN| + 1..]
    ensures ParseFields(b[|DOMAIN| + 1..], 5) == Some(Parse(b).value.Fields())
  {
    assert b == b[..|DOMAIN| + 1] + b[|DOMAIN| + 1..];
    var fields := ParseFields(b[|DOMAIN| + 1..], 5).value;
    assert [fields[0], fields[1], fields[2], fields[3], fields[4]] == fields;
  }

  lemma ParsedIsSerialized(b: bytes)
    requires Parse(b).Some?
    ensures Parse(b).value.Packable() && Serialize(Parse(b).value) == b
  {
    var h := Parse(b).value;
    ParsedParts(b);
    ParsedFieldsAreEncoded(b[|DOMAIN| + 1..], 5);
    SerializeIsFields(h);
  }

  /** Two handshakes with one transcript are the same in all five fields, or their serializations
      collide under the hash. */
  lemma TranscriptBinding(hash: bytes -> Digest, h: Handshake, h': Handshake)
    requires h.Packable() && h'.Packable() && Digested(hash, h) == Digested(hash, h')
    ensures h == h' || IsCollision(hash, (Serialize(h), Serialize(h')))
  {
    SerializeRoundTrip(h);
    SerializeRoundTrip(h');
  }

  /** The client's check against a pinned identity key, whose verification is `verify`.  A missing
      signature fails; None stands for the error that packing raises. */
  function VerifyHandshake(hash: bytes -> Digest, verify: (bytes, bytes) -> bool, h: Handshake, signature: Option<bytes>): Option<bool> {
    if signature.None? || signature.value == [] then Some(false)
    else if !h.Packable() then None
    else Some(verify(Digested(hash, h), signature.value))
  }

  /** Without a signature a handshake is never accepted, and with one only if it verifies for the
      transcript of these very fields. */
  lemma AcceptedVerifies(hash: bytes -> Digest, verify: (bytes, bytes) -> bool, h: Handshake, signature: Option<bytes>)
    ensures signature.None? || signature == Some([]) ==> VerifyHandshake(hash, verify, h, signature) == Some(false)
    ensures VerifyHandshake(hash, verify, h, signature) == Some(true) <==>
            signature.Some? && signature.value != [] && h.Packable() && verify(Digested(hash, h), signature.value)
    ensures VerifyHandshake(hash, verify, h, signature) == None <==> signature.Some? && signature.value != [] && !h.Packable()
  {
  }

  /** The identity key signs nothing but the transcripts of the handshakes that the server has made. */
  ghost predicate OnlyTranscripts(hash: bytes -> Digest, verify: (bytes, bytes) -> bool, made: set<Handshake>) {
    forall m, signature :: verify(m, signature) ==> exists h :: h in made && h.Packable() && Digested(hash, h) == m
  }

  /** An accepted handshake is one that the server made, in all five fields, or it collides with one. */
  lemma AcceptedIsMade(hash: bytes -> Digest, verify: (bytes, bytes) -> bool, made: set<Handshake>, h: Handshake, signature: Option<bytes>)
    returns (h': Handshake)
    requires OnlyTranscripts(hash, verify, made)
    requires VerifyHandshake(hash, verify, h, signature) == Some(true)
    ensures h' in made && h'.Packable() && h.Packable()
    ensures h == h' || IsCollision(hash, (Serialize(h), Serialize(h')))
  {
    h' :| h' in made && h'.Packable() && Digested(hash, h') == Digested(hash, h);
    TranscriptBinding(hash, h, h');
  }

  /** So where no made handshake collides with the offered one, exactly the made handshakes pass: any
      substituted key, name or identifier is rejected, whatever signature comes with it. */
  lemma ExactlyTheMade(hash: bytes -> Digest, verify: (bytes, bytes) -> bool, made: set<Handshake>, h: Handshake, sign: bytes -> bytes)
    requires OnlyTranscripts(hash, verify, made) && h.Packable()
    requires forall g | g in made && g.Packable() :: sign(Digested(hash, g)) != [] && verify(Digested(hash, g), sign(Digested(hash, g)))
    requires forall g | g in made && g.Packable() :: !IsCollision(hash, (Serialize(h), Serialize(g)))
    ensures h in made <==> exists signature :: VerifyHandshake(hash, verify, h, signature) == Some(true)
  {
    if h in made {
      assert VerifyHandshake(hash, verify, h, Some(sign(Digested(hash, h)))) == Some(true);
    }
    if signature :| VerifyHandshake(hash, verify, h, signature) == Some(true) {
      var h' := AcceptedIsMade(hash, verify, made, h, signature);
    }
  }
}
