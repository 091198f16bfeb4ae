/** The running hash of a stream, and what two equal running hashes prove. */
module Chain {
  import opened Bytes
  import opened Primitives
  import opened Messages

  /** What one chunk folds into the chain. */
  datatype Link = Link(index: u32, envelope: bytes)

  /** The bytes hashed to reach the chain value of `links`: 35 bytes for the genesis value, at
      least 36 for every later one. */
  function Preimage(c: Crypto, links: seq<Link>): (b: bytes)
    ensures if links == [] then |b| == 35 else |b| >= 36
    decreases |links|, 0
  {
    if links == [] then GEN + StreamContext(c)
    else ChainHash(c, Init(links)) + BigEndian(Last(links).index) + Last(links).envelope
  }

  function ChainHash(c: Crypto, links: seq<Link>): Digest
    decreases |links|, 1
  {
    c.hash(Preimage(c, links))
  }

  /** Walks two chains back from their ends to the first step at which their preimages differ. */
  function FindCollision(c: Crypto, a: seq<Link>, b: seq<Link>): (bytes, bytes)
    decreases |a|
  {
    if a == [] || b == [] || Preimage(c, a) != Preimage(c, b) then (Preimage(c, a), Preimage(c, b))
    else FindCollision(c, Init(a), Init(b))
  }

  /** Chains of any two lengths that end in the same hash are the same chain, or the walk back
      finds a hash collision. */
  lemma {:induction false} ChainBinding(c: Crypto, a: seq<Link>, b: seq<Link>)
    requires ChainHash(c, a) == ChainHash(c, b)
    ensures a == b || IsCollision(c.hash, FindCollision(c, a, b))
    decreases |a|
  {
    if a != [] && b != [] && Preimage(c, a) == Preimage(c, b) {
      var x, y := Last(a), Last(b);
      Unconcat(ChainHash(c, Init(a)) + BigEndian(x.index), x.envelope, ChainHash(c, Init(b)) + BigEndian(y.index), y.envelope);
      Unconcat(ChainHash(c, Init(a)), BigEndian(x.index), ChainHash(c, Init(b)), BigEndian(y.index));
      BigEndianInjective(x.index, y.index);
      ChainBinding(c, Init(a), Init(b));
      assert a == Init(a) + [x] && b == Init(b) + [y];
    }
  }

  /** The same walk along the chains of two sessions, and at the genesis values on to the two contexts. */
  function FindCollisionAcross(c: Crypto, a: seq<Link>, c': Crypto, b: seq<Link>): (bytes, bytes)
    decreases |a|
  {
    if Preimage(c, a) != Preimage(c', b) then (Preimage(c, a), Preimage(c', b))
    else if a == [] || b == [] then (ContextPreimage(c.handshakeId), ContextPreimage(c'.handshakeId))
    else FindCollisionAcross(c, Init(a), c', Init(b))
  }

  /** A chain value also fixes its session: no chain of one session, not even the empty one, ends in the
      hash of a chain of another, unless the walk finds a collision. */
  lemma {:induction false} ChainBindingAcross(c: Crypto, a: seq<Link>, c': Crypto, b: seq<Link>)
    requires c.hash == c'.hash && ChainHash(c, a) == ChainHash(c', b)
    ensures (c.handshakeId == c'.handshakeId && a == b) || IsCollision(c.hash, FindCollisionAcross(c, a, c', b))
    decreases |a|
  {
    if Preimage(c, a) == Preimage(c', b) {
      if a == [] || b == [] {
        Unconcat(GEN, StreamContext(c), GEN, StreamContext(c'));
        if ContextPreimage(c.handshakeId) == ContextPreimage(c'.handshakeId) {
          Unconcat(DOMAIN + [0], c.handshakeId, DOMAIN + [0], c'.handshakeId);
        }
      } else {
        var x, y := Last(a), Last(b);
        Unconcat(ChainHash(c, Init(a)) + BigEndian(x.index), x.envelope, ChainHash(c', Init(b)) + BigEndian(y.index), y.envelope);
        Unconcat(ChainHash(c, Init(a)), BigEndian(x.index), ChainHash(c', Init(b)), BigEndian(y.index));
        BigEndianInjective(x.index, y.index);
        ChainBindingAcross(c, Init(a), c', Init(b));
        assert a == Init(a) + [x] && b == Init(b) + [y];
      }
    }
  }

  /** None of the candidate pairs that the prefixes of two streams give is a collision.  The
      candidates are finitely many and fixed by the two streams. */
  ghost predicate CollisionFree(c: Crypto, a: seq<Link>, b: seq<Link>) {
    forall i, j | 0 <= i <= |a| && 0 <= j <= |b| :: !IsCollision(c.hash, FindCollision(c, a[..i], b[..j]))
  }

  lemma NoCollisionAt(c: Crypto, a: seq<Link>, b: seq<Link>, i: nat, j: nat)
    requires i <= |a| && j <= |b|
    requires CollisionFree(c, a, b)
    ensures !IsCollision(c.hash, FindCollision(c, a[..i], b[..j]))
  {
  }
}
