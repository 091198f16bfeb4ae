/** The assumptions about cryptography do not contradict each other: for every strategy and every list of
    plaintexts, and for whatever links arrive, there are functions that work for the server's stream and
    leave the adversary no forgery, no foreign ciphertext and no collision. */
module Consistency {
  import opened Bytes
  import opened Primitives
  import opened Messages
  import opened Chain
  import opened Records
  import opened Server
  import opened Acceptance
  import opened Soundness
  import opened Campaign
  import opened CostModel
  import opened EndToEnd

  /** The length of the common front of two chains. */
  function Common(a: seq<Link>, b: seq<Link>): (d: nat)
    ensures d <= |a| && d <= |b| && a[..d] == b[..d]
    ensures d < |a| && d < |b| ==> a[d] != b[d]
  {
    if a == [] || b == [] || a[0] != b[0] then 0
    else
      var d := Common(a[1..], b[1..]);
      assert a[..d + 1] == [a[0]] + a[1..][..d] && b[..d + 1] == [b[0]] + b[1..][..d];
      d + 1
  }

  /** A digest that tells how far a chain has come, and on which branch: 0 while the two chains agree,
      1 on the first one, 2 on the second. */
  function Code(depth: u32, branch: byte): Digest {
    BigEndian(depth) + [branch] + seq(27, _ => 0 as byte)
  }

  lemma CodeInjective(depth: u32, branch: byte, depth': u32, branch': byte)
    requires Code(depth, branch) == Code(depth', branch')
    ensures depth == depth' && branch == branch'
  {
    Unconcat(BigEndian(depth) + [branch], seq(27, _ => 0 as byte), BigEndian(depth') + [branch'], seq(27, _ => 0 as byte));
    Unconcat(BigEndian(depth), [branch], BigEndian(depth'), [branch']);
    BigEndianInjective(depth, depth');
  }

  function LinkBytes(x: Link): bytes {
    BigEndian(x.index) + x.envelope
  }

  lemma LinkBytesInjective(x: Link, y: Link)
    requires LinkBytes(x) == LinkBytes(y)
    ensures x == y
  {
    Unconcat(BigEndian(x.index), x.envelope, BigEndian(y.index), y.envelope);
    BigEndianInjective(x.index, y.index);
  }

  function NextBranch(a: seq<Link>, b: seq<Link>, depth: u32, branch: byte, link: bytes): byte {
    if branch != 0 then branch
    else if depth < Common(a, b) then 0
    else if depth < |a| && link == LinkBytes(a[depth]) then 1 else 2
  }

  /** A hash under which two given chains do not collide. */
  function ToyHash(a: seq<Link>, b: seq<Link>, m: bytes): Digest {
    if |m| <= 35 then Code(0, 0)
    else
      var depth, branch := FromBigEndian(m[..4]), m[4];
      Code(if depth + 1 < TWO_TO_32 then depth + 1 else 0, NextBranch(a, b, depth, branch, m[32..]))
  }

  function Hash(a: seq<Link>, b: seq<Link>): bytes -> Digest {
    (m: bytes) => ToyHash(a, b, m)
  }

  lemma HashStep(a: seq<Link>, b: seq<Link>, depth: u32, branch: byte, link: bytes)
    requires |link| >= 4 && depth + 1 < TWO_TO_32
    ensures ToyHash(a, b, Code(depth, branch) + link) == Code(depth + 1, NextBranch(a, b, depth, branch, link))
  {
    var m := Code(depth, branch) + link;
    assert m[..4] == BigEndian(depth) && m[4] == branch && m[32..] == link;
    BigEndianRoundTrip(depth, BigEndian(depth));
  }

  /** The branch that each chain is on after its n-th link. */
  lemma FirstBranch(a: seq<Link>, b: seq<Link>, n: nat)
    requires 0 < n <= |a| < TWO_TO_32
    ensures NextBranch(a, b, n - 1, if n - 1 <= Common(a, b) then 0 else 1, LinkBytes(a[n - 1])) == if n <= Common(a, b) then 0 else 1
  {
  }

  lemma SecondBranch(a: seq<Link>, b: seq<Link>, n: nat)
    requires 0 < n <= |b| < TWO_TO_32
    ensures NextBranch(a, b, n - 1, if n - 1 <= Common(a, b) then 0 else 2, LinkBytes(b[n - 1])) == if n <= Common(a, b) then 0 else 2
  {
    if n - 1 == Common(a, b) && n - 1 < |a| && LinkBytes(a[n - 1]) == LinkBytes(b[n - 1]) {
      LinkBytesInjective(a[n - 1], b[n - 1]);
    }
  }

  /** The first chain ends in its own code at every depth, and so does the second. */
  lemma {:induction false} FirstChain(c: Crypto, a: seq<Link>, b: seq<Link>, n: nat)
    requires c.hash == Hash(a, b) && n <= |a| < TWO_TO_32
    ensures ChainHash(c, a[..n]) == Code(n, if n <= Common(a, b) then 0 else 1)
  {
    if n > 0 {
      FirstChain(c, a, b, n - 1);
      ChainStep(c, a, n);
      HashStep(a, b, n - 1, if n - 1 <= Common(a, b) then 0 else 1, LinkBytes(a[n - 1]));
      FirstBranch(a, b, n);
    }
  }

  lemma {:induction false} SecondChain(c: Crypto, a: seq<Link>, b: seq<Link>, n: nat)
    requires c.hash == Hash(a, b) && n <= |b| < TWO_TO_32
    ensures ChainHash(c, b[..n]) == Code(n, if n <= Common(a, b) then 0 else 2)
  {
    if n > 0 {
      SecondChain(c, a, b, n - 1);
      ChainStep(c, b, n);
      HashStep(a, b, n - 1, if n - 1 <= Common(a, b) then 0 else 2, LinkBytes(b[n - 1]));
      SecondBranch(a, b, n);
    }
  }

  lemma ChainStep(c: Crypto, links: seq<Link>, n: nat)
    requires 0 < n <= |links|
    ensures ChainHash(c, links[..n]) == c.hash(ChainHash(c, links[..n - 1]) + LinkBytes(links[n - 1]))
  {
    var h, x := ChainHash(c, links[..n - 1]), links[n - 1];
    assert Init(links[..n]) == links[..n - 1];
    assert h + BigEndian(x.index) + x.envelope == h + LinkBytes(x);
  }

  /** So equal chain values mean equal chains, */
  lemma EqualCodes(c: Crypto, a: seq<Link>, b: seq<Link>, i: nat, j: nat)
    requires c.hash == Hash(a, b) && i <= |a| < TWO_TO_32 && j <= |b| < TWO_TO_32
    requires ChainHash(c, a[..i]) == ChainHash(c, b[..j])
    ensures a[..i] == b[..j]
  {
    var d := Common(a, b);
    FirstChain(c, a, b, i);
    SecondChain(c, a, b, j);
    CodeInjective(i, if i <= d then 0 else 1, j, if j <= d then 0 else 2);
    assert a[..i] == a[..d][..i] && b[..i] == b[..d][..i];
  }

  /** and walking back never ends at a collision. */
  lemma {:induction false} NoToyCollision(c: Crypto, a: seq<Link>, b: seq<Link>, i: nat, j: nat)
    requires c.hash == Hash(a, b) && i <= |a| < TWO_TO_32 && j <= |b| < TWO_TO_32
    ensures !IsCollision(c.hash, FindCollision(c, a[..i], b[..j]))
    decreases i
  {
    var x, y := a[..i], b[..j];
    if x == [] || y == [] || Preimage(c, x) != Preimage(c, y) {
      if ChainHash(c, x) == ChainHash(c, y) {
        EqualCodes(c, a, b, i, j);
      }
    } else {
      NoToyCollision(c, a, b, i - 1, j - 1);
      assert Init(x) == a[..i - 1] && Init(y) == b[..j - 1];
    }
  }

  lemma ToyCollisionFree(c: Crypto, a: seq<Link>, b: seq<Link>)
    requires c.hash == Hash(a, b) && |a| < TWO_TO_32 && |b| < TWO_TO_32
    ensures CollisionFree(c, a, b)
  {
    forall i, j | 0 <= i <= |a| && 0 <= j <= |b| ensures !IsCollision(c.hash, FindCollision(c, a[..i], b[..j])) {
      NoToyCollision(c, a, b, i, j);
    }
  }

  /** The nonce of a draw carries its number. */
  function ToyNonce(i: nat): Nonce {
    BigEndian(if i < TWO_TO_32 then i else 0) + seq(8, _ => 0 as byte)
  }

  /** Everything that is ever sealed for these plaintexts, one by one or joined. */
  function ToySealed(plains: seq<bytes>): set<(Nonce, bytes)> {
    (set i | 0 <= i < |plains| :: (ToyNonce(i), plains[i])) + {(ToyNonce(|plains|), Concat(plains))}
  }

  /** Sealing shows the plaintext, but nothing else opens; a signature is a mark, but only on messages
      that were to be signed. */
  function Toy(plains: seq<bytes>, hash: bytes -> Digest, length: nat, accepted: set<bytes>): Crypto {
    Crypto([], hash, ToyNonce, (n: Nonce, p: bytes) => p,
           (n: bytes, ct: bytes) => if |n| == NONCE_BYTES && (n, ct) in ToySealed(plains) then Some(ct) else None,
           (i: nat, m: bytes) => Mark(length), (m: bytes, signature: bytes) => m in accepted)
  }

  /** A signature of a given length. */
  function Mark(length: nat): bytes {
    seq(length, _ => 1 as byte)
  }

  /** What is hashed, sealed and signed does not depend on what is accepted. */
  lemma {:induction false} SameChain(p: seq<bytes>, h: bytes -> Digest, n: nat, a: set<bytes>, links: seq<Link>)
    ensures Preimage(Toy(p, h, n, a), links) == Preimage(Toy(p, h, n, {}), links)
    ensures ChainHash(Toy(p, h, n, a), links) == ChainHash(Toy(p, h, n, {}), links)
    decreases |links|
  {
    if links != [] { SameChain(p, h, n, a, Init(links)); }
  }

  lemma SameRow(s: Strategy, p: seq<bytes>, h: bytes -> Digest, n: nat, a: set<bytes>, before: seq<Chunk>, plaintext: bytes)
    requires |before| < TWO_TO_32 && !s.BufferAndSign?
    ensures ServedChunk(Toy(p, h, n, a), s, before, plaintext) == ServedChunk(Toy(p, h, n, {}), s, before, plaintext)
  {
    SameChain(p, h, n, a, Links(before + [Chunk(|before|, ToyNonce(|before|), plaintext, [], [])]));
  }

  lemma {:induction false} SameServed(s: Strategy, p: seq<bytes>, h: bytes -> Digest, n: nat, a: set<bytes>, plains: seq<bytes>)
    requires |plains| < TWO_TO_32
    ensures Served(Toy(p, h, n, a), s, plains) == Served(Toy(p, h, n, {}), s, plains)
  {
    if !s.BufferAndSign? && plains != [] {
      SameServed(s, p, h, n, a, Init(plains));
      SameRow(s, p, h, n, a, Served(Toy(p, h, n, {}), s, Init(plains)), Last(plains));
    }
  }

  lemma SameCheckpoints(p: seq<bytes>, h: bytes -> Digest, n: nat, a: set<bytes>, sent: seq<Chunk>)
    requires |sent| < TWO_TO_32
    ensures forall i | 0 <= i < |sent| :: CheckpointAt(Toy(p, h, n, a), sent, i) == CheckpointAt(Toy(p, h, n, {}), sent, i)
  {
    forall i | 0 <= i < |sent| ensures CheckpointAt(Toy(p, h, n, a), sent, i) == CheckpointAt(Toy(p, h, n, {}), sent, i) {
      SameChain(p, h, n, a, Links(sent)[..i + 1]);
    }
  }

  lemma SameLog(s: Strategy, plains: seq<bytes>, h: bytes -> Digest, n: nat, a: set<bytes>)
    requires |plains| < TWO_TO_32
    ensures SignedLog(Toy(plains, h, n, a), s, plains) == SignedLog(Toy(plains, h, n, {}), s, plains)
  {
    var c, d := Toy(plains, h, n, a), Toy(plains, h, n, {});
    var sent := Served(d, s, plains);
    SameServed(s, plains, h, n, a, plains);
    SameCheckpoints(plains, h, n, a, sent);
    SameChain(plains, h, n, a, Links(sent));
    assert ChunkLog(c, s, sent) == ChunkLog(d, s, sent);
  }

  /** The links of the toy stream, whatever the hash is. */
  function ToyLinks(s: Strategy, plains: seq<bytes>): (links: seq<Link>)
    requires |plains| < TWO_TO_32
    ensures |links| <= |plains|
  {
    if s.BufferAndSign? then [] else seq(|plains|, i requires 0 <= i < |plains| => Link(i, ToyNonce(i) + plains[i]))
  }

  lemma LinksOfToy(s: Strategy, plains: seq<bytes>, h: bytes -> Digest, n: nat, a: set<bytes>)
    requires |plains| < TWO_TO_32
    ensures Links(Served(Toy(plains, h, n, a), s, plains)) == ToyLinks(s, plains)
  {
    var c := Toy(plains, h, n, a);
    var links := Links(Served(c, s, plains));
    forall i | 0 <= i < |links| ensures links[i] == ToyLinks(s, plains)[i] {
      ServedFields(c, s, plains, i);
    }
  }

  lemma ToyCorrect(s: Strategy, plains: seq<bytes>, c: Crypto, h: bytes -> Digest, n: nat, accepted: set<bytes>)
    requires |plains| < TWO_TO_32 && n > 0 && c == Toy(plains, h, n, accepted)
    requires accepted == set m | m in SignedLog(c, s, plains) :: Encode(m)
    ensures Correct(c, s, plains) && Unforgeable(c, SignedLog(c, s, plains)) && OnlySealedOpen(c, ToySealed(plains))
  {
    forall i | 0 <= i < |plains| ensures RoundTrips(c, i, plains[i]) {
      assert (ToyNonce(i), plains[i]) in ToySealed(plains);
    }
    assert (ToyNonce(|plains|), Concat(plains)) in ToySealed(plains);
  }

  /** For every strategy, all plaintexts, any links that may arrive and any length of signatures, one choice of functions meets all
      assumptions at once, for every stream with those links. */
  lemma AssumptionsHoldTogether(s: Strategy, plains: seq<bytes>, arrived: seq<Link>, n: nat)
    returns (c: Crypto, sealed: set<(Nonce, bytes)>)
    requires |plains| < TWO_TO_32 && |arrived| < TWO_TO_32 && n > 0
    ensures sealed == ToySealed(plains) && Links(Served(c, s, plains)) == ToyLinks(s, plains)
    ensures Correct(c, s, plains)
    ensures forall a: Algorithm :: a.minBytes <= n <= a.maxBytes ==> Sized(c, s, plains, a)
    ensures forall xs: seq<Chunk> :: Links(xs) == arrived ==> Secure(c, s, plains, sealed, xs)
    ensures forall n, ct :: c.open(n, ct).Some? ==> |n| == NONCE_BYTES && (n, ct) in sealed
  {
    var h := Hash(arrived, ToyLinks(s, plains));
    var log := SignedLog(Toy(plains, h, n, {}), s, plains);
    var accepted := set m | m in log :: Encode(m);
    c, sealed := Toy(plains, h, n, accepted), ToySealed(plains);
    SameLog(s, plains, h, n, accepted);
    ToyCorrect(s, plains, c, h, n, accepted);
    LinksOfToy(s, plains, h, n, accepted);
    ToyCollisionFree(c, arrived, ToyLinks(s, plains));
  }

  /** What a campaign attack does to the links of a stream. */
  function MutatedLinks(attack: Attack, links: seq<Link>, donor: seq<Link>): seq<Link> {
    var n := |links|;
    match attack
    case Drop(i) => if i < n then Without(links, i) else links
    case Reorder(i) => if i + 1 < n then Swapped(links, i) else links
    case Duplicate(i) => if i < n then Doubled(links, i) else links
    case ReplayDonor(i) => if i < n && i < |donor| then links[i := donor[i]] else links
    case Truncate(cut) => if cut <= n then links[..cut] else links
    case SessionReplay => donor
    case CheckpointStrip => links
    case CheckpointMove(_) => links
    case DropBeforeCheckpoint(j) => if 0 < j <= n then Without(links, j - 1) else links
    case DropAfterCheckpoint(j) => if j + 1 < n then Without(links, j + 1) else links
    case ReorderAcross(j) => if j + 1 < n then Swapped(links, j) else links
  }

  lemma LinksOfWithout(xs: seq<Chunk>, i: nat)
    requires i < |xs|
    ensures Links(Without(xs, i)) == Without(Links(xs), i)
  {
  }

  lemma LinksOfDoubled(xs: seq<Chunk>, i: nat)
    requires i < |xs|
    ensures Links(Doubled(xs, i)) == Doubled(Links(xs), i)
  {
  }

  lemma LinksOfSwapped(xs: seq<Chunk>, i: nat)
    requires i + 1 < |xs|
    ensures Links(Swapped(xs, i)) == Swapped(Links(xs), i)
    ensures Links(Moved(xs, i)) == Links(xs)
  {
  }

  lemma LinksOfReplaced(xs: seq<Chunk>, i: nat, x: Chunk)
    requires i < |xs|
    ensures Links(xs[i := x]) == Links(xs)[i := x.ToLink()]
  {
  }

  lemma LinksOfAdapted(chunks: seq<Chunk>, attack: Attack, donor: seq<Link>)
    requires Adaptive(attack) && HasRoom(attack, |chunks|)
    ensures Links(Adapted(chunks, attack)) == MutatedLinks(attack, Links(chunks), donor)
  {
    match attack
    case CheckpointStrip => assert Links(StripAll(chunks)) == Links(chunks);
    case DropBeforeCheckpoint(j) => LinksOfWithout(chunks, j - 1);
    case DropAfterCheckpoint(j) => LinksOfWithout(chunks, j + 1);
    case CheckpointMove(j) => LinksOfSwapped(chunks, j);
    case ReorderAcross(j) => LinksOfSwapped(chunks, j);
  }

  lemma LinksOfStatic(cap: Capture, donor: Capture, attack: Attack, s: Strategy)
    requires Drawn(attack, cap, donor) && !Adaptive(attack)
    ensures Mutate(cap, donor, attack, s).Some?
    ensures Links(Mutate(cap, donor, attack, s).value.chunks) == MutatedLinks(attack, Links(cap.chunks), Links(donor.chunks))
  {
    match attack
    case Drop(i) => LinksOfWithout(cap.chunks, i);
    case Reorder(i) => LinksOfSwapped(cap.chunks, i);
    case Duplicate(i) => LinksOfDoubled(cap.chunks, i);
    case ReplayDonor(i) => LinksOfReplaced(cap.chunks, i, donor.chunks[i]);
    case Truncate(cut) => LinksOfPrefix(cap.chunks, cut);
    case SessionReplay =>
  }

  lemma LinksOfMutation(cap: Capture, donor: Capture, attack: Attack, s: Strategy, m: Mutation)
    requires Drawn(attack, cap, donor) && Mutate(cap, donor, attack, s) == Some(m)
    ensures Links(m.chunks) == MutatedLinks(attack, Links(cap.chunks), Links(donor.chunks))
  {
    if Adaptive(attack) {
      LinksOfAdapted(cap.chunks, attack, Links(donor.chunks));
    } else {
      LinksOfStatic(cap, donor, attack, s);
    }
  }

  /** In particular the campaign's theorems speak of something: for every strategy, stream, attack and donor
      there are functions under which all of their assumptions hold. */
  lemma CampaignAssumptionsHoldTogether(s: Strategy, plains: seq<bytes>, donor: Capture, attack: Attack)
    returns (c: Crypto, sealed: set<(Nonce, bytes)>)
    requires !s.BufferAndSign? && |plains| + 1 < TWO_TO_32 && |donor.chunks| < TWO_TO_32
    requires forall x | x in donor.chunks :: |x.nonce| == NONCE_BYTES ==> (x.nonce, x.ciphertext) !in ToySealed(plains)
    ensures Correct(c, s, plains)
    ensures forall i | 0 <= i < |donor.chunks| :: !Opens(c, donor.chunks[i])
    ensures var cap := Captured(c, s, plains);
      Drawn(attack, cap, donor) && Mutate(cap, donor, attack, s).Some? ==>
        Secure(c, s, plains, sealed, Mutate(cap, donor, attack, s).value.chunks)
  {
    var arrived := MutatedLinks(attack, ToyLinks(s, plains), Links(donor.chunks));
    c, sealed := AssumptionsHoldTogether(s, plains, arrived, 1);
    var cap := Captured(c, s, plains);
    forall i | 0 <= i < |donor.chunks| ensures !Opens(c, donor.chunks[i]) {
      assert donor.chunks[i] in donor.chunks;
    }
    if Drawn(attack, cap, donor) && Mutate(cap, donor, attack, s).Some? {
      LinksOfMutation(cap, donor, attack, s, Mutate(cap, donor, attack, s).value);
    }
  }
}

/** The assumptions about the session layer can be met as well. */
module SessionConsistency {
  import opened Bytes
  import opened Primitives
  import opened KeyExchange
  import SecurePredict
  import Transcript

  function Zeros(n: nat): bytes {
    seq(n, _ => 0 as byte)
  }

  /** A key exchange in which the client's coins are the secret: they travel in the ciphertext and in
      front of nothing else. */
  function ToyKex(): Kex {
    Kex((sk: bytes) => Zeros(KEM_PUBLIC_KEY_BYTES), (pk: bytes, coins: bytes) => (Fit(coins), Fit(coins)),
        (ct: bytes, sk: bytes) => ct, (sk: bytes) => Zeros(X25519_BYTES), (sk: bytes, pk: bytes) => pk, (secret: bytes) => secret)
  }

  /** Cut or filled up to the length of a ciphertext. */
  function Fit(b: bytes): (r: bytes)
    ensures |r| == KEM_CIPHERTEXT_BYTES
  {
    if |b| >= KEM_CIPHERTEXT_BYTES then b[..KEM_CIPHERTEXT_BYTES] else b + Zeros(KEM_CIPHERTEXT_BYTES - |b|)
  }

  /** A session layer for any model: what is sealed opens under its own key only, and a signature names the
      message and the key. */
  lemma SessionsCanWork(predict: bytes -> Option<bytes>) returns (suite: SecurePredict.Suite)
    ensures SecurePredict.Works(suite) && suite.predict == predict
    ensures forall key, nonce: Nonce, plaintext, other :: |key| == |other| && key != other ==>
              suite.open(other, nonce, suite.seal(key, nonce, plaintext)) == None
  {
    suite := SecurePredict.Suite(
      ToyKex(),
      (key: bytes, nonce: Nonce, plaintext: bytes) => key + plaintext,
      (key: bytes, nonce: bytes, ct: bytes) => if key <= ct then Some(ct[|key|..]) else None,
      (sk: bytes) => sk, (sk: bytes, coins: bytes, m: bytes) => sk + m, (pk: bytes, m: bytes, signature: bytes) => signature == pk + m,
      predict);
    forall key: bytes, other: bytes, plaintext: bytes | |key| == |other| && other <= key + plaintext ensures key == other {
      assert key == (key + plaintext)[..|key|] == other;
    }
  }

  /** An identity key for any hash and any set of handshakes: it verifies exactly their transcripts. */
  lemma IdentityCanExist(hash: bytes -> Digest, made: set<Transcript.Handshake>)
    returns (verify: (bytes, bytes) -> bool, sign: bytes -> bytes)
    ensures Transcript.OnlyTranscripts(hash, verify, made)
    ensures forall g | g in made && g.Packable() ::
      sign(Transcript.Digested(hash, g)) != [] && verify(Transcript.Digested(hash, g), sign(Transcript.Digested(hash, g)))
  {
    var digests: set<bytes> := set g | g in made && g.Packable() :: Transcript.Digested(hash, g);
    verify, sign := (m: bytes, signature: bytes) => m in digests, (m: bytes) => [1];
  }
}
