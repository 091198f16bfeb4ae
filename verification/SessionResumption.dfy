/** The X25519MLKEM768 key exchange: crypto/hybrid_kex.py, lines 45-129.  The primitives are functions,
    and their randomness is an argument. */
module KeyExchange {
  import opened Bytes
  import opened Primitives

  const KEM_PUBLIC_KEY_BYTES: nat := 1184
  const KEM_CIPHERTEXT_BYTES: nat := 1088
  const X25519_BYTES: nat := 32

  /** A server's private values for one handshake. */
  datatype Secrets = Secrets(kem: bytes, x25519: bytes, signing: bytes)

  /** A client's random choices for one exchange. */
  datatype Coins = Coins(kem: bytes, x25519: bytes)

  datatype Kex = Kex(
    kemPublic: bytes -> bytes,
    encapsulate: (bytes, bytes) -> (bytes, bytes),
    decapsulate: (bytes, bytes) -> bytes,
    x25519Public: bytes -> bytes,
    exchange: (bytes, bytes) -> bytes,
    derive: bytes -> bytes)

  /** What is asked of the primitives: fixed lengths, correct decapsulation, commuting exchanges. */
  ghost predicate Lawful(kex: Kex) {
    && (forall sk :: |kex.kemPublic(sk)| == KEM_PUBLIC_KEY_BYTES)
    && (forall sk :: |kex.x25519Public(sk)| == X25519_BYTES)
    && (forall pk, coins :: |kex.encapsulate(pk, coins).0| == KEM_CIPHERTEXT_BYTES)
    && (forall sk, coins :: var (ct, secret) := kex.encapsulate(kex.kemPublic(sk), coins); kex.decapsulate(ct, sk) == secret)
    && (forall a, b :: kex.exchange(a, kex.x25519Public(b)) == kex.exchange(b, kex.x25519Public(a)))
  }

  function KeyShare(kex: Kex, secrets: Secrets): bytes {
    kex.kemPublic(secrets.kem) + kex.x25519Public(secrets.x25519)
  }

  /** The client's side: a session key and the blob to send; None where the key share has the wrong
      length. */
  function Establish(kex: Kex, share: bytes, coins: Coins): Option<(bytes, bytes)> {
    if |share| != KEM_PUBLIC_KEY_BYTES + X25519_BYTES then None
    else
      var (ct, kemSecret) := kex.encapsulate(share[..KEM_PUBLIC_KEY_BYTES], coins.kem);
      var secret := kex.exchange(coins.x25519, share[KEM_PUBLIC_KEY_BYTES..]);
      Some((kex.derive(kemSecret + secret), ct + kex.x25519Public(coins.x25519)))
  }

  /** The server's side: the session key; None where the blob has the wrong length. */
  function Accept(kex: Kex, secrets: Secrets, blob: bytes): Option<bytes> {
    if |blob| != KEM_CIPHERTEXT_BYTES + X25519_BYTES then None
    else
      var kemSecret := kex.decapsulate(blob[..KEM_CIPHERTEXT_BYTES], secrets.kem);
      var secret := kex.exchange(secrets.x25519, blob[KEM_CIPHERTEXT_BYTES..]);
      Some(kex.derive(kemSecret + secret))
  }

  /** Both sides cut the concatenations where the other side joined them, and so agree on the key, which is
      derived from the ML-KEM secret followed by the X25519 secret. */
  lemma KeyAgreement(kex: Kex, secrets: Secrets, coins: Coins)
    requires Lawful(kex)
    ensures var client := Establish(kex, KeyShare(kex, secrets), coins);
      client.Some? && client.value.1 != [] && Accept(kex, secrets, client.value.1) == Some(client.value.0)
    ensures var kemSecret := kex.encapsulate(kex.kemPublic(secrets.kem), coins.kem).1;
      var dhSecret := kex.exchange(secrets.x25519, kex.x25519Public(coins.x25519));
      Establish(kex, KeyShare(kex, secrets), coins).value.0 == kex.derive(kemSecret + dhSecret)
    ensures KeyShare(kex, secrets)[..1184] == kex.kemPublic(secrets.kem) && |KeyShare(kex, secrets)| == 1184 + 32
    ensures var blob := Establish(kex, KeyShare(kex, secrets), coins).value.1;
      blob[..1088] == kex.encapsulate(kex.kemPublic(secrets.kem), coins.kem).0 && |blob| == 1088 + 32
  {
    var share := KeyShare(kex, secrets);
    assert share[..KEM_PUBLIC_KEY_BYTES] == kex.kemPublic(secrets.kem);
    assert share[KEM_PUBLIC_KEY_BYTES..] == kex.x25519Public(secrets.x25519);
    var (ct, _) := kex.encapsulate(kex.kemPublic(secrets.kem), coins.kem);
    var blob := ct + kex.x25519Public(coins.x25519);
    assert blob[..KEM_CIPHERTEXT_BYTES] == ct && blob[KEM_CIPHERTEXT_BYTES..] == kex.x25519Public(coins.x25519);
  }

  /** Shares of any other length are refused, on both sides. */
  lemma WrongLengthsRefused(kex: Kex, secrets: Secrets, coins: Coins, received: bytes)
    ensures Establish(kex, received, coins).None? <==> |received| != 1184 + 32
    ensures Accept(kex, secrets, received).None? <==> |received| != 1088 + 32
  {
  }
}

/** The `/secure/predict` endpoint and its client: api/secure_app.py, lines 61-64 and 112-160;
    api/secure_client.py, lines 38-52 and 65-192. */
module SecurePredict {
  import opened Bytes
  import opened Primitives
  import opened KeyExchange

  /** The cryptography, and the model behind it: `predict` parses a request body and evaluates it, None
      where either raises an error. */
  datatype Suite = Suite(
    kex: Kex,
    seal: (bytes, Nonce, bytes) -> bytes,
    open: (bytes, bytes, bytes) -> Option<bytes>,
    sigPublic: bytes -> bytes,
    sign: (bytes, bytes, bytes) -> bytes,
    verify: (bytes, bytes, bytes) -> bool,
    predict: bytes -> Option<bytes>)

  /** What is asked of the cryptography: keys agree, what is sealed opens, what is signed verifies. */
  ghost predicate Works(suite: Suite) {
    && Lawful(suite.kex)
    && (forall key, nonce: Nonce, plaintext :: suite.open(key, nonce, suite.seal(key, nonce, plaintext)) == Some(plaintext))
    && (forall sk, coins, m :: suite.verify(suite.sigPublic(sk), m, suite.sign(sk, coins, m)))
  }

  datatype Handshake = Handshake(id: string, share: bytes, sigPublic: bytes)

  datatype Request = Request(id: string, keepSession: bool, kexBlob: bytes, nonce: bytes, ciphertext: bytes)

  datatype Response = Answer(nonce: Nonce, ciphertext: bytes, signature: bytes) | Refused(status: nat)

  datatype ServerCoins = ServerCoins(nonce: Nonce, signing: bytes)

  /** The server's two maps: secrets of open handshakes, and keys kept for resumed requests. */
  datatype Server = Server(sessions: map<string, Secrets>, keys: map<string, bytes>)

  function Bundle(suite: Suite, id: string, secrets: Secrets): Handshake {
    Handshake(id, KeyShare(suite.kex, secrets), suite.sigPublic(secrets.signing))
  }

  function NewHandshake(s: Server, id: string, secrets: Secrets): Server {
    s.(sessions := s.sessions[id := secrets])
  }

  function Forget(s: Server, id: string): Server {
    Server(s.sessions - {id}, s.keys - {id})
  }

  datatype Found = Key(key: bytes) | Missing(status: nat)

  /** The key of a request: a new exchange, or the kept one where the blob is empty. */
  function FindKey(suite: Suite, s: Server, r: Request): Found {
    if r.kexBlob != [] then
      if r.id !in s.sessions then Missing(404)
      else match Accept(suite.kex, s.sessions[r.id], r.kexBlob)
           case None => Missing(400)
           case Some(key) => Key(key)
    else if r.id in s.keys then Key(s.keys[r.id]) else Missing(404)
  }

  function Kept(s: Server, r: Request, key: bytes): Server {
    if r.kexBlob != [] && r.keepSession then s.(keys := s.keys[r.id := key]) else s
  }

  /** One request: the server's next state, and its response. */
  function Predict(suite: Suite, s: Server, r: Request, coins: ServerCoins): (Server, Response) {
    match FindKey(suite, s, r)
    case Missing(status) => (s, Refused(status))
    case Key(key) =>
      var kept := Kept(s, r, key);
      match suite.open(key, r.nonce, r.ciphertext)
      case None => (kept, Refused(400))
      case Some(body) =>
        match suite.predict(body)
        case None => (kept, Refused(500))
        case Some(prediction) =>
          if r.id !in s.sessions then (kept, Refused(500))
          else
            var ciphertext := suite.seal(key, coins.nonce, prediction);
            var signature := suite.sign(s.sessions[r.id].signing, coins.signing, coins.nonce + ciphertext);
            (if r.keepSession then kept else Forget(kept, r.id), Answer(coins.nonce, ciphertext, signature))
  }

  class SecureServer {
    const suite: Suite
    var sessions: map<string, Secrets>
    var sessionKeys: map<string, bytes>

    ghost function State(): Server
      reads this
    {
      Server(sessions, sessionKeys)
    }

    constructor (suite: Suite)
      ensures this.suite == suite && State() == Server(map[], map[])
    {
      this.suite, sessions, sessionKeys := suite, map[], map[];
    }

    method AddHandshake(id: string, secrets: Secrets) returns (bundle: Handshake)
      modifies this
      ensures State() == NewHandshake(old(State()), id, secrets)
      ensures bundle == Bundle(suite, id, secrets)
    {
      sessions := sessions[id := secrets];
      bundle := Handshake(id, KeyShare(suite.kex, secrets), suite.sigPublic(secrets.signing));
    }

    method HandlePredict(r: Request, coins: ServerCoins) returns (response: Response)
      modifies this
      ensures (State(), response) == Predict(suite, old(State()), r, coins)
    {
      var key: bytes;
      if r.kexBlob != [] {
        if r.id !in sessions { return Refused(404); }
        var accepted := Accept(suite.kex, sessions[r.id], r.kexBlob);
        if accepted.None? { return Refused(400); }
        key := accepted.value;
        if r.keepSession { sessionKeys := sessionKeys[r.id := key]; }
      } else {
        if r.id !in sessionKeys { return Refused(404); }
        key := sessionKeys[r.id];
      }
      var body := suite.open(key, r.nonce, r.ciphertext);
      if body.None? { return Refused(400); }
      var prediction := suite.predict(body.value);
      if prediction.None? { return Refused(500); }
      var ciphertext := suite.seal(key, coins.nonce, prediction.value);
      if r.id !in sessions { return Refused(500); }
      var signature := suite.sign(sessions[r.id].signing, coins.signing, coins.nonce + ciphertext);
      if !r.keepSession {
        sessionKeys := sessionKeys - {r.id};
        sessions := sessions - {r.id};
      }
      return Answer(coins.nonce, ciphertext, signature);
    }
  }

  datatype Session = Session(left: int, handshake: Option<Handshake>, key: Option<bytes>)

  datatype ClientCoins = ClientCoins(kex: Coins, nonce: Nonce)

  /** What the client makes of a response. */
  datatype Outcome = Error | Result(plaintext: bytes, validSignature: bool)

  /** What a session sends for its next request: a key exchange with the first, only the ciphertext
      with the others, and the wish to be remembered with all but the last. */
  function Compose(suite: Suite, session: Session, handshake: Handshake, coins: ClientCoins, body: bytes): Option<(Session, Request)> {
    var keys := if session.key.None? then Establish(suite.kex, handshake.share, coins.kex) else Some((session.key.value, []));
    match keys
    case None => None
    case Some((key, blob)) =>
      Some((Session(session.left - 1, Some(handshake), Some(key)),
            Request(handshake.id, session.left > 1, blob, coins.nonce, suite.seal(key, coins.nonce, body))))
  }

  /** The AEAD first, then the signature. */
  function Receive(suite: Suite, session: Session, response: Response): Outcome
    requires session.key.Some? && session.handshake.Some?
  {
    if response.Refused? then Error
    else match suite.open(session.key.value, response.nonce, response.ciphertext)
         case None => Error
         case Some(plaintext) =>
           Result(plaintext, suite.verify(session.handshake.value.sigPublic, response.nonce + response.ciphertext, response.signature))
  }

  /** What the client reports of any response, whoever made it: the plaintext only of a ciphertext that
      opens under the session's key, and a valid signature exactly if it verifies for nonce and
      ciphertext under the public key of the session's own handshake. */
  lemma ReportOfResponse(suite: Suite, session: Session, response: Response)
    requires session.key.Some? && session.handshake.Some?
    ensures var outcome := Receive(suite, session, response);
      && (response.Refused? ==> outcome == Error)
      && (response.Answer? ==>
            var plaintext := suite.open(session.key.value, response.nonce, response.ciphertext);
            var verifies := suite.verify(session.handshake.value.sigPublic, response.nonce + response.ciphertext, response.signature);
            && (outcome == Error <==> plaintext == None)
            && (outcome.Result? ==> Some(outcome.plaintext) == plaintext && (outcome.validSignature <==> verifies)))
  {
  }

  /** Nothing verifies under a handshake's key but the envelopes of the answers that were signed with it. */
  ghost predicate OnlyAnswers(suite: Suite, sigPublic: bytes, answered: set<(Nonce, bytes)>) {
    forall m, signature :: suite.verify(sigPublic, m, signature) ==> exists a :: a in answered && m == a.0 + a.1
  }

  /** So a result with a valid signature is what the server answered under this handshake: a substituted,
      altered or re-signed response is reported as invalid or as an error. */
  lemma ValidIsAnswered(suite: Suite, session: Session, response: Response, answered: set<(Nonce, bytes)>)
    requires session.key.Some? && session.handshake.Some?
    requires OnlyAnswers(suite, session.handshake.value.sigPublic, answered)
    requires Receive(suite, session, response).Result? && Receive(suite, session, response).validSignature
    ensures response.Answer? && (response.nonce, response.ciphertext) in answered
  {
    ReportOfResponse(suite, session, response);
    var a :| a in answered && response.nonce + response.ciphertext == a.0 + a.1;
    Unconcat(response.nonce, response.ciphertext, a.0, a.1);
  }

  class ClientSession {
    var requestsLeft: int
    var handshake: Option<Handshake>
    var sessionKey: Option<bytes>

    ghost function State(): Session
      reads this
    {
      Session(requestsLeft, handshake, sessionKey)
    }

    constructor (requests: int)
      ensures State() == Session(requests, None, None)
    {
      requestsLeft, handshake, sessionKey := requests, None, None;
    }

    /** The POST of a transaction and everything after it. */
    method Post(server: SecureServer, hs: Handshake, coins: ClientCoins, serverCoins: ServerCoins, body: bytes)
      returns (outcome: Outcome)
      modifies this, server
      ensures var sent := Compose(server.suite, old(State()), hs, coins, body);
        if sent.None? then outcome == Error && State() == old(State()) && server.State() == old(server.State())
        else var (session, request) := sent.value;
          var (after, response) := Predict(server.suite, old(server.State()), request, serverCoins);
          State() == session && server.State() == after && outcome == Receive(server.suite, session, response)
    {
      var key, blob;
      if sessionKey.Some? {
        key, blob := sessionKey.value, [];
      } else {
        var established := Establish(server.suite.kex, hs.share, coins.kex);
        if established.None? { return Error; }
        key, blob := established.value.0, established.value.1;
      }
      handshake, sessionKey := Some(hs), Some(key);
      var keepSession := requestsLeft > 1;
      requestsLeft := requestsLeft - 1;
      var request := Request(hs.id, keepSession, blob, coins.nonce, server.suite.seal(key, coins.nonce, body));
      var response := server.HandlePredict(request, serverCoins);
      if response.Refused? { return Error; }
      var plaintext := server.suite.open(key, response.nonce, response.ciphertext);
      if plaintext.None? { return Error; }
      var valid := server.suite.verify(hs.sigPublic, response.nonce + response.ciphertext, response.signature);
      return Result(plaintext.value, valid);
    }

    /** A transaction: the session's own handshake where it is resumed, else the cached one, else a
        new one.  A transaction without a session is the only one of a session of length 1. */
    method Transact(server: SecureServer, cached: Option<Handshake>, id: string, secrets: Secrets,
                    coins: ClientCoins, serverCoins: ServerCoins, body: bytes) returns (outcome: Outcome)
      requires sessionKey.Some? ==> handshake.Some?
      modifies this, server
      ensures (State(), server.State(), outcome)
           == Transaction(server.suite, old(State()), old(server.State()), cached, id, secrets, coins, serverCoins, body)
    {
      var hs;
      if sessionKey.Some? {
        hs := handshake.value;
      } else if cached.Some? {
        hs := cached.value;
      } else {
        hs := server.AddHandshake(id, secrets);
      }
      outcome := Post(server, hs, coins, serverCoins, body);
    }
  }

  function Transaction(suite: Suite, session: Session, s: Server, cached: Option<Handshake>, id: string, secrets: Secrets,
                       coins: ClientCoins, serverCoins: ServerCoins, body: bytes): (Session, Server, Outcome)
    requires session.key.Some? ==> session.handshake.Some?
  {
    var asks := session.key.None? && cached.None?;
    var hs := if session.key.Some? then session.handshake.value else if cached.Some? then cached.value else Bundle(suite, id, secrets);
    var before := if asks then NewHandshake(s, id, secrets) else s;
    match Compose(suite, session, hs, coins, body)
    case None => (session, before, Error)
    case Some((sent, request)) =>
      var (after, response) := Predict(suite, before, request, serverCoins);
      (sent, after, Receive(suite, sent, response))
  }

  /** What a request carries: the session's own identifier, an exchange exactly with the first request, the
      wish to be remembered exactly with all but the last, and the body sealed under the session's key. */
  lemma RequestCarries(suite: Suite, session: Session, hs: Handshake, coins: ClientCoins, body: bytes)
    requires Works(suite) && Compose(suite, session, hs, coins, body).Some?
    ensures var (sent, r) := Compose(suite, session, hs, coins, body).value;
      && r.id == hs.id && (r.keepSession <==> session.left > 1) && (r.kexBlob == [] <==> session.key.Some?)
      && sent.left == session.left - 1 && sent.handshake == Some(hs) && sent.key.Some?
      && (session.key.Some? ==> sent.key == session.key)
      && r.nonce == coins.nonce && suite.open(sent.key.value, r.nonce, r.ciphertext) == Some(body)
  {
    if session.key.None? {
      var ct := suite.kex.encapsulate(hs.share[..KEM_PUBLIC_KEY_BYTES], coins.kex.kem).0;
      assert |ct| == KEM_CIPHERTEXT_BYTES;
    }
  }

  /** Only a transaction that has neither a key nor a cached handshake asks for a new one. */
  lemma NewHandshakeOnlyWhereNeeded(suite: Suite, session: Session, s: Server, cached: Option<Handshake>, id: string, secrets: Secrets,
                                    coins: ClientCoins, serverCoins: ServerCoins, body: bytes)
    requires session.key.Some? ==> session.handshake.Some?
    ensures var after := Transaction(suite, session, s, cached, id, secrets, coins, serverCoins, body).1;
      session.key.Some? || cached.Some? ==> after.sessions.Keys <= s.sessions.Keys
    ensures session.key.Some? ==>
      Transaction(suite, session, s, cached, id, secrets, coins, serverCoins, body)
      == Transaction(suite, session, s, None, id, secrets, coins, serverCoins, body)
  {
  }

  /** One request of a session meets a server that knows its handshake (and, if resumed, its key): it
      is answered correctly, and afterwards the server remembers the session exactly as long as it
      has requests left.  No other session's entries change. */
  lemma RequestAnswered(suite: Suite, s: Server, session: Session, id: string, coins: ClientCoins, serverCoins: ServerCoins, body: bytes)
    requires Works(suite) && session.left > 0 && id in s.sessions && suite.predict(body).Some?
    requires session.key.Some? ==> id in s.keys && s.keys[id] == session.key.value
    ensures var hs := Bundle(suite, id, s.sessions[id]);
      && Compose(suite, session, hs, coins, body).Some?
      && var (sent, request) := Compose(suite, session, hs, coins, body).value;
      && var (after, response) := Predict(suite, s, request, serverCoins);
      && Receive(suite, sent, response) == Result(suite.predict(body).value, true)
      && after == if session.left > 1 then Server(s.sessions, s.keys[id := sent.key.value]) else Forget(s, id)
  {
    KeyAgreement(suite.kex, s.sessions[id], coins.kex);
  }

  ghost predicate SameElsewhere(s: Server, t: Server, id: string) {
    forall x {:trigger x in t.sessions} {:trigger x in t.keys} | x != id ::
      && (x in s.sessions <==> x in t.sessions) && (x in s.sessions ==> s.sessions[x] == t.sessions[x])
      && (x in s.keys <==> x in t.keys) && (x in s.keys ==> s.keys[x] == t.keys[x])
  }

  /** The request is authentic, but its body cannot be answered. */
  predicate Unanswerable(suite: Suite, s: Server, r: Request) {
    match FindKey(suite, s, r)
    case Missing(_) => false
    case Key(key) =>
      match suite.open(key, r.nonce, r.ciphertext)
      case None => false
      case Some(body) => suite.predict(body).None?
  }

  lemma KeysStayWithin(suite: Suite, s: Server, r: Request, coins: ServerCoins)
    requires s.keys.Keys <= s.sessions.Keys
    ensures var after := Predict(suite, s, r, coins).0; SameElsewhere(s, after, r.id) && after.keys.Keys <= after.sessions.Keys
  {
    var after := Predict(suite, s, r, coins).0;
    forall id | id in after.keys ensures id in after.sessions {
      assert id != r.id ==> id in s.keys.Keys;
    }
  }

  /** Any request at all, whoever made it up: entries of other identifiers stay as they are, kept keys stay
      within open handshakes, an internal error is always the model's and never the want of a
      handshake to sign with, and only an answer or a completed key exchange changes anything. */
  lemma AnyRequest(suite: Suite, s: Server, r: Request, coins: ServerCoins)
    requires s.keys.Keys <= s.sessions.Keys
    ensures var (after, response) := Predict(suite, s, r, coins);
      && SameElsewhere(s, after, r.id)
      && after.keys.Keys <= after.sessions.Keys <= s.sessions.Keys
      && (response == Refused(500) <==> Unanswerable(suite, s, r))
      && (response.Refused? ==> after.sessions == s.sessions)
      && (response.Refused? && after != s ==> r.keepSession && r.kexBlob != [] && response.status in {400, 500})
      && (response.Answer? ==> (r.keepSession <==> r.id in after.sessions) && (r.keepSession ==> r.id in after.keys))
  {
    KeysStayWithin(suite, s, r, coins);
    assert r.id in s.keys ==> r.id in s.keys.Keys;
  }

  /** The request asks to keep the session and brings an acceptable blob for an open handshake that makes
      another key than the cached one. */
  predicate BringsNewKey(suite: Suite, s: Server, r: Request) {
    && r.keepSession && r.kexBlob != [] && r.id in s.sessions
    && var key := Accept(suite.kex, s.sessions[r.id], r.kexBlob);
    key.Some? && KeyOf(s, r.id) != key
  }

  /** Why a request is refused, over all requests: its handshake or session is unknown (404), its blob has
      the wrong length or its payload does not open (400), or its body has no answer (500). */
  lemma RefusalsExact(suite: Suite, s: Server, r: Request, coins: ServerCoins)
    requires s.keys.Keys <= s.sessions.Keys
    ensures var response := Predict(suite, s, r, coins).1;
      && (response == Refused(404) <==> if r.kexBlob != [] then r.id !in s.sessions else r.id !in s.keys)
      && (r.kexBlob != [] && r.id in s.sessions && |r.kexBlob| != KEM_CIPHERTEXT_BYTES + X25519_BYTES ==> response == Refused(400))
      && (response == Refused(400) ==>
            || (r.kexBlob != [] && |r.kexBlob| != KEM_CIPHERTEXT_BYTES + X25519_BYTES)
            || (FindKey(suite, s, r).Key? && suite.open(FindKey(suite, s, r).key, r.nonce, r.ciphertext).None?))
      && (FindKey(suite, s, r).Key? && suite.open(FindKey(suite, s, r).key, r.nonce, r.ciphertext).None? ==> response == Refused(400))
      && (response.Refused? ==> response.status in {400, 404, 500})
  {
    assert r.id in s.keys ==> r.id in s.keys.Keys;
  }

  /** The key is cached before the payload is authenticated.  So a refused request changes the server if
      and only if it brings a new key; and then it has replaced the cached one, and nothing else. */
  lemma RefusalReplacesKey(suite: Suite, s: Server, r: Request, coins: ServerCoins)
    requires Predict(suite, s, r, coins).1.Refused?
    ensures var after := Predict(suite, s, r, coins).0;
      && (after != s <==> BringsNewKey(suite, s, r))
      && (BringsNewKey(suite, s, r) ==> after == s.(keys := s.keys[r.id := Accept(suite.kex, s.sessions[r.id], r.kexBlob).value]))
  {
    var after := Predict(suite, s, r, coins).0;
    match FindKey(suite, s, r)
    case Missing(_) =>
    case Key(key) =>
      assert after == Kept(s, r, key);
      assert r.id in s.keys && s.keys[r.id] == key ==> s.keys[r.id := key] == s.keys;
  }

  function KeyOf(s: Server, id: string): Option<bytes> {
    if id in s.keys then Some(s.keys[id]) else None
  }

  predicate Forgotten(s: Server, id: string) {
    id !in s.sessions && id !in s.keys
  }

  /** A handshake that the server has forgotten is of no use any more: every request on it gets a 404,
      and leaves it forgotten. */
  lemma ForgottenRefused(suite: Suite, s: Server, r: Request, coins: ServerCoins)
    requires Forgotten(s, r.id)
    ensures Predict(suite, s, r, coins) == (s, Refused(404))
  {
  }

  /** Requests and handshakes on other identifiers, in any number and order, do not bring it back. */
  datatype Event = Asked(id: string, secrets: Secrets) | Posted(r: Request, coins: ServerCoins)

  function Handled(suite: Suite, s: Server, events: seq<Event>): Server {
    if events == [] then s
    else var before := Handled(suite, s, Init(events));
         match Last(events)
         case Asked(id, secrets) => NewHandshake(before, id, secrets)
         case Posted(r, coins) => Predict(suite, before, r, coins).0
  }

  lemma {:induction false} StaysForgotten(suite: Suite, s: Server, id: string, events: seq<Event>)
    requires Forgotten(s, id) && forall e | e in events :: e.Asked? ==> e.id != id
    ensures Forgotten(Handled(suite, s, events), id)
  {
    if events != [] {
      StaysForgotten(suite, s, id, Init(events));
      assert Last(events) in events;
      if Last(events).Posted? && Last(events).r.id == id {
        ForgottenRefused(suite, Handled(suite, s, Init(events)), Last(events).r, Last(events).coins);
      }
    }
  }

  /** Reusing one handshake for several exchanges (`cached_handshake`).  After an answered request the
      server takes a further exchange on that handshake if and only if the request asked it to keep
      the session. */
  lemma HandshakeReuse(suite: Suite, s: Server, r: Request, serverCoins: ServerCoins, again: Session, coins: ClientCoins,
                       serverCoins': ServerCoins, body: bytes)
    requires Works(suite) && r.id in s.sessions && Predict(suite, s, r, serverCoins).1.Answer?
    requires again.left > 0 && again.key.None?
    ensures var hs := Bundle(suite, r.id, s.sessions[r.id]);
      var after := Predict(suite, s, r, serverCoins).0;
      var (sent, request) := Compose(suite, again, hs, coins, body).value;
      var (_, response) := Predict(suite, after, request, serverCoins');
      && (response == Refused(404) <==> !r.keepSession)
      && (response.Answer? <==> r.keepSession && suite.predict(body).Some?)
      && (response.Answer? ==> Receive(suite, sent, response) == Result(suite.predict(body).value, true))
  {
    var hs := Bundle(suite, r.id, s.sessions[r.id]);
    var after := Predict(suite, s, r, serverCoins).0;
    KeyAgreement(suite.kex, s.sessions[r.id], coins.kex);
    if r.keepSession {
      if suite.predict(body).Some? {
        RequestAnswered(suite, after, again, r.id, coins, serverCoins', body);
      }
    } else {
      ForgottenRefused(suite, after, Compose(suite, again, hs, coins, body).value.1, serverCoins');
    }
  }

  /** The documented use falls on the wrong side: a transaction without a session never asks for it, so
      the transaction after an answered one on a cached handshake is an error. */
  lemma CachedHandshakeServesOnce(suite: Suite, s: Server, id: string, hs: Handshake, first: (ClientCoins, ServerCoins, bytes),
                                  second: (ClientCoins, ServerCoins, bytes), secrets: Secrets)
    requires Works(suite) && id in s.sessions && hs == Bundle(suite, id, s.sessions[id])
    requires suite.predict(first.2).Some?
    ensures var single := Session(1, None, None);
      var (_, s1, outcome1) := Transaction(suite, single, s, Some(hs), "", secrets, first.0, first.1, first.2);
      var (_, _, outcome2) := Transaction(suite, single, s1, Some(hs), "", secrets, second.0, second.1, second.2);
      outcome1 == Result(suite.predict(first.2).value, true) && outcome2 == Error
  {
    var single := Session(1, None, None);
    RequestAnswered(suite, s, single, id, first.0, first.1, first.2);
    var s1 := Transaction(suite, single, s, Some(hs), "", secrets, first.0, first.1, first.2).1;
    assert Forgotten(s1, id);
    KeyAgreement(suite.kex, s.sessions[id], second.0.kex);
    ForgottenRefused(suite, s1, Compose(suite, single, hs, second.0, second.2).value.1, second.1);
  }
}
