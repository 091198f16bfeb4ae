/** Any number of client sessions on one server, interleaved in any way: every GET and every POST is
    one step, new clients may come at any time, and any client may drop out (its error path: the
    session is abandoned and what the server remembers of it stays). */
module SessionSystem {
  import opened Bytes
  import opened Primitives
  import opened KeyExchange
  import opened SecurePredict

  /** A client with `total` requests to make in one session. */
  datatype Client = Client(total: nat, session: Session, handshake: Option<Handshake>, exchanges: nat, answered: nat, lost: bool)

  datatype System = System(server: Server, clients: seq<Client>)

  datatype Action =
    | Connect(total: nat)
    | GetHandshake(client: nat, id: string, secrets: Secrets)
    | PostRequest(client: nat, coins: ClientCoins, serverCoins: ServerCoins, body: bytes)
    | LoseResponse(client: nat, coins: ClientCoins, serverCoins: ServerCoins, body: bytes)
    | DropOut(client: nat)

  const NOTHING: System := System(Server(map[], map[]), [])

  /** Identifiers are fresh: nobody has been given this one (they are random UUIDs). */
  predicate Unused(sys: System, id: string) {
    forall i | 0 <= i < |sys.clients| :: sys.clients[i].handshake.Some? ==> sys.clients[i].handshake.value.id != id
  }

  predicate CanPost(sys: System, i: nat) {
    i < |sys.clients| && !sys.clients[i].lost && sys.clients[i].handshake.Some? && sys.clients[i].session.left > 0
  }

  predicate Enabled(sys: System, a: Action) {
    match a
    case Connect(total) => total > 0
    case GetHandshake(i, id, _) => i < |sys.clients| && !sys.clients[i].lost && sys.clients[i].handshake.None? && Unused(sys, id)
    case PostRequest(i, _, _, _) => CanPost(sys, i)
    case LoseResponse(i, _, _, _) => CanPost(sys, i)
    case DropOut(i) => i < |sys.clients|
  }

  /** A POST by client i: what it sends, the server's next state, and what it makes of the response. */
  function Post(suite: Suite, sys: System, i: nat, coins: ClientCoins, serverCoins: ServerCoins, body: bytes): (Session, Server, Outcome)
    requires CanPost(sys, i)
  {
    var c := sys.clients[i];
    match Compose(suite, c.session, c.handshake.value, coins, body)
    case None => (c.session, sys.server, Error)
    case Some((session, request)) =>
      var (after, response) := Predict(suite, sys.server, request, serverCoins);
      (session, after, Receive(suite, session, response))
  }

  function Posted(c: Client, session: Session, outcome: Outcome): Client {
    Client(c.total, session, c.handshake,
           c.exchanges + (if c.session.key.None? && session.key.Some? then 1 else 0),
           c.answered + (if outcome.Result? then 1 else 0),
           outcome.Error?)
  }

  function Step(suite: Suite, sys: System, a: Action): System
    requires Enabled(sys, a)
  {
    match a
    case Connect(total) =>
      sys.(clients := sys.clients + [Client(total, Session(total, None, None), None, 0, 0, false)])
    case GetHandshake(i, id, secrets) =>
      System(NewHandshake(sys.server, id, secrets),
             sys.clients[i := sys.clients[i].(handshake := Some(Bundle(suite, id, secrets)))])
    case PostRequest(i, coins, serverCoins, body) =>
      var (session, after, outcome) := Post(suite, sys, i, coins, serverCoins, body);
      System(after, sys.clients[i := Posted(sys.clients[i], session, outcome)])
    case LoseResponse(i, coins, serverCoins, body) =>
      var (_, after, _) := Post(suite, sys, i, coins, serverCoins, body);
      System(after, sys.clients[i := sys.clients[i].(lost := true)])
    case DropOut(i) =>
      sys.(clients := sys.clients[i := sys.clients[i].(lost := true)])
  }

  /** The state after a run from the empty server; None where some step was not possible. */
  function After(suite: Suite, run: seq<Action>): Option<System> {
    if run == [] then Some(NOTHING)
    else match After(suite, Init(run))
         case None => None
         case Some(sys) => if Enabled(sys, Last(run)) then Some(Step(suite, sys, Last(run))) else None
  }

  /** A session whose handshake exists: before its first request, and between two requests, the server
      has its secrets and exactly the key the client holds; after its last one it has nothing. */
  predicate SessionOk(suite: Suite, s: Server, c: Client) {
    && 0 <= c.session.left <= c.total && c.total > 0
    && c.answered == c.total - c.session.left
    && c.exchanges == (if c.session.left < c.total then 1 else 0)
    && (c.session.key.Some? <==> c.session.left < c.total)
    && (c.handshake.None? ==> c.session.left == c.total)
    && (c.handshake.Some? ==>
          var id := c.handshake.value.id;
          && (id in s.sessions <==> c.session.left > 0)
          && (id in s.keys <==> 0 < c.session.left < c.total)
          && (id in s.sessions ==> c.handshake.value == Bundle(suite, id, s.sessions[id]))
          && (id in s.keys ==> c.session.key == Some(s.keys[id])))
  }

  /** Client i accounts for an entry of the server. */
  predicate Owns(c: Client, id: string) {
    c.handshake.Some? && c.handshake.value.id == id && (c.lost || c.session.left > 0)
  }

  ghost predicate Owned(sys: System, id: string) {
    exists i :: 0 <= i < |sys.clients| && Owns(sys.clients[i], id)
  }

  ghost predicate DistinctIds(clients: seq<Client>) {
    forall i, j | 0 <= i < j < |clients| :: clients[i].handshake.Some? && clients[j].handshake.Some? ==>
      clients[i].handshake.value.id != clients[j].handshake.value.id
  }

  ghost predicate Inv(suite: Suite, sys: System) {
    && DistinctIds(sys.clients)
    && sys.server.keys.Keys <= sys.server.sessions.Keys
    && (forall i | 0 <= i < |sys.clients| :: !sys.clients[i].lost ==> SessionOk(suite, sys.server, sys.clients[i]))
    && (forall id | id in sys.server.sessions :: Owned(sys, id))
  }

  /** The session and the server after an answered request: the server has the session's key while
      there are requests left, and forgets it with the last. */
  predicate Advanced(s: Server, c: Client, session: Session, after: Server)
    requires c.handshake.Some?
  {
    var id := c.handshake.value.id;
    && session.left == c.session.left - 1 && session.key.Some?
    && (c.session.key.Some? ==> session.key == c.session.key)
    && after == if c.session.left > 1 then Server(s.sessions, s.keys[id := session.key.value]) else Forget(s, id)
  }

  /** In a state of a run, whoever may post a body that has an answer is answered: with the prediction for
      its own body and a valid signature. */
  lemma PostAnswered(suite: Suite, sys: System, i: nat, coins: ClientCoins, serverCoins: ServerCoins, body: bytes)
    requires Works(suite) && Inv(suite, sys) && CanPost(sys, i) && suite.predict(body).Some?
    ensures var (session, after, outcome) := Post(suite, sys, i, coins, serverCoins, body);
      outcome == Result(suite.predict(body).value, true) && Advanced(sys.server, sys.clients[i], session, after)
  {
    var c := sys.clients[i];
    RequestAnswered(suite, sys.server, c.session, c.handshake.value.id, coins, serverCoins, body);
  }

  /** A body without an answer is an error, which touches nothing but the client's own entries. */
  lemma PostUnanswered(suite: Suite, sys: System, i: nat, coins: ClientCoins, serverCoins: ServerCoins, body: bytes)
    requires Works(suite) && Inv(suite, sys) && CanPost(sys, i) && suite.predict(body).None?
    ensures var (session, after, outcome) := Post(suite, sys, i, coins, serverCoins, body);
      var id := sys.clients[i].handshake.value.id;
      outcome == Error && SameElsewhere(sys.server, after, id) && after.keys.Keys <= after.sessions.Keys
  {
    var c := sys.clients[i];
    var id := c.handshake.value.id;
    KeyAgreement(suite.kex, sys.server.sessions[id], coins.kex);
    AnyRequest(suite, sys.server, Compose(suite, c.session, c.handshake.value, coins, body).value.1, serverCoins);
  }

  lemma UnansweredKeeps(suite: Suite, sys: System, i: nat, session: Session, after: Server, outcome: Outcome)
    requires Inv(suite, sys) && CanPost(sys, i) && outcome.Error?
    requires SameElsewhere(sys.server, after, sys.clients[i].handshake.value.id) && after.keys.Keys <= after.sessions.Keys
    ensures Inv(suite, System(after, sys.clients[i := Posted(sys.clients[i], session, outcome)]))
    ensures Inv(suite, System(after, sys.clients[i := sys.clients[i].(lost := true)]))
  {
    var id := sys.clients[i].handshake.value.id;
    assert id in after.keys ==> id in after.keys.Keys;
    OthersIntact(suite, sys, i, after, Posted(sys.clients[i], session, outcome));
    OthersIntact(suite, sys, i, after, sys.clients[i].(lost := true));
  }

  /** A step that touches one client and the entries of its identifier leaves all other clients' sessions
      intact. */
  lemma OthersIntact(suite: Suite, sys: System, i: nat, server: Server, c: Client)
    requires Inv(suite, sys) && i < |sys.clients| && c.handshake.Some?
    requires var id := c.handshake.value.id;
      && (sys.clients[i].handshake == c.handshake || (sys.clients[i].handshake.None? && Unused(sys, id)))
      && SameElsewhere(sys.server, server, id)
      && (id in server.keys ==> id in server.sessions)
      && (id in server.sessions ==> Owns(c, id))
    requires !c.lost ==> SessionOk(suite, server, c)
    ensures Inv(suite, System(server, sys.clients[i := c]))
  {
    var t, id := System(server, sys.clients[i := c]), c.handshake.value.id;
    assert DistinctIds(t.clients);
    forall j | 0 <= j < |t.clients| && !t.clients[j].lost ensures SessionOk(suite, server, t.clients[j]) {
      if j != i {
        assert t.clients[j] == sys.clients[j] && SessionOk(suite, sys.server, sys.clients[j]);
      }
    }
    forall x | x in server.sessions ensures Owned(t, x) {
      if x == id {
        assert Owns(t.clients[i], id);
      } else {
        assert Owned(sys, x);
        var j :| 0 <= j < |sys.clients| && Owns(sys.clients[j], x);
        assert Owns(t.clients[j], x);
      }
    }
    forall x | x in server.keys ensures x in server.sessions {
      if x != id { assert x in sys.server.keys; }
    }
  }

  lemma ConnectKeeps(suite: Suite, sys: System, total: nat)
    requires Inv(suite, sys) && total > 0
    ensures Inv(suite, Step(suite, sys, Connect(total)))
  {
    var t := Step(suite, sys, Connect(total));
    forall x | x in t.server.sessions ensures Owned(t, x) {
      assert Owned(sys, x);
      var j :| 0 <= j < |sys.clients| && Owns(sys.clients[j], x);
      assert Owns(t.clients[j], x);
    }
  }

  lemma DropOutKeeps(suite: Suite, sys: System, i: nat)
    requires Inv(suite, sys) && i < |sys.clients|
    ensures Inv(suite, Step(suite, sys, DropOut(i)))
  {
    var t := Step(suite, sys, DropOut(i));
    forall x | x in t.server.sessions ensures Owned(t, x) {
      assert Owned(sys, x);
      var j :| 0 <= j < |sys.clients| && Owns(sys.clients[j], x);
      assert Owns(t.clients[j], x);
    }
  }

  /** Every step of every client keeps the invariant. */
  lemma StepKeeps(suite: Suite, sys: System, a: Action)
    requires Works(suite) && Inv(suite, sys) && Enabled(sys, a)
    ensures Inv(suite, Step(suite, sys, a))
  {
    match a
    case Connect(total) => ConnectKeeps(suite, sys, total);
    case DropOut(i) => DropOutKeeps(suite, sys, i);
    case GetHandshake(i, id, secrets) => GetHandshakeKeeps(suite, sys, i, id, secrets);
    case PostRequest(i, coins, serverCoins, body) =>
      var session, after, outcome := PostSteps(suite, sys, i, coins, serverCoins, body);
      if suite.predict(body).Some? {
        PostAnswered(suite, sys, i, coins, serverCoins, body);
        AdvancedKeeps(suite, sys, i, session, after, outcome);
      } else {
        PostUnanswered(suite, sys, i, coins, serverCoins, body);
        UnansweredKeeps(suite, sys, i, session, after, outcome);
      }
    case LoseResponse(i, coins, serverCoins, body) =>
      var session, after, outcome := PostSteps(suite, sys, i, coins, serverCoins, body);
      if suite.predict(body).Some? {
        PostAnswered(suite, sys, i, coins, serverCoins, body);
        AdvancedKeeps(suite, sys, i, session, after, outcome);
      } else {
        PostUnanswered(suite, sys, i, coins, serverCoins, body);
        UnansweredKeeps(suite, sys, i, session, after, outcome);
      }
  }

  lemma GetHandshakeKeeps(suite: Suite, sys: System, i: nat, id: string, secrets: Secrets)
    requires Inv(suite, sys) && Enabled(sys, GetHandshake(i, id, secrets))
    ensures Inv(suite, Step(suite, sys, GetHandshake(i, id, secrets)))
  {
    var c := sys.clients[i].(handshake := Some(Bundle(suite, id, secrets)));
    assert !Owned(sys, id);
    OthersIntact(suite, sys, i, NewHandshake(sys.server, id, secrets), c);
  }

  lemma PostSteps(suite: Suite, sys: System, i: nat, coins: ClientCoins, serverCoins: ServerCoins, body: bytes)
    returns (session: Session, after: Server, outcome: Outcome)
    requires CanPost(sys, i)
    ensures (session, after, outcome) == Post(suite, sys, i, coins, serverCoins, body)
    ensures Step(suite, sys, PostRequest(i, coins, serverCoins, body))
         == System(after, sys.clients[i := Posted(sys.clients[i], session, outcome)])
    ensures Step(suite, sys, LoseResponse(i, coins, serverCoins, body))
         == System(after, sys.clients[i := sys.clients[i].(lost := true)])
  {
    var (s, t, o) := Post(suite, sys, i, coins, serverCoins, body);
    session, after, outcome := s, t, o;
  }

  lemma AdvancedKeeps(suite: Suite, sys: System, i: nat, session: Session, after: Server, outcome: Outcome)
    requires Inv(suite, sys) && CanPost(sys, i) && outcome.Result?
    requires Advanced(sys.server, sys.clients[i], session, after)
    ensures Inv(suite, System(after, sys.clients[i := Posted(sys.clients[i], session, outcome)]))
    ensures Inv(suite, System(after, sys.clients[i := sys.clients[i].(lost := true)]))
  {
    var c := sys.clients[i];
    assert SessionOk(suite, sys.server, c);
    assert SameElsewhere(sys.server, after, c.handshake.value.id);
    OthersIntact(suite, sys, i, after, Posted(c, session, outcome));
    OthersIntact(suite, sys, i, after, c.(lost := true));
  }

  lemma {:induction false} RunKeeps(suite: Suite, run: seq<Action>)
    requires Works(suite) && After(suite, run).Some?
    ensures Inv(suite, After(suite, run).value)
    decreases |run|
  {
    if run != [] {
      RunKeeps(suite, Init(run));
      StepKeeps(suite, After(suite, Init(run)).value, Last(run));
    }
  }

  /** Over every interleaving: whoever posts next, with a body that has an answer, is answered correctly; a
      client that has not dropped out has made one key exchange if it has made any request, and each
      of its requests has been answered; and what the server keeps is what sessions with requests
      left need, or what clients that dropped out have left behind. */
  lemma EveryRun(suite: Suite, run: seq<Action>, i: nat)
    requires Works(suite) && After(suite, run).Some?
    requires i < |After(suite, run).value.clients| && !After(suite, run).value.clients[i].lost
    ensures var sys := After(suite, run).value;
      var c := sys.clients[i];
      && c.answered == c.total - c.session.left
      && c.exchanges == (if c.answered == 0 then 0 else 1)
      && (c.session.key.Some? && c.session.left > 0 ==> c.handshake.Some? && KeyOf(sys.server, c.handshake.value.id) == c.session.key)
      && (c.session.left == 0 ==> c.handshake.Some? && Forgotten(sys.server, c.handshake.value.id))
      && sys.server.keys.Keys <= sys.server.sessions.Keys
    ensures CanPost(After(suite, run).value, i) ==>
      forall coins, serverCoins, body :: suite.predict(body).Some? ==>
        Post(suite, After(suite, run).value, i, coins, serverCoins, body).2 == Result(suite.predict(body).value, true)
  {
    var sys := After(suite, run).value;
    RunKeeps(suite, run);
    assert SessionOk(suite, sys.server, sys.clients[i]);
    if CanPost(sys, i) {
      forall coins, serverCoins, body | suite.predict(body).Some?
        ensures Post(suite, sys, i, coins, serverCoins, body).2 == Result(suite.predict(body).value, true)
      {
        PostAnswered(suite, sys, i, coins, serverCoins, body);
      }
    }
  }

  /** Once every client has made all its requests and none has dropped out, the server remembers nothing. */
  lemma NothingLeftBehind(suite: Suite, run: seq<Action>)
    requires Works(suite) && After(suite, run).Some?
    requires forall i | 0 <= i < |After(suite, run).value.clients| ::
      !After(suite, run).value.clients[i].lost && After(suite, run).value.clients[i].session.left == 0
    ensures After(suite, run).value.server == Server(map[], map[])
  {
    var sys := After(suite, run).value;
    RunKeeps(suite, run);
    forall id ensures !Owned(sys, id) {
    }
    assert sys.server.sessions.Keys == {};
    assert sys.server.sessions == map[] && sys.server.keys == map[];
  }
}
