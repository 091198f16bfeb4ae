/** The concurrent load generator: bench/runner.py, lines 152-220.

    `concurrency` coroutines share a counter, a semaphore and a list of rows.  Between two awaits a
    coroutine runs undisturbed, so a step here is such a stretch: taking the next index under the
    lock (or stopping), entering the semaphore, and finishing a transaction.  The scheduler may pick
    any coroutine that can go on, and every transaction may fail. */
module LoadGenerator {
  import opened Primitives

  /** What becomes of a transaction: answered, or a row with an error from before or after the key
      exchange. */
  datatype Outcome = Answered | FailedBeforeExchange | FailedLater

  datatype Session = Session(left: int, established: bool)

  datatype Position = AtLock | Waiting(index: nat) | InFlight(index: nat) | Finished

  /** One coroutine: where it is, its session, and what it has done so far. */
  datatype Worker = Worker(at: Position, session: Option<Session>, served: nat, exchanges: nat, failures: nat)

  datatype Cell = Cell(counter: nat, permits: nat, results: seq<nat>, workers: seq<Worker>)

  datatype Config = Config(requests: nat, concurrency: nat, perHandshake: int)

  const IDLE: Worker := Worker(AtLock, None, 0, 0, 0)

  function Start(c: Config): Cell {
    Cell(0, c.concurrency, [], seq(c.concurrency, _ => IDLE))
  }

  /** A new session where there is none, or none with requests left. */
  function Renewed(perHandshake: int, session: Option<Session>): Option<Session> {
    if perHandshake > 1 && (session.None? || session.value.left <= 0) then Some(Session(perHandshake, false)) else session
  }

  /** A transaction: a resumed one makes no key exchange, and any error drops the session. */
  function Transact(w: Worker, outcome: Outcome): Worker {
    var resumed := w.session.Some? && w.session.value.established;
    var exchanged := !resumed && outcome != FailedBeforeExchange;
    var session := if outcome == Answered && w.session.Some? then Some(Session(w.session.value.left - 1, true)) else None;
    Worker(AtLock, session, w.served + 1, w.exchanges + (if exchanged then 1 else 0),
           w.failures + (if outcome == Answered then 0 else 1))
  }

  /** Coroutine i can go on: it has not returned, and the semaphore does not keep it. */
  predicate Ready(s: Cell, i: nat)
    requires i < |s.workers|
  {
    !s.workers[i].at.Finished? && (s.workers[i].at.Waiting? ==> s.permits > 0)
  }

  function Step(c: Config, s: Cell, i: nat, outcome: Outcome): Cell
    requires i < |s.workers| && Ready(s, i)
  {
    var w := s.workers[i];
    match w.at
    case AtLock =>
      if s.counter >= c.requests then s.(workers := s.workers[i := w.(at := Finished)])
      else s.(counter := s.counter + 1, workers := s.workers[i := w.(at := Waiting(s.counter))])
    case Waiting(index) =>
      var entered := w.(at := InFlight(index), session := Renewed(c.perHandshake, w.session));
      s.(permits := s.permits - 1, workers := s.workers[i := entered])
    case InFlight(index) =>
      Cell(s.counter, s.permits + 1, s.results + [index], s.workers[i := Transact(w, outcome)])
  }

  /** Sums over the coroutines. */
  function Sum(f: Worker -> int, ws: seq<Worker>): int {
    if ws == [] then 0 else Sum(f, Init(ws)) + f(Last(ws))
  }

  function Flying(w: Worker): int { if w.at.InFlight? then 1 else 0 }

  function Holding(w: Worker): int { if w.at.Waiting? || w.at.InFlight? then 1 else 0 }

  function Served(w: Worker): int { w.served }

  function Exchanges(w: Worker): int { w.exchanges }

  /** Steps that a coroutine still takes before it is back at the lock, and the one to stop there. */
  function Rank(w: Worker): int {
    match w.at
    case Finished => 0
    case AtLock => 1
    case InFlight(_) => 2
    case Waiting(_) => 3
  }

  function Holds(w: Worker, index: nat): nat {
    if (w.at.Waiting? || w.at.InFlight?) && w.at.index == index then 1 else 0
  }

  /** Coroutines that hold an index: it has been dispatched to them and is not yet recorded. */
  function Holders(ws: seq<Worker>, index: nat): nat {
    if ws == [] then 0 else Holders(Init(ws), index) + Holds(Last(ws), index)
  }

  /** How often an index exists in a state, as a row or on its way to become one. */
  function Copies(s: Cell, index: nat): nat {
    multiset(s.results)[index] + Holders(s.workers, index)
  }

  /** Exactly the indices below the counter exist, each once. */
  ghost predicate Dispatched(s: Cell) {
    forall index: nat :: Copies(s, index) == if index < s.counter then 1 else 0
  }

  lemma {:induction false} SumUpdate(f: Worker -> int, ws: seq<Worker>, i: nat, w: Worker)
    requires i < |ws|
    ensures Sum(f, ws[i := w]) == Sum(f, ws) - f(ws[i]) + f(w)
    decreases |ws|
  {
    if i == |ws| - 1 {
      assert Init(ws[i := w]) == Init(ws);
    } else {
      SumUpdate(f, Init(ws), i, w);
      assert Init(ws[i := w]) == Init(ws)[i := w];
    }
  }

  lemma {:induction false} HoldersUpdate(ws: seq<Worker>, i: nat, w: Worker, index: nat)
    requires i < |ws|
    ensures Holders(ws[i := w], index) == Holders(ws, index) - Holds(ws[i], index) + Holds(w, index)
    decreases |ws|
  {
    if i == |ws| - 1 {
      assert Init(ws[i := w]) == Init(ws);
    } else {
      HoldersUpdate(Init(ws), i, w, index);
      assert Init(ws[i := w]) == Init(ws)[i := w];
    }
  }

  /** Requests that one key exchange is meant to serve. */
  function PerExchange(perHandshake: int): (m: nat)
    ensures m >= 1
  {
    if perHandshake > 1 then perHandshake else 1
  }

  /** Requests that the coroutine's current key is still good for. */
  function Left(w: Worker): int {
    if w.session.Some? && w.session.value.established then w.session.value.left else 0
  }

  predicate SessionOk(perHandshake: int, w: Worker) {
    && (w.session.Some? ==>
          && perHandshake > 1 && 0 <= w.session.value.left <= perHandshake
          && if w.session.value.established then w.session.value.left < perHandshake
             else w.session.value.left == perHandshake && w.at.InFlight?)
    && (w.at.InFlight? && perHandshake > 1 ==> w.session.Some? && w.session.value.left > 0)
  }

  /** The account of a coroutine: m requests for each exchange, up to what failures have wasted. */
  predicate Account(m: nat, exchanges: nat, requests: int, failures: nat) {
    requests - failures <= m * exchanges <= requests + (m - 1) * failures
  }

  predicate WorkerOk(perHandshake: int, w: Worker) {
    && SessionOk(perHandshake, w)
    && Account(PerExchange(perHandshake), w.exchanges, w.served + Left(w), w.failures)
  }

  /** How the account moves: an exchange pays for m requests, a failure spoils fewer than m. */
  lemma AccountMoves(m: nat, exchanges: nat, requests: int, failures: nat, left: nat)
    requires m >= 1 && left <= m && Account(m, exchanges, requests, failures)
    ensures Account(m, exchanges + 1, requests + m, failures)
    ensures left > 0 ==> Account(m, exchanges, requests + 1 - left, failures + 1)
    ensures Account(m, exchanges + 1, requests + 1, failures + 1)
    ensures Account(m, exchanges, requests + 1, failures + 1)
  {
    assert m * (exchanges + 1) == m * exchanges + m;
    assert (m - 1) * (failures + 1) == (m - 1) * failures + (m - 1);
  }

  lemma TransactKeeps(perHandshake: int, w: Worker, outcome: Outcome)
    requires WorkerOk(perHandshake, w) && w.at.InFlight?
    ensures WorkerOk(perHandshake, Transact(w, outcome))
  {
    var m := PerExchange(perHandshake);
    AccountMoves(m, w.exchanges, w.served + Left(w), w.failures, Left(w));
  }

  /** After a failure the coroutine starts afresh: its next transaction makes a key exchange of its own,
      unless it fails before it gets there.  After an answer it goes on with its session. */
  lemma FreshAfterFailure(perHandshake: int, w: Worker, outcome: Outcome, next: Outcome)
    requires WorkerOk(perHandshake, w) && w.at.InFlight?
    ensures var after := Transact(w, outcome);
      var again := Transact(after.(session := Renewed(perHandshake, after.session)), next);
      && (outcome != Answered ==> again.exchanges == after.exchanges + if next == FailedBeforeExchange then 0 else 1)
      && (outcome == Answered && perHandshake > 1 && w.session.value.left > 1 ==> again.exchanges == after.exchanges)
  {
  }

  /** What holds in every state of every run. */
  ghost predicate Inv(c: Config, s: Cell) {
    && |s.workers| == c.concurrency
    && s.counter <= c.requests
    && Dispatched(s)
    && s.permits + Sum(Flying, s.workers) == c.concurrency
    && Sum(Served, s.workers) == |s.results| == s.counter - Sum(Holding, s.workers)
    && (forall i | 0 <= i < |s.workers| :: WorkerOk(c.perHandshake, s.workers[i]))
    && (forall i | 0 <= i < |s.workers| :: s.workers[i].at.Finished? ==> s.counter == c.requests)
  }

  /** Steps that are still to come. */
  function StepsLeft(c: Config, s: Cell): int {
    3 * (c.requests - s.counter) + Sum(Rank, s.workers)
  }

  lemma {:induction false} AllIdle(ws: seq<Worker>)
    requires forall i | 0 <= i < |ws| :: ws[i] == IDLE
    ensures (forall index :: Holders(ws, index) == 0) && Sum(Flying, ws) == Sum(Holding, ws) == Sum(Served, ws) == 0 && Sum(Rank, ws) == |ws|
  {
    if ws != [] { AllIdle(Init(ws)); }
  }

  lemma StartOk(c: Config)
    ensures Inv(c, Start(c)) && StepsLeft(c, Start(c)) == 3 * c.requests + c.concurrency
  {
    AllIdle(Start(c).workers);
  }

  /** Every step of every coroutine keeps the invariant and leaves exactly one step less. */
  lemma StepKeeps(c: Config, s: Cell, i: nat, outcome: Outcome)
    requires Inv(c, s) && i < |s.workers| && Ready(s, i)
    ensures Inv(c, Step(c, s, i, outcome))
    ensures StepsLeft(c, Step(c, s, i, outcome)) == StepsLeft(c, s) - 1
  {
    StepKeepsIndices(c, s, i, outcome);
    StepKeepsCounts(c, s, i, outcome);
    StepKeepsWorkers(c, s, i, outcome);
  }

  lemma StepKeepsIndices(c: Config, s: Cell, i: nat, outcome: Outcome)
    requires i < |s.workers| && Ready(s, i) && Dispatched(s)
    ensures Dispatched(Step(c, s, i, outcome))
  {
    var t := Step(c, s, i, outcome);
    var w' := t.workers[i];
    assert t.workers == s.workers[i := w'];
    forall index: nat ensures Copies(t, index) == if index < t.counter then 1 else 0 {
      HoldersUpdate(s.workers, i, w', index);
      assert Copies(s, index) == if index < s.counter then 1 else 0;
    }
  }

  lemma StepKeepsWorkers(c: Config, s: Cell, i: nat, outcome: Outcome)
    requires i < |s.workers| && Ready(s, i)
    requires forall j | 0 <= j < |s.workers| :: WorkerOk(c.perHandshake, s.workers[j])
    ensures var t := Step(c, s, i, outcome); forall j | 0 <= j < |t.workers| :: WorkerOk(c.perHandshake, t.workers[j])
  {
    var t := Step(c, s, i, outcome);
    assert t.workers == s.workers[i := t.workers[i]];
    if s.workers[i].at.InFlight? { TransactKeeps(c.perHandshake, s.workers[i], outcome); }
    assert WorkerOk(c.perHandshake, t.workers[i]);
  }

  lemma StepKeepsCounts(c: Config, s: Cell, i: nat, outcome: Outcome)
    requires i < |s.workers| && Ready(s, i) && s.counter <= c.requests
    ensures var t := Step(c, s, i, outcome);
      && t.permits + Sum(Flying, t.workers) == s.permits + Sum(Flying, s.workers)
      && Sum(Served, t.workers) - |t.results| == Sum(Served, s.workers) - |s.results|
      && t.counter - Sum(Holding, t.workers) - |t.results| == s.counter - Sum(Holding, s.workers) - |s.results|
      && StepsLeft(c, t) == StepsLeft(c, s) - 1
  {
    var t := Step(c, s, i, outcome);
    var w' := t.workers[i];
    assert t.workers == s.workers[i := w'];
    SumUpdate(Flying, s.workers, i, w');
    SumUpdate(Holding, s.workers, i, w');
    SumUpdate(Served, s.workers, i, w');
    SumUpdate(Rank, s.workers, i, w');
  }

  /** Rows are only ever appended, each by the coroutine that held its index. */
  lemma RowsAppended(c: Config, s: Cell, i: nat, outcome: Outcome)
    requires i < |s.workers| && Ready(s, i)
    ensures var t := Step(c, s, i, outcome);
      t.results == s.results + if s.workers[i].at.InFlight? then [s.workers[i].at.index] else []
  {
  }

  /** Between 0 and the number of coroutines are in flight, and fewer while one is still waiting. */
  lemma {:induction false} FlyingBound(ws: seq<Worker>)
    ensures 0 <= Sum(Flying, ws) <= |ws|
    ensures (exists i :: 0 <= i < |ws| && !ws[i].at.InFlight?) ==> Sum(Flying, ws) < |ws|
  {
    if ws != [] {
      FlyingBound(Init(ws));
      if i :| 0 <= i < |ws| && !ws[i].at.InFlight? && i < |ws| - 1 {
        assert Init(ws)[i] == ws[i];
      }
    }
  }

  /** No coroutine ever gets stuck: with as many permits as coroutines the semaphore never blocks. */
  lemma NeverBlocked(c: Config, s: Cell, i: nat)
    requires Inv(c, s) && i < |s.workers| && !s.workers[i].at.Finished?
    ensures Ready(s, i)
  {
    FlyingBound(s.workers);
  }

  ghost predicate AllFinished(s: Cell) {
    forall i | 0 <= i < |s.workers| :: s.workers[i].at.Finished?
  }

  lemma {:induction false} NothingHeld(ws: seq<Worker>)
    requires forall i | 0 <= i < |ws| :: ws[i].at.Finished?
    ensures (forall index :: Holders(ws, index) == 0) && Sum(Holding, ws) == Sum(Rank, ws) == 0
  {
    if ws != [] { NothingHeld(Init(ws)); }
  }

  /** Rows of a complete run: each index exactly once. */
  ghost predicate EachOnce(results: seq<nat>, n: nat) {
    |results| == n && forall i: nat :: multiset(results)[i] == if i < n then 1 else 0
  }

  /** ceil(served / m) exchanges, or as many as failures allow. */
  predicate ExchangesFor(m: nat, w: Worker) {
    && w.served - w.failures <= m * w.exchanges < w.served + m + (m - 1) * w.failures
    && (w.failures == 0 ==> w.served <= m * w.exchanges < w.served + m)
  }

  lemma WorkerExchanges(perHandshake: int, w: Worker)
    requires WorkerOk(perHandshake, w) && w.at.Finished?
    ensures ExchangesFor(PerExchange(perHandshake), w)
  {
  }

  lemma OneMoreWorker(m: nat, exchanges: int, more: nat, workers: nat)
    requires m >= 1
    ensures m * (exchanges + more) == m * exchanges + m * more
    ensures (m - 1) * (workers + 1) == (m - 1) * workers + (m - 1)
  {
  }

  /** The whole cell's cost without failures: at least n/m exchanges, and fewer than one extra for
      each coroutine. */
  lemma {:induction false} TotalExchanges(m: nat, ws: seq<Worker>)
    requires m >= 1 && forall i | 0 <= i < |ws| :: ExchangesFor(m, ws[i]) && ws[i].failures == 0
    ensures Sum(Served, ws) <= m * Sum(Exchanges, ws) <= Sum(Served, ws) + (m - 1) * |ws|
  {
    if ws != [] {
      TotalExchanges(m, Init(ws));
      assert ExchangesFor(m, Last(ws));
      OneMoreWorker(m, Sum(Exchanges, Init(ws)), Last(ws).exchanges, |Init(ws)|);
    }
  }

  lemma FinalState(c: Config, s: Cell)
    requires Inv(c, s) && AllFinished(s)
    ensures c.concurrency > 0 ==> EachOnce(s.results, c.requests) && StepsLeft(c, s) == 0
    ensures c.concurrency == 0 ==> s.results == []
    ensures Sum(Served, s.workers) == |s.results|
    ensures forall i | 0 <= i < |s.workers| :: ExchangesFor(PerExchange(c.perHandshake), s.workers[i])
  {
    NothingHeld(s.workers);
    if c.concurrency > 0 {
      assert s.workers[0].at.Finished?;
      forall index: nat ensures multiset(s.results)[index] == if index < c.requests then 1 else 0 {
        assert Copies(s, index) == if index < c.requests then 1 else 0;
      }
    }
    forall i | 0 <= i < |s.workers| ensures ExchangesFor(PerExchange(c.perHandshake), s.workers[i]) {
      WorkerExchanges(c.perHandshake, s.workers[i]);
    }
  }

  /** One cell of the sweep, under every scheduling of the coroutines and every pattern of failures. */
  method RunSweepCell(requests: nat, concurrency: nat, perHandshake: int) returns (results: seq<nat>, workers: seq<Worker>)
    ensures |workers| == concurrency
    ensures if concurrency > 0 then EachOnce(results, requests) else results == []
    ensures Sum(Served, workers) == |results|
    ensures forall i | 0 <= i < |workers| :: ExchangesFor(PerExchange(perHandshake), workers[i])
  {
    ghost var c := Config(requests, concurrency, perHandshake);
    var counter, permits := 0, concurrency;
    results, workers := [], seq(concurrency, _ => IDLE);
    StartOk(c);
    while exists i :: 0 <= i < |workers| && !workers[i].at.Finished?
      invariant Inv(c, Cell(counter, permits, results, workers))
      decreases StepsLeft(c, Cell(counter, permits, results, workers))
    {
      var i :| 0 <= i < |workers| && !workers[i].at.Finished?;
      var outcome: Outcome := *;
      ghost var s := Cell(counter, permits, results, workers);
      NeverBlocked(c, s, i);
      StepKeeps(c, s, i, outcome);
      StepsNonNegative(c, Step(c, s, i, outcome));
      var w := workers[i];
      match w.at {
        case AtLock =>
          if counter >= requests {
            workers := workers[i := w.(at := Finished)];
          } else {
            workers := workers[i := w.(at := Waiting(counter))];
            counter := counter + 1;
          }
        case Waiting(index) =>
          permits := permits - 1;
          workers := workers[i := w.(at := InFlight(index), session := Renewed(perHandshake, w.session))];
        case InFlight(index) =>
          results := results + [index];
          workers := workers[i := Transact(w, outcome)];
          permits := permits + 1;
      }
      assert Cell(counter, permits, results, workers) == Step(c, s, i, outcome);
    }
    FinalState(c, Cell(counter, permits, results, workers));
  }

  lemma {:induction false} RanksNonNegative(ws: seq<Worker>)
    ensures Sum(Rank, ws) >= 0
  {
    if ws != [] { RanksNonNegative(Init(ws)); }
  }

  lemma StepsNonNegative(c: Config, s: Cell)
    requires Inv(c, s)
    ensures StepsLeft(c, s) >= 0
  {
    RanksNonNegative(s.workers);
  }

  /** A run: states one step apart, from the start. */
  ghost predicate IsRun(c: Config, run: seq<Cell>) {
    && run != [] && run[0] == Start(c)
    && forall t | 0 < t < |run| :: IsStep(c, run[t - 1], run[t])
  }

  ghost predicate IsStep(c: Config, s: Cell, t: Cell) {
    exists i: nat, outcome :: i < |s.workers| && Ready(s, i) && t == Step(c, s, i, outcome)
  }

  lemma {:induction false} RunKeeps(c: Config, run: seq<Cell>)
    requires IsRun(c, run)
    ensures forall t | 0 <= t < |run| :: Inv(c, run[t]) && StepsLeft(c, run[t]) == 3 * c.requests + c.concurrency - t
    decreases |run|
  {
    StartOk(c);
    if |run| > 1 {
      RunKeeps(c, Init(run));
      var t := |run| - 1;
      assert Init(run)[t - 1] == run[t - 1];
      assert IsStep(c, run[t - 1], run[t]);
      var i: nat, outcome :| i < |run[t - 1].workers| && Ready(run[t - 1], i) && run[t] == Step(c, run[t - 1], i, outcome);
      StepKeeps(c, run[t - 1], i, outcome);
      assert forall u | 0 <= u < t :: run[u] == Init(run)[u];
    }
  }

  /** Safety and termination over all interleavings: never more than `concurrency` in flight, no index
      dispatched or recorded twice, and no run longer than 3 steps a request and one a coroutine; a
      run can end early only by stopping the scheduler, and a complete one has exactly that length. */
  lemma EveryRun(c: Config, run: seq<Cell>, t: nat)
    requires IsRun(c, run) && t < |run|
    ensures 0 <= Sum(Flying, run[t].workers) <= c.concurrency
    ensures Dispatched(run[t])
    ensures |run| - 1 <= 3 * c.requests + c.concurrency
    ensures AllFinished(run[t]) && c.concurrency > 0 ==> t == |run| - 1 == 3 * c.requests + c.concurrency
    ensures !AllFinished(run[t]) ==> exists i: nat, outcome :: i < |run[t].workers| && Ready(run[t], i) && IsStep(c, run[t], Step(c, run[t], i, outcome))
  {
    RunKeeps(c, run);
    FlyingBound(run[t].workers);
    StepsNonNegative(c, run[|run| - 1]);
    if AllFinished(run[t]) {
      FinalState(c, run[t]);
    } else {
      var i :| 0 <= i < |run[t].workers| && !run[t].workers[i].at.Finished?;
      NeverBlocked(c, run[t], i);
      assert IsStep(c, run[t], Step(c, run[t], i, Answered));
    }
  }
}
