/** One cell of the stream-integrity campaign: threats/streaming_attack_campaign.py, lines 123-166. */
module CampaignRun {
  import opened Bytes
  import opened Primitives
  import opened Records
  import opened Server
  import opened Acceptance
  import opened Soundness
  import opened Replay
  import opened Campaign
  import opened CampaignTable

  /** A captured session of the pool. */
  datatype Session = Session(c: Crypto, plains: seq<bytes>)

  function CaptureOf(s: Strategy, v: Session): Capture
    requires |v.plains| < TWO_TO_32
  {
    Captured(v.c, s, v.plains)
  }

  /** A draw of the random generator: whom to attack, whose records to use for it, and how. */
  datatype Trial = Trial(victim: nat, donor: nat, attack: Attack)

  ghost predicate Pool(s: Strategy, pool: seq<Session>) {
    forall v | v in pool :: 0 < |v.plains| && |v.plains| + 1 < TWO_TO_32 && Correct(v.c, s, v.plains)
  }

  /** A trial on real sessions: the donor's records do not open for the victim, and the adversary can
      do what `Secure` leaves it. */
  ghost predicate Fair(s: Strategy, pool: seq<Session>, sealed: seq<set<(Nonce, bytes)>>, t: Trial)
    requires Pool(s, pool) && |sealed| == |pool|
  {
    && t.victim < |pool| && t.donor < |pool|
    && var v, cap, donor := pool[t.victim], CaptureOf(s, pool[t.victim]), CaptureOf(s, pool[t.donor]);
    && (forall i | 0 <= i < |donor.chunks| :: !Opens(v.c, donor.chunks[i]))
    && Drawn(t.attack, cap, donor)
    && (Mutate(cap, donor, t.attack, s).Some? ==>
          Secure(v.c, s, v.plains, sealed[t.victim], Mutate(cap, donor, t.attack, s).value.chunks))
  }

  /** What the client under attack owes: a rejection, after less than one interval of affected and
      less than one interval of uncovered chunks. */
  predicate Caught(s: Strategy, o: Observation) {
    && o.position.Some?
    && o.genuine <= o.position.value <= o.delivered && o.covered <= o.position.value
    && (s.PerChunk? ==> o.position.value == o.genuine == o.covered)
    && (s.HashChain? && s.checkpointInterval > 0 ==>
          && o.position.value - o.genuine < s.checkpointInterval
          && o.position.value - o.covered < s.checkpointInterval)
  }

  /** Without an enforced schedule a stripped stream passes, and nothing of it was covered until its
      end. */
  predicate Missed(o: Observation, length: nat) {
    o.position.None? && o.delivered == length
  }

  method RunTrial(s: Strategy, pool: seq<Session>, ghost sealed: seq<set<(Nonce, bytes)>>, t: Trial, enforceSchedule: bool)
    returns (r: Option<Observation>)
    requires !s.BufferAndSign? && Pool(s, pool) && |sealed| == |pool|
    requires Fair(s, pool, sealed, t)
    requires enforceSchedule || t.attack.CheckpointStrip?
    ensures r.Some? <==> Mutate(CaptureOf(s, pool[t.victim]), CaptureOf(s, pool[t.donor]), t.attack, s).Some?
    ensures r.Some? && enforceSchedule ==>
              r.value == Expected(s, |pool[t.victim].plains|, |pool[t.donor].plains|, t.attack) && Caught(s, r.value)
    ensures r.Some? && !enforceSchedule ==> Missed(r.value, |pool[t.victim].plains|)
  {
    var v, cap, donor := pool[t.victim], CaptureOf(s, pool[t.victim]), CaptureOf(s, pool[t.donor]);
    var mutation := Mutate(cap, donor, t.attack, s);
    if mutation.None? {
      return None;
    }
    var m := mutation.value;
    MutatedShort(cap, donor, t.attack, s);
    var outcome := ReplayThroughClient(v.c, s, m.chunks, m.final, enforceSchedule);
    if enforceSchedule {
      TrialShows(v.c, s, v.plains, sealed[t.victim], cap, donor, t.attack, m);
      TrialCaught(s, v, sealed[t.victim], cap, donor, t.attack, m);
    } else {
      StripAcceptedWhenNotEnforced(v.c, s.checkpointInterval, v.plains);
    }
    return Some(Observation(outcome.position, outcome.covered, |m.chunks|, m.firstAffected));
  }

  lemma TrialCaught(s: Strategy, v: Session, sealed: set<(Nonce, bytes)>, cap: Capture, donor: Capture, attack: Attack, m: Mutation)
    requires !s.BufferAndSign? && 0 < |v.plains| && |v.plains| + 1 < TWO_TO_32 && |donor.chunks| < TWO_TO_32
    requires Correct(v.c, s, v.plains)
    requires forall i | 0 <= i < |donor.chunks| :: !Opens(v.c, donor.chunks[i])
    requires cap == CaptureOf(s, v) && Drawn(attack, cap, donor) && Mutate(cap, donor, attack, s) == Some(m)
    requires Secure(v.c, s, v.plains, sealed, m.chunks)
    ensures |m.chunks| < TWO_TO_32
    ensures var position := RejectedAt(v.c, s, m.chunks, m.final);
      position.Some? && Caught(s, Observation(position, CoveredBy(s, m.chunks, position.value), |m.chunks|, m.firstAffected))
  {
    CampaignCaught(v.c, s, v.plains, sealed, cap, donor, attack, m);
    match s
    case PerChunk =>
      AffectedPerChunk(cap, donor, attack);
    case HashChain(k) =>
      ServedCheckpoints(v.c, k, v.plains);
      if k > 0 {
        CampaignExposure(v.c, k, v.plains, sealed, cap, donor, attack, m);
      } else {
        AffectedUnscheduled(cap, donor, attack);
      }
  }

  /** Without checkpoints only the static attacks apply, and they are caught at their place or later. */
  lemma AffectedUnscheduled(cap: Capture, donor: Capture, attack: Attack)
    requires OnSchedule(0, cap.chunks)
    requires Drawn(attack, cap, donor) && Mutate(cap, donor, attack, HashChain(0)).Some?
    ensures Mutate(cap, donor, attack, HashChain(0)).value.firstAffected <= CaughtAt(HashChain(0), |cap.chunks|, attack)
  {
    NoCheckpoints(cap.chunks);
  }

  /** The numbers that a cell reports, from what its trials have shown. */
  datatype Cell = Cell(n: nat, detected: nat, midStream: nat, exposures: seq<nat>, unverified: seq<nat>)

  predicate AllBelow(xs: seq<nat>, bound: nat) {
    forall x | x in xs :: x < bound
  }

  /** The report of an enforcing client: everything detected, and shown in time. */
  predicate AllCaught(s: Strategy, cell: Cell) {
    && cell.detected == cell.n == |cell.exposures| == |cell.unverified|
    && cell.midStream <= cell.n
    && (s.PerChunk? ==> AllBelow(cell.exposures, 1) && AllBelow(cell.unverified, 1))
    && (s.HashChain? && s.checkpointInterval > 0 ==>
          AllBelow(cell.exposures, s.checkpointInterval) && AllBelow(cell.unverified, s.checkpointInterval))
  }

  /** Genuine streams of the pool that the client rejects. */
  method FalseRejections(s: Strategy, pool: seq<Session>) returns (count: nat)
    requires !s.BufferAndSign? && Pool(s, pool)
    ensures count == 0
  {
    count := 0;
    for i := 0 to |pool|
      invariant count == 0
    {
      var v := pool[i];
      assert v in pool;
      var cap := CaptureOf(s, v);
      GenuineAccepted(v.c, s, s, v.plains);
      var outcome := ReplayThroughClient(v.c, s, cap.chunks, cap.final, true);
      count := count + if outcome.position.Some? then 1 else 0;
    }
  }

  /** `applies` tells the draws apart whose attack applies to their victim. */
  ghost predicate TellsApart(s: Strategy, pool: seq<Session>, applies: Trial -> bool, t: Trial)
    requires Pool(s, pool) && t.victim < |pool| && t.donor < |pool|
    requires Drawn(t.attack, CaptureOf(s, pool[t.victim]), CaptureOf(s, pool[t.donor]))
  {
    applies(t) <==> Mutate(CaptureOf(s, pool[t.victim]), CaptureOf(s, pool[t.donor]), t.attack, s).Some?
  }

  function Count(applies: Trial -> bool, draws: seq<Trial>): nat {
    if draws == [] then 0 else Count(applies, Init(draws)) + if applies(Last(draws)) then 1 else 0
  }

  /** A draw that counts: it applies, and its positions exist. */
  predicate Counts(pool: seq<Session>, applies: Trial -> bool, t: Trial) {
    && applies(t) && t.victim < |pool| && t.donor < |pool|
    && (t.attack.Drop? ==> t.attack.i < |pool[t.victim].plains|)
  }

  /** The lengths of the attacked streams, for the draws that count. */
  function Lengths(pool: seq<Session>, applies: Trial -> bool, draws: seq<Trial>): seq<nat> {
    if draws == [] then []
    else
      var t := Last(draws);
      Lengths(pool, applies, Init(draws)) + if Counts(pool, applies, t) then [|pool[t.victim].plains|] else []
  }

  function Above(a: nat, b: nat): nat {
    if a > b then a - b else 0
  }

  /** Attacker-influenced chunks on display: from the first affected one to the rejection. */
  function Exposures(s: Strategy, pool: seq<Session>, applies: Trial -> bool, draws: seq<Trial>): seq<nat> {
    if draws == [] then []
    else
      var t := Last(draws);
      Exposures(s, pool, applies, Init(draws)) +
      if Counts(pool, applies, t) then [Above(CaughtAt(s, |pool[t.victim].plains|, t.attack), AffectedFrom(s, t.attack))] else []
  }

  /** Chunks on display that nothing covers: from the last checkpoint before the first affected one to the
      rejection. */
  function Uncovered(s: Strategy, pool: seq<Session>, applies: Trial -> bool, draws: seq<Trial>): seq<nat> {
    if draws == [] then []
    else
      var t := Last(draws);
      Uncovered(s, pool, applies, Init(draws)) +
      if Counts(pool, applies, t)
      then [Above(CaughtAt(s, |pool[t.victim].plains|, t.attack), CoveredBefore(s, AffectedFrom(s, t.attack)))] else []
  }

  /** Trials that are over before the stream is. */
  function MidStream(s: Strategy, pool: seq<Session>, applies: Trial -> bool, draws: seq<Trial>): nat {
    if draws == [] then 0
    else
      var t := Last(draws);
      MidStream(s, pool, applies, Init(draws)) +
      if Counts(pool, applies, t)
         && CaughtAt(s, |pool[t.victim].plains|, t.attack) < Delivered(|pool[t.victim].plains|, |pool[t.donor].plains|, t.attack)
      then 1 else 0
  }

  /** What a cell has to report after n trials. */
  predicate Reports(s: Strategy, enforceSchedule: bool, cell: Cell) {
    if enforceSchedule then AllCaught(s, cell)
    else cell.detected == cell.midStream == 0 && cell.exposures == [] && |cell.unverified| == cell.n
  }

  /** The cell says of some draws what the table says. */
  predicate Tabulates(s: Strategy, pool: seq<Session>, applies: Trial -> bool, draws: seq<Trial>, cell: Cell) {
    && cell.exposures == Exposures(s, pool, applies, draws)
    && cell.unverified == Uncovered(s, pool, applies, draws)
    && cell.midStream == MidStream(s, pool, applies, draws)
  }

  /** One more trial in the account. */
  predicate Added(before: Cell, cell: Cell, o: Observation) {
    && cell.n == before.n + 1
    && match o.position
       case Some(p) =>
         && cell.detected == before.detected + 1
         && cell.midStream == before.midStream + (if p < o.delivered then 1 else 0)
         && cell.exposures == before.exposures + [Above(p, o.genuine)]
         && cell.unverified == before.unverified + [Above(p, o.covered)]
       case None =>
         && cell.detected == before.detected && cell.midStream == before.midStream && cell.exposures == before.exposures
         && cell.unverified == before.unverified + [o.delivered]
  }

  lemma ReportsOneMore(s: Strategy, enforceSchedule: bool, before: Cell, cell: Cell, o: Observation)
    requires Reports(s, enforceSchedule, before) && Added(before, cell, o)
    requires if enforceSchedule then Caught(s, o) else o.position.None?
    ensures Reports(s, enforceSchedule, cell)
  {
  }

  /** Accounts for one trial, statement by statement. */
  method AddObservation(before: Cell, o: Observation) returns (cell: Cell)
    requires o.position.Some? ==> o.covered <= o.position.value
    ensures Added(before, cell, o)
  {
    cell := before.(n := before.n + 1);
    match o.position {
      case Some(p) =>
        cell := cell.(
          detected := cell.detected + 1,
          midStream := cell.midStream + if p < o.delivered then 1 else 0,
          exposures := cell.exposures + [if p > o.genuine then p - o.genuine else 0],
          unverified := cell.unverified + [p - o.covered]);
      case None =>
        cell := cell.(unverified := cell.unverified + [o.delivered]);
    }
  }

  /** The table, one draw further. */
  lemma TabulatesOneMore(s: Strategy, pool: seq<Session>, applies: Trial -> bool, done: seq<Trial>, t: Trial, before: Cell, cell: Cell)
    requires Tabulates(s, pool, applies, done, before)
    requires if Counts(pool, applies, t)
             then Added(before, cell, Expected(s, |pool[t.victim].plains|, |pool[t.donor].plains|, t.attack))
             else cell == before
    ensures Tabulates(s, pool, applies, done + [t], cell)
  {
    assert Init(done + [t]) == done && Last(done + [t]) == t;
  }

  lemma LengthsOneMore(pool: seq<Session>, applies: Trial -> bool, done: seq<Trial>, t: Trial)
    ensures Lengths(pool, applies, done + [t]) ==
            Lengths(pool, applies, done) + if Counts(pool, applies, t) then [|pool[t.victim].plains|] else []
  {
    assert Init(done + [t]) == done && Last(done + [t]) == t;
  }

  /** A fair draw counts if it applies. */
  lemma FairCounts(s: Strategy, pool: seq<Session>, sealed: seq<set<(Nonce, bytes)>>, t: Trial, applies: Trial -> bool)
    requires !s.BufferAndSign? && Pool(s, pool) && |sealed| == |pool| && Fair(s, pool, sealed, t)
    ensures Counts(pool, applies, t) <==> applies(t)
  {
  }

  method AddTrial(s: Strategy, pool: seq<Session>, ghost sealed: seq<set<(Nonce, bytes)>>, t: Trial, enforceSchedule: bool, before: Cell,
                  ghost applies: Trial -> bool, ghost done: seq<Trial>)
    returns (cell: Cell)
    requires !s.BufferAndSign? && Pool(s, pool) && |sealed| == |pool|
    requires Fair(s, pool, sealed, t)
    requires enforceSchedule || t.attack.CheckpointStrip?
    requires TellsApart(s, pool, applies, t) && Reports(s, enforceSchedule, before)
    requires if enforceSchedule then Tabulates(s, pool, applies, done, before) else before.unverified == Lengths(pool, applies, done)
    ensures Reports(s, enforceSchedule, cell)
    ensures cell.n == before.n + if applies(t) then 1 else 0
    ensures if enforceSchedule then Tabulates(s, pool, applies, done + [t], cell) else cell.unverified == Lengths(pool, applies, done + [t])
  {
    cell := before;
    FairCounts(s, pool, sealed, t, applies);
    var o := RunTrial(s, pool, sealed, t, enforceSchedule);
    if o.Some? {
      cell := AddObservation(before, o.value);
      ReportsOneMore(s, enforceSchedule, before, cell, o.value);
    }
    if enforceSchedule {
      TabulatesOneMore(s, pool, applies, done, t, before, cell);
    } else {
      LengthsOneMore(pool, applies, done, t);
    }
  }

  /** Trials are drawn until enough of them have applied or the draws run out.  Every cell of the
      campaign reports full detection in time, with every entry as the table has it; and the client that
      does not enforce the schedule misses every stripped stream, and counts all of it as uncovered. */
  method RunCell(s: Strategy, pool: seq<Session>, ghost sealed: seq<set<(Nonce, bytes)>>, draws: seq<Trial>, trials: nat,
                 enforceSchedule: bool, ghost applies: Trial -> bool)
    returns (falseRejections: nat, cell: Cell, ghost tries: nat)
    requires !s.BufferAndSign? && Pool(s, pool) && |sealed| == |pool|
    requires forall t | t in draws :: Fair(s, pool, sealed, t) && TellsApart(s, pool, applies, t)
    requires forall t | t in draws :: enforceSchedule || t.attack.CheckpointStrip?
    ensures falseRejections == 0
    ensures tries <= |draws| && cell.n == Count(applies, draws[..tries]) <= trials
    ensures cell.n == trials || tries == |draws|
    ensures Reports(s, enforceSchedule, cell)
    ensures enforceSchedule ==>
              && cell.exposures == Exposures(s, pool, applies, draws[..tries])
              && cell.unverified == Uncovered(s, pool, applies, draws[..tries])
              && cell.midStream == MidStream(s, pool, applies, draws[..tries])
    ensures !enforceSchedule ==> cell.unverified == Lengths(pool, applies, draws[..tries])
  {
    falseRejections := FalseRejections(s, pool);
    cell := Cell(0, 0, 0, [], []);
    var next := 0;
    while cell.n < trials && next < |draws|
      invariant 0 <= next <= |draws|
      invariant cell.n == Count(applies, draws[..next]) <= trials
      invariant Reports(s, enforceSchedule, cell)
      invariant if enforceSchedule then Tabulates(s, pool, applies, draws[..next], cell)
                else cell.unverified == Lengths(pool, applies, draws[..next])
    {
      var t := draws[next];
      assert t in draws;
      cell := AddTrial(s, pool, sealed, t, enforceSchedule, cell, applies, draws[..next]);
      assert draws[..next + 1] == draws[..next] + [t];
      assert Init(draws[..next + 1]) == draws[..next] && Last(draws[..next + 1]) == t;
      next := next + 1;
    }
    tries := next;
  }
}
