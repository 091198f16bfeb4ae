/** The link emulator: bench/netem_proxy.py, lines 41-84. */
module NetemProxy {
  import opened Arithmetic
  import opened Bytes
  import opened Primitives

  /** One call of `release_time`, by any of the connections that share the link. */
  datatype Arrival = Arrival(now: real, nbytes: nat)

  /** Seconds that the bottleneck needs for n bytes; a bandwidth of 0 or less is no bottleneck. */
  function Service(bw: real, nbytes: nat): (t: real)
    ensures t >= 0.0
  {
    if bw > 0.0 then (nbytes * 8) as real / bw else 0.0
  }

  function TotalService(bw: real, calls: seq<Arrival>): (t: real)
    ensures t >= 0.0
  {
    if calls == [] then 0.0 else TotalService(bw, Init(calls)) + Service(bw, Last(calls).nbytes)
  }

  /** When the bottleneck is next idle, after a history of calls. */
  function TxFree(bw: real, calls: seq<Arrival>): real {
    if calls == [] then 0.0
    else Larger(Last(calls).now, TxFree(bw, Init(calls))) + Service(bw, Last(calls).nbytes)
  }

  class Link {
    const delay: real
    const bw: real
    var txFree: real
    ghost var calls: seq<Arrival>

    ghost predicate Valid()
      reads this
    {
      txFree == TxFree(bw, calls)
    }

    constructor (oneWayDelay: real, bandwidth: real)
      ensures Valid() && calls == [] && delay == oneWayDelay && bw == bandwidth
    {
      delay, bw, txFree, calls := oneWayDelay, bandwidth, 0.0, [];
    }

    method ReleaseTime(nbytes: nat, now: real) returns (at: real)
      requires Valid()
      modifies this
      ensures Valid() && calls == old(calls) + [Arrival(now, nbytes)]
      ensures at == TxFree(bw, calls) + delay && txFree >= old(txFree)
      ensures at >= now + Service(bw, nbytes) + delay
      ensures now >= old(txFree) ==> at == now + delay + if bw > 0.0 then (8 * nbytes) as real / bw else 0.0
    {
      var start := Larger(now, txFree);
      txFree := start + if bw > 0.0 then (nbytes * 8) as real / bw else 0.0;
      at := txFree + delay;
      calls := calls + [Arrival(now, nbytes)];
      assert Init(calls) == old(calls);
    }
  }

  lemma {:induction false} TotalServiceSplit(bw: real, calls: seq<Arrival>, j: nat)
    requires j <= |calls|
    ensures TotalService(bw, calls) == TotalService(bw, calls[..j]) + TotalService(bw, calls[j..])
    decreases |calls|
  {
    if j == |calls| {
      assert calls[..j] == calls && calls[j..] == [];
    } else {
      TotalServiceSplit(bw, Init(calls), j);
      assert Init(calls)[..j] == calls[..j];
      assert Init(calls[j..]) == Init(calls)[j..] && Last(calls[j..]) == Last(calls);
    }
  }

  lemma OneCall(bw: real, x: Arrival)
    ensures TotalService(bw, [x]) == Service(bw, x.nbytes)
  {
    assert Init([x]) == [] && Last([x]) == x;
    assert TotalService(bw, []) == 0.0;
  }

  /** The candidate of the closed form: the bottleneck has been busy since call j arrived. */
  function BusySince(bw: real, calls: seq<Arrival>, j: nat): real
    requires j < |calls|
  {
    calls[j].now + TotalService(bw, calls[j..])
  }

  /** Max-plus closed form.  The recurrence over all calls so far gives the largest of the candidates
      (and of having been busy since time 0): it is one of them and none is larger. */
  lemma {:induction false} MaxPlusForm(bw: real, calls: seq<Arrival>)
    ensures TxFree(bw, calls) >= TotalService(bw, calls)
    ensures forall j | 0 <= j < |calls| :: TxFree(bw, calls) >= BusySince(bw, calls, j)
    ensures TxFree(bw, calls) == TotalService(bw, calls)
         || exists j :: 0 <= j < |calls| && TxFree(bw, calls) == BusySince(bw, calls, j)
  {
    if calls != [] {
      var before, x, n := Init(calls), Last(calls), |calls|;
      MaxPlusForm(bw, before);
      forall j | 0 <= j < n - 1 ensures BusySince(bw, calls, j) == BusySince(bw, before, j) + Service(bw, x.nbytes) {
        assert Init(calls[j..]) == before[j..] && Last(calls[j..]) == x;
      }
      assert calls[n - 1..] == [x];
      OneCall(bw, x);
      assert BusySince(bw, calls, n - 1) == x.now + Service(bw, x.nbytes);
      if x.now < TxFree(bw, before) && TxFree(bw, before) != TotalService(bw, before) {
        var j :| 0 <= j < |before| && TxFree(bw, before) == BusySince(bw, before, j);
        assert TxFree(bw, calls) == BusySince(bw, calls, j);
      }
    }
  }

  /** A monotonic clock starts at 0 or later, so the first call already outweighs time 0. */
  lemma MaxPlusFormFromClock(bw: real, calls: seq<Arrival>)
    requires calls != [] && calls[0].now >= 0.0
    ensures exists j :: 0 <= j < |calls| && TxFree(bw, calls) == BusySince(bw, calls, j)
  {
    MaxPlusForm(bw, calls);
    assert calls[0..] == calls;
    if TxFree(bw, calls) == TotalService(bw, calls) {
      assert TxFree(bw, calls) == BusySince(bw, calls, 0);
    }
  }

  /** FIFO across all connections: a later call is released no earlier, and later by at least the
      serialisation time of everything in between. */
  lemma {:induction false} ReleasesSeparated(bw: real, calls: seq<Arrival>, i: nat)
    requires i <= |calls|
    ensures TxFree(bw, calls) >= TxFree(bw, calls[..i]) + TotalService(bw, calls[i..])
    decreases |calls|
  {
    if i == |calls| {
      assert calls[..i] == calls && calls[i..] == [];
    } else {
      ReleasesSeparated(bw, Init(calls), i);
      assert Init(calls)[..i] == calls[..i];
      assert Init(calls[i..]) == Init(calls)[i..] && Last(calls[i..]) == Last(calls);
    }
  }

  function TotalBytes(calls: seq<Arrival>): nat {
    if calls == [] then 0 else TotalBytes(Init(calls)) + Last(calls).nbytes
  }

  lemma ServiceAdds(bw: real, m: nat, n: nat)
    ensures Service(bw, m + n) == Service(bw, m) + Service(bw, n)
  {
    if bw > 0.0 {
      assert ((m + n) * 8) as real == (m * 8) as real + (n * 8) as real;
    }
  }

  lemma {:induction false} ServiceOfBytes(bw: real, calls: seq<Arrival>)
    ensures TotalService(bw, calls) == Service(bw, TotalBytes(calls))
  {
    if calls != [] {
      ServiceOfBytes(bw, Init(calls));
      ServiceAdds(bw, TotalBytes(Init(calls)), Last(calls).nbytes);
    }
  }

  /** The bandwidth is never exceeded: two releases lie at least as far apart as the link takes to
      serialise all bytes that entered after the first, however they were split over connections. */
  lemma BandwidthRespected(bw: real, calls: seq<Arrival>, i: nat)
    requires i <= |calls|
    ensures TxFree(bw, calls) - TxFree(bw, calls[..i]) >= Service(bw, TotalBytes(calls[i..]))
  {
    ReleasesSeparated(bw, calls, i);
    ServiceOfBytes(bw, calls[i..]);
  }

  /** At bw bits a second, n bytes take as long as 8 n bits do. */
  lemma ServiceInBits(bw: real, n: nat)
    requires bw > 0.0
    ensures bw * Service(bw, n) == (8 * n) as real
  {
    assert n * 8 == 8 * n;
  }

  lemma BitsWithin(bw: real, n: nat, gap: real)
    requires bw > 0.0 && gap >= Service(bw, n)
    ensures bw * gap >= (8 * n) as real
    ensures gap == Service(bw, n) ==> bw * gap == (8 * n) as real
  {
    ServiceInBits(bw, n);
    assert bw * gap == bw * Service(bw, n) + bw * (gap - Service(bw, n));
  }

  /** The bottleneck never idles from call i on: every later call finds it busy. */
  ghost predicate StaysBusy(bw: real, calls: seq<Arrival>, i: nat) {
    forall t | i <= t < |calls| :: calls[t].now <= TxFree(bw, calls[..t])
  }

  lemma {:induction false} BusyRelease(bw: real, calls: seq<Arrival>, i: nat)
    requires i <= |calls| && StaysBusy(bw, calls, i)
    ensures TxFree(bw, calls) == TxFree(bw, calls[..i]) + TotalService(bw, calls[i..])
    decreases |calls|
  {
    if i == |calls| {
      assert calls[..i] == calls && calls[i..] == [];
    } else {
      var before := Init(calls);
      forall t | i <= t < |before| ensures before[t].now <= TxFree(bw, before[..t]) {
        assert before[..t] == calls[..t];
      }
      BusyRelease(bw, before, i);
      assert before[..i] == calls[..i] && calls[..|calls| - 1] == before;
      assert Init(calls[i..]) == before[i..] && Last(calls[i..]) == Last(calls);
    }
  }

  /** The bandwidth law in bits: in the time between two releases the link carries no more than bw bits a
      second, and exactly that while it stays busy. */
  lemma BandwidthInBits(bw: real, calls: seq<Arrival>, i: nat, gap: real)
    requires bw > 0.0 && i <= |calls| && gap == TxFree(bw, calls) - TxFree(bw, calls[..i])
    ensures bw * gap >= (8 * TotalBytes(calls[i..])) as real
    ensures StaysBusy(bw, calls, i) ==> bw * gap == (8 * TotalBytes(calls[i..])) as real
  {
    BandwidthRespected(bw, calls, i);
    BusyGap(bw, calls, i);
    BitsWithin(bw, TotalBytes(calls[i..]), gap);
  }

  lemma BusyGap(bw: real, calls: seq<Arrival>, i: nat)
    requires i <= |calls|
    ensures StaysBusy(bw, calls, i) ==> TxFree(bw, calls) - TxFree(bw, calls[..i]) == Service(bw, TotalBytes(calls[i..]))
  {
    if StaysBusy(bw, calls, i) {
      BusyRelease(bw, calls, i);
      ServiceOfBytes(bw, calls[i..]);
    }
  }

  /** Without a bandwidth there is no bottleneck: on a clock that does not run backwards, every call is
      released when it arrives, after nothing but the delay. */
  lemma {:induction false} NoBottleneck(bw: real, calls: seq<Arrival>)
    requires bw <= 0.0 && calls != [] && calls[0].now >= 0.0
    requires forall i, j | 0 <= i <= j < |calls| :: calls[i].now <= calls[j].now
    ensures TxFree(bw, calls) == Last(calls).now
  {
    var before := Init(calls);
    if before != [] {
      NoBottleneck(bw, before);
      assert Last(before) == calls[|calls| - 2];
    }
  }

  /** One connection through the proxy in one direction: what has been read waits in a queue, with its
      release time, until it is written. */
  class Pump {
    const link: Link
    var queue: seq<(real, bytes)>
    ghost var read: bytes
    ghost var written: bytes

    ghost predicate Valid()
      reads this, link
    {
      && link.Valid()
      && read == written + Waiting(queue)
      && (forall i, j | 0 <= i <= j < |queue| :: queue[i].0 <= queue[j].0)
      && (forall i | 0 <= i < |queue| :: queue[i].0 <= link.txFree + link.delay)
    }

    constructor (link: Link)
      requires link.Valid()
      ensures Valid() && this.link == link && read == [] && written == [] && queue == []
    {
      this.link := link;
      queue, read, written := [], [], [];
    }

    /** Bytes arrive at time `now`. */
    method OnRead(data: bytes, now: real)
      requires Valid()
      modifies this`queue, this`read, link
      ensures Valid() && read == old(read) + data
      ensures link.calls == old(link.calls) + [Arrival(now, |data|)]
      ensures queue == old(queue) + [(link.txFree + link.delay, data)]
      ensures link.txFree >= now + Service(link.bw, |data|)
      ensures link.txFree >= old(link.txFree)
    {
      var at := link.ReleaseTime(|data|, now);
      WaitingAppend(queue, (at, data));
      queue := queue + [(at, data)];
      read := read + data;
    }

    /** The deliverer looks at the head of its queue at time `now`: it writes it once its release time
        has come. */
    method OnDeliver(now: real) returns (sent: bool)
      requires Valid()
      modifies this`queue, this`written
      ensures Valid() && read == old(read)
      ensures sent <==> old(queue) != [] && old(queue)[0].0 <= now
      ensures if sent then queue == old(queue)[1..] && written == old(written) + old(queue)[0].1
              else queue == old(queue) && written == old(written)
    {
      sent := queue != [] && queue[0].0 <= now;
      if sent {
        WaitingFront(queue);
        written := written + queue[0].1;
        queue := queue[1..];
      }
    }
  }

  /** Connections that share a link: one of them receives bytes, and none of the others is disturbed.  So
      all of them stay in order, whatever is interleaved. */
  method ReadShared(pumps: set<Pump>, p: Pump, data: bytes, now: real)
    requires p in pumps && forall q | q in pumps :: q.Valid() && q.link == p.link
    modifies p`queue, p`read, p.link
    ensures forall q | q in pumps :: q.Valid()
    ensures forall q | q in pumps && q != p :: q.queue == old(q.queue) && q.read == old(q.read) && q.written == old(q.written)
    ensures p.read == old(p.read) + data && p.written == old(p.written)
    ensures p.link.calls == old(p.link.calls) + [Arrival(now, |data|)]
  {
    p.OnRead(data, now);
  }

  function Waiting(queue: seq<(real, bytes)>): bytes {
    if queue == [] then [] else queue[0].1 + Waiting(queue[1..])
  }

  lemma WaitingFront(queue: seq<(real, bytes)>)
    requires queue != []
    ensures Waiting(queue) == queue[0].1 + Waiting(queue[1..])
  {
  }

  lemma {:induction false} WaitingAppend(queue: seq<(real, bytes)>, item: (real, bytes))
    ensures Waiting(queue + [item]) == Waiting(queue) + item.1
  {
    if queue == [] {
      assert queue + [item] == [item];
      assert Waiting([item]) == item.1 + Waiting([]);
    } else {
      WaitingAppend(queue[1..], item);
      assert (queue + [item])[1..] == queue[1..] + [item];
    }
  }
}
