/** How much a client has shown before a signature covers it. */
module Exposure {
  import opened Primitives
  import opened Records
  import opened Arithmetic

  /** `covers[p]`: does row p bring a signature that covers everything received so far?
      `weight[p]`: what row p adds to the backlog (1 when counting chunks, its tokens otherwise). */
  function Backlog(covers: seq<bool>, weight: seq<nat>, p: nat): nat
    requires p <= |covers| == |weight|
  {
    if p == 0 || covers[p - 1] then 0 else Backlog(covers, weight, p - 1) + weight[p - 1]
  }

  /** The largest backlog that one of the first p rows has covered. */
  function Peak(covers: seq<bool>, weight: seq<nat>, p: nat): nat
    requires p <= |covers| == |weight|
  {
    if p == 0 then 0
    else if covers[p - 1] then Max(Peak(covers, weight, p - 1), Backlog(covers, weight, p - 1) + weight[p - 1])
    else Peak(covers, weight, p - 1)
  }

  /** The same over a whole stream whose terminal record covers the rest or does not. */
  function PeakOfRun(covers: seq<bool>, weight: seq<nat>, finalCovers: bool): nat
    requires |covers| == |weight|
  {
    var n := |covers|;
    if finalCovers then Max(Peak(covers, weight, n), Backlog(covers, weight, n)) else Peak(covers, weight, n)
  }

  /** Every row weighs c, except that the last one may weigh less (but something). */
  predicate Even(weight: seq<nat>, c: nat) {
    && (forall p | 0 <= p < |weight| - 1 :: weight[p] == c)
    && (weight != [] ==> 0 < Last(weight) <= c)
  }

  function Sum(weight: seq<nat>): nat {
    if weight == [] then 0 else Sum(Init(weight)) + Last(weight)
  }

  /** The weight of the first p rows. */
  lemma {:induction false} SumOfEven(weight: seq<nat>, c: nat, p: nat)
    requires Even(weight, c) && p <= |weight|
    ensures p < |weight| ==> Sum(weight[..p]) == p * c
    ensures p == |weight| > 0 ==> Sum(weight[..p]) == (p - 1) * c + Last(weight)
  {
    if p > 0 {
      SumOfEven(weight, c, p - 1);
      assert Init(weight[..p]) == weight[..p - 1];
      assert (p - 1) * c + c == p * c;
    }
  }

  lemma {:induction false} PeriodicBacklog(covers: seq<bool>, weight: seq<nat>, c: nat, k: nat, p: nat)
    requires |covers| == |weight| && p <= |weight| && k > 0
    requires Even(weight, c)
    requires forall i | 0 <= i < |covers| :: covers[i] <==> Scheduled(k, i + 1)
    ensures p < |weight| ==> Backlog(covers, weight, p) == (p % k) * c
    ensures p == |weight| > 0 ==>
              Backlog(covers, weight, p) == if p % k == 0 then 0 else (p % k - 1) * c + Last(weight)
  {
    if p > 0 {
      PeriodicBacklog(covers, weight, c, k, p - 1);
      PeriodicStep(k, p - 1, c);
      assert covers[p - 1] <==> p % k == 0;
    } else {
      assert 0 % k == 0;
    }
  }

  /** Covered every k rows: the backlog after p rows is what came since the last multiple of k, and
      the peak is one full window as soon as there was one. */
  lemma {:induction false} PeriodicCover(covers: seq<bool>, weight: seq<nat>, c: nat, k: nat, p: nat)
    requires |covers| == |weight| && p <= |weight| && k > 0
    requires Even(weight, c)
    requires forall i | 0 <= i < |covers| :: covers[i] <==> Scheduled(k, i + 1)
    ensures p < |weight| ==> Backlog(covers, weight, p) == (p % k) * c
    ensures p == |weight| > 0 ==>
              Backlog(covers, weight, p) == if p % k == 0 then 0 else (p % k - 1) * c + Last(weight)
    ensures p < |weight| ==> Peak(covers, weight, p) == if p < k then 0 else k * c
    ensures p == |weight| > 0 ==>
              Peak(covers, weight, p) == if p < k then 0 else if p == k then (k - 1) * c + Last(weight) else k * c
  {
    PeriodicBacklog(covers, weight, c, k, p);
    if p > 0 {
      PeriodicCover(covers, weight, c, k, p - 1);
      PeriodicStep(k, p - 1, c);
      assert covers[p - 1] <==> p % k == 0;
    }
  }

  lemma PeriodicStep(k: nat, n: nat, c: nat)
    requires k > 0
    ensures (n + 1) % k == 0 ==> n % k == k - 1 && n + 1 >= k
    ensures (n + 1) % k != 0 ==> (n + 1) % k == n % k + 1 && n + 1 != k
    ensures (n % k) * c + c == (n % k + 1) * c
    ensures (k - 1) * c + c == k * c
    ensures n + 1 < k ==> (n + 1) % k != 0
  {
    ModStep(k, n);
    if n + 1 <= k {
      if n + 1 < k { ModOf(k, 0, n + 1); } else { assert k * 1 + 0 == k; ModOf(k, 1, 0); }
    }
  }

  lemma {:induction false} NeverCovered(covers: seq<bool>, weight: seq<nat>, p: nat)
    requires |covers| == |weight| && p <= |weight|
    requires forall i | 0 <= i < |covers| :: !covers[i]
    ensures Backlog(covers, weight, p) == Sum(weight[..p]) && Peak(covers, weight, p) == 0
  {
    if p > 0 {
      NeverCovered(covers, weight, p - 1);
      assert Init(weight[..p]) == weight[..p - 1];
    }
  }

  /** Exact exposure of a run that a checkpoint covers every k rows and the terminal record at the
      end: one full window, or everything if the stream is shorter than that. */
  lemma PeakOfScheduledRun(covers: seq<bool>, weight: seq<nat>, c: nat, k: nat)
    requires |covers| == |weight|
    requires Even(weight, c)
    requires forall i | 0 <= i < |covers| :: covers[i] <==> Scheduled(k, i + 1)
    ensures PeakOfRun(covers, weight, true) == if k == 0 then Sum(weight) else Min(k * c, Sum(weight))
  {
    var n := |weight|;
    assert weight[..n] == weight;
    SumOfEven(weight, c, n);
    if k == 0 {
      NeverCovered(covers, weight, n);
    } else if n > 0 {
      PeriodicCover(covers, weight, c, k, n);
      WindowsOfRun(k, n, c, Last(weight));
    }
  }

  lemma WindowsOfRun(k: nat, n: nat, c: nat, last: nat)
    requires k > 0 && n > 0 && 0 < last <= c
    ensures n <= k ==> (n - 1) * c + last <= k * c
    ensures n > k ==> k * c <= (n - 1) * c + last
    ensures n < k ==> n % k == n
    ensures n == k ==> n % k == 0
    ensures n % k != 0 ==> (n % k - 1) * c + last <= k * c
  {
    if n < k { ModOf(k, 0, n); }
    if n == k { assert k * 1 + 0 == n; ModOf(k, 1, 0); }
    if n <= k { WindowFits(k, n, c, last); } else { Monotone(k, n - 1, c); }
    if n % k != 0 { WindowFits(k, n % k, c, last); }
  }

  lemma Monotone(a: nat, b: nat, c: nat)
    requires a <= b
    ensures a * c <= b * c
  {
  }

  lemma WindowFits(k: nat, n: nat, c: nat, last: nat)
    requires 0 < n <= k && last <= c
    ensures (n - 1) * c + last <= k * c
  {
    Monotone(n, k, c);
    assert (n - 1) * c + c == n * c;
  }

  /** Every row covered as it arrives: a backlog of one row at a time. */
  lemma {:induction false} AlwaysCovered(covers: seq<bool>, weight: seq<nat>, p: nat)
    requires |covers| == |weight| && p <= |weight|
    requires forall i | 0 <= i < |covers| :: covers[i]
    requires forall i | 0 <= i < |weight| :: weight[i] == 1
    ensures Backlog(covers, weight, p) == 0 && Peak(covers, weight, p) == Min(p, 1)
  {
    if p > 0 {
      AlwaysCovered(covers, weight, p - 1);
    }
  }
}
