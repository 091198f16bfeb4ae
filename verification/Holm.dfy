/** Holm's step-down adjustment of p-values: analysis/paper_figures.py, lines 405-413. */
module Holm {
  import opened Arithmetic

  /** What `argsort` promises: the positions in ascending order of their values.  Ties may come in
      any order. */
  ghost predicate Sorts(order: seq<nat>, p: seq<real>) {
    && |order| == |p|
    && (forall r | 0 <= r < |order| :: order[r] < |p|)
    && (forall r, t | 0 <= r < t < |order| :: order[r] != order[t])
    && (forall i | 0 <= i < |p| :: i in order)
    && (forall r, t | 0 <= r <= t < |order| :: p[order[r]] <= p[order[t]])
  }

  predicate Probabilities(p: seq<real>) {
    forall i | 0 <= i < |p| :: 0.0 <= p[i] <= 1.0
  }

  /** The p-value of rank r, multiplied by the number of hypotheses from that rank on. */
  function Scaled(p: seq<real>, order: seq<nat>, r: nat): real
    requires r < |order| == |p| && order[r] < |p|
  {
    (|p| - r) as real * p[order[r]]
  }

  /** The largest of 0 and the first n values. */
  function Running(scaled: seq<real>, n: nat): real
    requires n <= |scaled|
  {
    if n == 0 then 0.0 else Larger(Running(scaled, n - 1), scaled[n - 1])
  }

  lemma {:induction false} RunningIsMax(scaled: seq<real>, n: nat)
    requires n <= |scaled|
    ensures Running(scaled, n) >= 0.0
    ensures forall r | 0 <= r < n :: scaled[r] <= Running(scaled, n)
    ensures Running(scaled, n) == 0.0 || exists r :: 0 <= r < n && scaled[r] == Running(scaled, n)
  {
    if n > 0 {
      RunningIsMax(scaled, n - 1);
      if Running(scaled, n) == scaled[n - 1] {
      } else if Running(scaled, n - 1) != 0.0 {
        var r :| 0 <= r < n - 1 && scaled[r] == Running(scaled, n - 1);
        assert scaled[r] == Running(scaled, n);
      }
    }
  }

  ghost predicate AreScaled(scaled: seq<real>, p: seq<real>, order: seq<nat>)
    requires |order| == |p| && forall r | 0 <= r < |order| :: order[r] < |p|
  {
    |scaled| == |p| && forall r {:trigger Scaled(p, order, r)} | 0 <= r < |p| :: scaled[r] == Scaled(p, order, r)
  }

  lemma ScaledValues(p: seq<real>, order: seq<nat>, n: nat) returns (scaled: seq<real>)
    requires |order| == |p| && forall r | 0 <= r < |order| :: order[r] < |p|
    requires n <= |p|
    ensures |scaled| == n && forall r {:trigger Scaled(p, order, r)} | 0 <= r < n :: scaled[r] == Scaled(p, order, r)
  {
    scaled := [];
    if n > 0 {
      var front := ScaledValues(p, order, n - 1);
      scaled := front + [Scaled(p, order, n - 1)];
    }
  }

  /** `adj` holds the running maxima, cut off at 1, at the places of their hypotheses. */
  ghost predicate Adjusts(adj: seq<real>, scaled: seq<real>, order: seq<nat>)
    requires |adj| == |scaled| == |order| && forall r | 0 <= r < |order| :: order[r] < |adj|
  {
    forall r | 0 <= r < |order| :: adj[order[r]] == Smaller(1.0, Running(scaled, r + 1))
  }

  ghost predicate IsAdjustment(adj: seq<real>, p: seq<real>, order: seq<nat>)
    requires |order| == |p| && forall r | 0 <= r < |order| :: order[r] < |p|
  {
    |adj| == |p| && exists scaled :: AreScaled(scaled, p, order) && Adjusts(adj, scaled, order)
  }

  method Adjust(p: seq<real>, order: seq<nat>) returns (adj: seq<real>)
    requires Sorts(order, p)
    ensures IsAdjustment(adj, p, order)
  {
    var m := |p|;
    ghost var scaled := ScaledValues(p, order, m);
    var a := new real[m];
    var running := 0.0;
    for rank := 0 to m
      invariant running == Running(scaled, rank)
      invariant forall r | 0 <= r < rank :: a[order[r]] == Smaller(1.0, Running(scaled, r + 1))
    {
      var i := order[rank];
      running := Larger(running, Scaled(p, order, rank));
      assert scaled[rank] == Scaled(p, order, rank);
      a[i] := Smaller(1.0, running);
    }
    adj := a[..];
    assert Adjusts(adj, scaled, order);
  }

  /** The step-down procedure at level alpha rejects the hypothesis of rank r: this rank and all
      before it are at most alpha over the number of hypotheses still in play. */
  ghost predicate StepDownRejects(p: seq<real>, order: seq<nat>, alpha: real, r: nat)
    requires r < |order| == |p| && forall r | 0 <= r < |order| :: order[r] < |p|
  {
    forall t | 0 <= t <= r :: BelowThreshold(p, order, alpha, t)
  }

  ghost predicate BelowThreshold(p: seq<real>, order: seq<nat>, alpha: real, t: nat)
    requires t < |order| == |p| && order[t] < |p|
  {
    p[order[t]] <= alpha / (|p| - t) as real
  }

  lemma ThresholdIsScaled(x: real, alpha: real, n: nat)
    requires n > 0
    ensures x <= alpha / n as real <==> n as real * x <= alpha
  {
    var d := n as real;
    assert d * (alpha / d) == alpha;
    if x <= alpha / d {
      assert d * x <= d * (alpha / d);
    } else {
      assert d * x > d * (alpha / d);
    }
  }

  lemma StepDownScaled(scaled: seq<real>, p: seq<real>, order: seq<nat>, alpha: real, r: nat)
    requires Sorts(order, p) && AreScaled(scaled, p, order) && r < |p|
    ensures StepDownRejects(p, order, alpha, r) <==> forall t | 0 <= t <= r :: scaled[t] <= alpha
  {
    forall t | 0 <= t <= r ensures BelowThreshold(p, order, alpha, t) <==> scaled[t] <= alpha {
      assert scaled[t] == Scaled(p, order, t);
      ThresholdIsScaled(p[order[t]], alpha, |p| - t);
    }
    if forall t | 0 <= t <= r :: scaled[t] <= alpha {
      forall t | 0 <= t <= r ensures BelowThreshold(p, order, alpha, t) {
        assert scaled[t] <= alpha;
      }
    }
    if StepDownRejects(p, order, alpha, r) {
      forall t | 0 <= t <= r ensures scaled[t] <= alpha {
        assert BelowThreshold(p, order, alpha, t);
      }
    }
  }

  lemma RunningAtMost(scaled: seq<real>, r: nat, alpha: real)
    requires r < |scaled| && 0.0 <= scaled[r]
    ensures Running(scaled, r + 1) <= alpha <==> forall t | 0 <= t <= r :: scaled[t] <= alpha
  {
    RunningIsMax(scaled, r + 1);
  }

  /** An adjusted value is at most alpha exactly for the hypotheses that the procedure rejects. */
  lemma AdjustedDecides(adj: seq<real>, p: seq<real>, order: seq<nat>, alpha: real, r: nat)
    requires Sorts(order, p) && Probabilities(p) && IsAdjustment(adj, p, order)
    requires alpha < 1.0 && r < |p|
    ensures adj[order[r]] <= alpha <==> StepDownRejects(p, order, alpha, r)
  {
    var scaled :| AreScaled(scaled, p, order) && Adjusts(adj, scaled, order);
    ScaledAtLeast(scaled, p, order, r);
    StepDownScaled(scaled, p, order, alpha, r);
    RunningAtMost(scaled, r, alpha);
  }

  lemma TimesMonotone(a: real, b: real, x: real, y: real)
    requires 0.0 <= a <= b && 0.0 <= x <= y
    ensures a * x <= b * y
  {
    assert b * y == a * x + a * (y - x) + (b - a) * y;
    TimesNonnegative(a, y - x);
    TimesNonnegative(b - a, y);
  }

  lemma TimesNonnegative(a: real, b: real)
    requires 0.0 <= a && 0.0 <= b
    ensures 0.0 <= a * b
  {
  }

  /** Scaling never makes a p-value smaller. */
  lemma ScaledAtLeast(scaled: seq<real>, p: seq<real>, order: seq<nat>, r: nat)
    requires Sorts(order, p) && Probabilities(p) && AreScaled(scaled, p, order) && r < |p|
    ensures 0.0 <= p[order[r]] <= scaled[r]
  {
    assert scaled[r] == Scaled(p, order, r);
    TimesMonotone(1.0, (|p| - r) as real, p[order[r]], p[order[r]]);
  }

  /** Adjusted values are probabilities that are no smaller than the p-values they belong to. */
  lemma AdjustedRange(adj: seq<real>, p: seq<real>, order: seq<nat>, r: nat)
    requires Sorts(order, p) && Probabilities(p) && IsAdjustment(adj, p, order)
    requires r < |p|
    ensures p[order[r]] <= adj[order[r]] <= 1.0
  {
    var scaled :| AreScaled(scaled, p, order) && Adjusts(adj, scaled, order);
    ScaledAtLeast(scaled, p, order, r);
    RunningIsMax(scaled, r + 1);
  }

  /** For every value that counts towards rank r of one order there is one at least as large that
      counts towards rank t of another, as long as rank t holds no smaller a p-value. */
  lemma Dominated(p: seq<real>, order: seq<nat>, order': seq<nat>, r: nat, t: nat, u: nat) returns (w: nat)
    requires Sorts(order, p) && Sorts(order', p) && Probabilities(p)
    requires u <= r < |p| && t < |p| && p[order[r]] <= p[order'[t]]
    ensures w <= t && Scaled(p, order, u) <= Scaled(p, order', w)
  {
    var v := p[order[u]];
    w := FirstAtLeast(p, order', v, t);
    TailsNest(p, order, order', u, w);
    TimesMonotone((|p| - u) as real, (|p| - w) as real, v, p[order'[w]]);
  }

  /** The first rank whose p-value is at least v. */
  lemma FirstAtLeast(p: seq<real>, order: seq<nat>, v: real, t: nat) returns (w: nat)
    requires Sorts(order, p) && t < |p| && v <= p[order[t]]
    ensures w <= t && v <= p[order[w]]
    ensures forall r | 0 <= r < w :: p[order[r]] < v
  {
    w := 0;
    while p[order[w]] < v
      invariant w <= t
      invariant forall r | 0 <= r < w :: p[order[r]] < v
      decreases t - w
    {
      if w == t {
        assert false;
      }
      w := w + 1;
    }
  }

  function Elements(s: seq<nat>): set<nat> {
    set x | x in s
  }

  lemma {:induction false} DistinctCount(s: seq<nat>)
    requires forall r, t | 0 <= r < t < |s| :: s[r] != s[t]
    ensures |Elements(s)| == |s|
  {
    if s != [] {
      var front := s[..|s| - 1];
      DistinctCount(front);
      assert Elements(s) == Elements(front) + {s[|s| - 1]};
    }
  }

  lemma SubsetCount(a: set<nat>, b: set<nat>)
    requires a <= b
    ensures |a| <= |b|
  {
    assert b == a + (b - a);
    assert |b| == |a| + |b - a|;
  }

  /** The hypotheses from rank u on in one order all come from rank w on in the other, so w <= u. */
  lemma TailsNest(p: seq<real>, order: seq<nat>, order': seq<nat>, u: nat, w: nat)
    requires Sorts(order, p) && Sorts(order', p)
    requires u < |p| && w < |p|
    requires forall r | 0 <= r < w :: p[order'[r]] < p[order[u]]
    ensures w <= u
  {
    forall i | i in order[u..] ensures i in order'[w..] {
      var a :| u <= a < |order| && order[a] == i;
      assert i in order';
      var b :| 0 <= b < |order'| && order'[b] == i;
      assert p[order[u]] <= p[order[a]];
      assert order'[w..][b - w] == i;
    }
    DistinctCount(order[u..]);
    DistinctCount(order'[w..]);
    SubsetCount(Elements(order[u..]), Elements(order'[w..]));
  }

  /** Order is preserved, and it does not matter how ties were broken: whatever two orders `argsort`
      may have returned, a hypothesis with no larger p-value gets no larger an adjusted value. */
  lemma AdjustmentMonotone(
    adj: seq<real>, adj': seq<real>, p: seq<real>, order: seq<nat>, order': seq<nat>, i: nat, j: nat)
    requires Sorts(order, p) && Sorts(order', p) && Probabilities(p)
    requires IsAdjustment(adj, p, order) && IsAdjustment(adj', p, order')
    requires i < |p| && j < |p| && p[i] <= p[j]
    ensures adj[i] <= adj'[j]
  {
    assert i in order && j in order';
    var r :| 0 <= r < |order| && order[r] == i;
    var t :| 0 <= t < |order'| && order'[t] == j;
    var scaled :| AreScaled(scaled, p, order) && Adjusts(adj, scaled, order);
    var scaled' :| AreScaled(scaled', p, order') && Adjusts(adj', scaled', order');
    RunningIsMax(scaled, r + 1);
    RunningIsMax(scaled', t + 1);
    if Running(scaled, r + 1) != 0.0 {
      var u :| 0 <= u < r + 1 && scaled[u] == Running(scaled, r + 1);
      var w := Dominated(p, order, order', r, t, u);
      assert scaled[u] == Scaled(p, order, u) && scaled'[w] == Scaled(p, order', w);
    }
  }

  /** So the adjustment is a function of the p-values alone. */
  lemma TiesDoNotMatter(adj: seq<real>, adj': seq<real>, p: seq<real>, order: seq<nat>, order': seq<nat>)
    requires Sorts(order, p) && Sorts(order', p) && Probabilities(p)
    requires IsAdjustment(adj, p, order) && IsAdjustment(adj', p, order')
    ensures adj == adj'
  {
    forall i | 0 <= i < |p| ensures adj[i] == adj'[i] {
      AdjustmentMonotone(adj, adj', p, order, order', i, i);
      AdjustmentMonotone(adj', adj, p, order', order, i, i);
    }
  }
}
