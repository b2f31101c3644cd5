/**
 The equi-height histogram: quantile boundaries, and a selectivity estimate that is never off by
 more than one bucket and half a value.
 */
module Histograms {
  import opened Sorting

  // ---- counting ----

  function CountLess(vs: seq<real>, t: real): (n: nat)
    ensures n <= |vs|
  {
    if vs == [] then 0 else CountLess(vs[..|vs| - 1], t) + if vs[|vs| - 1] < t then 1 else 0
  }

  function CountAtMost(vs: seq<real>, t: real): (n: nat)
    ensures n <= |vs|
  {
    if vs == [] then 0 else CountAtMost(vs[..|vs| - 1], t) + if vs[|vs| - 1] <= t then 1 else 0
  }

  predicate Ascends(vs: seq<real>) {
    forall i, j :: 0 <= i < j < |vs| ==> vs[i] <= vs[j]
  }

  /** At least `k + 1` values are at most `t` when the value at index `k` is. */
  lemma {:induction false} AtMostFrom(vs: seq<real>, t: real, k: nat)
    requires Ascends(vs) && k < |vs| && vs[k] <= t
    ensures CountAtMost(vs, t) >= k + 1
  {
    var init := vs[..|vs| - 1];
    if k < |init| {
      AtMostFrom(init, t, k);
    } else if k > 0 {
      AtMostFrom(init, t, k - 1);
    }
  }

  /** At most `k` values are below `t` when the value at index `k` is not. */
  lemma {:induction false} LessUpTo(vs: seq<real>, t: real, k: nat)
    requires Ascends(vs) && k < |vs| && t <= vs[k]
    ensures CountLess(vs, t) <= k
  {
    var init := vs[..|vs| - 1];
    if k < |init| {
      LessUpTo(init, t, k);
    }
  }

  lemma {:induction false} CountsSame(a: seq<real>, b: seq<real>, t: real)
    requires multiset(a) == multiset(b)
    ensures |a| == |b| && CountLess(a, t) == CountLess(b, t) && CountAtMost(a, t) == CountAtMost(b, t)
    decreases |a|
  {
    hide CountLess, CountAtMost;
    assert |multiset(a)| == |a| && |multiset(b)| == |b|;
    if a == [] {
      assert b == [];
    } else {
      var k := TakenOut(a, b);
      CountsSame(a[..|a| - 1], b[..k] + b[k + 1..], t);
      CountsWithout(a, |a| - 1, t);
      assert a[..|a| - 1] + a[|a|..] == a[..|a| - 1];
      CountsWithout(b, k, t);
    }
  }

  lemma TakenOut(a: seq<real>, b: seq<real>) returns (k: nat)
    requires multiset(a) == multiset(b) && a != []
    ensures k < |b| && b[k] == a[|a| - 1] && multiset(a[..|a| - 1]) == multiset(b[..k] + b[k + 1..])
  {
    var init, last := a[..|a| - 1], a[|a| - 1];
    assert a == init + [last];
    assert last in multiset(b);
    k :| 0 <= k < |b| && b[k] == last;
    var before, after := b[..k], b[k + 1..];
    assert b == before + ([last] + after);
    assert multiset(a) == multiset(init) + multiset{last};
    assert multiset(b) == multiset(before) + (multiset{last} + multiset(after));
    assert multiset(before + after) == multiset(before) + multiset(after);
    Cancel(multiset(init), multiset(before), multiset(after), last);
  }

  lemma Cancel(x: multiset<real>, y: multiset<real>, z: multiset<real>, e: real)
    requires x + multiset{e} == y + (multiset{e} + z)
    ensures x == y + z
  {
    forall r
      ensures x[r] == (y + z)[r]
    {
      assert (x + multiset{e})[r] == (y + (multiset{e} + z))[r];
    }
  }

  lemma {:induction false} CountsWithout(b: seq<real>, k: nat, t: real)
    requires k < |b|
    ensures var rest := b[..k] + b[k + 1..];
            && CountLess(b, t) == CountLess(rest, t) + (if b[k] < t then 1 else 0)
            && CountAtMost(b, t) == CountAtMost(rest, t) + (if b[k] <= t then 1 else 0)
    decreases |b|
  {
    var rest := b[..k] + b[k + 1..];
    if k == |b| - 1 {
      assert rest == b[..k];
    } else {
      var init := b[..|b| - 1];
      CountsWithout(init, k, t);
      assert rest[..|rest| - 1] == init[..k] + init[k + 1..];
      assert rest[|rest| - 1] == b[|b| - 1];
    }
  }

  // ---- the histogram ----

  datatype Histogram = Histogram(bounds: seq<real>, total: nat)

  function Share(i: nat, b: nat): real
    requires b > 0
  {
    i as real / b as real
  }

  /** `round`, half away from zero, of a number that is not negative. */
  function Round(x: real): int { (x + 0.5).Floor }

  /** The index of boundary `i` of `b` among `n` sorted values. */
  function QuantileIndex(i: nat, b: nat, n: nat): int
    requires b > 0 && n > 0
  {
    Round(Share(i, b) * (n - 1) as real)
  }

  /** `h` is an equi-height histogram of the values, `sorted` being the values in order. */
  ghost predicate Describes(h: Histogram, values: seq<real>, sorted: seq<real>, b: nat) {
    && b > 0 && h.total == |values| && multiset(sorted) == multiset(values) && Ascends(sorted)
    && (values == [] ==> h.bounds == [0.0, 0.0])
    && (values != [] ==> |sorted| == |values| && Boundaries(h.bounds, sorted, b))
  }

  /** `b + 1` boundaries at the quantiles of the sorted values. */
  ghost predicate Boundaries(bounds: seq<real>, sorted: seq<real>, b: nat)
    requires b > 0 && sorted != []
  {
    && |bounds| == b + 1
    && forall i :: 0 <= i <= b ==>
         0 <= QuantileIndex(i, b, |sorted|) < |sorted| && bounds[i] == sorted[QuantileIndex(i, b, |sorted|)]
  }

  lemma ShareFacts(i: nat, b: nat)
    requires b > 0 && i <= b
    ensures 0.0 <= Share(i, b) <= 1.0 && Share(0, b) == 0.0 && Share(b, b) == 1.0
    ensures Share(i + 1, b) == Share(i, b) + Share(1, b)
  {
    Quotients(i as real, b as real);
  }

  lemma Quotients(x: real, b: real)
    requires b > 0.0 && 0.0 <= x <= b
    ensures 0.0 <= x / b <= 1.0 && 0.0 / b == 0.0 && b / b == 1.0 && (x + 1.0) / b == x / b + 1.0 / b
  {
    Divided(0.0, x, b);
    Divided(x, b, b);
  }

  /** A quantile index is the nearest to its exact place, the greater of two as near, and inside the values. */
  lemma IndexFacts(i: nat, b: nat, n: nat)
    requires b > 0 && n > 0 && i <= b
    ensures 0 <= QuantileIndex(i, b, n) < n
    ensures Share(i, b) * (n - 1) as real - 0.5 < QuantileIndex(i, b, n) as real <= Share(i, b) * (n - 1) as real + 0.5
    ensures QuantileIndex(0, b, n) == 0 && QuantileIndex(b, b, n) == n - 1
  {
    ShareFacts(i, b);
    hide Share, Round;
    NearIndex(Share(i, b), n - 1);
    NearIndex(Share(0, b), n - 1);
    NearIndex(Share(b, b), n - 1);
  }

  lemma NearIndex(f: real, m: nat)
    requires 0.0 <= f <= 1.0
    ensures 0 <= Round(f * m as real) <= m
    ensures f * m as real - 0.5 < Round(f * m as real) as real <= f * m as real + 0.5
    ensures (f == 0.0 ==> Round(f * m as real) == 0) && (f == 1.0 ==> Round(f * m as real) == m)
  {
    Scaled(f, m as real);
  }

  lemma Scaled(f: real, m: real)
    requires 0.0 <= f <= 1.0 && m >= 0.0
    ensures 0.0 <= f * m <= m
  {
  }

  predicate AtMost(a: real, b: real) { a <= b }

  method Build(values: seq<real>, buckets: nat) returns (h: Histogram)
    ensures buckets > 0 ==> exists sorted :: Describes(h, values, sorted, buckets)
    ensures buckets == 0 ==> exists sorted :: Describes(h, values, sorted, 1)
  {
    hide Boundaries;
    var b := if buckets > 1 then buckets else 1;
    var inOrder := SortBy(AtMost, values);
    assert |multiset(inOrder)| == |inOrder| && |multiset(values)| == |values|;
    if |inOrder| == 0 {
      h := Histogram([0.0, 0.0], 0);
      assert Describes(h, values, inOrder, b);
      return;
    }
    var bounds := TakeQuantiles(inOrder, b);
    h := Histogram(bounds, |inOrder|);
    assert Describes(h, values, inOrder, b);
  }

  method TakeQuantiles(sorted: seq<real>, b: nat) returns (bounds: seq<real>)
    requires b > 0 && sorted != []
    ensures Boundaries(bounds, sorted, b)
  {
    hide QuantileIndex;
    var n := |sorted|;
    bounds := [];
    for i := 0 to b + 1
      invariant |bounds| == i
      invariant forall k :: 0 <= k < i ==> 0 <= QuantileIndex(k, b, n) < n && bounds[k] == sorted[QuantileIndex(k, b, n)]
    {
      var idx := QuantileIndex(i, b, n);
      IndexFacts(i, b, n);
      bounds := bounds + [sorted[if idx <= n - 1 then idx else n - 1]];
    }
  }

  // ---- the estimate ----

  /** The first bucket from `j` on whose right boundary is above `t`, or else the last bucket. */
  function BucketFrom(bounds: seq<real>, t: real, j: nat): (r: nat)
    requires j + 1 < |bounds|
    ensures j <= r && r + 1 < |bounds| && (forall k :: j < k <= r ==> bounds[k] <= t) && (t < bounds[r + 1] || r + 2 == |bounds|)
    decreases |bounds| - j
  {
    if t < bounds[j + 1] || j + 2 == |bounds| then j else BucketFrom(bounds, t, j + 1)
  }

  function Clamp(x: real): (r: real)
    ensures 0.0 <= r <= 1.0
  {
    if x < 0.0 then 0.0 else if x > 1.0 then 1.0 else x
  }

  /** How far into its bucket `t` lies. */
  function Within(left: real, right: real, t: real): (f: real)
    ensures 0.0 <= f <= 1.0
  {
    if right - left > 0.0 then Clamp((t - left) / (right - left)) else 0.0
  }

  /** Estimated fraction of values below `t`. */
  function SelectivityLt(h: Histogram, t: real): real
    requires |h.bounds| >= 2
  {
    var b := |h.bounds| - 1;
    if h.total == 0 then 0.0
    else if t <= h.bounds[0] then 0.0
    else if t >= h.bounds[b] then 1.0
    else
      var j := BucketFrom(h.bounds, t, 0);
      (j as real + Within(h.bounds[j], h.bounds[j + 1], t)) / b as real
  }

  /** `selectivity_lt`: scan the buckets. */
  method EstimateLt(h: Histogram, t: real) returns (r: real)
    requires |h.bounds| >= 2
    ensures r == SelectivityLt(h, t)
  {
    if h.total == 0 {
      return 0.0;
    }
    var b := |h.bounds| - 1;
    if t <= h.bounds[0] {
      return 0.0;
    }
    if t >= h.bounds[b] {
      return 1.0;
    }
    r := 1.0;
    for j := 0 to b
      invariant BucketFrom(h.bounds, t, 0) == BucketFrom(h.bounds, t, if j < b then j else b - 1)
      invariant j == b ==> t >= h.bounds[b]
    {
      if t < h.bounds[j + 1] || j == b - 1 {
        return (j as real + Within(h.bounds[j], h.bounds[j + 1], t)) / b as real;
      }
    }
  }

  function SelectivityRange(h: Histogram, lo: real, hi: real): real
    requires |h.bounds| >= 2
  {
    Clamp(SelectivityLt(h, hi) - SelectivityLt(h, lo))
  }

  // ---- how good it is ----

  /** The fraction of `k` among `n`. */
  function Fraction(k: nat, n: nat): real
    requires n > 0
  {
    k as real / n as real
  }

  /** One bucket and half a value. */
  function Slack(b: nat, n: nat): real
    requires b > 0 && n > 0
  {
    Share(1, b) + 0.5 / n as real
  }

  lemma ShareMonotone(i: nat, j: nat, b: nat)
    requires b > 0 && i <= j
    ensures Share(i, b) <= Share(j, b)
  {
  }

  /** Between the outer boundaries, the estimate lies between its bucket's shares. */
  lemma EstimateInBucket(h: Histogram, t: real, b: nat)
    requires b > 0 && |h.bounds| == b + 1 && h.total > 0 && h.bounds[0] < t < h.bounds[b]
    ensures var j := BucketFrom(h.bounds, t, 0);
            && h.bounds[j] <= t < h.bounds[j + 1] && j < b
            && Share(j, b) <= SelectivityLt(h, t) <= Share(j + 1, b)
  {
    var j := BucketFrom(h.bounds, t, 0);
    Divided(j as real, j as real + Within(h.bounds[j], h.bounds[j + 1], t), b as real);
    Divided(j as real + Within(h.bounds[j], h.bounds[j + 1], t), (j + 1) as real, b as real);
  }

  lemma Divided(x: real, y: real, b: real)
    requires x <= y && b > 0.0
    ensures x / b <= y / b
  {
  }

  /** The estimate is below the fraction of values at most `t`, plus the slack. */
  lemma UpperShare(f: real, c: nat, n: nat, idx: real)
    requires n > 0 && 0.0 <= f <= 1.0 && idx >= f * (n - 1) as real - 0.5 && c as real >= idx + 1.0
    ensures f <= Fraction(c, n) + 0.5 / n as real
  {
    assert f * (n - 1) as real == f * n as real - f;
    Quotient(f, c as real + 0.5, n as real);
    assert (c as real + 0.5) / n as real == c as real / n as real + 0.5 / n as real;
  }

  lemma Quotient(f: real, x: real, n: real)
    requires n > 0.0 && f * n <= x
    ensures f <= x / n
  {
    assert f == (f * n) / n;
    Divided(f * n, x, n);
  }

  lemma QuotientBelow(f: real, x: real, n: real)
    requires n > 0.0 && x <= f * n
    ensures x / n <= f
  {
    assert f == (f * n) / n;
    Divided(x, f * n, n);
  }

  lemma LowerShare(f: real, c: nat, n: nat, idx: real)
    requires n > 0 && 0.0 <= f <= 1.0 && idx <= f * (n - 1) as real + 0.5 && c as real <= idx
    ensures Fraction(c, n) - 0.5 / n as real <= f
  {
    assert f * (n - 1) as real == f * n as real - f;
    QuotientBelow(f, c as real - 0.5, n as real);
    assert (c as real - 0.5) / n as real == c as real / n as real - 0.5 / n as real;
  }

  /** The estimate is within one bucket and half a value of the truth, duplicates included. */
  lemma EstimateBounded(h: Histogram, values: seq<real>, sorted: seq<real>, b: nat, t: real)
    requires Describes(h, values, sorted, b) && values != []
    ensures var n := |values|;
            && 0.0 <= SelectivityLt(h, t) <= 1.0
            && Fraction(CountLess(values, t), n) - Slack(b, n) <= SelectivityLt(h, t)
            && SelectivityLt(h, t) <= Fraction(CountAtMost(values, t), n) + Slack(b, n)
  {
    hide QuantileIndex, Share, Fraction, BucketFrom, Within, CountLess, CountAtMost;
    var n := |values|;
    CountsSame(sorted, values, t);
    IndexFacts(0, b, n);
    SlackPositive(b, n);
    FractionFacts(CountLess(values, t), n);
    FractionFacts(CountAtMost(values, t), n);
    if t <= h.bounds[0] {
      LessUpTo(sorted, t, 0);
      FractionFacts(0, n);
    } else if t >= h.bounds[b] {
      AtMostFrom(sorted, t, n - 1);
      FractionFacts(n, n);
    } else {
      InteriorBounded(h, values, sorted, b, t);
    }
  }

  lemma SlackPositive(b: nat, n: nat)
    requires b > 0 && n > 0
    ensures Slack(b, n) > 0.0
  {
  }

  lemma FractionFacts(k: nat, n: nat)
    requires n > 0 && k <= n
    ensures 0.0 <= Fraction(k, n) <= 1.0 && Fraction(0, n) == 0.0 && Fraction(n, n) == 1.0
  {
  }

  lemma InteriorBounded(h: Histogram, values: seq<real>, sorted: seq<real>, b: nat, t: real)
    requires Describes(h, values, sorted, b) && values != [] && h.bounds[0] < t < h.bounds[b]
    ensures var n := |values|;
            && 0.0 <= SelectivityLt(h, t) <= 1.0
            && Fraction(CountLess(sorted, t), n) - Slack(b, n) <= SelectivityLt(h, t)
            && SelectivityLt(h, t) <= Fraction(CountAtMost(sorted, t), n) + Slack(b, n)
  {
    hide QuantileIndex, Share, Fraction, BucketFrom, Within, SelectivityLt, CountLess, CountAtMost;
    var n := |values|;
    EstimateInBucket(h, t, b);
    var j := BucketFrom(h.bounds, t, 0);
    var low, high := QuantileIndex(j, b, n), QuantileIndex(j + 1, b, n);
    IndexFacts(j, b, n);
    IndexFacts(j + 1, b, n);
    ShareFacts(j, b);
    ShareFacts(j + 1, b);
    AtMostFrom(sorted, t, low);
    LessUpTo(sorted, t, high);
    UpperShare(Share(j, b), CountAtMost(sorted, t), n, low as real);
    LowerShare(Share(j + 1, b), CountLess(sorted, t), n, high as real);
  }

  /** More values are estimated below a greater threshold. */
  lemma EstimateMonotone(h: Histogram, values: seq<real>, sorted: seq<real>, b: nat, t: real, u: real)
    requires Describes(h, values, sorted, b) && t <= u
    ensures SelectivityLt(h, t) <= SelectivityLt(h, u)
  {
    hide QuantileIndex, Share, BucketFrom, Within;
    if values != [] {
      if h.bounds[0] < t && u < h.bounds[b] {
        InteriorMonotone(h, values, sorted, b, t, u);
      } else {
        EstimateBounded(h, values, sorted, b, t);
        EstimateBounded(h, values, sorted, b, u);
      }
    }
  }

  lemma InteriorMonotone(h: Histogram, values: seq<real>, sorted: seq<real>, b: nat, t: real, u: real)
    requires Describes(h, values, sorted, b) && values != [] && h.bounds[0] < t <= u < h.bounds[b]
    ensures SelectivityLt(h, t) <= SelectivityLt(h, u)
  {
    hide QuantileIndex, Share, BucketFrom, Within;
    EstimateInBucket(h, t, b);
    EstimateInBucket(h, u, b);
    var i, j := BucketFrom(h.bounds, t, 0), BucketFrom(h.bounds, u, 0);
    if i < j {
      ShareMonotone(i + 1, j, b);
    } else {
      assert i == j;
      WithinMonotone(h.bounds[i], h.bounds[i + 1], t, u);
      Divided(i as real + Within(h.bounds[i], h.bounds[i + 1], t), i as real + Within(h.bounds[i], h.bounds[i + 1], u), b as real);
    }
  }

  lemma WithinMonotone(left: real, right: real, t: real, u: real)
    requires t <= u
    ensures Within(left, right, t) <= Within(left, right, u)
  {
    if right - left > 0.0 {
      Divided(t - left, u - left, right - left);
    }
  }

  // ---- what it is ----

  lemma BoundsAscend(h: Histogram, values: seq<real>, sorted: seq<real>, b: nat, i: nat, j: nat)
    requires Describes(h, values, sorted, b) && values != [] && i <= j <= b
    ensures h.bounds[i] <= h.bounds[j]
  {
    hide QuantileIndex;
    IndexMonotone(i, j, b, |values|);
  }

  lemma IndexMonotone(i: nat, j: nat, b: nat, n: nat)
    requires b > 0 && n > 0 && i <= j
    ensures QuantileIndex(i, b, n) <= QuantileIndex(j, b, n)
  {
    ShareMonotone(i, j, b);
    ScaledMonotone(Share(i, b), Share(j, b), (n - 1) as real);
    assert Share(i, b) * (n - 1) as real + 0.5 <= Share(j, b) * (n - 1) as real + 0.5;
  }

  lemma ScaledMonotone(f: real, g: real, m: real)
    requires f <= g && m >= 0.0
    ensures f * m <= g * m
  {
  }

  function Mix(left: real, right: real, x: real): real {
    (1.0 - x) * left + x * right
  }

  /** The place `x` of the way through bucket `j`. */
  function Place(h: Histogram, j: nat, x: real): real
    requires j + 1 < |h.bounds|
  {
    Mix(h.bounds[j], h.bounds[j + 1], x)
  }

  /** Each bucket stands for the same share of the values, evenly spread over it. */
  lemma Interpolates(h: Histogram, values: seq<real>, sorted: seq<real>, b: nat, j: nat, x: real)
    requires Describes(h, values, sorted, b) && values != [] && j < b && h.bounds[j] < h.bounds[j + 1]
    requires 0.0 <= x < 1.0 && h.bounds[0] < Place(h, j, x)
    ensures SelectivityLt(h, Place(h, j, x)) == (j as real + x) / b as real
  {
    hide Describes, BucketFrom, Within, Place;
    BoundsLength(h, values, sorted, b);
    InPlace(h, j, x);
    BoundsAscend(h, values, sorted, b, j + 1, b);
    FoundBucket(h, values, sorted, b, j, Place(h, j, x));
    assert h.total > 0 by { SomeTotal(h, values, sorted, b); }
  }

  lemma SomeTotal(h: Histogram, values: seq<real>, sorted: seq<real>, b: nat)
    requires Describes(h, values, sorted, b) && values != []
    ensures h.total > 0
  {
  }

  lemma InPlace(h: Histogram, j: nat, x: real)
    requires j + 1 < |h.bounds| && h.bounds[j] < h.bounds[j + 1] && 0.0 <= x < 1.0
    ensures h.bounds[j] <= Place(h, j, x) < h.bounds[j + 1] && Within(h.bounds[j], h.bounds[j + 1], Place(h, j, x)) == x
  {
    hide Within, Mix;
    WithinIs(h.bounds[j], h.bounds[j + 1], x);
  }

  lemma BoundsLength(h: Histogram, values: seq<real>, sorted: seq<real>, b: nat)
    requires Describes(h, values, sorted, b) && values != []
    ensures |h.bounds| == b + 1 && b > 0
  {
  }

  function Part(x: real, width: real): real { x * width }

  lemma Between(left: real, right: real, width: real, x: real)
    requires width > 0.0 && 0.0 <= x < 1.0 && right == left + width
    ensures Mix(left, right, x) == left + Part(x, width)
    ensures 0.0 <= Part(x, width) < width && Part(x, width) / width == x
  {
    Scaled(x, width);
    assert (1.0 - x) * width > 0.0 by { Positive(1.0 - x, width); }
    assert (1.0 - x) * width == width - x * width;
    assert x * right == x * left + x * width by { Spread(x, left, width, right); }
    assert (1.0 - x) * left == left - x * left;
  }

  lemma Spread(x: real, left: real, width: real, right: real)
    requires right == left + width
    ensures x * right == x * left + x * width
  {
  }

  lemma Positive(a: real, b: real)
    requires a > 0.0 && b > 0.0
    ensures a * b > 0.0
  {
  }

  lemma WithinIs(left: real, right: real, x: real)
    requires left < right && 0.0 <= x < 1.0
    ensures left <= Mix(left, right, x) < right && Within(left, right, Mix(left, right, x)) == x
  {
    hide Mix, Part, Within;
    var p, width := Mix(left, right, x), right - left;
    Between(left, right, width, x);
    WithinBy(left, right, p, width, x, Part(x, width));
  }

  lemma WithinBy(left: real, right: real, p: real, width: real, x: real, part: real)
    requires width == right - left > 0.0 && p == left + part && part / width == x && 0.0 <= x <= 1.0
    ensures Within(left, right, p) == x
  {
    assert p - left == part;
  }

  /** The bucket found is the one that `t` is in. */
  lemma FoundBucket(h: Histogram, values: seq<real>, sorted: seq<real>, b: nat, j: nat, t: real)
    requires Describes(h, values, sorted, b) && values != [] && j < b && |h.bounds| == b + 1 && h.bounds[j] <= t < h.bounds[j + 1]
    ensures BucketFrom(h.bounds, t, 0) == j
  {
    var r := BucketFrom(h.bounds, t, 0);
    if r < j {
      BoundsAscend(h, values, sorted, b, r + 1, j);
    }
  }

  /** Nothing is estimated below the least boundary, everything below the greatest and beyond, and nothing of no values. */
  lemma Outside(h: Histogram, t: real)
    requires |h.bounds| >= 2
    ensures h.total == 0 || t <= h.bounds[0] ==> SelectivityLt(h, t) == 0.0
    ensures h.total > 0 && t > h.bounds[0] && t >= h.bounds[|h.bounds| - 1] ==> SelectivityLt(h, t) == 1.0
  {
  }

  /** Ranges side by side add up. */
  lemma RangesAdd(h: Histogram, values: seq<real>, sorted: seq<real>, b: nat, lo: real, mid: real, hi: real)
    requires Describes(h, values, sorted, b) && values != [] && lo <= mid <= hi
    ensures SelectivityRange(h, lo, mid) + SelectivityRange(h, mid, hi) == SelectivityRange(h, lo, hi)
    ensures lo <= h.bounds[0] ==> SelectivityRange(h, lo, hi) == SelectivityLt(h, hi)
  {
    hide SelectivityLt, Describes;
    BoundsLength(h, values, sorted, b);
    EstimateBounded(h, values, sorted, b, lo);
    EstimateBounded(h, values, sorted, b, mid);
    EstimateBounded(h, values, sorted, b, hi);
    EstimateMonotone(h, values, sorted, b, lo, mid);
    EstimateMonotone(h, values, sorted, b, mid, hi);
    Outside(h, lo);
  }

  /** A range estimate is off by at most twice the slack; an empty range is estimated empty. */
  lemma RangeBounded(h: Histogram, values: seq<real>, sorted: seq<real>, b: nat, lo: real, hi: real)
    requires Describes(h, values, sorted, b) && values != []
    ensures var n := |values|;
            && (hi <= lo ==> SelectivityRange(h, lo, hi) == 0.0)
            && (lo <= hi ==>
                  && Fraction(CountLess(values, hi), n) - Fraction(CountAtMost(values, lo), n) - 2.0 * Slack(b, n) <= SelectivityRange(h, lo, hi)
                  && SelectivityRange(h, lo, hi) <= Fraction(CountAtMost(values, hi), n) - Fraction(CountLess(values, lo), n) + 2.0 * Slack(b, n))
  {
    hide QuantileIndex, Share, Fraction, SelectivityLt, Slack, CountLess, CountAtMost;
    EstimateBounded(h, values, sorted, b, lo);
    EstimateBounded(h, values, sorted, b, hi);
    if hi <= lo {
      EstimateMonotone(h, values, sorted, b, hi, lo);
    }
    if lo <= hi {
      EstimateMonotone(h, values, sorted, b, lo, hi);
    }
  }
}
