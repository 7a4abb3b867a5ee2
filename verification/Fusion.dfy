/** Sensing: median-voted temperature fusion over redundant probes, and frozen-channel detection. */
module Fusion {
  import opened Text

  datatype Finding = Unavailable | RedundancyDegraded | Disagreement

  datatype Fused = Fused(value: Option<real>, finding: Option<Finding>)

  // ---- the library sort, as a function ----

  function Insert(x: real, s: seq<real>): seq<real> {
    if s == [] || x <= s[0] then [x] + s else [s[0]] + Insert(x, s[1..])
  }

  function Sort(s: seq<real>): seq<real> {
    if s == [] then [] else Insert(s[0], Sort(s[1..]))
  }

  predicate Sorted(s: seq<real>) {
    forall i, j :: 0 <= i < j < |s| ==> s[i] <= s[j]
  }

  // ---- fusion ----

  predicate Near(p: real, centre: real, limit: real) {
    centre - limit <= p <= centre + limit
  }

  /** How many readings lie within `limit` of `centre`. */
  function Within(s: seq<real>, centre: real, limit: real): nat {
    if s == [] then 0 else (if Near(s[0], centre, limit) then 1 else 0) + Within(s[1..], centre, limit)
  }

  function SumWithin(s: seq<real>, centre: real, limit: real): real {
    if s == [] then 0.0 else (if Near(s[0], centre, limit) then s[0] else 0.0) + SumWithin(s[1..], centre, limit)
  }

  lemma {:induction false} SortLength(s: seq<real>)
    ensures |Sort(s)| == |s|
  {
    if s != [] {
      SortLength(s[1..]);
      InsertLength(s[0], Sort(s[1..]));
    }
  }

  lemma {:induction false} InsertLength(x: real, s: seq<real>)
    ensures |Insert(x, s)| == |s| + 1
  {
    if s != [] && x > s[0] {
      InsertLength(x, s[1..]);
    }
  }

  function Median(probes: seq<real>): real
    requires probes != []
  {
    SortLength(probes);
    var v, n := Sort(probes), |probes|;
    if n % 2 == 1 then v[n / 2] else (v[n / 2 - 1] + v[n / 2]) / 2.0
  }

  function Fuse(probes: seq<real>, disagreement: real): Fused {
    if probes == [] then Fused(None, Some(Unavailable))
    else if |probes| == 1 then Fused(Some(probes[0]), Some(RedundancyDegraded))
    else
      var m := Median(probes);
      var good := Within(probes, m, disagreement);
      if good < 2 then Fused(None, Some(Unavailable))
      else Fused(Some(SumWithin(probes, m, disagreement) / good as real),
                 if good < |probes| then Some(Disagreement) else None)
  }

  /** The probes that agree with `centre`, in their order. */
  function Agreeing(probes: seq<real>, centre: real, limit: real): seq<real> {
    if probes == [] then []
    else
      var n := |probes| - 1;
      Agreeing(probes[..n], centre, limit) +
      if centre - limit <= probes[n] <= centre + limit then [probes[n]] else []
  }

  function Sum(s: seq<real>): real {
    if s == [] then 0.0 else Sum(s[..|s| - 1]) + s[|s| - 1]
  }

  method Agree(probes: seq<real>, centre: real, limit: real) returns (good: seq<real>)
    ensures good == Agreeing(probes, centre, limit)
    ensures |good| == Within(probes, centre, limit) && Sum(good) == SumWithin(probes, centre, limit)
  {
    good := [];
    for i := 0 to |probes|
      invariant good == Agreeing(probes[..i], centre, limit)
      invariant |good| + Within(probes[i..], centre, limit) == Within(probes, centre, limit)
      invariant Sum(good) + SumWithin(probes[i..], centre, limit) == SumWithin(probes, centre, limit)
    {
      assert probes[i..][1..] == probes[i + 1..] && probes[..i + 1][..i] == probes[..i];
      if Near(probes[i], centre, limit) {
        assert (good + [probes[i]])[..|good|] == good;
        good := good + [probes[i]];
      }
    }
    assert probes[..|probes|] == probes;
  }

  /** v is what each would have if all had the same. */
  predicate IsMean(v: real, s: seq<real>) {
    v * |s| as real == Sum(s)
  }

  method Mean(s: seq<real>) returns (v: real)
    requires s != []
    ensures IsMean(v, s) && v == Sum(s) / |s| as real
  {
    var sum := 0.0;
    for i := 0 to |s|
      invariant sum == Sum(s[..i])
    {
      assert s[..i + 1][..i] == s[..i];
      sum := sum + s[i];
    }
    assert s[..|s|] == s;
    v := sum / |s| as real;
    Divided(sum, |s| as real);
  }

  lemma Divided(sum: real, n: real)
    requires n > 0.0
    ensures sum / n * n == sum
  {
  }

  /**
   The value fused from two or more probes is the mean of those that agree with the median, when at least two do. A
   single probe is taken as it is, and the loss of redundancy reported; with none there is no temperature.
   */
  method FuseTemperature(probes: seq<real>, disagreement: real) returns (r: Fused)
    ensures r == Fuse(probes, disagreement)
    ensures probes == [] ==> r.value == None && r.finding == Some(Unavailable)
    ensures |probes| == 1 ==> r.value == Some(probes[0]) && r.finding == Some(RedundancyDegraded)
    ensures |probes| >= 2 ==>
              var good := Agreeing(probes, Median(probes), disagreement);
              && (r.value.Some? <==> |good| >= 2)
              && (r.value.Some? ==> IsMean(r.value.value, good))
              && r.finding == if |good| < 2 then Some(Unavailable)
                              else if |good| < |probes| then Some(Disagreement) else None
  {
    hide Median, Agreeing, Within, SumWithin, Sum, IsMean;
    if |probes| == 0 {
      return Fused(None, Some(Unavailable));
    }
    if |probes| == 1 {
      return Fused(Some(probes[0]), Some(RedundancyDegraded));
    }
    var good := Agree(probes, Median(probes), disagreement);
    if |good| < 2 {
      return Fused(None, Some(Unavailable));
    }
    var mean := Mean(good);
    r := Fused(Some(mean), if |good| < |probes| then Some(Disagreement) else None);
  }

  // ---- the sort ----

  predicate AtLeast(s: seq<real>, low: real) {
    forall i :: 0 <= i < |s| ==> low <= s[i]
  }

  lemma {:induction false} InsertMembers(x: real, s: seq<real>)
    ensures multiset(Insert(x, s)) == multiset(s) + multiset{x}
  {
    if s != [] && x > s[0] {
      InsertMembers(x, s[1..]);
      assert s == [s[0]] + s[1..];
    } else {
      assert Insert(x, s) == [x] + s;
    }
  }

  lemma {:induction false} InsertAtLeast(x: real, s: seq<real>, low: real)
    requires AtLeast(s, low) && low <= x
    ensures AtLeast(Insert(x, s), low)
  {
    if s != [] && x > s[0] {
      InsertAtLeast(x, s[1..], low);
    }
  }

  lemma {:induction false} InsertSorted(x: real, s: seq<real>)
    requires Sorted(s)
    ensures Sorted(Insert(x, s))
  {
    if s != [] && x > s[0] {
      InsertSorted(x, s[1..]);
      InsertAtLeast(x, s[1..], s[0]);
    }
  }

  lemma {:induction false} SortSorts(s: seq<real>)
    ensures Sorted(Sort(s)) && multiset(Sort(s)) == multiset(s)
  {
    if s != [] {
      SortSorts(s[1..]);
      InsertSorted(s[0], Sort(s[1..]));
      InsertMembers(s[0], Sort(s[1..]));
      assert s == [s[0]] + s[1..];
    }
  }

  lemma SmallestFirst(a: seq<real>, b: seq<real>)
    requires Sorted(a) && a != [] && b != [] && multiset(a) == multiset(b)
    ensures a[0] <= b[0]
  {
    assert b[0] in multiset(a);
  }

  lemma {:induction false} SortedUnique(a: seq<real>, b: seq<real>)
    requires Sorted(a) && Sorted(b) && multiset(a) == multiset(b)
    ensures a == b
  {
    assert |multiset(a)| == |a| && |multiset(b)| == |b|;
    if a != [] {
      SmallestFirst(a, b);
      SmallestFirst(b, a);
      assert a == [a[0]] + a[1..] && b == [b[0]] + b[1..];
      assert multiset(a[1..]) == multiset(a) - multiset{a[0]};
      assert multiset(b[1..]) == multiset(b) - multiset{b[0]};
      SortedUnique(a[1..], b[1..]);
    }
  }

  lemma {:induction false} InsertCounts(x: real, s: seq<real>, c: real, l: real)
    ensures Within(Insert(x, s), c, l) == Within([x] + s, c, l)
    ensures SumWithin(Insert(x, s), c, l) == SumWithin([x] + s, c, l)
  {
    assert ([x] + s)[1..] == s;
    if s != [] && x > s[0] {
      InsertCounts(x, s[1..], c, l);
      assert ([x] + s[1..])[1..] == s[1..];
      assert Insert(x, s)[1..] == Insert(x, s[1..]);
    }
  }

  lemma {:induction false} SortCounts(s: seq<real>, c: real, l: real)
    ensures Within(Sort(s), c, l) == Within(s, c, l)
    ensures SumWithin(Sort(s), c, l) == SumWithin(s, c, l)
  {
    if s != [] {
      SortCounts(s[1..], c, l);
      InsertCounts(s[0], Sort(s[1..]), c, l);
      assert ([s[0]] + Sort(s[1..]))[1..] == Sort(s[1..]);
    }
  }

  lemma SameSort(p: seq<real>, q: seq<real>)
    requires multiset(p) == multiset(q)
    ensures Sort(p) == Sort(q) && |p| == |q|
  {
    hide Sort;
    SortSorts(p);
    SortSorts(q);
    SortedUnique(Sort(p), Sort(q));
    SortLength(p);
    SortLength(q);
  }

  lemma SameSortCounts(p: seq<real>, q: seq<real>, c: real, l: real)
    requires Sort(p) == Sort(q)
    ensures Within(p, c, l) == Within(q, c, l) && SumWithin(p, c, l) == SumWithin(q, c, l)
  {
    hide Sort, Within, SumWithin;
    SortCounts(p, c, l);
    SortCounts(q, c, l);
  }

  lemma SameSingle(p: seq<real>, q: seq<real>)
    requires |p| == |q| == 1 && Sort(p) == Sort(q)
    ensures p == q
  {
    assert Sort(p) == [p[0]] && Sort(q) == [q[0]];
  }

  /** The order of the probes does not matter. */
  lemma FusionIgnoresOrder(p: seq<real>, q: seq<real>, disagreement: real)
    requires multiset(p) == multiset(q)
    ensures Fuse(p, disagreement) == Fuse(q, disagreement)
  {
    hide Sort, Within, SumWithin;
    SameSort(p, q);
    if |p| == 1 {
      SameSingle(p, q);
    } else if |p| > 1 {
      assert Median(p) == Median(q);
      SameSortCounts(p, q, Median(p), disagreement);
    }
  }

  /** With redundancy, the temperature is lost exactly when fewer than two probes lie near the median. */
  lemma FusionLostExactly(probes: seq<real>, disagreement: real)
    requires |probes| >= 2
    ensures var near := Within(probes, Median(probes), disagreement);
            && (Fuse(probes, disagreement).value.None? <==> near < 2)
            && (Fuse(probes, disagreement).finding == Some(Disagreement) <==> 2 <= near < |probes|)
  {
    WithinBounded(probes, Median(probes), disagreement);
  }

  // ---- fault tolerance ----

  lemma {:induction false} WithinBounded(s: seq<real>, c: real, l: real)
    ensures Within(s, c, l) <= |s|
  {
    if s != [] {
      WithinBounded(s[1..], c, l);
    }
  }

  lemma {:induction false} WithinSplits(s: seq<real>, k: nat, c: real, l: real)
    requires k <= |s|
    ensures Within(s, c, l) == Within(s[..k], c, l) + Within(s[k..], c, l)
  {
    if k == 0 {
      assert s[..0] == [] && s[0..] == s;
    } else {
      WithinSplits(s[1..], k - 1, c, l);
      assert s[..k][1..] == s[1..][..k - 1] && s[k..] == s[1..][k - 1..];
    }
  }

  lemma {:induction false} NoneWithin(s: seq<real>, c: real, l: real)
    requires forall i :: 0 <= i < |s| ==> !Near(s[i], c, l)
    ensures Within(s, c, l) == 0
  {
    if s != [] {
      NoneWithin(s[1..], c, l);
    }
  }

  /** A sorted element outside the band leaves room for no more readings in it than lie on its other side. */
  lemma OutsideLimitsCount(v: seq<real>, k: nat, c: real, l: real)
    requires Sorted(v) && k < |v|
    ensures v[k] > c + l ==> Within(v, c, l) <= k
    ensures v[k] < c - l ==> Within(v, c, l) <= |v| - k - 1
  {
    if v[k] > c + l {
      WithinSplits(v, k, c, l);
      WithinBounded(v[..k], c, l);
      NoneWithin(v[k..], c, l);
    }
    if v[k] < c - l {
      WithinSplits(v, k + 1, c, l);
      WithinBounded(v[k + 1..], c, l);
      NoneWithin(v[..k + 1], c, l);
    }
  }

  /**
   The median, told by any arrangement of the probes in order: the middle one, or the mean of the middle two.
   */
  lemma MedianIsMiddle(probes: seq<real>, ordered: seq<real>)
    requires probes != [] && Sorted(ordered) && multiset(ordered) == multiset(probes)
    ensures |ordered| == |probes|
    ensures 2.0 * Median(probes) == ordered[(|ordered| - 1) / 2] + ordered[|ordered| / 2]
  {
    hide Sort;
    SortSorts(probes);
    SortedUnique(Sort(probes), ordered);
    SortLength(probes);
  }

  /** A strict majority near the truth keeps the median near the truth. */
  lemma MedianTracksMajority(probes: seq<real>, truth: real, eps: real)
    requires probes != [] && 2 * Within(probes, truth, eps) > |probes|
    ensures Near(Median(probes), truth, eps)
  {
    var v, n := Sort(probes), |probes|;
    SortSorts(probes);
    SortLength(probes);
    SortCounts(probes, truth, eps);
    OutsideLimitsCount(v, n / 2, truth, eps);
    if n % 2 == 0 {
      OutsideLimitsCount(v, n / 2 - 1, truth, eps);
    }
  }

  lemma {:induction false} WiderHoldsMore(s: seq<real>, c: real, l: real, c': real, l': real)
    requires forall x :: Near(x, c, l) ==> Near(x, c', l')
    ensures Within(s, c, l) <= Within(s, c', l')
  {
    if s != [] {
      WiderHoldsMore(s[1..], c, l, c', l');
    }
  }

  lemma OnceMore(m: real, x: real)
    ensures (m + 1.0) * x == m * x + x
  {
  }

  lemma {:induction false} SumBounds(s: seq<real>, c: real, l: real)
    requires l >= 0.0
    ensures var n := Within(s, c, l) as real;
            n * (c - l) <= SumWithin(s, c, l) <= n * (c + l)
  {
    if s != [] {
      SumBounds(s[1..], c, l);
      var m := Within(s[1..], c, l) as real;
      if Near(s[0], c, l) {
        assert Within(s, c, l) as real == m + 1.0;
        OnceMore(m, c - l);
        OnceMore(m, c + l);
      }
    }
  }

  lemma MeanBounds(sum: real, n: real, lo: real, hi: real)
    requires n > 0.0 && n * lo <= sum <= n * hi
    ensures lo <= sum / n <= hi
  {
  }

  /**
   With two or more probes, a strict majority within eps of the truth, and the disagreement limit at least
   2 eps: fusion yields a value within eps + limit of the truth and excludes no probe of the majority.
   */
  lemma FusionTolerant(probes: seq<real>, truth: real, eps: real, disagreement: real)
    requires |probes| >= 2 && 2 * Within(probes, truth, eps) > |probes|
    requires 0.0 <= 2.0 * eps <= disagreement
    ensures Fuse(probes, disagreement).value.Some?
    ensures Near(Fuse(probes, disagreement).value.value, truth, eps + disagreement)
    ensures forall p :: Near(p, truth, eps) ==> Near(p, Median(probes), disagreement)
  {
    hide Within, SumWithin, Median;
    MedianTracksMajority(probes, truth, eps);
    var m := Median(probes);
    WiderHoldsMore(probes, truth, eps, m, disagreement);
    SumBounds(probes, m, disagreement);
    var n := Within(probes, m, disagreement);
    assert n >= 2;
    MeanBounds(SumWithin(probes, m, disagreement), n as real, m - disagreement, m + disagreement);
  }

  /** A majority that is not strict is not enough: two probes on each side of the gap lose the temperature. */
  lemma HalfIsNotEnough()
    ensures var probes := [20.0, 20.0, 26.0, 26.0];
            2 * Within(probes, 20.0, 0.0) == |probes| && Fuse(probes, 2.0).value.None?
  {
    hide Sort;
    var probes := [20.0, 20.0, 26.0, 26.0];
    SortSorts(probes);
    SortedUnique(Sort(probes), probes);
    NoneWithin(probes, 23.0, 2.0);
    assert probes[1..] == [20.0, 26.0, 26.0] && [20.0, 26.0, 26.0][1..] == [26.0, 26.0];
    NoneWithin([26.0, 26.0], 20.0, 0.0);
    assert Within([20.0, 26.0, 26.0], 20.0, 0.0) == 1;
  }

  // ---- frozen and out-of-range channels ----

  datatype Bounds = Bounds(min: real, max: real) {
    predicate Contains(v: real) {
      min <= v <= max
    }
  }

  /** How many readings in a row, counted from the end, repeat their predecessor. */
  function Repeats(readings: seq<real>): nat {
    var n := |readings|;
    if n < 2 || readings[n - 1] != readings[n - 2] then 0 else 1 + Repeats(readings[..n - 1])
  }

  class StuckTracker {
    var last: Option<real>
    var repeats: nat
    ghost var seen: seq<real>

    ghost predicate Valid()
      reads this
    {
      && last == (if seen == [] then None else Some(seen[|seen| - 1]))
      && repeats == Repeats(seen)
    }

    constructor ()
      ensures Valid() && seen == []
    {
      last, repeats, seen := None, 0, [];
    }

    method Observe(value: real) returns (n: nat)
      requires Valid()
      modifies this
      ensures Valid() && seen == old(seen) + [value] && n == Repeats(seen)
    {
      if last == Some(value) {
        repeats := repeats + 1;
      } else {
        repeats := 0;
      }
      last := Some(value);
      ghost var longer := seen + [value];
      assert longer[..|seen|] == seen;
      seen := longer;
      n := repeats;
    }
  }

  function Classify(value: real, bounds: Bounds, repeated: nat, window: nat): Option<real> {
    if !bounds.Contains(value) then None
    else if repeated >= window && bounds.min < value < bounds.max then None
    else Some(value)
  }

  lemma {:induction false} RepeatsExactly(readings: seq<real>, w: nat)
    requires readings != []
    ensures var n := |readings|;
            Repeats(readings) >= w <==> n > w && forall i :: n - 1 - w <= i < n ==> readings[i] == readings[n - 1]
  {
    var n := |readings|;
    if w > 0 && n >= 2 && readings[n - 1] == readings[n - 2] {
      RepeatsExactly(readings[..n - 1], w - 1);
    } else if w > 0 && n >= 2 {
      assert n - 1 - w <= n - 2;
    }
  }

  /**
   A channel is distrusted exactly when its reading is out of bounds, or lies strictly inside them and the
   last window + 1 readings were all the same.
   */
  lemma DistrustedExactly(readings: seq<real>, bounds: Bounds, window: nat)
    requires readings != []
    ensures var r := Classify(readings[|readings| - 1], bounds, Repeats(readings), window);
            r.Some? ==> r.value == readings[|readings| - 1]
    ensures var n, value := |readings|, readings[|readings| - 1];
            Classify(value, bounds, Repeats(readings), window).None? <==>
            || !bounds.Contains(value)
            || (bounds.min < value < bounds.max && n > window &&
                forall i :: n - 1 - window <= i < n ==> readings[i] == value)
  {
    RepeatsExactly(readings, window);
  }
}
