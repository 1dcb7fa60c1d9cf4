/**
 tools/trex/_batch_report.py: rates of change of a sampled counter, and statistics of a window of them.
 Reals stand for floats; Epsilon is any positive tolerance.
 */
module Series {
  import opened Common

  /** _rate: division with the values C gives for a zero time delta. */
  datatype Rate = Finite(value: real) | NaN | PlusInf | MinusInf

  function RateOf(diff: real, dt: real): Rate {
    if dt != 0.0 then Finite(diff / dt)
    else if diff == 0.0 then NaN else if diff > 0.0 then PlusInf else MinusInf
  }

  function Before(xs: seq<real>, i: nat): real
    requires i <= |xs|
  {
    if i == 0 then 0.0 else xs[i - 1]
  }

  /** series_by_time: the first sample is measured from zero at time zero. */
  method SeriesByTime(values: seq<real>, times: seq<real>) returns (rates: seq<Rate>)
    requires |values| == |times|
    ensures |rates| == |values|
    ensures forall i :: 0 <= i < |values| ==>
      rates[i] == RateOf(values[i] - Before(values, i), times[i] - Before(times, i))
  {
    hide RateOf;
    rates := [];
    var prevVal, prevTime := 0.0, 0.0;
    for i := 0 to |values|
      invariant |rates| == i && prevVal == Before(values, i) && prevTime == Before(times, i)
      invariant forall k :: 0 <= k < i ==>
        rates[k] == RateOf(values[k] - Before(values, k), times[k] - Before(times, k))
    {
      rates := rates + [RateOf(values[i] - prevVal, times[i] - prevTime)];
      prevVal, prevTime := values[i], times[i];
    }
  }

  predicate IsSeries(rates: seq<Rate>, values: seq<real>, times: seq<real>) {
    && |rates| == |values| == |times|
    && forall i :: 0 <= i < |values| ==> rates[i] == RateOf(values[i] - Before(values, i), times[i] - Before(times, i))
  }

  /** Rates times time deltas, summed over the first n samples. */
  function Accumulated(rates: seq<Rate>, times: seq<real>, n: nat): real
    requires n <= |rates| == |times| && AllFinite(rates)
  {
    if n == 0 then 0.0
    else Accumulated(rates, times, n - 1) + Increase(rates[n - 1], times[n - 1] - Before(times, n - 1))
  }

  function Increase(rate: Rate, dt: real): real
    requires rate.Finite?
  {
    rate.value * dt
  }

  predicate AllFinite(rates: seq<Rate>) {
    forall i :: 0 <= i < |rates| ==> rates[i].Finite?
  }

  /** All rates are finite exactly when time moves on with every sample. */
  lemma {:induction false} FiniteWhenTimeMoves(rates: seq<Rate>, values: seq<real>, times: seq<real>)
    requires IsSeries(rates, values, times)
    ensures AllFinite(rates) <==> forall i :: 0 <= i < |times| ==> times[i] != Before(times, i)
  {
    hide Before;
    forall i | 0 <= i < |times|
      ensures rates[i].Finite? <==> times[i] != Before(times, i)
    {
    }
  }

  /** No rate is lost: at every prefix rates times deltas add up to the counter. */
  lemma {:induction false} RatesAddUp(rates: seq<Rate>, values: seq<real>, times: seq<real>, n: nat)
    requires IsSeries(rates, values, times) && AllFinite(rates) && n <= |rates|
    ensures Accumulated(rates, times, n) == Before(values, n)
  {
    hide RateOf, Increase;
    if n > 0 {
      var diff, dt := values[n - 1] - Before(values, n - 1), times[n - 1] - Before(times, n - 1);
      RatesAddUp(rates, values, times, n - 1);
      IncreaseIs(diff, dt);
      assert rates[n - 1] == RateOf(diff, dt) && AllFinite(rates);
    }
  }

  lemma {:induction false} IncreaseIs(diff: real, dt: real)
    ensures RateOf(diff, dt).Finite? ==> Increase(RateOf(diff, dt), dt) == diff
  {
    if dt != 0.0 { Undo(diff, dt); }
  }

  lemma {:induction false} Undo(diff: real, dt: real)
    requires dt != 0.0
    ensures diff / dt * dt == diff
  {
  }

  // ---- the window ----

  /** A bound lies between two samples. */
  predicate Falls(t: real, times: seq<real>, i: nat, eps: real)
    requires i + 1 < |times|
  {
    t - times[i] > -eps && times[i + 1] - t > eps
  }

  predicate Sorted(times: seq<real>) {
    forall i, j :: 0 <= i < j < |times| ==> times[i] <= times[j]
  }

  /** The bounds of a window and whether they had to be clamped. */
  method Bounds(times: seq<real>, t0: real, t1: real, eps: real)
    returns (start: nat, end: nat, startClamped: bool, endClamped: bool)
    requires times != [] && Sorted(times) && t0 < t1 && eps > 0.0
    ensures start <= end < |times|
    ensures !startClamped ==> start + 1 < |times| && Falls(t0, times, start, eps)
    ensures !endClamped ==> end + 1 < |times| && Falls(t1, times, end, eps)
    ensures startClamped ==> start == 0 && forall i: nat :: i + 1 < |times| ==> !Falls(t0, times, i, eps)
    ensures endClamped ==> end == |times| - 1 && forall i: nat :: i + 1 < |times| ==> !Falls(t1, times, i, eps)
  {
    var n := |times|;
    var iStart: Option<nat>, iEnd: Option<nat> := None, None;
    for i := 0 to n - 1
      invariant Found(t0, times, i, eps, iStart) && Found(t1, times, i, eps, iEnd)
    {
      if t0 - times[i] > -eps && times[i + 1] - t0 > eps { iStart := Some(i); }
      if t1 - times[i] > -eps && times[i + 1] - t1 > eps { iEnd := Some(i); }
    }
    startClamped, endClamped := iStart.None?, iEnd.None?;
    start := if iStart.Some? then iStart.value else 0;
    end := if iEnd.Some? then iEnd.value else n - 1;
  }

  /** The last of the first n intervals a bound falls in. */
  predicate Found(t: real, times: seq<real>, n: nat, eps: real, at: Option<nat>)
    requires n < |times|
  {
    match at
    case Some(i) => i < n && Falls(t, times, i, eps)
    case None => forall i: nat :: i < n ==> !Falls(t, times, i, eps)
  }

  /** A window that lies wholly after the samples is not empty: both its bounds are clamped and it is the whole
      series. */
  lemma {:induction false} PastTheEndIsEverything(times: seq<real>, t: real, eps: real)
    requires times != [] && Sorted(times) && eps > 0.0 && t > times[|times| - 1]
    ensures forall i: nat :: i + 1 < |times| ==> !Falls(t, times, i, eps)
  {
  }

  // ---- its statistics ----

  function Sum(xs: seq<real>): real {
    if xs == [] then 0.0 else xs[0] + Sum(xs[1..])
  }

  /** sorted(..., reverse=True) */
  function Inserted(x: real, xs: seq<real>): seq<real> {
    if xs == [] || x >= xs[0] then [x] + xs else [xs[0]] + Inserted(x, xs[1..])
  }

  function Descending(xs: seq<real>): seq<real> {
    if xs == [] then [] else Inserted(xs[0], Descending(xs[1..]))
  }

  predicate Falling(xs: seq<real>) {
    forall i, j :: 0 <= i < j < |xs| ==> xs[i] >= xs[j]
  }

  lemma {:induction false} InsertedSum(x: real, xs: seq<real>)
    ensures |Inserted(x, xs)| == |xs| + 1 && Sum(Inserted(x, xs)) == x + Sum(xs)
  {
    if xs == [] || x >= xs[0] {
      assert ([x] + xs)[1..] == xs;
    } else {
      InsertedSum(x, xs[1..]);
      assert ([xs[0]] + Inserted(x, xs[1..]))[1..] == Inserted(x, xs[1..]);
    }
  }

  lemma {:induction false} InsertedElements(x: real, xs: seq<real>)
    ensures multiset(Inserted(x, xs)) == multiset(xs) + multiset{x}
    ensures forall y :: y in Inserted(x, xs) <==> y == x || y in xs
  {
    if !(xs == [] || x >= xs[0]) {
      InsertedElements(x, xs[1..]);
      assert xs == [xs[0]] + xs[1..];
    }
  }

  lemma {:induction false} InsertedFalls(x: real, xs: seq<real>)
    requires Falling(xs)
    ensures Falling(Inserted(x, xs))
  {
    if !(xs == [] || x >= xs[0]) {
      InsertedFalls(x, xs[1..]);
      InsertedElements(x, xs[1..]);
      FallingFrom(xs[0], Inserted(x, xs[1..]), xs[1..]);
    }
  }

  lemma {:induction false} FallingFrom(top: real, ys: seq<real>, xs: seq<real>)
    requires Falling(ys) && forall y <- ys :: top >= y
    ensures Falling([top] + ys)
  {
    var all := [top] + ys;
    forall i, j | 0 <= i < j < |all|
      ensures all[i] >= all[j]
    {
      assert all[j] == ys[j - 1] && ys[j - 1] in ys;
    }
  }

  /** Sorting: the same values, falling. */
  lemma {:induction false} DescendingFalls(xs: seq<real>)
    ensures Falling(Descending(xs)) && multiset(Descending(xs)) == multiset(xs)
    ensures |Descending(xs)| == |xs| && Sum(Descending(xs)) == Sum(xs)
  {
    hide Inserted, Falling;
    if xs == [] {
      assert Falling([]) by { NothingFalls(); }
    } else {
      DescendingFalls(xs[1..]);
      InsertedFalls(xs[0], Descending(xs[1..]));
      InsertedSum(xs[0], Descending(xs[1..]));
      InsertedElements(xs[0], Descending(xs[1..]));
      assert xs == [xs[0]] + xs[1..];
    }
  }

  lemma {:induction false} NothingFalls()
    ensures Falling([])
  {
  }

  lemma {:induction false} SumBetween(xs: seq<real>, lo: real, hi: real)
    requires forall i :: 0 <= i < |xs| ==> lo <= xs[i] <= hi
    ensures lo * |xs| as real <= Sum(xs) <= hi * |xs| as real
  {
    if xs != [] {
      SumBetween(xs[1..], lo, hi);
      var n := |xs[1..]| as real;
      assert |xs| as real == n + 1.0;
      assert lo * (n + 1.0) == lo * n + lo && hi * (n + 1.0) == hi * n + hi;
    }
  }

  datatype Stats = Stats(lo: real, avg: real, median: real, hi: real)

  function StatsOf(xs: seq<real>): Stats
    requires xs != []
  {
    DescendingFalls(xs);
    var vals := Descending(xs);
    var n := |vals|;
    Stats(vals[n - 1], Sum(vals) / n as real, vals[n / 2], vals[0])
  }

  lemma {:induction false} MeanBetween(sum: real, lo: real, hi: real, n: real)
    requires n > 0.0 && lo * n <= sum <= hi * n
    ensures lo <= sum / n <= hi && sum / n * n == sum
  {
    Undo(sum, n);
    NotPositive(lo - sum / n, n);
    NotPositive(sum / n - hi, n);
  }

  lemma {:induction false} NotPositive(a: real, n: real)
    requires n > 0.0 && a * n <= 0.0
    ensures a <= 0.0
  {
  }

  /** For any non-empty window, in any order: the extremes bound every value, the mean and the median; the mean is the
      mean; and the median stands in the middle of a falling arrangement of the window's own values. */
  lemma {:induction false} StatsAreRight(xs: seq<real>)
    requires xs != []
    ensures var s := StatsOf(xs);
      && (forall x <- xs :: s.lo <= x <= s.hi) && s.lo in xs && s.hi in xs && s.median in xs
      && s.lo <= s.avg <= s.hi && s.lo <= s.median <= s.hi
      && s.avg * |xs| as real == Sum(xs)
      && exists vals :: Falling(vals) && multiset(vals) == multiset(xs) && |vals| == |xs| && vals[|xs| / 2] == s.median
  {
    hide Descending, Sum, StatsOf;
    var vals, s, n := Descending(xs), StatsOf(xs), |xs|;
    DescendingFalls(xs);
    assert n == |vals| && s == Stats(vals[n - 1], Sum(vals) / n as real, vals[n / 2], vals[0]) by { StatsFrom(xs); }
    Arranged(xs, vals);
    SumBetween(vals, s.lo, s.hi);
    MeanBetween(Sum(vals), s.lo, s.hi, n as real);
    assert Falling(vals) && multiset(vals) == multiset(xs) && vals[n / 2] == s.median;
  }

  lemma {:induction false} StatsFrom(xs: seq<real>)
    requires xs != []
    ensures var vals := Descending(xs); var n := |xs|;
      |vals| == n && StatsOf(xs) == Stats(vals[n - 1], Sum(vals) / n as real, vals[n / 2], vals[0])
  {
    DescendingFalls(xs);
  }

  lemma {:induction false} Arranged(xs: seq<real>, vals: seq<real>)
    requires xs != [] && |vals| == |xs| && multiset(vals) == multiset(xs) && Falling(vals)
    ensures forall x <- xs :: vals[|vals| - 1] <= x <= vals[0]
    ensures forall i :: 0 <= i < |vals| ==> vals[i] in xs && vals[|vals| - 1] <= vals[i] <= vals[0]
  {
    forall x | x in xs
      ensures vals[|vals| - 1] <= x <= vals[0]
    {
      assert x in multiset(vals);
    }
    forall i | 0 <= i < |vals|
      ensures vals[i] in xs
    {
      assert vals[i] in multiset(xs);
    }
  }

  datatype Windowed = NoSamples | NotFinite | Statistics(stats: Stats)

  /** window: the interval in the times, applied to the rates. With NaN or infinities among them there are no statistics
      to speak of. */
  method Window(values: seq<real>, times: seq<real>, t0: real, t1: real, eps: real)
    returns (r: Windowed, start: nat, end: nat)
    requires |values| == |times| && Sorted(times) && t0 < t1 && eps > 0.0
    ensures r.NoSamples? <==> times == []
    ensures times != [] ==> start <= end < |times|
    ensures times != [] ==> start == 0 || (start + 1 < |times| && Falls(t0, times, start, eps))
    ensures times != [] ==> end == |times| - 1 || (end + 1 < |times| && Falls(t1, times, end, eps))
    ensures times != [] ==> (r.Statistics? <==> Moves(times, start, end))
    ensures r.Statistics? ==> r.stats == StatsOf(Slopes(values, times, start, end))
  {
    hide StatsOf, Moves, IsSeries, Falls;
    start, end := 0, 0;
    if times == [] {
      return NoSamples, 0, 0;
    }
    var a, b;
    start, end, a, b := Bounds(times, t0, t1, eps);
    var rates := SeriesByTime(values, times);
    assert IsSeries(rates, values, times) by { AreSeries(rates, values, times); }
    var vals := Slice(rates, values, times, start, end);
    r := if vals.Some? then Statistics(StatsOf(vals.value)) else NotFinite;
  }

  lemma {:induction false} AreSeries(rates: seq<Rate>, values: seq<real>, times: seq<real>)
    requires |rates| == |values| == |times|
    requires forall i :: 0 <= i < |values| ==>
      rates[i] == RateOf(values[i] - Before(values, i), times[i] - Before(times, i))
    ensures IsSeries(rates, values, times)
  {
  }

  /** The rates of a slice, if all are finite. */
  method Slice(rates: seq<Rate>, values: seq<real>, times: seq<real>, start: nat, end: nat)
    returns (r: Option<seq<real>>)
    requires IsSeries(rates, values, times) && start <= end < |times|
    ensures r.Some? <==> Moves(times, start, end)
    ensures r.Some? ==> r.value == Slopes(values, times, start, end) && r.value != []
  {
    hide Slope, Before, RateOf;
    var vals: seq<real> := [];
    for i := start to end + 1
      invariant Moves(times, start, i - 1) && vals == Slopes(values, times, start, i - 1)
    {
      RateIsSlope(values, times, i);
      if !rates[i].Finite? {
        return None;
      }
      vals := vals + [rates[i].value];
    }
    return Some(vals);
  }

  /** Time moves on with every sample of the slice. */
  predicate Moves(times: seq<real>, start: nat, end: int)
    requires start <= end + 1 <= |times|
  {
    forall i :: start <= i <= end ==> times[i] != Before(times, i)
  }

  function Slope(values: seq<real>, times: seq<real>, i: nat): real
    requires i < |values| == |times| && times[i] != Before(times, i)
  {
    (values[i] - Before(values, i)) / (times[i] - Before(times, i))
  }

  /** The rates of a slice in which time moves on. */
  function Slopes(values: seq<real>, times: seq<real>, start: nat, end: int): (r: seq<real>)
    requires |values| == |times| && start <= end + 1 <= |times| && Moves(times, start, end)
    ensures |r| == end + 1 - start
    decreases end + 1 - start
  {
    if end < start then [] else Slopes(values, times, start, end - 1) + [Slope(values, times, end)]
  }

  lemma {:induction false} RateIsSlope(values: seq<real>, times: seq<real>, i: nat)
    requires i < |values| == |times|
    ensures var rate := RateOf(values[i] - Before(values, i), times[i] - Before(times, i));
      if times[i] == Before(times, i) then !rate.Finite? else rate == Finite(Slope(values, times, i))
  {
  }
}
