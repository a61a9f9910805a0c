/**
 * The province record every component shares, JavaScript truthiness of its
 * numeric fields, and the sums and averages over the "complete" provinces.
 */
module Provinces {
  import opened Wrappers
  import opened Seqs

  /** One entry of the catalog (the `properties` of a map feature). */
  datatype Province = Province(
    code: string,          // prov_code, the key for hover and selection
    name: string,          // prov_name
    ne: string,            // prov_ne, the English name
    region: Option<string>,
    pop: Option<real>,
    area: Option<real>,
    gdp: Option<real>)

  datatype Metric = Population | Area | Gdp

  function Measure(p: Province, m: Metric): Option<real>
  {
    match m
    case Population => p.pop
    case Area => p.area
    case Gdp => p.gdp
  }

  /** JavaScript truthiness of a `number | null`: present and nonzero. */
  predicate Truthy(x: Option<real>)
  {
    x.Some? && x.value != 0.0
  }

  /** `x || 0` */
  function OrZero(x: Option<real>): real
  {
    if Truthy(x) then x.value else 0.0
  }

  function Value(p: Province, m: Metric): real
  {
    OrZero(Measure(p, m))
  }

  /** `p.area && p.pop && p.gdp`: all three measures truthy. */
  predicate IsComplete(p: Province)
  {
    Truthy(p.area) && Truthy(p.pop) && Truthy(p.gdp)
  }

  /** The catalog's data invariant: no measure is negative. */
  predicate NonNegative(p: Province)
  {
    (p.pop.Some? ==> p.pop.value >= 0.0) &&
    (p.area.Some? ==> p.area.value >= 0.0) &&
    (p.gdp.Some? ==> p.gdp.value >= 0.0)
  }

  /** `validProvinces`: the complete provinces, in catalog order. */
  function Complete(ps: seq<Province>): (r: seq<Province>)
    ensures |r| <= |ps|
  {
    Filter(ps, IsComplete)
  }

  /** Every province kept is complete and from the catalog; every complete one is kept. */
  lemma CompleteSpec(ps: seq<Province>)
    ensures forall k :: 0 <= k < |Complete(ps)| ==> Complete(ps)[k] in ps && IsComplete(Complete(ps)[k])
    ensures forall i :: 0 <= i < |ps| && IsComplete(ps[i]) ==> ps[i] in Complete(ps)
  {
    FilterSpec(ps, IsComplete);
  }

  /** The complete provinces are exactly those at the positions holding a complete province, in order. */
  lemma CompleteIsSubsequence(ps: seq<Province>)
    ensures Complete(ps) == Pick(ps, Positions(ps, IsComplete))
    ensures forall i :: 0 <= i < |ps| ==> (IsComplete(ps[i]) <==> i in Positions(ps, IsComplete))
  {
    FilterPicksPositions(ps, IsComplete);
  }

  /** `reduce((sum, p) => sum + (p.m || 0), 0)` */
  function Total(ps: seq<Province>, m: Metric): real
  {
    if ps == [] then 0.0 else Value(ps[0], m) + Total(ps[1..], m)
  }

  lemma {:induction false} TotalAppend(s: seq<Province>, t: seq<Province>, m: Metric)
    ensures Total(s + t, m) == Total(s, m) + Total(t, m)
  {
    if s == [] {
      assert s + t == t;
    } else {
      assert (s + t)[0] == s[0];
      assert (s + t)[1..] == s[1..] + t;
      TotalAppend(s[1..], t, m);
    }
  }

  lemma TotalSingleton(p: Province, m: Metric)
    ensures Total([p], m) == Value(p, m)
  {
  }

  /** A sum of values each at most `b` is at most `|s| * b`. */
  lemma {:induction false} TotalAtMost(s: seq<Province>, m: Metric, b: real)
    requires forall i :: 0 <= i < |s| ==> Value(s[i], m) <= b
    ensures Total(s, m) <= |s| as real * b
  {
    if s != [] {
      TotalAtMost(s[1..], m, b);
      assert |s| as real * b == b + (|s| - 1) as real * b;
    }
  }

  /** A sum of positive values over a nonempty sequence is positive. */
  lemma {:induction false} TotalPositive(s: seq<Province>, m: Metric)
    requires s != []
    requires forall i :: 0 <= i < |s| ==> Value(s[i], m) > 0.0
    ensures Total(s, m) > 0.0
  {
    if |s| > 1 {
      TotalPositive(s[1..], m);
    }
  }

  /** `total / count` for a positive count. */
  function Mean(total: real, count: nat): (r: real)
    requires count > 0
    ensures r * (count as real) == total
  {
    total / (count as real)
  }

  lemma MeanAtMost(total: real, count: nat, b: real)
    requires count > 0 && total <= count as real * b
    ensures Mean(total, count) <= b
  {
  }

  /**
   * `sum / validProvinces.length`. JavaScript yields NaN when there is no
   * complete province; None stands for that.
   */
  function Average(ps: seq<Province>, m: Metric): (r: Option<real>)
    ensures r.None? <==> Complete(ps) == []
  {
    var valid := Complete(ps);
    if |valid| == 0 then None else Some(Mean(Total(valid, m), |valid|))
  }

  /** An existing average times the number of complete provinces is their total. */
  lemma AverageTimesCount(ps: seq<Province>, m: Metric)
    requires Average(ps, m).Some?
    ensures Average(ps, m).value * (|Complete(ps)| as real) == Total(Complete(ps), m)
  {
  }

  /** A bound on every complete province's value bounds the average. */
  lemma AverageAtMost(ps: seq<Province>, m: Metric, b: real)
    requires Complete(ps) != []
    requires forall k :: 0 <= k < |Complete(ps)| ==> Value(Complete(ps)[k], m) <= b
    ensures Average(ps, m).Some? && Average(ps, m).value <= b
  {
    var valid := Complete(ps);
    TotalAtMost(valid, m, b);
    MeanAtMost(Total(valid, m), |valid|, b);
  }

  /** On a catalog without negative measures the averages are positive whenever they exist. */
  lemma AveragePositive(ps: seq<Province>, m: Metric)
    requires forall i :: 0 <= i < |ps| ==> NonNegative(ps[i])
    requires Complete(ps) != []
    ensures Average(ps, m).Some? && Average(ps, m).value > 0.0
  {
    var valid := Complete(ps);
    CompleteSpec(ps);
    forall k | 0 <= k < |valid|
      ensures Value(valid[k], m) > 0.0
    {
      assert valid[k] in ps;
      var i :| 0 <= i < |ps| && ps[i] == valid[k];
      assert NonNegative(ps[i]);
    }
    TotalPositive(valid, m);
  }
}
