/**
 * The overview panel: totals over the complete provinces, the average area,
 * and the two argmax folds (largest area, most populous) over the whole list.
 */
module Overview {
  import opened Wrappers
  import opened Provinces

  /** One step of `reduce((best, current) => ...)`: strict `>`, and a missing value never wins. */
  function Step(best: Option<Province>, current: Province, m: Metric): (r: Option<Province>)
    ensures r == Some(current) || r == best
    ensures best.None? ==> r == Some(current)
    ensures best.Some? && !Truthy(Measure(current, m)) ==> r == best
  {
    if best.None? ||
       (Truthy(Measure(current, m)) &&
        (!Truthy(Measure(best.value, m)) || Measure(current, m).value > Measure(best.value, m).value))
    then Some(current)
    else best
  }

  /** The fold over the list from its first element, started at null. */
  function Champion(ps: seq<Province>, m: Metric): (r: Option<Province>)
    ensures r.None? <==> ps == []
    ensures r.Some? ==> r.value in ps
  {
    if ps == [] then None else Step(Champion(ps[..|ps| - 1], m), ps[|ps| - 1], m)
  }

  predicate HasData(ps: seq<Province>, m: Metric)
  {
    exists j :: 0 <= j < |ps| && Truthy(Measure(ps[j], m))
  }

  /** `ps[i]` has the largest truthy value, and every earlier truthy value is strictly smaller. */
  predicate IsFirstMax(ps: seq<Province>, m: Metric, i: nat)
  {
    && i < |ps|
    && Truthy(Measure(ps[i], m))
    && (forall j :: 0 <= j < |ps| && Truthy(Measure(ps[j], m)) ==> Value(ps[j], m) <= Value(ps[i], m))
    && (forall j :: 0 <= j < i && Truthy(Measure(ps[j], m)) ==> Value(ps[j], m) < Value(ps[i], m))
  }

  /** One more element keeps a first maximum, or becomes the new one when strictly larger. */
  lemma ExtendFirstMax(init: seq<Province>, x: Province, m: Metric, k: nat) returns (i: nat)
    requires IsFirstMax(init, m, k)
    ensures IsFirstMax(init + [x], m, i)
    ensures Step(Some(init[k]), x, m) == Some((init + [x])[i])
  {
    var ps := init + [x];
    assert forall j :: 0 <= j < |init| ==> ps[j] == init[j];
    if Truthy(Measure(x, m)) && Value(x, m) > Value(init[k], m) {
      i := |init|;
    } else {
      i := k;
    }
  }

  /** Before any truthy value the fold holds the first element; the first truthy value replaces it. */
  lemma ExtendNoData(init: seq<Province>, x: Province, m: Metric) returns (i: nat)
    requires init != [] && !HasData(init, m)
    ensures i < |init| + 1 && Step(Some(init[0]), x, m) == Some((init + [x])[i])
    ensures HasData(init + [x], m) ==> IsFirstMax(init + [x], m, i)
    ensures !HasData(init + [x], m) ==> i == 0
  {
    var ps := init + [x];
    assert forall j :: 0 <= j < |init| ==> ps[j] == init[j];
    if Truthy(Measure(x, m)) {
      i := |init|;
    } else {
      i := 0;
    }
  }

  /**
   * The fold returns the first province with the largest truthy value; when no
   * province has one, it returns the first province.
   */
  lemma {:induction false} ChampionIndex(ps: seq<Province>, m: Metric) returns (i: nat)
    requires ps != []
    ensures i < |ps| && Champion(ps, m) == Some(ps[i])
    ensures HasData(ps, m) ==> IsFirstMax(ps, m, i)
    ensures !HasData(ps, m) ==> i == 0
  {
    var n := |ps| - 1;
    if n == 0 {
      i := 0;
    } else {
      var init := ps[..n];
      assert ps == init + [ps[n]];
      var k := ChampionIndex(init, m);
      if HasData(init, m) {
        i := ExtendFirstMax(init, ps[n], m, k);
      } else {
        i := ExtendNoData(init, ps[n], m);
      }
    }
  }

  /** The `stats` state of the overview. */
  datatype Stats = Stats(
    totalProvinces: nat,
    totalPopulation: real,
    totalArea: real,
    totalGdp: real,
    averageArea: Option<real>,   // None: JavaScript's NaN, 0/0
    largestProvince: Option<Province>,
    mostPopulous: Option<Province>)

  /** The `useState` initial value. */
  const Initial := Stats(0, 0.0, 0.0, 0.0, Some(0.0), None, None)

  /** The effect run on a new province list: nothing happens for an empty list. */
  function Recompute(prev: Stats, ps: seq<Province>): (r: Stats)
    ensures ps == [] ==> r == prev
    ensures ps != [] ==> r.totalProvinces == |ps|
    ensures ps != [] ==> r.totalPopulation == Total(Complete(ps), Population)
    ensures ps != [] ==> r.totalArea == Total(Complete(ps), Area)
    ensures ps != [] ==> r.totalGdp == Total(Complete(ps), Gdp)
    ensures ps != [] ==> r.averageArea == Average(ps, Area)
    ensures ps != [] ==> r.largestProvince == Champion(ps, Area) && r.mostPopulous == Champion(ps, Population)
  {
    if |ps| > 0 then
      var valid := Complete(ps);
      Stats(|ps|, Total(valid, Population), Total(valid, Area), Total(valid, Gdp),
            Average(ps, Area), Champion(ps, Area), Champion(ps, Population))
    else prev
  }

  /** Every complete province's value is at most the one at a first maximum. */
  lemma CompleteAtMostMax(ps: seq<Province>, m: Metric, i: nat)
    requires IsFirstMax(ps, m, i)
    ensures forall k :: 0 <= k < |Complete(ps)| ==> Value(Complete(ps)[k], m) <= Value(ps[i], m)
  {
    var valid := Complete(ps);
    CompleteSpec(ps);
    forall k | 0 <= k < |valid|
      ensures Value(valid[k], m) <= Value(ps[i], m)
    {
      var j :| 0 <= j < |ps| && ps[j] == valid[k];
      assert Truthy(Measure(ps[j], m));
    }
  }

  /** A complete province has a truthy value for every metric. */
  lemma CompleteHasData(ps: seq<Province>, m: Metric)
    requires Complete(ps) != []
    ensures HasData(ps, m)
  {
    CompleteSpec(ps);
    var valid := Complete(ps);
    assert valid[0] in ps && IsComplete(valid[0]);
  }

  /** The average area lies at or below the area of the largest province. */
  lemma AverageAreaAtMostLargest(ps: seq<Province>)
    requires Complete(ps) != []
    ensures Average(ps, Area).Some? && Champion(ps, Area).Some?
    ensures Average(ps, Area).value <= Value(Champion(ps, Area).value, Area)
  {
    CompleteHasData(ps, Area);
    var i := ChampionIndex(ps, Area);
    CompleteAtMostMax(ps, Area, i);
    AverageAtMost(ps, Area, Value(ps[i], Area));
  }

  /** `stats.averageArea > 0 ? ... : 'N/A'`: None is the N/A label. */
  function AverageAreaLabel(s: Stats): (r: Option<real>)
    ensures r.Some? ==> r.value > 0.0
    ensures r.None? <==> s.averageArea.None? || s.averageArea.value <= 0.0
  {
    if s.averageArea.Some? && s.averageArea.value > 0.0 then s.averageArea else None
  }

  /** The overview is not rendered while a province is selected. */
  function Rendered(stats: Stats, selected: Option<Province>): (r: Option<Stats>)
    ensures r.None? <==> selected.Some?
    ensures r.Some? ==> r.value == stats
  {
    if selected.Some? then None else Some(stats)
  }

  /** Without complete provinces the average is NaN and shown as N/A. */
  lemma NoCompleteShowsNotAvailable(prev: Stats, ps: seq<Province>)
    requires ps != [] && Complete(ps) == []
    ensures AverageAreaLabel(Recompute(prev, ps)) == None
  {
  }
}
