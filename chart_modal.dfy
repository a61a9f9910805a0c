/**
 * The chart datasets derived for one focal province: comparison rows against
 * the averages, the top-10 population ranking, the regional rollup and the
 * four-axis radar profile.
 */
module Charts {
  import opened Wrappers
  import opened Seqs
  import opened Numbers
  import opened Provinces

  // ---------------------------------------------------------------------------
  // Comparison with the averages

  /** Display unit: millions of people and of GDP units, thousands of km². */
  function Scale(m: Metric): real
  {
    if m == Area then 1000.0 else 1000000.0
  }

  datatype ComparisonRow = ComparisonRow(metric: Metric, province: real, average: Option<real>)

  /** One row of `comparisonData`; a missing focal value counts as 0, a NaN average stays None. */
  function ComparisonFor(focal: Province, all: seq<Province>, m: Metric): (row: ComparisonRow)
    ensures row.metric == m
    ensures row.province * Scale(m) == Value(focal, m)
    ensures !Truthy(Measure(focal, m)) ==> row.province == 0.0
    ensures row.average.Some? <==> Complete(all) != []
    ensures row.average.Some? ==> row.average.value * Scale(m) == Average(all, m).value
  {
    var avg := Average(all, m);
    ComparisonRow(m, Value(focal, m) / Scale(m), if avg.Some? then Some(avg.value / Scale(m)) else None)
  }

  function Comparison(focal: Province, all: seq<Province>): (rows: seq<ComparisonRow>)
    ensures |rows| == 3
    ensures rows[0].metric == Population && rows[1].metric == Area && rows[2].metric == Gdp
  {
    [ComparisonFor(focal, all, Population), ComparisonFor(focal, all, Area), ComparisonFor(focal, all, Gdp)]
  }

  // ---------------------------------------------------------------------------
  // Ranking: `validProvinces.sort((a, b) => (b.pop || 0) - (a.pop || 0))`

  function PopKey(p: Province): real
  {
    Value(p, Population)
  }

  predicate SortedByPop(s: seq<Province>)
  {
    forall i, j :: 0 <= i < j < |s| ==> PopKey(s[i]) >= PopKey(s[j])
  }

  /** Places `x` before the first element whose population is not larger. */
  function Insert(x: Province, s: seq<Province>): (r: seq<Province>)
    ensures |r| == |s| + 1
    ensures r[0] == x || (s != [] && r[0] == s[0])
  {
    if s == [] || PopKey(s[0]) <= PopKey(x) then [x] + s else [s[0]] + Insert(x, s[1..])
  }

  /** A stable sort by decreasing population (insertion sort). */
  function SortByPop(s: seq<Province>): (r: seq<Province>)
    ensures |r| == |s|
  {
    if s == [] then [] else Insert(s[0], SortByPop(s[1..]))
  }

  lemma {:induction false} InsertPermutes(x: Province, s: seq<Province>)
    ensures multiset(Insert(x, s)) == multiset([x] + s)
  {
    if !(s == [] || PopKey(s[0]) <= PopKey(x)) {
      InsertPermutes(x, s[1..]);
      assert s == [s[0]] + s[1..];
    }
  }

  lemma {:induction false} InsertSorted(x: Province, s: seq<Province>)
    requires SortedByPop(s)
    ensures SortedByPop(Insert(x, s))
  {
    if !(s == [] || PopKey(s[0]) <= PopKey(x)) {
      var rest := Insert(x, s[1..]);
      InsertSorted(x, s[1..]);
      var r := [s[0]] + rest;
      forall i, j | 0 <= i < j < |r| ensures PopKey(r[i]) >= PopKey(r[j]) {
        if i == 0 {
          assert r[j] == rest[j - 1];
          assert PopKey(rest[0]) <= PopKey(s[0]);
        } else {
          assert r[i] == rest[i - 1] && r[j] == rest[j - 1];
        }
      }
    }
  }

  /** The sort is ordered by decreasing population and a permutation of its input. */
  lemma {:induction false} SortByPopCorrect(s: seq<Province>)
    ensures SortedByPop(SortByPop(s))
    ensures multiset(SortByPop(s)) == multiset(s)
    ensures |SortByPop(s)| == |s|
  {
    if s != [] {
      SortByPopCorrect(s[1..]);
      InsertSorted(s[0], SortByPop(s[1..]));
      InsertPermutes(s[0], SortByPop(s[1..]));
      assert s == [s[0]] + s[1..];
      assert |multiset(SortByPop(s))| == |multiset(s)|;
    }
  }

  function PopIs(k: real): Province -> bool
  {
    p => PopKey(p) == k
  }

  lemma {:induction false} InsertStable(x: Province, s: seq<Province>, k: real)
    ensures Filter(Insert(x, s), PopIs(k)) == Filter([x] + s, PopIs(k))
  {
    if !(s == [] || PopKey(s[0]) <= PopKey(x)) {
      var f := PopIs(k);
      var rest := Insert(x, s[1..]);
      InsertStable(x, s[1..], k);
      assert Insert(x, s) == [s[0]] + rest;
      FilterAppend([s[0]], rest, f);
      FilterAppend([s[0]], [x] + s[1..], f);
      // s[0] and x have different populations, so at most one of them passes
      FilterSwap(s[0], x, s[1..], f);
      assert [s[0]] + s[1..] == s;
    }
  }



  /**
   * Stability: for every population value, the provinces with that value keep
   * their relative order of the input.
   */
  lemma {:induction false} SortByPopStable(s: seq<Province>, k: real)
    ensures Filter(SortByPop(s), PopIs(k)) == Filter(s, PopIs(k))
  {
    if s != [] {
      var f := PopIs(k);
      SortByPopStable(s[1..], k);
      InsertStable(s[0], SortByPop(s[1..]), k);
      calc {
        Filter(SortByPop(s), f);
        Filter([s[0]] + SortByPop(s[1..]), f);
        { FilterAppend([s[0]], SortByPop(s[1..]), f); }
        Filter([s[0]], f) + Filter(SortByPop(s[1..]), f);
        Filter([s[0]], f) + Filter(s[1..], f);
        { FilterAppend([s[0]], s[1..], f); assert [s[0]] + s[1..] == s; }
        Filter(s, f);
      }
    }
  }

  lemma {:induction false} InsertTotal(x: Province, s: seq<Province>, m: Metric)
    ensures Total(Insert(x, s), m) == Value(x, m) + Total(s, m)
  {
    if !(s == [] || PopKey(s[0]) <= PopKey(x)) {
      InsertTotal(x, s[1..], m);
    }
  }

  /** Sorting does not change any total. */
  lemma {:induction false} SortByPopTotal(s: seq<Province>, m: Metric)
    ensures Total(SortByPop(s), m) == Total(s, m)
  {
    if s != [] {
      SortByPopTotal(s[1..], m);
      InsertTotal(s[0], SortByPop(s[1..]), m);
    }
  }

  /** `validProvinces` after the in-place sort. */
  function Ranked(all: seq<Province>): (r: seq<Province>)
    ensures |r| == |Complete(all)|
  {
    SortByPop(Complete(all))
  }

  const TopCount := 10

  datatype RankEntry = RankEntry(name: string, value: real, isSelected: bool)

  /** `topByPopulation`: the first 10 of the ranking, in millions, with the focal one marked. */
  function TopByPopulation(focal: Province, all: seq<Province>): (r: seq<RankEntry>)
    ensures |r| == Min(TopCount, |Complete(all)|) && |r| <= |Ranked(all)|
    ensures forall i :: 0 <= i < |r| ==> r[i].name == Ranked(all)[i].name
    ensures forall i :: 0 <= i < |r| ==> r[i].value * 1000000.0 == PopKey(Ranked(all)[i])
    ensures forall i :: 0 <= i < |r| ==> (r[i].isSelected <==> Ranked(all)[i].code == focal.code)
    ensures forall i, j :: 0 <= i < j < |r| ==> r[i].value >= r[j].value
  {
    var ranked := Ranked(all);
    SortByPopCorrect(Complete(all));
    var n := Min(TopCount, |ranked|);
    seq(n, i requires 0 <= i < n =>
      RankEntry(ranked[i].name, PopKey(ranked[i]) / 1000000.0, ranked[i].code == focal.code))
  }

  // ---------------------------------------------------------------------------
  // Regional rollup: `validProvinces.reduce` into an object keyed by region

  const Unclassified := "Khác"

  /** `p.region || 'Khác'`: a missing or empty region falls in one bucket. */
  function RegionKey(p: Province): (k: string)
    ensures k != ""
    ensures p.region.Some? && p.region.value != "" ==> k == p.region.value
    ensures p.region.None? || p.region.value == "" ==> k == Unclassified
  {
    if p.region.Some? && p.region.value != "" then p.region.value else Unclassified
  }

  function InRegion(k: string): Province -> bool
  {
    q => RegionKey(q) == k
  }

  /** The provinces of `s` in region `k`, in the order of `s`. */
  function Members(s: seq<Province>, k: string): seq<Province>
  {
    Filter(s, InRegion(k))
  }

  predicate Distinct(ks: seq<string>)
  {
    forall i, j :: 0 <= i < j < |ks| ==> ks[i] != ks[j]
  }

  /** The region keys of `s` in first-seen order: the key order of the accumulator object. */
  function Regions(s: seq<Province>): seq<string>
  {
    if s == [] then []
    else
      var ks := Regions(s[..|s| - 1]);
      var k := RegionKey(s[|s| - 1]);
      if k in ks then ks else ks + [k]
  }

  /** Each key appears once, every province's key appears, and every key listed has members. */
  lemma {:induction false} RegionsSpec(s: seq<Province>)
    ensures Distinct(Regions(s))
    ensures forall i :: 0 <= i < |s| ==> RegionKey(s[i]) in Regions(s)
    ensures forall k :: k in Regions(s) ==> Members(s, k) != []
  {
    if s != [] {
      var init := s[..|s| - 1];
      var x := s[|s| - 1];
      RegionsSpec(init);
      RegionsSnoc(init, x);
      assert s == init + [x];
      forall i | 0 <= i < |s| ensures RegionKey(s[i]) in Regions(s) {
        if i < |init| {
          assert s[i] == init[i];
        }
      }
      forall k | k in Regions(s) ensures Members(s, k) != [] {
        MembersSnoc(init, x, k);
      }
    }
  }

  lemma MembersSnoc(s: seq<Province>, x: Province, k: string)
    ensures Members(s + [x], k) == Members(s, k) + (if RegionKey(x) == k then [x] else [])
  {
    FilterAppend(s, [x], InRegion(k));
    assert Filter([x], InRegion(k)) == (if RegionKey(x) == k then [x] else []) + Filter([], InRegion(k));
  }

  /** A key that no province of `s` has has no members. */
  lemma MembersOfAbsentKey(s: seq<Province>, k: string)
    requires forall i :: 0 <= i < |s| ==> RegionKey(s[i]) != k
    ensures Members(s, k) == []
  {
    FilterKeepsNone(s, InRegion(k));
  }

  lemma RegionsSnoc(s: seq<Province>, x: Province)
    ensures Regions(s + [x]) ==
      if RegionKey(x) in Regions(s) then Regions(s) else Regions(s) + [RegionKey(x)]
  {
  }

  /** One entry of the accumulator. */
  datatype Group = Group(name: string, population: real, gdp: real, count: nat)

  /** The entry the fold builds for key `k`. */
  function GroupOf(s: seq<Province>, k: string): Group
  {
    var ms := Members(s, k);
    Group(k, Total(ms, Population), Total(ms, Gdp), |ms|)
  }

  /** Adding a province changes the total of group `k` by its value exactly when it is in `k`. */
  lemma MembersTotalSnoc(s: seq<Province>, x: Province, k: string, m: Metric)
    ensures Total(Members(s + [x], k), m) ==
            Total(Members(s, k), m) + (if RegionKey(x) == k then Value(x, m) else 0.0)
  {
    MembersSnoc(s, x, k);
    if RegionKey(x) == k {
      TotalAppend(Members(s, k), [x], m);
      TotalSingleton(x, m);
    } else {
      assert Members(s + [x], k) == Members(s, k);
    }
  }

  lemma MembersCountSnoc(s: seq<Province>, x: Province, k: string)
    ensures |Members(s + [x], k)| == |Members(s, k)| + (if RegionKey(x) == k then 1 else 0)
  {
    MembersSnoc(s, x, k);
  }

  /** What adding province `p` does to the entry of key `k`. */
  lemma GroupSnoc(s: seq<Province>, p: Province, k: string)
    ensures GroupOf(s + [p], k).name == k
    ensures GroupOf(s + [p], k).population ==
            GroupOf(s, k).population + (if RegionKey(p) == k then OrZero(p.pop) else 0.0)
    ensures GroupOf(s + [p], k).gdp ==
            GroupOf(s, k).gdp + (if RegionKey(p) == k then OrZero(p.gdp) else 0.0)
    ensures GroupOf(s + [p], k).count == GroupOf(s, k).count + (if RegionKey(p) == k then 1 else 0)
  {
    MembersTotalSnoc(s, p, k, Population);
    MembersTotalSnoc(s, p, k, Gdp);
    MembersCountSnoc(s, p, k);
  }

  /** What the fold has built after the provinces `t`: the keys in first-seen order and one entry per key. */
  ghost predicate RollupState(t: seq<Province>, keys: seq<string>, groups: map<string, Group>)
  {
    && keys == Regions(t)
    && (forall k :: k in groups <==> k in keys)
    && (forall k :: k in groups ==> groups[k] == GroupOf(t, k))
  }

  /** The empty accumulator is the state after no provinces. */
  lemma RollupStart()
    ensures RollupState([], [], map[])
  {
  }

  /** A key not yet seen has the empty entry. */
  lemma AbsentGroup(t: seq<Province>, k: string)
    requires k !in Regions(t)
    ensures GroupOf(t, k) == Group(k, 0.0, 0.0, 0)
  {
    RegionsSpec(t);
    MembersOfAbsentKey(t, k);
  }

  /** The entry of the key of `p` after adding `p`. */
  lemma GroupStep(t: seq<Province>, p: Province, g: Group)
    requires g == GroupOf(t, RegionKey(p))
    ensures GroupOf(t + [p], RegionKey(p)) ==
            g.(population := g.population + OrZero(p.pop), gdp := g.gdp + OrZero(p.gdp), count := g.count + 1)
  {
    GroupSnoc(t, p, RegionKey(p));
  }

  /** The entries of the other keys do not change. */
  lemma GroupOther(t: seq<Province>, p: Province, k: string)
    requires k != RegionKey(p)
    ensures GroupOf(t + [p], k) == GroupOf(t, k)
  {
    GroupSnoc(t, p, k);
  }

  /** One reduce step keeps the accumulator in the state of the longer prefix. */
  lemma RollupStep(t: seq<Province>, p: Province, keys: seq<string>, groups: map<string, Group>, g: Group)
    requires RollupState(t, keys, groups)
    requires g == if RegionKey(p) in groups then groups[RegionKey(p)] else Group(RegionKey(p), 0.0, 0.0, 0)
    ensures RollupState(t + [p],
                        if RegionKey(p) in groups then keys else keys + [RegionKey(p)],
                        groups[RegionKey(p) := g.(population := g.population + OrZero(p.pop),
                                                  gdp := g.gdp + OrZero(p.gdp),
                                                  count := g.count + 1)])
  {
    var region := RegionKey(p);
    var keys' := if region in groups then keys else keys + [region];
    var groups' := groups[region := g.(population := g.population + OrZero(p.pop),
                                       gdp := g.gdp + OrZero(p.gdp),
                                       count := g.count + 1)];
    RegionsSnoc(t, p);
    if region !in groups {
      AbsentGroup(t, region);
    }
    GroupStep(t, p, g);
    forall k | k in groups'
      ensures groups'[k] == GroupOf(t + [p], k)
    {
      if k != region {
        GroupOther(t, p, k);
      }
    }
  }

  /** The fold, with the object as a map and the list of its keys in insertion order. */
  method Rollup(s: seq<Province>) returns (keys: seq<string>, groups: map<string, Group>)
    ensures keys == Regions(s)
    ensures forall k :: k in groups <==> k in keys
    ensures forall k :: k in groups ==> groups[k] == GroupOf(s, k)
  {
    keys, groups := [], map[];
    RollupStart();
    ghost var done: seq<Province> := [];
    var i := 0;
    while i < |s|
      invariant 0 <= i <= |s|
      invariant done == s[..i]
      invariant RollupState(done, keys, groups)
    {
      var p := s[i];
      var region := RegionKey(p);
      var g := if region in groups then groups[region] else Group(region, 0.0, 0.0, 0);
      RollupStep(done, p, keys, groups, g);
      if region !in groups {
        keys := keys + [region];
      }
      groups := groups[region := g.(population := g.population + OrZero(p.pop),
                                    gdp := g.gdp + OrZero(p.gdp),
                                    count := g.count + 1)];
      done := done + [p];
      i := i + 1;
    }
    assert s[..i] == s;
  }

  /** Sum of the group sizes over the keys `ks`. */
  function CountSum(s: seq<Province>, ks: seq<string>): nat
  {
    if ks == [] then 0 else |Members(s, ks[0])| + CountSum(s, ks[1..])
  }

  /** Sum of the group totals of `m` over the keys `ks`. */
  function GroupSum(s: seq<Province>, ks: seq<string>, m: Metric): real
  {
    if ks == [] then 0.0 else Total(Members(s, ks[0]), m) + GroupSum(s, ks[1..], m)
  }

  lemma {:induction false} CountSumSnoc(s: seq<Province>, x: Province, ks: seq<string>)
    requires Distinct(ks)
    ensures CountSum(s + [x], ks) == CountSum(s, ks) + (if RegionKey(x) in ks then 1 else 0)
  {
    if ks != [] {
      CountSumSnoc(s, x, ks[1..]);
      MembersCountSnoc(s, x, ks[0]);
      assert RegionKey(x) in ks <==> RegionKey(x) == ks[0] || RegionKey(x) in ks[1..];
      assert RegionKey(x) == ks[0] ==> RegionKey(x) !in ks[1..];
    }
  }

  lemma {:induction false} GroupSumSnoc(s: seq<Province>, x: Province, ks: seq<string>, m: Metric)
    requires Distinct(ks)
    ensures GroupSum(s + [x], ks, m) == GroupSum(s, ks, m) + (if RegionKey(x) in ks then Value(x, m) else 0.0)
  {
    if ks != [] {
      GroupSumSnoc(s, x, ks[1..], m);
      MembersTotalSnoc(s, x, ks[0], m);
      assert RegionKey(x) in ks <==> RegionKey(x) == ks[0] || RegionKey(x) in ks[1..];
      assert RegionKey(x) == ks[0] ==> RegionKey(x) !in ks[1..];
    }
  }

  lemma {:induction false} SumsSnocKey(s: seq<Province>, ks: seq<string>, k: string, m: Metric)
    ensures CountSum(s, ks + [k]) == CountSum(s, ks) + |Members(s, k)|
    ensures GroupSum(s, ks + [k], m) == GroupSum(s, ks, m) + Total(Members(s, k), m)
  {
    if ks != [] {
      assert (ks + [k])[1..] == ks[1..] + [k];
      SumsSnocKey(s, ks[1..], k, m);
    }
  }

  /** The group sizes add up to the length of the input. */
  lemma {:induction false} RollupCounts(s: seq<Province>)
    ensures CountSum(s, Regions(s)) == |s|
  {
    if s != [] {
      var init := s[..|s| - 1];
      var x := s[|s| - 1];
      var ks := Regions(init);
      assert s == init + [x];
      RollupCounts(init);
      RegionsSpec(init);
      RegionsSnoc(init, x);
      CountSumSnoc(init, x, ks);
      if RegionKey(x) !in ks {
        SumsSnocKey(s, ks, RegionKey(x), Population);
        MembersOfAbsentKey(init, RegionKey(x));
        MembersCountSnoc(init, x, RegionKey(x));
      }
    }
  }

  /** The group totals add up to the total of the input. */
  lemma {:induction false} RollupTotals(s: seq<Province>, m: Metric)
    ensures GroupSum(s, Regions(s), m) == Total(s, m)
  {
    if s != [] {
      var init := s[..|s| - 1];
      var x := s[|s| - 1];
      var ks := Regions(init);
      assert s == init + [x];
      RollupTotals(init, m);
      RegionsSpec(init);
      RegionsSnoc(init, x);
      GroupSumSnoc(init, x, ks, m);
      TotalAppend(init, [x], m);
      TotalSingleton(x, m);
      if RegionKey(x) !in ks {
        SumsSnocKey(s, ks, RegionKey(x), m);
        MembersOfAbsentKey(init, RegionKey(x));
        MembersTotalSnoc(init, x, RegionKey(x), m);
      }
    }
  }

  /** A valid province lies in the group of its own key and in no other. */
  lemma ExactlyOneGroup(s: seq<Province>, i: nat, k: string)
    requires i < |s|
    ensures RegionKey(s[i]) in Regions(s)
    ensures s[i] in Members(s, k) <==> k == RegionKey(s[i])
  {
    RegionsSpec(s);
    FilterSpec(s, InRegion(k));
    if s[i] in Members(s, k) {
      var j :| 0 <= j < |Members(s, k)| && Members(s, k)[j] == s[i];
      assert InRegion(k)(Members(s, k)[j]);
    }
  }

  /** One row of `regionChartData`. */
  datatype RegionRow = RegionRow(name: string, population: real, gdp: real, provinces: nat)

  /** The row of one entry: population and GDP in millions. */
  function RowOf(g: Group): (r: RegionRow)
    ensures r.name == g.name && r.provinces == g.count
    ensures r.population * 1000000.0 == g.population
    ensures r.gdp * 1000000.0 == g.gdp
  {
    RegionRow(g.name, g.population / 1000000.0, g.gdp / 1000000.0, g.count)
  }

  /** `regionChartData`: one row per region of the sorted provinces, in first-seen order. */
  method RegionChart(all: seq<Province>) returns (rows: seq<RegionRow>)
    ensures |rows| == |Regions(Ranked(all))|
    ensures forall i :: 0 <= i < |rows| ==> rows[i] == RowOf(GroupOf(Ranked(all), Regions(Ranked(all))[i]))
  {
    var valid := Ranked(all);
    var keys, groups := Rollup(valid);
    rows := [];
    var i := 0;
    while i < |keys|
      invariant 0 <= i <= |keys|
      invariant |rows| == i
      invariant forall j :: 0 <= j < i ==> rows[j] == RowOf(groups[keys[j]])
    {
      var g := groups[keys[i]];
      rows := rows + [RegionRow(g.name, g.population / 1000000.0, g.gdp / 1000000.0, g.count)];
      i := i + 1;
    }
  }

  /** Over the chart rows, the provinces add up to the complete count and the populations to their total. */
  lemma RegionChartCoversComplete(all: seq<Province>)
    ensures CountSum(Ranked(all), Regions(Ranked(all))) == |Complete(all)|
    ensures GroupSum(Ranked(all), Regions(Ranked(all)), Population) == Total(Complete(all), Population)
    ensures GroupSum(Ranked(all), Regions(Ranked(all)), Gdp) == Total(Complete(all), Gdp)
  {
    SortByPopCorrect(Complete(all));
    RollupCounts(Ranked(all));
    RollupTotals(Ranked(all), Population);
    RollupTotals(Ranked(all), Gdp);
    SortByPopTotal(Complete(all), Population);
    SortByPopTotal(Complete(all), Gdp);
  }

  // ---------------------------------------------------------------------------
  // Radar profile

  /** The JavaScript numbers an axis score can end up as. */
  datatype Number = Finite(value: real) | NaN | MinusInfinity

  /**
   * `Math.min((x / avg) * 50, 100)`. A None average is the NaN of an empty
   * complete set; a zero average divides to an infinity or, for `x == 0`, NaN.
   */
  function AxisScore(x: real, avg: Option<real>): (r: Number)
    ensures r.NaN? <==> avg.None? || (avg.value == 0.0 && x == 0.0)
    ensures r.MinusInfinity? <==> avg.Some? && avg.value == 0.0 && x < 0.0
    ensures r.Finite? ==> r.value <= 100.0
    ensures avg.Some? && avg.value == 0.0 && x > 0.0 ==> r == Finite(100.0)
  {
    if avg.None? then NaN
    else if avg.value == 0.0 then
      (if x > 0.0 then Finite(100.0) else if x < 0.0 then MinusInfinity else NaN)
    else Finite(MinReal(x / avg.value * 50.0, 100.0))
  }

  /** A province exactly at the average scores 50. */
  lemma AxisAtAverage(a: real)
    requires a != 0.0
    ensures AxisScore(a, Some(a)) == Finite(50.0)
  {
    assert a / a == 1.0;
  }

  /** Twice the (positive) average or more is the full mark. */
  lemma AxisSaturates(x: real, a: real)
    requires a > 0.0 && x >= 2.0 * a
    ensures AxisScore(x, Some(a)) == Finite(100.0)
  {
    assert x / a >= 2.0;
  }

  /** Against a positive average the score grows with the value and stays within 0..100 for non-negative values. */
  lemma AxisMonotone(x: real, y: real, a: real)
    requires a > 0.0 && x <= y
    ensures AxisScore(x, Some(a)).Finite? && AxisScore(y, Some(a)).Finite?
    ensures AxisScore(x, Some(a)).value <= AxisScore(y, Some(a)).value
    ensures x >= 0.0 ==> AxisScore(x, Some(a)).value >= 0.0
  {
    assert x / a <= y / a;
    assert x >= 0.0 ==> x / a >= 0.0;
  }

  /** `province.pop && province.area ? Math.min((pop / area / 300) * 100, 100) : 0` */
  function DensityScore(p: Province): (r: real)
    ensures r <= 100.0
    ensures !(Truthy(p.pop) && Truthy(p.area)) ==> r == 0.0
  {
    if Truthy(p.pop) && Truthy(p.area) then MinReal(p.pop.value / p.area.value / 300.0 * 100.0, 100.0)
    else 0.0
  }

  lemma DivOfMultiple(c: real, a: real)
    requires a != 0.0
    ensures c * a / a == c
  {
  }

  /** 300 people per km² is the full mark and 150 is half of it; non-negative data scores at least 0. */
  lemma DensityReference(p: Province)
    ensures Truthy(p.area) && p.pop == Some(300.0 * p.area.value) ==> DensityScore(p) == 100.0
    ensures Truthy(p.area) && p.pop == Some(150.0 * p.area.value) ==> DensityScore(p) == 50.0
    ensures NonNegative(p) ==> DensityScore(p) >= 0.0
  {
    if Truthy(p.area) && Truthy(p.pop) {
      var q := p.pop.value / p.area.value;
      DivOfMultiple(300.0, p.area.value);
      DivOfMultiple(150.0, p.area.value);
      assert NonNegative(p) ==> q >= 0.0;
    }
  }

  /** `radarData`: the four axes of the focal province; every full mark is 100. */
  datatype RadarProfile = RadarProfile(population: Number, area: Number, gdp: Number, density: real)

  const FullMark := 100.0

  function AxisOf(r: RadarProfile, m: Metric): Number
  {
    match m
    case Population => r.population
    case Area => r.area
    case Gdp => r.gdp
  }

  function RadarOf(focal: Province, all: seq<Province>): (r: RadarProfile)
    ensures forall m :: AxisOf(r, m).NaN? <==> Average(all, m).None? || (Average(all, m).value == 0.0 && Value(focal, m) == 0.0)
    ensures forall m :: AxisOf(r, m).Finite? ==> AxisOf(r, m).value <= FullMark
    ensures r.density <= FullMark
  {
    RadarProfile(AxisScore(Value(focal, Population), Average(all, Population)),
                 AxisScore(Value(focal, Area), Average(all, Area)),
                 AxisScore(Value(focal, Gdp), Average(all, Gdp)),
                 DensityScore(focal))
  }

  lemma RatioOfScaled(x: real, a: real, k: real)
    requires a != 0.0 && k != 0.0
    ensures (x / k) / (a / k) == x / a
  {
  }

  /** Each radar axis is the comparison row's province-over-average ratio times 50, capped at 100. */
  lemma RadarMatchesComparison(focal: Province, all: seq<Province>, m: Metric)
    requires Average(all, m).Some? && Average(all, m).value != 0.0
    ensures ComparisonFor(focal, all, m).average.Some?
    ensures AxisOf(RadarOf(focal, all), m) ==
            Finite(MinReal(ComparisonFor(focal, all, m).province / ComparisonFor(focal, all, m).average.value * 50.0, 100.0))
  {
    var row := ComparisonFor(focal, all, m);
    var x := Value(focal, m);
    var a := Average(all, m).value;
    var k := Scale(m);
    assert row.province == x / k && row.average.value == a / k;
    RatioOfScaled(x, a, k);
  }

  /** On a catalog without negative measures and with a complete province, every axis is a number within 0..100. */
  lemma RadarInRange(focal: Province, all: seq<Province>, m: Metric)
    requires forall i :: 0 <= i < |all| ==> NonNegative(all[i])
    requires NonNegative(focal)
    requires Complete(all) != []
    ensures AxisOf(RadarOf(focal, all), m).Finite?
    ensures 0.0 <= AxisOf(RadarOf(focal, all), m).value <= FullMark
    ensures 0.0 <= RadarOf(focal, all).density <= FullMark
  {
    AveragePositive(all, m);
    AxisMonotone(Value(focal, m), Value(focal, m), Average(all, m).value);
    DensityReference(focal);
  }
}
