/** Sequence combinators behind the `Array.prototype.filter` calls of the components. */
module Seqs {

  /** The elements of `s` that satisfy `f`, in their order in `s`. */
  function Filter<T>(s: seq<T>, f: T -> bool): (r: seq<T>)
    ensures |r| <= |s|
  {
    if s == [] then [] else (if f(s[0]) then [s[0]] else []) + Filter(s[1..], f)
  }

  /** Every element kept passes and comes from `s`; every element of `s` that passes is kept. */
  lemma {:induction false} FilterSpec<T>(s: seq<T>, f: T -> bool)
    ensures forall k :: 0 <= k < |Filter(s, f)| ==> Filter(s, f)[k] in s && f(Filter(s, f)[k])
    ensures forall i :: 0 <= i < |s| && f(s[i]) ==> s[i] in Filter(s, f)
  {
    if s != [] {
      FilterSpec(s[1..], f);
      var head := if f(s[0]) then [s[0]] else [];
      var r := Filter(s, f);
      assert r == head + Filter(s[1..], f);
      forall k | 0 <= k < |r| ensures r[k] in s && f(r[k]) {
        if k >= |head| {
          assert r[k] == Filter(s[1..], f)[k - |head|];
        }
      }
      forall i | 0 <= i < |s| && f(s[i]) ensures s[i] in r {
        if i > 0 {
          assert s[i] == s[1..][i - 1];
        }
      }
    }
  }

  lemma {:induction false} FilterAppend<T>(s: seq<T>, t: seq<T>, f: T -> bool)
    ensures Filter(s + t, f) == Filter(s, f) + Filter(t, f)
  {
    if s == [] {
      assert s + t == t;
    } else {
      var head := if f(s[0]) then [s[0]] else [];
      assert (s + t)[0] == s[0];
      assert (s + t)[1..] == s[1..] + t;
      assert Filter(s + t, f) == head + Filter(s[1..] + t, f);
      FilterAppend(s[1..], t, f);
      assert head + (Filter(s[1..], f) + Filter(t, f)) == (head + Filter(s[1..], f)) + Filter(t, f);
    }
  }

  lemma FilterSingleton<T>(x: T, f: T -> bool)
    ensures Filter([x], f) == if f(x) then [x] else []
  {
    assert [x][1..] == [];
  }

  /** Two neighbours that do not both pass can be swapped without changing the filter. */
  lemma FilterSwap<T>(u: T, v: T, t: seq<T>, f: T -> bool)
    requires !(f(u) && f(v))
    ensures Filter([u] + ([v] + t), f) == Filter([v] + ([u] + t), f)
  {
    FilterAppend([u], [v] + t, f);
    FilterAppend([v], t, f);
    FilterAppend([v], [u] + t, f);
    FilterAppend([u], t, f);
    FilterSingleton(u, f);
    FilterSingleton(v, f);
  }

  /** When every element passes, filtering returns the sequence itself. */
  lemma {:induction false} FilterKeepsAll<T>(s: seq<T>, f: T -> bool)
    requires forall i :: 0 <= i < |s| ==> f(s[i])
    ensures Filter(s, f) == s
  {
    if s != [] {
      FilterKeepsAll(s[1..], f);
    }
  }

  /** When no element passes, filtering returns nothing. */
  lemma {:induction false} FilterKeepsNone<T>(s: seq<T>, f: T -> bool)
    requires forall i :: 0 <= i < |s| ==> !f(s[i])
    ensures Filter(s, f) == []
  {
    if s != [] {
      FilterKeepsNone(s[1..], f);
    }
  }

  /** The indices `i` with `f(s[i])`, in increasing order. */
  function Positions<T>(s: seq<T>, f: T -> bool): (idx: seq<nat>)
    ensures forall k :: 0 <= k < |idx| ==> idx[k] < |s| && f(s[idx[k]])
    ensures forall k, l :: 0 <= k < l < |idx| ==> idx[k] < idx[l]
    ensures forall i :: 0 <= i < |s| && f(s[i]) ==> i in idx
  {
    if s == [] then []
    else Positions(s[..|s| - 1], f) + (if f(s[|s| - 1]) then [|s| - 1] else [])
  }

  /** The elements of `s` at the indices `idx`, in the order of `idx`. */
  function Pick<T>(s: seq<T>, idx: seq<nat>): seq<T>
    requires forall k :: 0 <= k < |idx| ==> idx[k] < |s|
  {
    seq(|idx|, k requires 0 <= k < |idx| => s[idx[k]])
  }

  lemma PickConcat<T>(s: seq<T>, a: seq<nat>, b: seq<nat>)
    requires forall k :: 0 <= k < |a| ==> a[k] < |s|
    requires forall k :: 0 <= k < |b| ==> b[k] < |s|
    ensures Pick(s, a + b) == Pick(s, a) + Pick(s, b)
  {
  }

  lemma PickFromPrefix<T>(s: seq<T>, n: nat, idx: seq<nat>)
    requires n <= |s|
    requires forall k :: 0 <= k < |idx| ==> idx[k] < n
    ensures Pick(s, idx) == Pick(s[..n], idx)
  {
  }

  /** Filtering keeps exactly the elements at the positions that pass, in catalog order. */
  lemma {:induction false} FilterPicksPositions<T>(s: seq<T>, f: T -> bool)
    ensures Filter(s, f) == Pick(s, Positions(s, f))
  {
    if s != [] {
      var n := |s| - 1;
      var init := s[..n];
      var before := Positions(init, f);
      var tail: seq<nat> := if f(s[n]) then [n] else [];
      calc {
        Filter(s, f);
        { assert s == init + [s[n]]; FilterAppend(init, [s[n]], f); }
        Filter(init, f) + Filter([s[n]], f);
        { FilterPicksPositions(init, f); }
        Pick(init, before) + Filter([s[n]], f);
        { PickFromPrefix(s, n, before); }
        Pick(s, before) + Pick(s, tail);
        { PickConcat(s, before, tail); }
        Pick(s, before + tail);
      }
    }
  }
}
