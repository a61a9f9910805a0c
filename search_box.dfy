/**
 * The search box: the three-way substring filter over the catalog, the
 * result panel it shows, and the two state fields (`searchTerm`, `isOpen`)
 * its handlers overwrite.
 */
module Search {
  import opened Wrappers
  import opened Seqs
  import opened Numbers
  import opened Provinces

  /** ASCII lowercasing; `toLowerCase` on the rest of Unicode is not modelled. */
  function LowerChar(c: char): char
  {
    if 'A' <= c <= 'Z' then (c as int - 'A' as int + 'a' as int) as char else c
  }

  function Lower(s: string): string
  {
    seq(|s|, i requires 0 <= i < |s| => LowerChar(s[i]))
  }

  /** `s.includes(t)`: `t` is a prefix of some suffix of `s`. */
  predicate Includes(s: string, t: string)
    ensures Includes(s, t) ==> |t| <= |s|
    ensures t == "" ==> Includes(s, t)
  {
    t <= s || (s != [] && Includes(s[1..], t))
  }

  predicate OccursAt(s: string, t: string, i: nat)
  {
    i + |t| <= |s| && s[i..i + |t|] == t
  }

  /** `Includes` agrees with the definition of a substring by its offset. */
  lemma {:induction false} IncludesIffOccurs(s: string, t: string)
    ensures Includes(s, t) <==> exists i: nat :: OccursAt(s, t, i)
  {
    if t <= s {
      assert OccursAt(s, t, 0);
    } else if s == [] {
    } else {
      IncludesIffOccurs(s[1..], t);
      if exists i: nat :: OccursAt(s, t, i) {
        var i: nat :| OccursAt(s, t, i);
        if i > 0 {
          assert s[1..][i - 1..i - 1 + |t|] == s[i..i + |t|];
          assert OccursAt(s[1..], t, i - 1);
        }
      }
      if Includes(s[1..], t) {
        var i: nat :| OccursAt(s[1..], t, i);
        assert s[i + 1..i + 1 + |t|] == s[1..][i..i + |t|];
        assert OccursAt(s, t, i + 1);
      }
    }
  }

  /** A substring stays a substring after lowercasing both sides. */
  lemma {:induction false} IncludesLower(s: string, t: string)
    requires Includes(s, t)
    ensures Includes(Lower(s), Lower(t))
  {
    if t <= s {
      assert Lower(t) <= Lower(s);
    } else {
      IncludesLower(s[1..], t);
      assert Lower(s)[1..] == Lower(s[1..]);
    }
  }

  /** The filter predicate: name or English name ignoring case, or the code as typed. */
  predicate Matches(p: Province, term: string)
    ensures term == "" ==> Matches(p, term)
  {
    || Includes(Lower(p.name), Lower(term))
    || Includes(Lower(p.ne), Lower(term))
    || Includes(p.code, term)
  }

  function Matcher(term: string): Province -> bool
  {
    p => Matches(p, term)
  }

  /** `filteredProvinces` */
  function Filtered(ps: seq<Province>, term: string): (r: seq<Province>)
    ensures forall k :: 0 <= k < |r| ==> r[k] in ps && Matches(r[k], term)
    ensures forall i :: 0 <= i < |ps| && Matches(ps[i], term) ==> ps[i] in r
  {
    FilterSpec(ps, Matcher(term));
    Filter(ps, Matcher(term))
  }

  /** The matches are exactly the provinces at the matching positions, in catalog order. */
  lemma FilteredIsSubsequence(ps: seq<Province>, term: string)
    ensures Filtered(ps, term) == Pick(ps, Positions(ps, Matcher(term)))
    ensures forall i :: 0 <= i < |ps| ==> (Matches(ps[i], term) <==> i in Positions(ps, Matcher(term)))
  {
    FilterPicksPositions(ps, Matcher(term));
  }

  /** A name containing the term in any mix of case matches it. */
  lemma NameMatchIgnoresCase(p: Province, w: string, term: string)
    requires Includes(p.name, w) || Includes(p.ne, w)
    requires Lower(w) == Lower(term)
    ensures Matches(p, term)
  {
    if Includes(p.name, w) {
      IncludesLower(p.name, w);
    } else {
      IncludesLower(p.ne, w);
    }
  }

  /** The code is compared as typed: "hn" does not find code "HN", while "ha" finds name "HA". */
  lemma CodeIsCaseSensitive()
    ensures Matches(Province("HN", "HA", "X", None, None, None, None), "ha")
    ensures !Matches(Province("HN", "X", "X", None, None, None, None), "hn")
    ensures Matches(Province("HN", "X", "X", None, None, None, None), "HN")
  {
    assert Lower("HA") == "ha";
    assert Lower("ha") == "ha";
    assert Lower("X") == "x";
    assert Lower("hn") == "hn";
    assert "x"[1..] == [];
    assert !Includes("x", "hn");
    assert "HN"[1..] == "N" && "N"[1..] == [];
    assert "hn"[0] != "HN"[0];
    assert !("hn" <= "HN") && !("hn" <= "N");
    assert !Includes("HN", "hn");
  }

  /** The empty term matches every province (`includes("")` is true). */
  lemma {:induction false} EmptyTermMatchesAll(ps: seq<Province>)
    ensures Filtered(ps, "") == ps
  {
    forall i | 0 <= i < |ps|
      ensures Matcher("")(ps[i])
    {
      assert Lower("") == "";
    }
    FilterKeepsAll(ps, Matcher(""));
  }

  const MaxShown := 8

  /** What the search box shows under its input. */
  datatype Panel = Hidden | NoResults | Results(shown: seq<Province>)

  /** The panel for a term and an open flag: hidden unless `isOpen && searchTerm`, then the first 8 matches. */
  function PanelFor(ps: seq<Province>, term: string, isOpen: bool): (v: Panel)
    ensures v.Hidden? <==> !isOpen || term == ""
    ensures v.NoResults? <==> isOpen && term != "" && Filtered(ps, term) == []
    ensures v.Results? ==> 0 < |v.shown| <= MaxShown
    ensures v.Results? ==> |v.shown| == Min(MaxShown, |Filtered(ps, term)|)
    ensures v.Results? ==> v.shown <= Filtered(ps, term)
  {
    if !(isOpen && term != "") then Hidden
    else
      var matches := Filtered(ps, term);
      if |matches| > 0 then Results(matches[..Min(MaxShown, |matches|)]) else NoResults
  }

  /** With an empty term every province matches, yet nothing is shown. */
  lemma EmptyTermShowsNothing(ps: seq<Province>, isOpen: bool)
    ensures Filtered(ps, "") == ps
    ensures PanelFor(ps, "", isOpen) == Hidden
  {
    EmptyTermMatchesAll(ps);
  }

  /** After picking `p`, the term is its name, which matches `p`, and the panel is closed. */
  lemma PickedNameMatches(ps: seq<Province>, i: nat)
    requires i < |ps|
    ensures ps[i] in Filtered(ps, ps[i].name)
    ensures PanelFor(ps, ps[i].name, false) == Hidden
  {
  }

  /** The state of the search box. */
  class SearchBox {
    var searchTerm: string
    var isOpen: bool

    constructor ()
      ensures searchTerm == "" && !isOpen
    {
      searchTerm, isOpen := "", false;
    }

    function View(ps: seq<Province>): Panel
      reads this
    {
      PanelFor(ps, searchTerm, isOpen)
    }

    /** `handleSelect(p)`; returns what is reported to `onProvinceSelect`. */
    method Select(p: Province) returns (reported: Province)
      modifies this
      ensures reported == p
      ensures searchTerm == p.name && !isOpen
    {
      reported := p;
      searchTerm := p.name;
      isOpen := false;
    }

    /** `handleClear` */
    method Clear()
      modifies this
      ensures searchTerm == "" && !isOpen
    {
      searchTerm := "";
      isOpen := false;
    }

    /** `onChange` of the input. */
    method Change(value: string)
      modifies this
      ensures searchTerm == value && isOpen
    {
      searchTerm := value;
      isOpen := true;
    }

    /** `onFocus` of the input. */
    method Focus()
      modifies this`isOpen
      ensures isOpen && searchTerm == old(searchTerm)
    {
      isOpen := true;
    }
  }
}
