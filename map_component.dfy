/**
 * The map's selection state machine: the hovered and the selected province
 * code, the events that overwrite them, the style each province is drawn
 * with, and the province list extracted from the loaded feature collection.
 */
module MapSelection {
  import opened Wrappers
  import opened Provinces

  /** The three styles of `getProvinceStyle`; colours and weights are not modelled. */
  datatype Style = Selected | Hovered | Default

  /** Style resolution, by priority selected > hovered > default. */
  function StyleFor(hovered: Option<string>, selected: Option<string>, code: string): (s: Style)
    ensures s == Selected <==> selected == Some(code)
    ensures s == Hovered <==> selected != Some(code) && hovered == Some(code)
    ensures s == Default <==> selected != Some(code) && hovered != Some(code)
  {
    if selected == Some(code) then Selected
    else if hovered == Some(code) then Hovered
    else Default
  }

  predicate UniqueCodes(ps: seq<Province>)
  {
    forall i, j :: 0 <= i < |ps| && 0 <= j < |ps| && i != j ==> ps[i].code != ps[j].code
  }

  /** With unique codes, at most one province is drawn selected and at most one hovered. */
  lemma AtMostOneHighlighted(ps: seq<Province>, hovered: Option<string>, selected: Option<string>, i: nat, j: nat)
    requires UniqueCodes(ps) && i < |ps| && j < |ps|
    requires StyleFor(hovered, selected, ps[i].code) != Default
    requires StyleFor(hovered, selected, ps[i].code) == StyleFor(hovered, selected, ps[j].code)
    ensures i == j
  {
  }

  /** A map feature; its geometry is opaque to this model. */
  datatype Feature = Feature(properties: Province)

  /** The parsed feature collection: `features` may be absent. */
  datatype FeatureCollection = FeatureCollection(features: Option<seq<Feature>>)

  /** How the load ended: fetch or JSON parsing threw, or a parsed document arrived. */
  datatype LoadOutcome = LoadFailed | Parsed(data: FeatureCollection)

  /** `features.map(feature => feature.properties)` */
  function Properties(fs: seq<Feature>): (ps: seq<Province>)
    ensures |ps| == |fs|
    ensures forall i :: 0 <= i < |fs| ==> ps[i] == fs[i].properties
  {
    if fs == [] then [] else [fs[0].properties] + Properties(fs[1..])
  }

  /** The state of one map view. */
  class MapView {
    var hovered: Option<string>
    var selected: Option<string>
    var provinces: seq<Province>
    /** `geoJsonData`; None while the map shows its loading placeholder. */
    var geoJson: Option<FeatureCollection>

    constructor ()
      ensures hovered == None && selected == None
      ensures provinces == [] && geoJson == None
    {
      hovered, selected := None, None;
      provinces, geoJson := [], None;
    }

    function StyleOf(code: string): Style
      reads this
    {
      StyleFor(hovered, selected, code)
    }

    /** The end of the one-time load; a failure is only logged. */
    method LoadFinished(outcome: LoadOutcome)
      modifies this`geoJson, this`provinces
      ensures outcome.LoadFailed? ==> geoJson == old(geoJson) && provinces == old(provinces)
      ensures outcome.Parsed? ==> geoJson == Some(outcome.data)
      ensures outcome.Parsed? && outcome.data.features.Some? ==>
                provinces == Properties(outcome.data.features.value)
      ensures outcome.Parsed? && outcome.data.features.None? ==> provinces == old(provinces)
    {
      if outcome.Parsed? {
        geoJson := Some(outcome.data);
        if outcome.data.features.Some? {
          provinces := Properties(outcome.data.features.value);
        }
      }
    }

    /** mouseover on the layer of `p`. */
    method MouseOver(p: Province)
      modifies this`hovered
      ensures hovered == Some(p.code) && selected == old(selected)
    {
      hovered := Some(p.code);
    }

    /** mouseout on the layer of `p`: clears the hover whichever province it names. */
    method MouseOut(p: Province)
      modifies this`hovered
      ensures hovered == None && selected == old(selected)
    {
      hovered := None;
    }

    /** click on the layer of `p`; returns what is reported to `onProvinceSelect`. */
    method Click(p: Province) returns (reported: Option<Province>)
      modifies this`selected
      ensures selected == Some(p.code) && hovered == old(hovered)
      ensures reported == Some(p)
    {
      selected := Some(p.code);
      reported := Some(p);
    }

    /** `handleSearchSelect(p)`, called when a search result is picked. */
    method SearchSelect(p: Province) returns (reported: Option<Province>)
      modifies this`selected
      ensures selected == Some(p.code) && hovered == old(hovered)
      ensures reported == Some(p)
    {
      selected := Some(p.code);
      reported := Some(p);
    }

    /** The reset button. */
    method Reset() returns (reported: Option<Province>)
      modifies this`selected
      ensures selected == None && hovered == old(hovered)
      ensures reported == None
    {
      selected := None;
      reported := None;
    }
  }

  /** Hover one province, click another, then reset. */
  method HoverClickReset(a: Province, b: Province, c: Province)
    requires a.code != b.code && b.code != c.code && a.code != c.code
  {
    var view := new MapView();
    view.MouseOver(b);
    var reported := view.Click(a);
    assert reported == Some(a);
    assert view.StyleOf(a.code) == Selected;
    assert view.StyleOf(b.code) == Hovered;
    assert view.StyleOf(c.code) == Default;
    reported := view.Reset();
    assert reported == None;
    assert view.StyleOf(a.code) == Default;
    assert view.StyleOf(b.code) == Hovered;
  }

  /** A mouseout on a province other than the hovered one still clears the hover. */
  method LateMouseOut(a: Province, b: Province)
    requires a.code != b.code
  {
    var view := new MapView();
    view.MouseOver(b);
    view.MouseOut(a);
    assert view.StyleOf(b.code) == Default;
  }
}
