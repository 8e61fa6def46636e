/**
 * The placemarks on the map and their highlight state: the list filled by the
 * data load, the icon options of each placemark, the selected placemark and the
 * placemarks currently added to the map.
 */
module Markers {
  import opened Wrappers
  import opened Rating
  import opened MarkerFilter

  /** One element of the loaded data file, with the fields the core uses. */
  datatype PlaceData = PlaceData(name: string, address: string, hours: string, description: string, district: string)

  /** iconImageHref, the side of iconImageSize and both coordinates of iconImageOffset. */
  datatype IconOptions = IconOptions(href: string, size: int, offset: int)

  const NormalSize: int := 30
  const NormalOffset: int := -15
  const LargeSize: int := 40
  const LargeOffset: int := -20

  /** The record createPlacemark keeps for a place, with the rating read from its description. */
  function CreatePlacemark(d: PlaceData): (p: Place)
    ensures p.name == d.name && p.address == d.address && p.district == d.district && p.hours == d.hours
    ensures forall i :: FirstDigitAt(d.description, i) ==> p.rating == ValueAt(d.description, i)
    ensures NoDigitFrom(d.description, 0) ==> p.rating == 0
  {
    Place(d.name, d.address, d.district, d.hours, ExtractRating(d.description))
  }

  /** The icon options createPlacemark gives a new placemark. */
  function InitialIcon(p: Place): (icon: IconOptions)
    ensures icon.size == NormalSize && icon.offset == NormalOffset
    ensures icon.href == "icons/star-green.png" <==> p.rating >= 40
    ensures icon.href == "icons/star-yellow.png" <==> 30 <= p.rating < 40
    ensures icon.href == "icons/star-red.png" <==> p.rating < 30
  {
    IconOptions(Href(IconByRating(p.rating)), NormalSize, NormalOffset)
  }

  class MarkerMap {
    /** placemarks, in load order. */
    var places: seq<Place>
    /** The icon options of placemarks[i]. */
    var icons: array<IconOptions>
    /** selectedPlacemark, as an index into placemarks. */
    var selected: Option<nat>
    /** The placemarks currently in map.geoObjects. */
    var shown: seq<Place>

    /**
     * Every placemark keeps the icon of its rating, and exactly the selected
     * placemark, if any, is enlarged.
     */
    ghost predicate Valid()
      reads this, icons
    {
      && icons.Length == |places|
      && (selected.Some? ==> selected.value < |places|)
      && forall i :: 0 <= i < icons.Length ==>
           icons[i].href == Href(IconByRating(places[i].rating)) &&
           icons[i].size == if selected == Some(i) then LargeSize else NormalSize
    }

    /** Two enlarged placemarks are the same placemark. */
    lemma AtMostOneEnlarged(i: nat, j: nat)
      requires Valid() && i < icons.Length && j < icons.Length
      requires icons[i].size == LargeSize && icons[j].size == LargeSize
      ensures i == j && selected == Some(i)
    {
    }

    /** The data load: one placemark per element, all on the map, none selected. */
    constructor Load(data: seq<PlaceData>)
      ensures Valid() && fresh(icons)
      ensures |places| == |data|
      ensures forall k :: 0 <= k < |data| ==> places[k] == CreatePlacemark(data[k])
      ensures forall k :: 0 <= k < icons.Length ==> icons[k] == InitialIcon(places[k])
      ensures shown == places && selected == None
    {
      var ps: seq<Place> := [];
      var i := 0;
      while i < |data|
        invariant 0 <= i <= |data| && |ps| == i
        invariant forall k :: 0 <= k < i ==> ps[k] == CreatePlacemark(data[k])
      {
        ps := ps + [CreatePlacemark(data[i])];
        i := i + 1;
      }
      places := ps;
      shown := ps;
      selected := None;
      icons := new IconOptions[|ps|](k requires 0 <= k < |ps| => InitialIcon(ps[k]));
    }

    /** highlightPlacemark: every icon back to normal, then p (if any) enlarged and selected. */
    method Highlight(p: Option<nat>)
      requires Valid()
      requires p.Some? ==> p.value < |places|
      modifies this`selected, icons
      ensures selected == p
      ensures forall i :: 0 <= i < icons.Length ==>
                icons[i] == if p == Some(i) then old(icons[i]).(size := LargeSize, offset := LargeOffset)
                            else old(icons[i]).(size := NormalSize, offset := NormalOffset)
      ensures Valid()
    {
      var i := 0;
      while i < icons.Length
        invariant 0 <= i <= icons.Length
        invariant forall k :: 0 <= k < i ==> icons[k] == old(icons[k]).(size := NormalSize, offset := NormalOffset)
        invariant forall k :: i <= k < icons.Length ==> icons[k] == old(icons[k])
      {
        icons[i] := icons[i].(size := NormalSize, offset := NormalOffset);
        i := i + 1;
      }
      if p.Some? {
        icons[p.value] := icons[p.value].(size := LargeSize, offset := LargeOffset);
      }
      selected := p;
    }

    /** closePanels: the highlight is cleared, nothing stays selected. */
    method ClosePanels()
      requires Valid()
      modifies this`selected, icons
      ensures selected == None
      ensures forall i :: 0 <= i < icons.Length ==>
                icons[i] == old(icons[i]).(size := NormalSize, offset := NormalOffset)
      ensures Valid()
    {
      Highlight(None);
    }

    /**
     * The marker click handler: the previous selection shrinks, the target grows
     * and becomes the selection. Only the sizes change; the offsets stay.
     */
    method Click(t: nat)
      requires Valid() && t < |places|
      modifies this`selected, icons
      ensures selected == Some(t)
      ensures icons[t] == old(icons[t]).(size := LargeSize)
      ensures forall i :: 0 <= i < icons.Length && i != t ==>
                icons[i] == if old(selected) == Some(i) then old(icons[i]).(size := NormalSize) else old(icons[i])
      ensures Valid()
    {
      if selected.Some? {
        var s := selected.value;
        icons[s] := icons[s].(size := NormalSize);
      }
      icons[t] := icons[t].(size := LargeSize);
      selected := Some(t);
    }

    /**
     * filterMarkers: the map is cleared, the matching placemarks are added back in
     * order, their number is reported and the panels are closed.
     */
    method FilterMarkers(c: Criteria) returns (count: nat)
      requires Valid()
      modifies this`shown, this`selected, icons
      ensures shown == Filter(places, c)
      ensures count == |shown| && count == MatchCount(places, c)
      ensures selected == None
      ensures forall i :: 0 <= i < icons.Length ==>
                icons[i] == old(icons[i]).(size := NormalSize, offset := NormalOffset)
      ensures Valid()
    {
      shown := [];
      var filtered := Filter(places, c);
      var i := 0;
      while i < |filtered|
        invariant 0 <= i <= |filtered|
        invariant shown == filtered[..i]
        invariant Valid()
      {
        shown := shown + [filtered[i]];
        i := i + 1;
      }
      count := |filtered|;
      ClosePanels();
    }
  }

  // Scenario checks: clients of MarkerMap that use nothing but the contracts above.

  /**
   * Clicking a and then b leaves only b selected and enlarged; closing the panels
   * clears the selection, and closing again changes nothing.
   */
  method SelectionScenario(data: seq<PlaceData>) returns (afterClicks: Option<nat>, sizes: (int, int), afterClose: Option<nat>)
    requires |data| >= 2
    ensures afterClicks == Some(1) && sizes == (NormalSize, LargeSize) && afterClose == None
  {
    var m := new MarkerMap.Load(data);
    m.Click(0);
    m.Click(1);
    afterClicks := m.selected;
    sizes := (m.icons[0].size, m.icons[1].size);
    m.ClosePanels();
    m.ClosePanels();
    afterClose := m.selected;
  }

  /**
   * The map is recomputed from all placemarks each time: filtering with c, then
   * with threshold 4, then with c again shows the first result again, and that
   * result is already fully filtered.
   */
  method RefilterScenario(data: seq<PlaceData>, c: Criteria) returns (first: seq<Place>, last: seq<Place>, n1: nat, n3: nat)
    ensures first == last && n1 == n3 && n1 == |first|
    ensures Filter(first, c) == first
  {
    var m := new MarkerMap.Load(data);
    n1 := m.FilterMarkers(c);
    first := m.shown;
    var n2 := m.FilterMarkers(c.(minRating := Some(40)));
    n3 := m.FilterMarkers(c);
    last := m.shown;
    FilterIdempotent(m.places, c);
  }
}
