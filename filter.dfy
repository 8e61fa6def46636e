/**
 * The matching rule of filterMarkers: a placemark stays on the map when its
 * rating reaches the chosen threshold, its district and its hours equal the
 * chosen values (or the choice is 'all'), and the lower-cased search text
 * occurs in its lower-cased name or address.
 */
module MarkerFilter {
  import opened Wrappers
  import opened Text
  import opened Rating

  /** The fields of a placemark that the filter reads, flattened into one record. */
  datatype Place = Place(name: string, address: string, district: string, hours: string, rating: Tenths)

  /**
   * The four filter controls. minRating is parseFloat of the rating control, in
   * tenths, with None for NaN (an empty or unparsable choice).
   */
  datatype Criteria = Criteria(minRating: Option<int>, district: string, hours: string, search: string)

  /** The value of the district and hours controls that switches them off. */
  const All: string := "all"

  /** `parseFloat(value) || 0`: NaN (and 0) become the threshold 0. */
  function Threshold(minRating: Option<int>): int {
    match minRating
    case None => 0
    case Some(v) => v
  }

  /** The search rule: an empty query, or a case-insensitive hit in the name or the address. */
  predicate SearchMatches(p: Place, query: string)
    ensures query == "" ==> SearchMatches(p, query)
    ensures Contains(p.name, query) || Contains(p.address, query) ==> SearchMatches(p, query)
  {
    LowerKeepsSubstring(p.name, query);
    LowerKeepsSubstring(p.address, query);
    var q := Lower(query);
    q == "" || Contains(Lower(p.name), q) || Contains(Lower(p.address), q)
  }

  /** The callback given to placemarks.filter: all four predicates, ANDed. */
  predicate Matches(p: Place, c: Criteria)
    ensures Neutral(c) ==> Matches(p, c)
  {
    && p.rating >= Threshold(c.minRating)
    && (c.district == All || p.district == c.district)
    && (c.hours == All || p.hours == c.hours)
    && SearchMatches(p, c.search)
  }

  /** a is b with some elements left out, the rest in their original order. */
  predicate IsSubsequence<T(==)>(a: seq<T>, b: seq<T>)
    decreases |b|
  {
    if b == [] then a == []
    else (a != [] && a[0] == b[0] && IsSubsequence(a[1..], b[1..])) || IsSubsequence(a, b[1..])
  }

  /** placemarks.filter(...): the placemarks that match, in their original order. */
  function Filter(ps: seq<Place>, c: Criteria): (r: seq<Place>)
    ensures IsSubsequence(r, ps)
    ensures forall p :: p in r <==> p in ps && Matches(p, c)
    ensures |r| == MatchCount(ps, c)
  {
    if ps == [] then []
    else if Matches(ps[0], c) then [ps[0]] + Filter(ps[1..], c)
    else Filter(ps[1..], c)
  }

  /** The number of entries of ps, counted with repetition, that pass the four tests. */
  function MatchCount(ps: seq<Place>, c: Criteria): nat {
    if ps == [] then 0
    else (if Matches(ps[0], c) then 1 else 0) + MatchCount(ps[1..], c)
  }

  /** An entry that passes the tests is in the result as often as in the input; others never. */
  lemma {:induction false} FilterMultiplicity(ps: seq<Place>, c: Criteria)
    ensures forall p :: multiset(Filter(ps, c))[p] == if Matches(p, c) then multiset(ps)[p] else 0
  {
    if ps != [] {
      FilterMultiplicity(ps[1..], c);
      assert ps == [ps[0]] + ps[1..];
    }
  }

  /**
   * Filtering with a stricter criterion after a looser one is the same as filtering
   * with the stricter one alone.
   */
  lemma {:induction false} FilterStricter(ps: seq<Place>, c: Criteria, d: Criteria)
    requires forall p :: Matches(p, d) ==> Matches(p, c)
    ensures Filter(Filter(ps, c), d) == Filter(ps, d)
  {
    if ps != [] {
      FilterStricter(ps[1..], c, d);
      if Matches(ps[0], c) {
        assert Filter(ps, c)[1..] == Filter(ps[1..], c);
      }
    }
  }

  /** Running the filter again on its own result changes nothing. */
  lemma FilterIdempotent(ps: seq<Place>, c: Criteria)
    ensures Filter(Filter(ps, c), c) == Filter(ps, c)
  {
    FilterStricter(ps, c, c);
  }

  /**
   * Raising the rating threshold, with the other controls unchanged, never brings
   * a placemark back: the new result is a subsequence of the old one.
   */
  lemma RaisingThresholdShrinks(ps: seq<Place>, c: Criteria, higher: Option<int>)
    requires Threshold(higher) >= Threshold(c.minRating)
    ensures Filter(ps, c.(minRating := higher)) == Filter(Filter(ps, c), c.(minRating := higher))
    ensures IsSubsequence(Filter(ps, c.(minRating := higher)), Filter(ps, c))
    ensures |Filter(ps, c.(minRating := higher))| <= |Filter(ps, c)|
  {
    var d := c.(minRating := higher);
    FilterStricter(ps, c, d);
    SubsequenceNotLonger(Filter(ps, d), Filter(ps, c));
  }

  lemma {:induction false} SubsequenceNotLonger<T>(a: seq<T>, b: seq<T>)
    requires IsSubsequence(a, b)
    ensures |a| <= |b|
    decreases |b|
  {
    if b != [] {
      if a != [] && a[0] == b[0] && IsSubsequence(a[1..], b[1..]) {
        SubsequenceNotLonger(a[1..], b[1..]);
      } else {
        SubsequenceNotLonger(a, b[1..]);
      }
    }
  }

  /** The controls in their neutral positions: no threshold, 'all', 'all', no search text. */
  predicate Neutral(c: Criteria) {
    Threshold(c.minRating) <= 0 && c.district == All && c.hours == All && c.search == ""
  }

  /** Neutral controls keep every placemark. */
  lemma {:induction false} NeutralKeepsAll(ps: seq<Place>, c: Criteria)
    requires Neutral(c)
    ensures Filter(ps, c) == ps
  {
    if ps != [] {
      NeutralKeepsAll(ps[1..], c);
    }
  }

  /** Controls that accept the same places give the same result. */
  lemma {:induction false} FilterSameVerdicts(ps: seq<Place>, c: Criteria, d: Criteria)
    requires forall p :: Matches(p, c) == Matches(p, d)
    ensures Filter(ps, c) == Filter(ps, d)
  {
    if ps != [] {
      FilterSameVerdicts(ps[1..], c, d);
    }
  }

  /**
   * `|| 0`: a rating choice that parses to NaN filters exactly as the choice 0,
   * whatever the other controls and the placemarks.
   */
  lemma UnparsableRatingIsZero(ps: seq<Place>, c: Criteria)
    ensures Filter(ps, c.(minRating := None)) == Filter(ps, c.(minRating := Some(0)))
  {
    FilterSameVerdicts(ps, c.(minRating := None), c.(minRating := Some(0)));
  }

  /** The case of the query does not matter. */
  lemma SearchIgnoresQueryCase(p: Place, query: string)
    ensures SearchMatches(p, query) <==> SearchMatches(p, Lower(query))
  {
    LowerIdempotent(query);
  }

  // The search as the source writes it. The name the filter lower-cases is the
  // balloon header, which wraps the name in <b>...</b>.

  /** The balloonContentHeader that createPlacemark builds from the name. */
  function Header(name: string): string {
    "<b>" + name + "</b>"
  }

  /** The search predicate read literally: the header, not the name, is searched. */
  predicate SearchMatchesAsWritten(p: Place, query: string)
    ensures SearchMatches(p, query) ==> SearchMatchesAsWritten(p, query)
  {
    LowerConcat("<b>" + p.name, "</b>");
    LowerConcat("<b>", p.name);
    ContainsInMiddle(Lower("<b>"), Lower(p.name), Lower("</b>"), Lower(query));
    var q := Lower(query);
    q == "" || Contains(Lower(Header(p.name)), q) || Contains(Lower(p.address), q)
  }

  /** As written, the query "b" (or "B") matches every placemark, whatever its name and address. */
  lemma HeaderSearchMatchesEveryPlace(p: Place)
    ensures SearchMatchesAsWritten(p, "b")
    ensures SearchMatchesAsWritten(p, "B")
  {
    var h := Header(p.name);
    assert h[1..2] == "b";
    assert Contains(h, "b") by {
      assert OccursAt(h, "b", 1);
      ContainsIff(h, "b");
    }
    LowerKeepsSubstring(h, "b");
    assert Lower("b") == "b";
    assert Lower("B") == "b";
  }

  /** A place whose name and address have no 'b' in them: matched as written, not as intended. */
  lemma SearchForBCounterexample()
    ensures SearchMatchesAsWritten(Place("A", "Mira 2", "X", "24/7", 45), "b")
    ensures !SearchMatches(Place("A", "Mira 2", "X", "24/7", 45), "b")
  {
    var p := Place("A", "Mira 2", "X", "24/7", 45);
    HeaderSearchMatchesEveryPlace(p);
    assert Lower("b") == "b";
    assert Lower("A") == "a";
    assert Lower("Mira 2") == "mira 2";
    NotContainsChar("a", 'b');
    NotContainsChar("mira 2", 'b');
  }

  // Three venues filtered with three settings of the controls.

  function VenueA(): Place { Place("A", "Tver 1", "X", "24/7", 45) }
  function VenueB(): Place { Place("B", "Mira 2", "Y", "Mo-Fr 09:00-18:00", 30) }
  function VenueC(): Place { Place("C", "Lenina 3", "X", "Sa-Su 10:00-20:00", 20) }

  function ThreeVenues(): seq<Place> { [VenueA(), VenueB(), VenueC()] }

  /** One step of the filter: the head is decided, then the rest is filtered. */
  lemma FilterCons(x: Place, rest: seq<Place>, c: Criteria)
    ensures Filter([x] + rest, c) == (if Matches(x, c) then [x] else []) + Filter(rest, c)
  {
    assert ([x] + rest)[1..] == rest;
  }

  /** Filtering two places keeps each one that matches, in order. */
  lemma FilterTwo(y: Place, z: Place, c: Criteria)
    ensures Filter([y, z], c) == (if Matches(y, c) then [y] else []) + (if Matches(z, c) then [z] else [])
  {
    assert [y, z] == [y] + [z];
    assert [z] == [z] + [];
    FilterCons(z, [], c);
    FilterCons(y, [z], c);
  }

  /** Filtering three places decides each of them in turn, keeping their order. */
  lemma FilterThree(x: Place, y: Place, z: Place, c: Criteria)
    ensures Filter([x, y, z], c)
         == (if Matches(x, c) then [x] else [])
          + (if Matches(y, c) then [y] else [])
          + (if Matches(z, c) then [z] else [])
  {
    var head := if Matches(x, c) then [x] else [];
    var tail := Filter([y, z], c);
    assert [x, y, z] == [x] + [y, z];
    FilterCons(x, [y, z], c);
    assert Filter([x, y, z], c) == head + tail;
    FilterTwo(y, z, c);
  }

  /** Rating threshold 4: only A is left. */
  lemma ThreeVenuesByRating()
    ensures Filter(ThreeVenues(), Criteria(Some(40), All, All, "")) == [VenueA()]
  {
    var c := Criteria(Some(40), All, All, "");
    assert Matches(VenueA(), c) && !Matches(VenueB(), c) && !Matches(VenueC(), c);
    FilterThree(VenueA(), VenueB(), VenueC(), c);
  }

  /** District X: A and C, in their original order. */
  lemma ThreeVenuesByDistrict()
    ensures Filter(ThreeVenues(), Criteria(None, "X", All, "")) == [VenueA(), VenueC()]
  {
    var c := Criteria(None, "X", All, "");
    assert Matches(VenueA(), c) && !Matches(VenueB(), c) && Matches(VenueC(), c);
    FilterThree(VenueA(), VenueB(), VenueC(), c);
  }

  lemma SearchBMissesA()
    ensures !SearchMatches(VenueA(), "b")
  {
    assert Lower("b") == "b";
    assert Lower("A") == "a";
    NotContainsChar("a", 'b');
    assert Lower("Tver 1") == "tver 1";
    NotContainsChar("tver 1", 'b');
  }

  lemma SearchBFindsB()
    ensures SearchMatches(VenueB(), "b")
  {
    assert Lower("b") == "b";
    assert Lower("B") == "b";
    assert OccursAt("b", "b", 0);
  }

  lemma SearchBMissesC()
    ensures !SearchMatches(VenueC(), "b")
  {
    assert Lower("b") == "b";
    assert Lower("C") == "c";
    NotContainsChar("c", 'b');
    assert Lower("Lenina 3") == "lenina 3";
    NotContainsChar("lenina 3", 'b');
  }

  /** Search "b": only B, whose name is "B". */
  lemma ThreeVenuesBySearch()
    ensures Filter(ThreeVenues(), Criteria(None, All, All, "b")) == [VenueB()]
  {
    SearchBMissesA();
    SearchBFindsB();
    SearchBMissesC();
    FilterThree(VenueA(), VenueB(), VenueC(), Criteria(None, All, All, "b"));
  }
}
