/** Catalogue search: the text and classification search, the named quick
    filters and the advanced range filters (app.js `performSearch`,
    `applyQuickFilter`, `applyAdvancedFilters`). Each is a chain of
    order-preserving filters over the catalogue. */
module Search {
  import opened Basics
  import opened Seqs
  import opened Text
  import opened Catalog

  // ---------------------------------------------------------------------------
  // Text and classification search
  // ---------------------------------------------------------------------------

  /** The lower-cased query occurs in the lower-cased name, mission or id. */
  predicate TextMatch(query: string, p: Planet) {
    || Contains(Lower(p.name), query)
    || Contains(Lower(p.discoveryMission), query)
    || Contains(Lower(p.id), query)
  }

  function TextMatchFn(query: string): Planet -> bool {
    (p: Planet) => TextMatch(query, p)
  }

  function ClassIs(classFilter: string): Planet -> bool {
    (p: Planet) => p.classification.CatalogLabel() == classFilter
  }

  /** A planet a search shows: each filter that is set (non-empty) must accept it. */
  predicate SearchMatch(rawQuery: string, classFilter: string, p: Planet) {
    && (|rawQuery| == 0 || TextMatch(Lower(rawQuery), p))
    && (|classFilter| == 0 || p.classification.CatalogLabel() == classFilter)
  }

  function SearchMatchFn(rawQuery: string, classFilter: string): Planet -> bool {
    (p: Planet) => SearchMatch(rawQuery, classFilter, p)
  }

  /** `performSearch`: narrow by text when a query is typed, then by class when one is chosen. */
  function PerformSearch(catalog: seq<Planet>, rawQuery: string, classFilter: string): (r: seq<Planet>)
    ensures r == Filter(catalog, SearchMatchFn(rawQuery, classFilter))
    ensures Subseq(r, catalog)
  {
    var query := Lower(rawQuery);
    var byText := Narrow(catalog, |query| > 0, TextMatchFn(query));
    var byClass := Narrow(byText, |classFilter| > 0, ClassIs(classFilter));
    SearchIsOneFilter(catalog, rawQuery, classFilter);
    byClass
  }

  lemma SearchIsOneFilter(catalog: seq<Planet>, rawQuery: string, classFilter: string)
    ensures var query := Lower(rawQuery);
            Narrow(Narrow(catalog, |query| > 0, TextMatchFn(query)), |classFilter| > 0, ClassIs(classFilter))
            == Filter(catalog, SearchMatchFn(rawQuery, classFilter))
  {
    var query := Lower(rawQuery);
    var textOnly := (p: Planet) => |rawQuery| == 0 || TextMatch(query, p);
    FilterTrue(catalog, KeepAll<Planet>());
    NarrowFusion(catalog, KeepAll<Planet>(), |query| > 0, TextMatchFn(query), textOnly);
    NarrowFusion(catalog, textOnly, |classFilter| > 0, ClassIs(classFilter), SearchMatchFn(rawQuery, classFilter));
  }

  /** Every planet a search shows has the lower-cased query at some position of
      its lower-cased name, mission or id, and carries the chosen class when one
      is chosen; every catalogue planet meeting both is shown. An empty query
      occurs everywhere, so it constrains nothing. */
  lemma SearchResultsMatch(catalog: seq<Planet>, rawQuery: string, classFilter: string, p: Planet)
    ensures p in PerformSearch(catalog, rawQuery, classFilter)
        <==> && p in catalog
             && (|classFilter| == 0 || p.classification.CatalogLabel() == classFilter)
             && ((exists i :: OccursAt(Lower(p.name), Lower(rawQuery), i))
                 || (exists i :: OccursAt(Lower(p.discoveryMission), Lower(rawQuery), i))
                 || (exists i :: OccursAt(Lower(p.id), Lower(rawQuery), i)))
  {
    var q := Lower(rawQuery);
    ContainsIffOccurs(Lower(p.name), q);
    ContainsIffOccurs(Lower(p.discoveryMission), q);
    ContainsIffOccurs(Lower(p.id), q);
    FilterMembership(catalog, SearchMatchFn(rawQuery, classFilter), p);
  }

  /** With neither a query nor a class chosen, the search shows the whole catalogue. */
  lemma SearchEmptyIsCatalogue(catalog: seq<Planet>)
    ensures PerformSearch(catalog, "", "") == catalog
  {
    FilterTrue(catalog, SearchMatchFn("", ""));
  }

  /** The search ignores the case of the query. */
  lemma SearchIgnoresCase(catalog: seq<Planet>, rawQuery: string, classFilter: string)
    ensures PerformSearch(catalog, Lower(rawQuery), classFilter) == PerformSearch(catalog, rawQuery, classFilter)
  {
    LowerIdempotent(rawQuery);
    FilterExt(catalog, SearchMatchFn(Lower(rawQuery), classFilter), SearchMatchFn(rawQuery, classFilter));
  }

  /** Choosing the candidate class alone on the shipped catalogue shows TOI-715 b only. */
  lemma SampleCandidateSearch()
    ensures PerformSearch(Sample, "", "CANDIDATE") == [Toi715b]
  {
    FilterFive(Kepler452b, Trappist1e, Toi715b, K218b, Lhs1140b, SearchMatchFn("", "CANDIDATE"));
  }

  // ---------------------------------------------------------------------------
  // Quick filters
  // ---------------------------------------------------------------------------

  predicate EarthLike(p: Planet) {
    p.radiusEarth >= 0.5 && p.radiusEarth <= 2.0 && p.habitabilityScore >= 7.0
  }

  predicate HotJupiter(p: Planet) {
    p.radiusEarth >= 8.0 && p.orbitalPeriodDays <= 10.0
  }

  predicate Habitable(p: Planet) {
    p.habitabilityScore >= 8.0
  }

  function EarthLikeFn(): Planet -> bool { (p: Planet) => EarthLike(p) }
  function HotJupiterFn(): Planet -> bool { (p: Planet) => HotJupiter(p) }
  function HabitableFn(): Planet -> bool { (p: Planet) => Habitable(p) }

  /** The preset names the switch recognises. */
  predicate KnownPreset(preset: string) {
    preset == "earth-like" || preset == "hot-jupiter" || preset == "habitable"
  }

  /** `applyQuickFilter`: each named preset keeps exactly the planets meeting its
      criterion; a name the switch does not list leaves the catalogue as it is. */
  function ApplyQuickFilter(catalog: seq<Planet>, preset: string): (r: seq<Planet>)
    ensures preset == "earth-like" ==> r == Filter(catalog, EarthLikeFn())
    ensures preset == "hot-jupiter" ==> r == Filter(catalog, HotJupiterFn())
    ensures preset == "habitable" ==> r == Filter(catalog, HabitableFn())
    ensures Subseq(r, catalog)
    ensures preset == "earth-like" ==> forall p :: p in r <==> p in catalog && EarthLike(p)
    ensures preset == "hot-jupiter" ==> forall p :: p in r <==> p in catalog && HotJupiter(p)
    ensures preset == "habitable" ==> forall p :: p in r <==> p in catalog && Habitable(p)
    ensures !KnownPreset(preset) ==> r == catalog
  {
    if preset == "earth-like" then
      FilterMembers(catalog, EarthLikeFn());
      Filter(catalog, EarthLikeFn())
    else if preset == "hot-jupiter" then
      FilterMembers(catalog, HotJupiterFn());
      Filter(catalog, HotJupiterFn())
    else if preset == "habitable" then
      FilterMembers(catalog, HabitableFn());
      Filter(catalog, HabitableFn())
    else
      SubseqReflexive(catalog);
      catalog
  }

  /** On the shipped catalogue "habitable" shows Kepler-452b, TRAPPIST-1e and K2-18 b. */
  lemma SampleHabitable()
    ensures ApplyQuickFilter(Sample, "habitable") == [Kepler452b, Trappist1e, K218b]
  {
    FilterFive(Kepler452b, Trappist1e, Toi715b, K218b, Lhs1140b, HabitableFn());
  }

  /** The shipped catalogue has no hot Jupiter. */
  lemma SampleHotJupiter()
    ensures ApplyQuickFilter(Sample, "hot-jupiter") == []
  {
    FilterFive(Kepler452b, Trappist1e, Toi715b, K218b, Lhs1140b, HotJupiterFn());
  }

  /** On the shipped catalogue "earth-like" shows Kepler-452b, TRAPPIST-1e and LHS 1140 b. */
  lemma SampleEarthLike()
    ensures ApplyQuickFilter(Sample, "earth-like") == [Kepler452b, Trappist1e, Lhs1140b]
  {
    FilterFive(Kepler452b, Trappist1e, Toi715b, K218b, Lhs1140b, EarthLikeFn());
  }

  // ---------------------------------------------------------------------------
  // Advanced filters
  // ---------------------------------------------------------------------------

  /** A numeric form field: left blank, a number, or text `parseFloat` reads as NaN. */
  datatype Bound = Blank | Number(value: real) | NotANumber

  /** `x >= parseFloat(field)`: every comparison with NaN is false. */
  predicate AtLeastBound(x: real, b: Bound) {
    match b
    case Blank => true
    case Number(v) => x >= v
    case NotANumber => false
  }

  predicate AtMostBound(x: real, b: Bound) {
    match b
    case Blank => true
    case Number(v) => x <= v
    case NotANumber => false
  }

  /** The advanced filter form; the year field holds text such as "2015-2020". */
  datatype AdvancedFilters = AdvancedFilters(
    minRadius: Bound,
    maxRadius: Bound,
    minDistance: Bound,
    maxDistance: Bound,
    discoveryMission: string,
    discoveryYear: string)

  /** The form with every field left empty. */
  const NoFilters := AdvancedFilters(Blank, Blank, Blank, Blank, "", "")

  /** The year of a discovery date: `parseInt` of the text before its first '-'. */
  function DiscoveryYear(p: Planet): Option<int> {
    ParseInt(Split(p.discoveryDate, '-')[0])
  }

  /** `field.split("-").map(parseInt)`, destructured into a start and an end year;
      an end that is missing stays undefined. */
  function YearRange(text: string): (Option<int>, Option<int>) {
    var parts := Split(text, '-');
    (ParseInt(parts[0]), if |parts| >= 2 then ParseInt(parts[1]) else None)
  }

  /** `year >= startYear && year <= endYear`, where NaN or undefined fails both. */
  predicate InYears(p: Planet, text: string) {
    var range := YearRange(text);
    var year := DiscoveryYear(p);
    && year.Some? && range.0.Some? && range.1.Some?
    && range.0.value <= year.value <= range.1.value
  }

  /** A planet the advanced form lets through: each filled-in field must accept it. */
  predicate AdvancedMatch(f: AdvancedFilters, p: Planet) {
    && AtLeastBound(p.radiusEarth, f.minRadius)
    && AtMostBound(p.radiusEarth, f.maxRadius)
    && AtLeastBound(p.distanceLy, f.minDistance)
    && AtMostBound(p.distanceLy, f.maxDistance)
    && (|f.discoveryMission| == 0 || p.discoveryMission == f.discoveryMission)
    && (|f.discoveryYear| == 0 || InYears(p, f.discoveryYear))
  }

  function AdvancedMatchFn(f: AdvancedFilters): Planet -> bool {
    (p: Planet) => AdvancedMatch(f, p)
  }

  function MinRadiusFn(b: Bound): Planet -> bool { (p: Planet) => AtLeastBound(p.radiusEarth, b) }
  function MaxRadiusFn(b: Bound): Planet -> bool { (p: Planet) => AtMostBound(p.radiusEarth, b) }
  function MinDistanceFn(b: Bound): Planet -> bool { (p: Planet) => AtLeastBound(p.distanceLy, b) }
  function MaxDistanceFn(b: Bound): Planet -> bool { (p: Planet) => AtMostBound(p.distanceLy, b) }
  function MissionIs(m: string): Planet -> bool { (p: Planet) => p.discoveryMission == m }
  function InYearsFn(text: string): Planet -> bool { (p: Planet) => InYears(p, text) }

  /** `applyAdvancedFilters`: the six filters in the order the form lists them,
      each applied only when its field is filled in. */
  function ApplyAdvancedFilters(catalog: seq<Planet>, f: AdvancedFilters): (r: seq<Planet>)
    ensures r == Filter(catalog, AdvancedMatchFn(f))
    ensures Subseq(r, catalog)
    ensures forall p :: p in r <==> p in catalog && AdvancedMatch(f, p)
  {
    var r1 := Narrow(catalog, !f.minRadius.Blank?, MinRadiusFn(f.minRadius));
    var r2 := Narrow(r1, !f.maxRadius.Blank?, MaxRadiusFn(f.maxRadius));
    var r3 := Narrow(r2, !f.minDistance.Blank?, MinDistanceFn(f.minDistance));
    var r4 := Narrow(r3, !f.maxDistance.Blank?, MaxDistanceFn(f.maxDistance));
    var r5 := Narrow(r4, |f.discoveryMission| > 0, MissionIs(f.discoveryMission));
    var r6 := Narrow(r5, |f.discoveryYear| > 0, InYearsFn(f.discoveryYear));
    AdvancedIsOneFilter(catalog, f);
    FilterMembers(catalog, AdvancedMatchFn(f));
    r6
  }

  lemma AdvancedIsOneFilter(catalog: seq<Planet>, f: AdvancedFilters)
    ensures Narrow(Narrow(Narrow(Narrow(Narrow(Narrow(catalog,
              !f.minRadius.Blank?, MinRadiusFn(f.minRadius)),
              !f.maxRadius.Blank?, MaxRadiusFn(f.maxRadius)),
              !f.minDistance.Blank?, MinDistanceFn(f.minDistance)),
              !f.maxDistance.Blank?, MaxDistanceFn(f.maxDistance)),
              |f.discoveryMission| > 0, MissionIs(f.discoveryMission)),
              |f.discoveryYear| > 0, InYearsFn(f.discoveryYear))
         == Filter(catalog, AdvancedMatchFn(f))
  {
    var c1 := MinRadiusFn(f.minRadius);
    var c2 := (p: Planet) => c1(p) && AtMostBound(p.radiusEarth, f.maxRadius);
    var c3 := (p: Planet) => c2(p) && AtLeastBound(p.distanceLy, f.minDistance);
    var c4 := (p: Planet) => c3(p) && AtMostBound(p.distanceLy, f.maxDistance);
    var c5 := (p: Planet) => c4(p) && (|f.discoveryMission| == 0 || p.discoveryMission == f.discoveryMission);
    FilterTrue(catalog, KeepAll<Planet>());
    NarrowFusion(catalog, KeepAll<Planet>(), !f.minRadius.Blank?, MinRadiusFn(f.minRadius), c1);
    NarrowFusion(catalog, c1, !f.maxRadius.Blank?, MaxRadiusFn(f.maxRadius), c2);
    NarrowFusion(catalog, c2, !f.minDistance.Blank?, MinDistanceFn(f.minDistance), c3);
    NarrowFusion(catalog, c3, !f.maxDistance.Blank?, MaxDistanceFn(f.maxDistance), c4);
    NarrowFusion(catalog, c4, |f.discoveryMission| > 0, MissionIs(f.discoveryMission), c5);
    NarrowFusion(catalog, c5, |f.discoveryYear| > 0, InYearsFn(f.discoveryYear), AdvancedMatchFn(f));
  }

  /** An empty form shows the whole catalogue. */
  lemma AdvancedEmptyIsCatalogue(catalog: seq<Planet>)
    ensures ApplyAdvancedFilters(catalog, NoFilters) == catalog
  {
    FilterTrue(catalog, AdvancedMatchFn(NoFilters));
  }

  /** No rendered number contains the '-' separator. */
  lemma DigitsHaveNoDash(n: nat)
    ensures '-' !in NatToString(n)
  {
  }

  /** A date "YYYY-..." has year YYYY. */
  lemma DiscoveryYearOfDate(p: Planet, year: nat, rest: string)
    requires p.discoveryDate == NatToString(year) + "-" + rest
    ensures DiscoveryYear(p) == Some(year)
  {
    DigitsHaveNoDash(year);
    SplitAfterHead(NatToString(year), '-', rest);
    assert NatToString(year) + "-" + rest == NatToString(year) + ['-'] + rest;
    ParseIntNatToString(year, "");
    assert NatToString(year) + "" == NatToString(year);
  }

  /** A range "A-B" reads as the start year A and the end year B. */
  lemma YearRangeOf(start: nat, end: nat)
    ensures YearRange(NatToString(start) + "-" + NatToString(end)) == (Some(start), Some(end))
  {
    DigitsHaveNoDash(start);
    DigitsHaveNoDash(end);
    assert NatToString(start) + "-" + NatToString(end) == NatToString(start) + ['-'] + NatToString(end);
    SplitAfterHead(NatToString(start), '-', NatToString(end));
    SplitNoSeparator(NatToString(end), '-');
    ParseIntNatToString(start, "");
    assert NatToString(start) + "" == NatToString(start);
    ParseIntNatToString(end, "");
    assert NatToString(end) + "" == NatToString(end);
  }

  /** `parseInt` honours a hexadecimal prefix, so "0x7DF-0x7E4" is the range 2015 to 2020. */
  lemma HexYearRange()
    ensures YearRange("0x7DF-0x7E4") == (Some(2015), Some(2020))
  {
    assert "0x7DF-0x7E4" == "0x7DF" + ['-'] + "0x7E4";
    SplitAfterHead("0x7DF", '-', "0x7E4");
    SplitNoSeparator("0x7E4", '-');
    HexYearStart();
    HexYearEnd();
  }

  lemma HexYearStart()
    ensures ParseInt("0x7DF") == Some(2015)
  {
    assert "0x7DF"[2..] == "7DF" + "";
    ParseIntHex("0x7DF", "7DF", "");
    assert "7DF"[..2] == "7D" && "7D"[..1] == "7" && "7"[..0] == "";
  }

  lemma HexYearEnd()
    ensures ParseInt("0x7E4") == Some(2020)
  {
    assert "0x7E4"[2..] == "7E4" + "";
    ParseIntHex("0x7E4", "7E4", "");
    assert "7E4"[..2] == "7E" && "7E"[..1] == "7" && "7"[..0] == "";
  }

  /** With only a year range "A-B" filled in, a planet discovered in year Y passes
      exactly when A <= Y <= B. */
  lemma AdvancedYearRange(catalog: seq<Planet>, p: Planet, start: nat, end: nat, year: nat, rest: string)
    requires p in catalog
    requires p.discoveryDate == NatToString(year) + "-" + rest
    ensures var f := NoFilters.(discoveryYear := NatToString(start) + "-" + NatToString(end));
            p in ApplyAdvancedFilters(catalog, f) <==> start <= year <= end
  {
    DiscoveryYearOfDate(p, year, rest);
    YearRangeOf(start, end);
  }

  /** A year field without '-' has no end year, so it lets no planet through. */
  lemma SingleYearRejectsAll(catalog: seq<Planet>, f: AdvancedFilters)
    requires |f.discoveryYear| > 0 && '-' !in f.discoveryYear
    ensures ApplyAdvancedFilters(catalog, f) == []
  {
    SplitNoSeparator(f.discoveryYear, '-');
    FilterKeepsNone(catalog, AdvancedMatchFn(f));
  }

  /** A number the field cannot parse rejects every planet. */
  lemma NotANumberRejectsAll(catalog: seq<Planet>, f: AdvancedFilters)
    requires f.minRadius.NotANumber? || f.maxRadius.NotANumber?
             || f.minDistance.NotANumber? || f.maxDistance.NotANumber?
    ensures ApplyAdvancedFilters(catalog, f) == []
  {
    FilterKeepsNone(catalog, AdvancedMatchFn(f));
  }

  /** Mission "K2" on the shipped catalogue shows K2-18 b and LHS 1140 b. */
  lemma SampleMissionK2()
    ensures ApplyAdvancedFilters(Sample, NoFilters.(discoveryMission := "K2")) == [K218b, Lhs1140b]
  {
    FilterFive(Kepler452b, Trappist1e, Toi715b, K218b, Lhs1140b, AdvancedMatchFn(NoFilters.(discoveryMission := "K2")));
  }
}
