/** The 3D explorer's filters (app.js `filterExplorerPlanets`,
    `resetExplorerView`, `zoomExplorer`): which planets stay highlighted, how
    many there are and their mean distance, and the zoom factor's range. */
module Explorer {
  import opened Basics
  import opened Seqs
  import opened Catalog

  /** The explorer's controls: the distance slider (whole light years) and three drop-downs. */
  datatype ExplorerFilters = ExplorerFilters(distance: int, size: string, habitability: string, mission: string)

  /** The controls after a reset: everything within 1500 light years. */
  const ResetFilters := ExplorerFilters(1500, "all", "all", "all")

  predicate SizeVisible(size: string, p: Planet) {
    && !(size == "small" && p.radiusEarth >= 2.0)
    && !(size == "large" && p.radiusEarth < 2.0)
    && !(size == "giant" && p.radiusEarth < 10.0)
  }

  predicate HabitabilityVisible(habitability: string, p: Planet) {
    && !(habitability == "high" && p.habitabilityScore <= 8.0)
    && !(habitability == "medium" && (p.habitabilityScore <= 5.0 || p.habitabilityScore > 8.0))
    && !(habitability == "low" && p.habitabilityScore > 5.0)
  }

  /** A planet stays visible unless one of the rules hides it. */
  predicate Visible(f: ExplorerFilters, p: Planet) {
    && !(p.distanceLy > f.distance as real)
    && SizeVisible(f.size, p)
    && HabitabilityVisible(f.habitability, p)
    && !(f.mission != "all" && p.discoveryMission != f.mission)
  }

  function VisibleFn(f: ExplorerFilters): Planet -> bool {
    (p: Planet) => Visible(f, p)
  }

  /** The visible planets, in catalogue order. */
  function VisiblePlanets(catalog: seq<Planet>, f: ExplorerFilters): seq<Planet> {
    Filter(catalog, VisibleFn(f))
  }

  /** Total distance, accumulated from the front as the loop over the catalogue does. */
  function SumDistance(s: seq<Planet>): real
    decreases |s|
  {
    if |s| == 0 then 0.0 else SumDistance(s[..|s| - 1]) + s[|s| - 1].distanceLy
  }

  /** The statistic shown: the rounded mean distance, 0 when nothing is visible. */
  function AverageDistance(catalog: seq<Planet>, f: ExplorerFilters): int {
    var shown := VisiblePlanets(catalog, f);
    if |shown| > 0 then Round(SumDistance(shown) / |shown| as real) else 0
  }

  /** `filterExplorerPlanets`: one pass over the catalogue marking each planet,
      counting the visible ones and summing their distances, then the rounded mean. */
  method FilterExplorerPlanets(catalog: seq<Planet>, f: ExplorerFilters)
    returns (visible: seq<bool>, count: nat, average: int)
    ensures |visible| == |catalog|
    ensures forall i :: 0 <= i < |catalog| ==> visible[i] == Visible(f, catalog[i])
    ensures count == |VisiblePlanets(catalog, f)|
    ensures count <= |catalog|
    ensures average == AverageDistance(catalog, f)
    ensures count == 0 ==> average == 0
  {
    var total;
    visible, count, total := ScanCatalog(catalog, f);
    if count > 0 {
      average := Round(total / count as real);
    } else {
      average := 0;
    }
  }

  /** The loop of `filterExplorerPlanets`: the flags, the visible count and the summed distance. */
  method ScanCatalog(catalog: seq<Planet>, f: ExplorerFilters)
    returns (visible: seq<bool>, count: nat, total: real)
    ensures |visible| == |catalog|
    ensures forall i :: 0 <= i < |catalog| ==> visible[i] == Visible(f, catalog[i])
    ensures count == |VisiblePlanets(catalog, f)|
    ensures total == SumDistance(VisiblePlanets(catalog, f))
  {
    visible := [];
    count := 0;
    total := 0.0;
    ghost var shown: seq<Planet> := [];
    var i := 0;
    while i < |catalog|
      invariant 0 <= i <= |catalog|
      invariant |visible| == i
      invariant forall k :: 0 <= k < i ==> visible[k] == Visible(f, catalog[k])
      invariant shown == VisiblePlanets(catalog[..i], f)
      invariant count == |shown| && total == SumDistance(shown)
    {
      var p := catalog[i];
      var keep := Visible(f, p);
      VisibleStep(catalog, f, i);
      if keep {
        SumDistanceSnoc(shown, p);
        count := count + 1;
        total := total + p.distanceLy;
        shown := shown + [p];
      }
      visible := visible + [keep];
      i := i + 1;
    }
    assert catalog[..i] == catalog;
  }

  lemma SumDistanceSnoc(s: seq<Planet>, p: Planet)
    ensures SumDistance(s + [p]) == SumDistance(s) + p.distanceLy
  {
    assert (s + [p])[..|s|] == s;
  }

  /** Extending the scanned prefix by one planet adds it to the visible list when it is visible. */
  lemma VisibleStep(catalog: seq<Planet>, f: ExplorerFilters, i: nat)
    requires i < |catalog|
    ensures var before := VisiblePlanets(catalog[..i], f);
            var after := VisiblePlanets(catalog[..i + 1], f);
            && (Visible(f, catalog[i]) ==> after == before + [catalog[i]])
            && (!Visible(f, catalog[i]) ==> after == before)
  {
    assert catalog[..i + 1] == catalog[..i] + [catalog[i]];
    FilterAppend(catalog[..i], [catalog[i]], VisibleFn(f));
    FilterCons(catalog[i], [], VisibleFn(f));
    assert [catalog[i]] + [] == [catalog[i]];
    var before := VisiblePlanets(catalog[..i], f);
    if Visible(f, catalog[i]) {
      assert (before + [catalog[i]])[..|before|] == before;
    } else {
      assert before + [] == before;
    }
  }

  /** Visible planets are all within the slider's distance. */
  lemma {:induction false} SumDistanceBounds(s: seq<Planet>, limit: real)
    requires forall i :: 0 <= i < |s| ==> 0.0 <= s[i].distanceLy <= limit
    ensures 0.0 <= SumDistance(s) <= |s| as real * limit
    decreases |s|
  {
    if |s| > 0 {
      SumDistanceBounds(s[..|s| - 1], limit);
    }
  }

  /** The mean distance shown never exceeds the slider, and is not negative
      when the catalogue's distances are not. */
  lemma AverageWithinSlider(catalog: seq<Planet>, f: ExplorerFilters)
    requires forall p :: p in catalog ==> p.distanceLy >= 0.0
    ensures 0 <= AverageDistance(catalog, f)
    ensures |VisiblePlanets(catalog, f)| > 0 ==> AverageDistance(catalog, f) <= f.distance
  {
    var shown := VisiblePlanets(catalog, f);
    if |shown| > 0 {
      VisibleWithinSlider(catalog, f);
      MeanOfBounded(shown, f.distance);
    }
  }

  /** The rounded mean distance of planets each within [0, limit] lies in [0, limit]. */
  lemma MeanOfBounded(s: seq<Planet>, limit: int)
    requires |s| > 0
    requires forall i :: 0 <= i < |s| ==> 0.0 <= s[i].distanceLy <= limit as real
    ensures 0 <= Round(SumDistance(s) / |s| as real) <= limit
  {
    SumDistanceBounds(s, limit as real);
    MeanBounds(SumDistance(s), |s|, limit);
  }

  lemma VisibleWithinSlider(catalog: seq<Planet>, f: ExplorerFilters)
    requires forall p :: p in catalog ==> p.distanceLy >= 0.0
    ensures var shown := VisiblePlanets(catalog, f);
            forall i :: 0 <= i < |shown| ==> 0.0 <= shown[i].distanceLy <= f.distance as real
  {
    var shown := VisiblePlanets(catalog, f);
    forall i | 0 <= i < |shown|
      ensures 0.0 <= shown[i].distanceLy <= f.distance as real
    {
      assert Visible(f, shown[i]);
      assert shown[i] in catalog;
    }
  }

  /** A non-negative total of n values, each at most `limit`, rounds to a mean in [0, limit]. */
  lemma MeanBounds(total: real, n: nat, limit: int)
    requires n > 0 && 0.0 <= total <= n as real * limit as real
    ensures 0 <= Round(total / n as real) <= limit
  {
    var mean := total / n as real;
    assert mean <= limit as real;
    RoundMonotone(mean, limit as real);
    RoundMonotone(0.0, mean);
  }

  /** A giant planet is also a large one. */
  lemma GiantIsLarge(f: ExplorerFilters, p: Planet)
    ensures Visible(f.(size := "giant"), p) ==> Visible(f.(size := "large"), p)
  {
  }

  /** "small" and "large" split the planets by radius: exactly one of them shows
      any planet the other controls let through. */
  lemma SmallLargePartition(f: ExplorerFilters, p: Planet)
    ensures Visible(f.(size := "small"), p) || Visible(f.(size := "large"), p)
        <==> Visible(f.(size := "all"), p)
    ensures !(Visible(f.(size := "small"), p) && Visible(f.(size := "large"), p))
  {
  }

  /** "high", "medium" and "low" habitability split every score between them. */
  lemma HabitabilityPartition(f: ExplorerFilters, p: Planet)
    ensures Visible(f.(habitability := "high"), p) || Visible(f.(habitability := "medium"), p)
            || Visible(f.(habitability := "low"), p)
        <==> Visible(f.(habitability := "all"), p)
    ensures !(Visible(f.(habitability := "high"), p) && Visible(f.(habitability := "medium"), p))
    ensures !(Visible(f.(habitability := "high"), p) && Visible(f.(habitability := "low"), p))
    ensures !(Visible(f.(habitability := "medium"), p) && Visible(f.(habitability := "low"), p))
  {
  }

  /** After a reset a planet is visible exactly when it lies within 1500 light years. */
  lemma ResetShowsNearbyPlanets(p: Planet)
    ensures Visible(ResetFilters, p) <==> p.distanceLy <= 1500.0
  {
  }

  /** After a reset all five shipped planets are visible. */
  lemma SampleAfterReset()
    ensures VisiblePlanets(Sample, ResetFilters) == Sample
  {
    SampleAllVisible();
    FilterKeepsAll(Sample, VisibleFn(ResetFilters));
  }

  /** After a reset the shipped planets are 349 light years away on average. */
  lemma SampleAverageAfterReset()
    ensures AverageDistance(Sample, ResetFilters) == 349
  {
    SampleAfterReset();
    SampleTotalDistance();
    assert |Sample| == 5;
    var r := Round(1743.7 / 5.0);
    assert r == 349;
  }

  lemma SampleAllVisible()
    ensures forall p :: p in Sample ==> Visible(ResetFilters, p)
  {
    forall p | p in Sample
      ensures Visible(ResetFilters, p)
    {
      ResetShowsNearbyPlanets(p);
    }
  }

  lemma SampleTotalDistance()
    ensures SumDistance(Sample) == 1743.7
  {
    var s1 := [Kepler452b];
    assert s1[..0] == [];
    assert SumDistance(s1) == 1402.0;
    var s2 := s1 + [Trappist1e];
    assert s2[..1] == s1;
    assert SumDistance(s2) == 1442.0;
    var s3 := s2 + [Toi715b];
    assert s3[..2] == s2;
    assert SumDistance(s3) == 1579.0;
    var s4 := s3 + [K218b];
    assert s4[..3] == s3;
    assert SumDistance(s4) == 1703.0;
    var s5 := s4 + [Lhs1140b];
    assert s5[..4] == s4;
    assert s5 == Sample;
  }

  const MinZoom: real := 0.5
  const MaxZoom: real := 3.0

  /** `zoomExplorer`: scale by the factor, clamped to [0.5, 3]. */
  function ZoomExplorer(current: real, factor: real): (r: real)
    ensures MinZoom <= r <= MaxZoom
    ensures MinZoom <= current * factor <= MaxZoom ==> r == current * factor
    ensures current * factor < MinZoom ==> r == MinZoom
    ensures current * factor > MaxZoom ==> r == MaxZoom
  {
    MinReal(MaxReal(current * factor, MinZoom), MaxZoom)
  }
}
