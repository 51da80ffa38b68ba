/** Ranking catalogue planets by how closely their radius and orbital period
    match a target (app.js `findSimilarByParameters`). */
module Similarity {
  import opened Basics
  import opened Seqs
  import opened Catalog

  /** A planet together with the similarity it was ranked by. */
  datatype Scored = Scored(planet: Planet, similarity: real)

  /** The most matches a similarity search returns. */
  const MaxResults: nat := 10

  /** Percentage similarity: 100 minus the mean relative deviation of radius
      and period from the targets (as a percentage), floored at 0. Targets of
      zero are excluded: the source divides by them. */
  function Score(p: Planet, targetRadius: real, targetPeriod: real): (r: real)
    requires targetRadius != 0.0 && targetPeriod != 0.0
    ensures r >= 0.0
    ensures targetRadius > 0.0 && targetPeriod > 0.0 ==> r <= 100.0
  {
    var radiusDiff := Abs(p.radiusEarth - targetRadius) / targetRadius;
    var periodDiff := Abs(p.orbitalPeriodDays - targetPeriod) / targetPeriod;
    MaxReal(0.0, 100.0 - ((radiusDiff + periodDiff) / 2.0) * 100.0)
  }

  /** With positive targets the score is a perfect 100 exactly when the planet
      hits both targets. */
  lemma ScorePerfect(p: Planet, targetRadius: real, targetPeriod: real)
    requires targetRadius > 0.0 && targetPeriod > 0.0
    ensures Score(p, targetRadius, targetPeriod) == 100.0
        <==> p.radiusEarth == targetRadius && p.orbitalPeriodDays == targetPeriod
  {
    RelativeDeviation(p.radiusEarth, targetRadius);
    RelativeDeviation(p.orbitalPeriodDays, targetPeriod);
  }

  lemma RelativeDeviation(x: real, t: real)
    requires t > 0.0
    ensures Abs(x - t) / t >= 0.0
    ensures Abs(x - t) / t == 0.0 <==> x == t
  {
  }

  /** A planet at least as close to both targets scores at least as high. */
  lemma ScoreMonotone(p: Planet, q: Planet, targetRadius: real, targetPeriod: real)
    requires targetRadius > 0.0 && targetPeriod > 0.0
    requires Abs(p.radiusEarth - targetRadius) <= Abs(q.radiusEarth - targetRadius)
    requires Abs(p.orbitalPeriodDays - targetPeriod) <= Abs(q.orbitalPeriodDays - targetPeriod)
    ensures Score(p, targetRadius, targetPeriod) >= Score(q, targetRadius, targetPeriod)
  {
    DivideMonotone(Abs(p.radiusEarth - targetRadius), Abs(q.radiusEarth - targetRadius), targetRadius);
    DivideMonotone(Abs(p.orbitalPeriodDays - targetPeriod), Abs(q.orbitalPeriodDays - targetPeriod), targetPeriod);
  }

  lemma DivideMonotone(a: real, b: real, t: real)
    requires t > 0.0 && a <= b
    ensures a / t <= b / t
  {
  }

  /** The `map` step: every planet paired with its score. */
  function ScoreAll(ps: seq<Planet>, targetRadius: real, targetPeriod: real): (r: seq<Scored>)
    requires targetRadius != 0.0 && targetPeriod != 0.0
    ensures |r| == |ps|
    ensures forall i :: 0 <= i < |r| ==> r[i] == Scored(ps[i], Score(ps[i], targetRadius, targetPeriod))
    decreases |ps|
  {
    if |ps| == 0 then []
    else [Scored(ps[0], Score(ps[0], targetRadius, targetPeriod))] + ScoreAll(ps[1..], targetRadius, targetPeriod)
  }

  function WithinDistance(maxDistance: real): Planet -> bool {
    (p: Planet) => p.distanceLy <= maxDistance
  }

  function AtLeast(threshold: real): Scored -> bool {
    (e: Scored) => e.similarity >= threshold
  }

  function SimilarityIs(k: real): Scored -> bool {
    (e: Scored) => e.similarity == k
  }

  /** A planet survives both cuts of a similarity search. */
  predicate Qualifies(p: Planet, targetRadius: real, targetPeriod: real, maxDistance: real, threshold: real)
    requires targetRadius != 0.0 && targetPeriod != 0.0
  {
    p.distanceLy <= maxDistance && Score(p, targetRadius, targetPeriod) >= threshold
  }

  function QualifiesFn(targetRadius: real, targetPeriod: real, maxDistance: real, threshold: real): Planet -> bool
    requires targetRadius != 0.0 && targetPeriod != 0.0
  {
    (p: Planet) => Qualifies(p, targetRadius, targetPeriod, maxDistance, threshold)
  }

  /** The filter / map / filter pipeline before sorting, step by step as the source chains it. */
  function Qualifying(catalog: seq<Planet>, targetRadius: real, targetPeriod: real,
                      maxDistance: real, threshold: real): seq<Scored>
    requires targetRadius != 0.0 && targetPeriod != 0.0
  {
    Filter(ScoreAll(Filter(catalog, WithinDistance(maxDistance)), targetRadius, targetPeriod),
           AtLeast(threshold))
  }

  /** The pipeline scores exactly the qualifying planets, in catalogue order. */
  lemma {:induction false} QualifyingIsScoredFilter(catalog: seq<Planet>, targetRadius: real, targetPeriod: real,
                                                    maxDistance: real, threshold: real)
    requires targetRadius != 0.0 && targetPeriod != 0.0
    ensures Qualifying(catalog, targetRadius, targetPeriod, maxDistance, threshold)
         == ScoreAll(Filter(catalog, QualifiesFn(targetRadius, targetPeriod, maxDistance, threshold)),
                     targetRadius, targetPeriod)
    decreases |catalog|
  {
    if |catalog| > 0 {
      var p := catalog[0];
      var rest := catalog[1..];
      QualifyingIsScoredFilter(rest, targetRadius, targetPeriod, maxDistance, threshold);
      var near := Filter(rest, WithinDistance(maxDistance));
      var e := Scored(p, Score(p, targetRadius, targetPeriod));
      if p.distanceLy <= maxDistance {
        assert Filter(catalog, WithinDistance(maxDistance)) == [p] + near;
        var scored := ScoreAll([p] + near, targetRadius, targetPeriod);
        assert scored == [e] + ScoreAll(near, targetRadius, targetPeriod);
        assert scored[1..] == ScoreAll(near, targetRadius, targetPeriod);
        if e.similarity >= threshold {
          var q := Filter(rest, QualifiesFn(targetRadius, targetPeriod, maxDistance, threshold));
          assert Filter(catalog, QualifiesFn(targetRadius, targetPeriod, maxDistance, threshold)) == [p] + q;
          assert ([p] + q)[1..] == q;
        }
      }
    }
  }

  /** Every pipeline survivor is a qualifying catalogue planet carrying its own score. */
  lemma QualifyingMembers(catalog: seq<Planet>, targetRadius: real, targetPeriod: real,
                          maxDistance: real, threshold: real, e: Scored)
    requires targetRadius != 0.0 && targetPeriod != 0.0
    requires e in Qualifying(catalog, targetRadius, targetPeriod, maxDistance, threshold)
    ensures e.planet in catalog
    ensures Qualifies(e.planet, targetRadius, targetPeriod, maxDistance, threshold)
    ensures e.similarity == Score(e.planet, targetRadius, targetPeriod)
  {
    QualifyingIsScoredFilter(catalog, targetRadius, targetPeriod, maxDistance, threshold);
    var f := Filter(catalog, QualifiesFn(targetRadius, targetPeriod, maxDistance, threshold));
    var j :| 0 <= j < |f| && ScoreAll(f, targetRadius, targetPeriod)[j] == e;
    assert e.planet == f[j];
  }

  /** Non-increasing similarity. */
  predicate SortedDesc(s: seq<Scored>) {
    forall i, j :: 0 <= i < j < |s| ==> s[i].similarity >= s[j].similarity
  }

  /** Insert `x` after every element at least as similar, so equal scores keep arrival order. */
  function Insert(x: Scored, s: seq<Scored>): (r: seq<Scored>)
    ensures |r| == |s| + 1
    ensures multiset(r) == multiset(s) + multiset{x}
    ensures forall j :: 0 <= j < |r| ==> r[j] == x || r[j] in s
    decreases |s|
  {
    if |s| == 0 then [x]
    else if s[0].similarity >= x.similarity then
      assert s == [s[0]] + s[1..];
      [s[0]] + Insert(x, s[1..])
    else [x] + s
  }

  lemma {:induction false} InsertSorted(x: Scored, s: seq<Scored>)
    requires SortedDesc(s)
    ensures SortedDesc(Insert(x, s))
    decreases |s|
  {
    if |s| > 0 && s[0].similarity >= x.similarity {
      var tail := Insert(x, s[1..]);
      InsertSorted(x, s[1..]);
      forall j | 0 <= j < |tail|
        ensures s[0].similarity >= tail[j].similarity
      {
        if tail[j] != x {
          var m :| 0 <= m < |s[1..]| && s[1..][m] == tail[j];
          assert s[m + 1] == tail[j];
        }
      }
      assert Insert(x, s) == [s[0]] + tail;
    }
  }

  /** A stable sort, descending by similarity: JavaScript's `sort((a, b) => b.similarity - a.similarity)`. */
  function SortBySimilarity(s: seq<Scored>): (r: seq<Scored>)
    ensures |r| == |s|
    ensures multiset(r) == multiset(s)
    ensures SortedDesc(r)
    decreases |s|
  {
    if |s| == 0 then []
    else
      var sortedInit := SortBySimilarity(s[..|s| - 1]);
      assert s == s[..|s| - 1] + [s[|s| - 1]];
      InsertSorted(s[|s| - 1], sortedInit);
      Insert(s[|s| - 1], sortedInit)
  }

  lemma {:induction false} InsertStable(x: Scored, s: seq<Scored>, k: real)
    requires SortedDesc(s)
    ensures Filter(Insert(x, s), SimilarityIs(k))
         == Filter(s, SimilarityIs(k)) + Pick(x, SimilarityIs(k))
    decreases |s|
  {
    var eq := SimilarityIs(k);
    if |s| == 0 {
      FilterCons(x, [], eq);
    } else {
      var y := s[0];
      assert s == [y] + s[1..];
      FilterCons(y, s[1..], eq);
      if y.similarity >= x.similarity {
        var tail := Insert(x, s[1..]);
        assert Insert(x, s) == [y] + tail;
        InsertStable(x, s[1..], k);
        FilterCons(y, tail, eq);
      } else {
        assert Insert(x, s) == [x] + s;
        FilterCons(x, s, eq);
        if x.similarity == k {
          FilterKeepsNone(s, eq);
        }
      }
    }
  }

  /** Sorting keeps the relative order of equally similar planets. */
  lemma {:induction false} SortStable(s: seq<Scored>, k: real)
    ensures Filter(SortBySimilarity(s), SimilarityIs(k)) == Filter(s, SimilarityIs(k))
    decreases |s|
  {
    if |s| > 0 {
      var eq := SimilarityIs(k);
      var init := s[..|s| - 1];
      var last := s[|s| - 1];
      var sortedInit := SortBySimilarity(init);
      var x := Pick(last, eq);
      assert s == init + [last];
      calc {
        Filter(SortBySimilarity(s), eq);
        Filter(Insert(last, sortedInit), eq);
        { InsertStable(last, sortedInit, k); }
        Filter(sortedInit, eq) + x;
        { SortStable(init, k); }
        Filter(init, eq) + x;
        { FilterCons(last, [], eq); assert [last] + [] == [last]; }
        Filter(init, eq) + Filter([last], eq);
        { FilterAppend(init, [last], eq); }
        Filter(s, eq);
      }
    }
  }

  /** The qualifying planets, scored and in ranking order, before the cut to ten. */
  function Ranked(catalog: seq<Planet>, targetRadius: real, targetPeriod: real,
                  maxDistance: real, threshold: real): (r: seq<Scored>)
    requires targetRadius != 0.0 && targetPeriod != 0.0
    ensures multiset(r) == multiset(Qualifying(catalog, targetRadius, targetPeriod, maxDistance, threshold))
    ensures SortedDesc(r)
  {
    SortBySimilarity(Qualifying(catalog, targetRadius, targetPeriod, maxDistance, threshold))
  }

  /** `findSimilarByParameters`: drop planets beyond `maxDistance`, score the rest,
      drop those below `threshold`, sort descending, keep at most ten. */
  function FindSimilarByParameters(catalog: seq<Planet>, targetRadius: real, targetPeriod: real,
                                   maxDistance: real, threshold: real): (r: seq<Scored>)
    requires targetRadius != 0.0 && targetPeriod != 0.0
    ensures |r| <= MaxResults
    ensures SortedDesc(r)
    ensures forall i :: 0 <= i < |r| ==>
              && r[i].planet in catalog
              && r[i].planet.distanceLy <= maxDistance
              && r[i].similarity >= threshold
              && r[i].similarity == Score(r[i].planet, targetRadius, targetPeriod)
  {
    var ranked := Ranked(catalog, targetRadius, targetPeriod, maxDistance, threshold);
    var r := ranked[..Min(MaxResults, |ranked|)];
    assert forall i :: 0 <= i < |r| ==> r[i] in multiset(ranked);
    forall i | 0 <= i < |r|
      ensures r[i].planet in catalog && Qualifies(r[i].planet, targetRadius, targetPeriod, maxDistance, threshold)
      ensures r[i].similarity == Score(r[i].planet, targetRadius, targetPeriod)
    {
      QualifyingMembers(catalog, targetRadius, targetPeriod, maxDistance, threshold, r[i]);
    }
    r
  }

  /** The number of planets that qualify, and a planet's scored entry. */
  function QualifyingCount(catalog: seq<Planet>, targetRadius: real, targetPeriod: real,
                           maxDistance: real, threshold: real): nat
    requires targetRadius != 0.0 && targetPeriod != 0.0
  {
    |Filter(catalog, QualifiesFn(targetRadius, targetPeriod, maxDistance, threshold))|
  }

  lemma QualifierIsInPipeline(catalog: seq<Planet>, targetRadius: real, targetPeriod: real,
                              maxDistance: real, threshold: real, p: Planet)
    requires targetRadius != 0.0 && targetPeriod != 0.0
    requires p in catalog && Qualifies(p, targetRadius, targetPeriod, maxDistance, threshold)
    ensures Scored(p, Score(p, targetRadius, targetPeriod))
            in Qualifying(catalog, targetRadius, targetPeriod, maxDistance, threshold)
  {
    QualifyingIsScoredFilter(catalog, targetRadius, targetPeriod, maxDistance, threshold);
    var f := Filter(catalog, QualifiesFn(targetRadius, targetPeriod, maxDistance, threshold));
    var i :| 0 <= i < |catalog| && catalog[i] == p;
    var j :| 0 <= j < |f| && f[j] == p;
    assert ScoreAll(f, targetRadius, targetPeriod)[j] == Scored(p, Score(p, targetRadius, targetPeriod));
  }

  /** The result holds min(10, number qualifying) entries; when at most ten
      planets qualify, every one of them is returned. */
  lemma FindSimilarComplete(catalog: seq<Planet>, targetRadius: real, targetPeriod: real,
                            maxDistance: real, threshold: real)
    requires targetRadius != 0.0 && targetPeriod != 0.0
    ensures var r := FindSimilarByParameters(catalog, targetRadius, targetPeriod, maxDistance, threshold);
            var n := QualifyingCount(catalog, targetRadius, targetPeriod, maxDistance, threshold);
            && |r| == Min(MaxResults, n)
            && (n <= MaxResults ==>
                  forall p :: p in catalog && Qualifies(p, targetRadius, targetPeriod, maxDistance, threshold)
                              ==> Scored(p, Score(p, targetRadius, targetPeriod)) in r)
  {
    var ranked := Ranked(catalog, targetRadius, targetPeriod, maxDistance, threshold);
    RankedHoldsAllQualifiers(catalog, targetRadius, targetPeriod, maxDistance, threshold);
    if |ranked| <= MaxResults {
      assert ranked[..Min(MaxResults, |ranked|)] == ranked;
    }
  }

  /** The ranking holds one entry per qualifying planet, every one of them. */
  lemma RankedHoldsAllQualifiers(catalog: seq<Planet>, targetRadius: real, targetPeriod: real,
                                 maxDistance: real, threshold: real)
    requires targetRadius != 0.0 && targetPeriod != 0.0
    ensures var ranked := Ranked(catalog, targetRadius, targetPeriod, maxDistance, threshold);
            && |ranked| == QualifyingCount(catalog, targetRadius, targetPeriod, maxDistance, threshold)
            && forall p :: p in catalog && Qualifies(p, targetRadius, targetPeriod, maxDistance, threshold)
                           ==> Scored(p, Score(p, targetRadius, targetPeriod)) in ranked
  {
    var q := Qualifying(catalog, targetRadius, targetPeriod, maxDistance, threshold);
    QualifyingIsScoredFilter(catalog, targetRadius, targetPeriod, maxDistance, threshold);
    assert |SortBySimilarity(q)| == |q|;
    AllQualifiersRanked(catalog, targetRadius, targetPeriod, maxDistance, threshold);
  }

  /** Every qualifying planet's scored entry survives the sort. */
  lemma AllQualifiersRanked(catalog: seq<Planet>, targetRadius: real, targetPeriod: real,
                            maxDistance: real, threshold: real)
    requires targetRadius != 0.0 && targetPeriod != 0.0
    ensures var ranked := SortBySimilarity(Qualifying(catalog, targetRadius, targetPeriod, maxDistance, threshold));
            forall p :: p in catalog && Qualifies(p, targetRadius, targetPeriod, maxDistance, threshold)
                        ==> Scored(p, Score(p, targetRadius, targetPeriod)) in ranked
  {
    var ranked := SortBySimilarity(Qualifying(catalog, targetRadius, targetPeriod, maxDistance, threshold));
    forall p | p in catalog && Qualifies(p, targetRadius, targetPeriod, maxDistance, threshold)
      ensures Scored(p, Score(p, targetRadius, targetPeriod)) in ranked
    {
      QualifierIsInPipeline(catalog, targetRadius, targetPeriod, maxDistance, threshold, p);
      assert Scored(p, Score(p, targetRadius, targetPeriod)) in multiset(ranked);
    }
  }

  /** Nothing strictly better is cut: a qualifying planet left out scores no
      higher than any planet returned. */
  lemma FindSimilarKeepsBest(catalog: seq<Planet>, targetRadius: real, targetPeriod: real,
                             maxDistance: real, threshold: real, p: Planet)
    requires targetRadius != 0.0 && targetPeriod != 0.0
    requires p in catalog && Qualifies(p, targetRadius, targetPeriod, maxDistance, threshold)
    ensures var r := FindSimilarByParameters(catalog, targetRadius, targetPeriod, maxDistance, threshold);
            Scored(p, Score(p, targetRadius, targetPeriod)) !in r ==>
              forall i :: 0 <= i < |r| ==> Score(p, targetRadius, targetPeriod) <= r[i].similarity
  {
    var e := Scored(p, Score(p, targetRadius, targetPeriod));
    var q := Qualifying(catalog, targetRadius, targetPeriod, maxDistance, threshold);
    var ranked := SortBySimilarity(q);
    var r := ranked[..Min(MaxResults, |ranked|)];
    QualifierIsInPipeline(catalog, targetRadius, targetPeriod, maxDistance, threshold, p);
    assert e in multiset(ranked);
    var m :| 0 <= m < |ranked| && ranked[m] == e;
    if m < |r| {
      assert r[m] == e;
    }
  }

  /** Equally similar results appear in catalogue order: among the returned
      entries with a given similarity, the order is a prefix of the catalogue order. */
  lemma FindSimilarTiesInCatalogueOrder(catalog: seq<Planet>, targetRadius: real, targetPeriod: real,
                                        maxDistance: real, threshold: real, k: real)
    requires targetRadius != 0.0 && targetPeriod != 0.0
    ensures Filter(FindSimilarByParameters(catalog, targetRadius, targetPeriod, maxDistance, threshold),
                   SimilarityIs(k))
         <= Filter(ScoreAll(Filter(catalog, QualifiesFn(targetRadius, targetPeriod, maxDistance, threshold)),
                            targetRadius, targetPeriod),
                   SimilarityIs(k))
  {
    var q := Qualifying(catalog, targetRadius, targetPeriod, maxDistance, threshold);
    var ranked := SortBySimilarity(q);
    QualifyingIsScoredFilter(catalog, targetRadius, targetPeriod, maxDistance, threshold);
    FilterPrefix(ranked, Min(MaxResults, |ranked|), SimilarityIs(k));
    SortStable(q, k);
  }
}
