/** The simulated classifier (app.js `simulateAIAnalysis` and `findSimilarPlanets`).
    Every `Math.random()` draw it makes is a parameter here, so a verdict is a
    function of its draws. */
module Analysis {
  import opened Basics
  import opened Seqs
  import opened Catalog
  import opened Similarity

  /** An explanatory factor with its fixed importance weight. */
  datatype Factor = Factor(name: string, importance: real)

  /** The detection factors the application explains verdicts with. */
  const DetectionFactors: seq<Factor> := [
    Factor("Transit Depth Consistency", 0.28),
    Factor("Orbital Period Stability", 0.24),
    Factor("Signal-to-Noise Ratio", 0.19),
    Factor("Stellar Activity Assessment", 0.16),
    Factor("Multi-Transit Detection", 0.13)
  ]

  /** A factor as reported in a verdict: its weight and the score observed this time. */
  datatype KeyFactor = KeyFactor(name: string, importance: real, score: real)

  /** How many confirmed planets a verdict lists as similar. */
  const SimilarCount: nat := 3

  const BaseAccuracy: real := 98.5

  /** The uniform draws one analysis consumes, named by what they decide. */
  datatype Draws = Draws(
    accuracy: real,
    decision: real,
    insufficientData: real,
    factorScores: seq<real>,
    similarities: seq<real>,
    processingTime: real)

  /** The range of `Math.random()`. */
  predicate Unit(x: real) {
    0.0 <= x < 1.0
  }

  predicate AllUnit(xs: seq<real>) {
    forall i :: 0 <= i < |xs| ==> Unit(xs[i])
  }

  /** One draw for each factor and one for each similar planet, all in [0, 1). */
  predicate ValidDraws(d: Draws, factorCount: nat) {
    && Unit(d.accuracy) && Unit(d.decision) && Unit(d.insufficientData) && Unit(d.processingTime)
    && |d.factorScores| == factorCount && AllUnit(d.factorScores)
    && |d.similarities| == SimilarCount && AllUnit(d.similarities)
  }

  datatype Verdict = Verdict(
    classification: Disposition,
    confidence: real,
    keyFactors: seq<KeyFactor>,
    similarPlanets: seq<Scored>,
    timestamp: int,
    processingTime: real,
    hasInsufficientData: bool)

  /** The accuracy an analysis reports: 98.5 less up to 2 points. */
  function Accuracy(draw: real): (a: real)
    requires Unit(draw)
    ensures 96.5 < a <= BaseAccuracy
  {
    BaseAccuracy - draw * 2.0
  }

  /** How strong a label is: confirmed over candidate over false positive. */
  function Strength(c: Disposition): nat {
    match c
    case Confirmed => 2
    case Candidate => 1
    case FalsePositive => 0
  }

  /** The decision table, first matching row wins; yields the label and its
      confidence, which is the accuracy scaled down by 0.9 for a candidate and
      0.8 for a false positive. */
  function Decide(accuracy: real, randomFactor: real): (r: (Disposition, real))
    ensures r.0 == Confirmed <==> accuracy > 96.0 && randomFactor > 0.3
    ensures r.0 == Confirmed ==> r.1 == accuracy
    ensures r.0 == Candidate ==> r.1 == 0.9 * accuracy
    ensures r.0 == FalsePositive ==> r.1 == 0.8 * accuracy
  {
    if accuracy > 96.0 && randomFactor > 0.3 then (Confirmed, accuracy)
    else if accuracy > 93.0 || (accuracy > 90.0 && randomFactor > 0.5) then (Candidate, accuracy * 0.9)
    else (FalsePositive, accuracy * 0.8)
  }

  /** The table's false-positive row needs an accuracy of at most 93. */
  lemma FalsePositiveNeedsLowAccuracy(accuracy: real, randomFactor: real)
    ensures Decide(accuracy, randomFactor).0 == FalsePositive ==> accuracy <= 93.0
    ensures Decide(accuracy, randomFactor).0 == FalsePositive
            <==> accuracy <= 90.0 || (accuracy <= 93.0 && randomFactor <= 0.5)
  {
  }

  /** Raising the accuracy or the random factor never weakens the verdict: both
      thresholds of the table are lower bounds. */
  lemma DecideMonotone(a1: real, f1: real, a2: real, f2: real)
    requires a1 <= a2 && f1 <= f2
    ensures Strength(Decide(a1, f1).0) <= Strength(Decide(a2, f2).0)
  {
  }

  /** `Math.random() * 0.3 + 0.7`: a draw mapped onto [0.7, 1.0), used for the
      factor scores and the similar planets' similarities alike. */
  function ScaledDraw(draw: real): (s: real)
    requires Unit(draw)
    ensures 0.7 <= s < 1.0
  {
    draw * 0.3 + 0.7
  }

  function IsConfirmed(): Planet -> bool {
    (p: Planet) => p.classification == Confirmed
  }

  /** `findSimilarPlanets`: the first (at most three) confirmed planets in
      catalogue order, each with a similarity drawn from [0.7, 1.0). */
  function FindSimilarPlanets(catalog: seq<Planet>, draws: seq<real>): (r: seq<Scored>)
    requires |draws| == SimilarCount && AllUnit(draws)
    ensures |r| == Min(SimilarCount, |Filter(catalog, IsConfirmed())|)
    ensures forall i :: 0 <= i < |r| ==> r[i].planet == Filter(catalog, IsConfirmed())[i]
    ensures forall i :: 0 <= i < |r| ==> r[i].planet in catalog && r[i].planet.classification == Confirmed
    ensures forall i :: 0 <= i < |r| ==> 0.7 <= r[i].similarity < 1.0
  {
    var confirmed := Filter(catalog, IsConfirmed());
    var top := confirmed[..Min(SimilarCount, |confirmed|)];
    seq(|top|, i requires 0 <= i < |top| => Scored(top[i], ScaledDraw(draws[i])))
  }

  /** `simulateAIAnalysis` with its draws supplied. */
  function SimulateAnalysis(catalog: seq<Planet>, factors: seq<Factor>, d: Draws, now: int): (v: Verdict)
    requires ValidDraws(d, |factors|)
    ensures v.classification != FalsePositive
    ensures v.classification == Confirmed <==> d.decision > 0.3
    ensures v.classification == Confirmed ==> v.confidence == BaseAccuracy - 2.0 * d.accuracy
    ensures v.classification == Candidate ==> v.confidence == 0.9 * (BaseAccuracy - 2.0 * d.accuracy)
    ensures 86.85 < v.confidence <= 98.5
    ensures v.hasInsufficientData <==> d.insufficientData < 0.2
    ensures |v.keyFactors| == |factors|
    ensures forall i :: 0 <= i < |factors| ==>
              && v.keyFactors[i].name == factors[i].name
              && v.keyFactors[i].importance == factors[i].importance
              && 0.7 <= v.keyFactors[i].score < 1.0
    ensures v.similarPlanets == FindSimilarPlanets(catalog, d.similarities)
    ensures 1.0 <= v.processingTime < 3.0
    ensures v.timestamp == now
  {
    var accuracy := Accuracy(d.accuracy);
    var decision := Decide(accuracy, d.decision);
    Verdict(
      classification := decision.0,
      confidence := decision.1,
      keyFactors := seq(|factors|, i requires 0 <= i < |factors| =>
                          KeyFactor(factors[i].name, factors[i].importance, ScaledDraw(d.factorScores[i]))),
      similarPlanets := FindSimilarPlanets(catalog, d.similarities),
      timestamp := now,
      processingTime := d.processingTime * 2.0 + 1.0,
      hasInsufficientData := d.insufficientData < 0.2)
  }

  /** Key factors keep the order of the factor list; the application's list is
      already in descending importance, so the verdict's factors are too. */
  lemma KeyFactorsByImportance(catalog: seq<Planet>, d: Draws, now: int)
    requires ValidDraws(d, |DetectionFactors|)
    ensures var v := SimulateAnalysis(catalog, DetectionFactors, d, now);
            forall i, j :: 0 <= i < j < |v.keyFactors| ==> v.keyFactors[i].importance > v.keyFactors[j].importance
  {
  }

  /** On the shipped catalogue the similar planets are Kepler-452b, TRAPPIST-1e and K2-18 b. */
  lemma SampleSimilarPlanets(draws: seq<real>)
    requires |draws| == SimilarCount && AllUnit(draws)
    ensures var r := FindSimilarPlanets(Sample, draws);
            |r| == 3 && r[0].planet == Kepler452b && r[1].planet == Trappist1e && r[2].planet == K218b
  {
    FilterFive(Kepler452b, Trappist1e, Toi715b, K218b, Lhs1140b, IsConfirmed());
  }

  /** Draws 0.5, 0.6, 0.8 give accuracy 97.5, a confirmed verdict at that
      confidence, and no insufficient-data flag. */
  lemma WorkedExample(catalog: seq<Planet>, d: Draws, now: int)
    requires ValidDraws(d, |DetectionFactors|)
    requires d.accuracy == 0.5 && d.decision == 0.6 && d.insufficientData == 0.8
    ensures var v := SimulateAnalysis(catalog, DetectionFactors, d, now);
            v.classification == Confirmed && v.confidence == 97.5 && !v.hasInsufficientData
  {
  }
}
