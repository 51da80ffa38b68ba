/** The detection page's session state and the actions that log to the history:
    accepting an upload (app.js `processFile`), enabling and starting an
    analysis (`updateAnalyzeButton`, `startAnalysis`), recording a finished
    analysis and the searches, and the getting-started tutorial. */
module Session {
  import opened Basics
  import opened Text
  import opened Catalog
  import opened Analysis
  import opened Search
  import opened History

  // ---------------------------------------------------------------------------
  // Upload
  // ---------------------------------------------------------------------------

  /** `"." + name.split(".").pop().toLowerCase()`. */
  function FileExtension(fileName: string): (r: string)
    ensures |r| >= 1 && r[0] == '.'
    ensures '.' !in r[1..]
    ensures |r| - 1 <= |fileName| && r[1..] == Lower(fileName[|fileName| - (|r| - 1)..])
    ensures |r| - 1 < |fileName| ==> fileName[|fileName| - |r|] == '.'
  {
    var last := LastSegment(fileName, '.');
    assert forall i :: 0 <= i < |last| ==> last[i] != '.' ==> Lower(last)[i] != '.';
    "." + Lower(last)
  }

  /** The formats the upload accepts. */
  predicate ExtensionAllowed(fileName: string) {
    var ext := FileExtension(fileName);
    ext == ".csv" || ext == ".fits"
  }

  /** An accepted format name, in any letter case. */
  predicate IsFormat(text: string) {
    Lower(text) == "csv" || Lower(text) == "fits"
  }

  /** A name is accepted exactly when the text after its last dot spells csv or
      fits; a name without any dot is judged by its whole text, so a file named
      "csv" passes. */
  lemma ExtensionAllowedIff(fileName: string)
    ensures ExtensionAllowed(fileName)
        <==> || (exists stem, ext :: fileName == stem + "." + ext && '.' !in ext && IsFormat(ext))
             || ('.' !in fileName && IsFormat(fileName))
  {
    var last := LastSegment(fileName, '.');
    assert ExtensionAllowed(fileName) <==> IsFormat(last);
    if |last| < |fileName| {
      var stem := fileName[..|fileName| - |last| - 1];
      assert fileName == stem + "." + last;
      assert '.' in fileName;
      forall stem', ext' | fileName == stem' + "." + ext' && '.' !in ext'
        ensures ext' == last
      {
        assert fileName == stem' + ['.'] + ext';
        LastSegmentAfterSeparator(stem', '.', ext');
      }
    } else {
      assert last == fileName;
      forall stem', ext'
        ensures fileName != stem' + "." + ext'
      {
        DotInJoined(stem', ext');
      }
    }
  }

  lemma DotInJoined(stem: string, ext: string)
    ensures '.' in stem + "." + ext
  {
    assert (stem + "." + ext)[|stem|] == '.';
  }

  /** Parameters typed into the manual-entry form. */
  datatype ManualParameters = ManualParameters(
    orbitalPeriod: real,
    transitDuration: real,
    planetRadius: real,
    stellarTemperature: real,
    transitDepth: real)

  /** What the detection page holds: an uploaded file's name, manual parameters, and the history. */
  datatype AppState = AppState(uploaded: Option<string>, manual: Option<ManualParameters>, history: seq<Entry>)

  const NewSession := AppState(None, None, [])

  /** `processFile`: a file of an accepted format becomes the session's data;
      any other file is refused and nothing changes. */
  function ProcessFile(s: AppState, fileName: string): (r: AppState)
    ensures ExtensionAllowed(fileName) ==> r == s.(uploaded := Some(fileName))
    ensures !ExtensionAllowed(fileName) ==> r == s
  {
    if ExtensionAllowed(fileName) then s.(uploaded := Some(fileName)) else s
  }

  /** The analyse button is enabled once there is an upload or manual parameters. */
  predicate AnalyzeEnabled(s: AppState) {
    s.uploaded.Some? || s.manual.Some?
  }

  /** `startAnalysis`: without data nothing happens; otherwise the start is
      logged as in progress, naming the upload as the source when there is one. */
  function StartAnalysis(s: AppState, now: int): (r: (AppState, bool))
    ensures r.1 <==> AnalyzeEnabled(s)
    ensures !r.1 ==> r.0 == s
    ensures r.1 ==> && r.0.uploaded == s.uploaded && r.0.manual == s.manual
                    && |r.0.history| == Min(HistoryLimit, |s.history| + 1)
                    && r.0.history[0]
                       == Entry(now, now, InProgress, AnalysisStarted(if s.uploaded.Some? then FileUpload else ManualInput))
                    && r.0.history[1..] == s.history[..Min(HistoryLimit - 1, |s.history|)]
  {
    if !AnalyzeEnabled(s) then (s, false)
    else
      var source := if s.uploaded.Some? then FileUpload else ManualInput;
      var item := Entry(now, now, InProgress, AnalysisStarted(source));
      (s.(history := AddToHistory(s.history, item, now)), true)
  }

  /** A fresh session cannot start an analysis; after an upload it can exactly
      when it already could or the file was accepted. */
  lemma UploadEnablesAnalysis(s: AppState, fileName: string)
    ensures !AnalyzeEnabled(NewSession)
    ensures AnalyzeEnabled(ProcessFile(s, fileName)) <==> AnalyzeEnabled(s) || ExtensionAllowed(fileName)
  {
  }

  /** The history item for a finished analysis: its verdict, the confidence rounded to a whole percent. */
  function CompletedEntry(v: Verdict): Entry {
    Entry(0, v.timestamp, Completed, AnalysisCompleted(v.classification, Round(v.confidence), v.processingTime))
  }

  /** Logging a finished analysis. */
  function RecordCompletedAnalysis(h: seq<Entry>, v: Verdict, now: int): (r: seq<Entry>)
    ensures |r| == Min(HistoryLimit, |h| + 1) && r[1..] == h[..Min(HistoryLimit - 1, |h|)]
    ensures r[0].id == now && r[0].timestamp == v.timestamp && r[0].status == Completed
    ensures r[0].activity == AnalysisCompleted(v.classification, Round(v.confidence), v.processingTime)
  {
    AddToHistory(h, CompletedEntry(v), now)
  }

  /** The confidence the history shows for a simulated verdict: 97..99 when
      confirmed, 87..89 as a candidate. */
  lemma LoggedConfidence(catalog: seq<Planet>, d: Draws, h: seq<Entry>, now: int)
    requires ValidDraws(d, |DetectionFactors|)
    ensures var v := SimulateAnalysis(catalog, DetectionFactors, d, now);
            var logged := RecordCompletedAnalysis(h, v, now)[0].activity;
            && (v.classification == Confirmed ==> 97 <= logged.confidence <= 99)
            && (v.classification == Candidate ==> 87 <= logged.confidence <= 89)
  {
    var v := SimulateAnalysis(catalog, DetectionFactors, d, now);
    if v.classification == Confirmed {
      RoundMonotone(96.5, v.confidence);
      RoundMonotone(v.confidence, 98.5);
    } else {
      assert v.confidence == 0.9 * (BaseAccuracy - 2.0 * d.accuracy);
      RoundMonotone(86.85, v.confidence);
      RoundMonotone(v.confidence, 88.65);
    }
  }

  // ---------------------------------------------------------------------------
  // Searches as logged
  // ---------------------------------------------------------------------------

  /** `performSearch` with its logging: the history records the lower-cased
      query and the number of results only when a query was typed. */
  function SearchAndLog(s: AppState, catalog: seq<Planet>, rawQuery: string, classFilter: string, now: int)
    : (r: (seq<Planet>, AppState))
    ensures r.0 == PerformSearch(catalog, rawQuery, classFilter)
    ensures |rawQuery| == 0 ==> r.1 == s
    ensures r.1 == s.(history := r.1.history)
    ensures |rawQuery| > 0 ==>
              && |r.1.history| == Min(HistoryLimit, |s.history| + 1)
              && r.1.history[0] == Entry(now, now, Completed, SearchRun(Lower(rawQuery), |r.0|))
              && r.1.history[1..] == s.history[..Min(HistoryLimit - 1, |s.history|)]
  {
    var results := PerformSearch(catalog, rawQuery, classFilter);
    var query := Lower(rawQuery);
    if |query| > 0 then
      (results, s.(history := AddToHistory(s.history, Entry(0, now, Completed, SearchRun(query, |results|)), now)))
    else (results, s)
  }

  /** `applyQuickFilter` with its logging: always recorded, under "Quick Filter: <name>". */
  function QuickFilterAndLog(s: AppState, catalog: seq<Planet>, preset: string, now: int): (r: (seq<Planet>, AppState))
    ensures r.0 == ApplyQuickFilter(catalog, preset)
    ensures r.1 == s.(history := r.1.history)
    ensures |r.1.history| == Min(HistoryLimit, |s.history| + 1)
    ensures r.1.history[0] == Entry(now, now, Completed, SearchRun("Quick Filter: " + preset, |r.0|))
    ensures r.1.history[1..] == s.history[..Min(HistoryLimit - 1, |s.history|)]
  {
    var results := ApplyQuickFilter(catalog, preset);
    (results, s.(history := AddToHistory(s.history, Entry(0, now, Completed, SearchRun("Quick Filter: " + preset, |results|)), now)))
  }

  /** `applyAdvancedFilters` with its logging: recorded as "Advanced Filter (<n> results)". */
  function AdvancedFilterAndLog(s: AppState, catalog: seq<Planet>, f: AdvancedFilters, now: int): (r: (seq<Planet>, AppState))
    ensures r.0 == ApplyAdvancedFilters(catalog, f)
    ensures r.1 == s.(history := r.1.history)
    ensures |r.1.history| == Min(HistoryLimit, |s.history| + 1)
    ensures r.1.history[0]
         == Entry(now, now, Completed, SearchRun("Advanced Filter (" + NatToString(|r.0|) + " results)", |r.0|))
    ensures r.1.history[1..] == s.history[..Min(HistoryLimit - 1, |s.history|)]
  {
    var results := ApplyAdvancedFilters(catalog, f);
    var title := "Advanced Filter (" + NatToString(|results|) + " results)";
    (results, s.(history := AddToHistory(s.history, Entry(0, now, Completed, SearchRun(title, |results|)), now)))
  }

  /** The logged count of an advanced search can be read back from its title. */
  lemma AdvancedLabelReadsBack(s: AppState, catalog: seq<Planet>, f: AdvancedFilters, now: int)
    ensures var r := AdvancedFilterAndLog(s, catalog, f, now);
            var title := r.1.history[0].activity.query;
            ParseInt(title[|"Advanced Filter ("|..]) == Some(|r.0|)
  {
    var r := AdvancedFilterAndLog(s, catalog, f, now);
    var n := |r.0|;
    AdvancedTitleCount(n);
    ParseIntNatToString(n, " results)");
  }

  /** Past its fixed prefix, an advanced-search title is the count's numeral followed by " results)". */
  lemma AdvancedTitleCount(n: nat)
    ensures ("Advanced Filter (" + NatToString(n) + " results)")[|"Advanced Filter ("|..] == NatToString(n) + " results)"
  {
  }

  // ---------------------------------------------------------------------------
  // Tutorial
  // ---------------------------------------------------------------------------

  /** The getting-started guide has four steps. */
  const TutorialSteps: nat := 4

  /** Where the tutorial is: on a step (counted from 0), or finished, with its window closed. */
  datatype TutorialState = OnStep(step: nat) | Finished

  /** What one "previous" listener does: back one step, never before the first. */
  function PrevStep(step: nat): (r: nat)
    ensures step > 0 ==> r == step - 1
    ensures step == 0 ==> r == 0
  {
    if step > 0 then step - 1 else step
  }

  /** What one "next" listener does: forward one step, or finish on the last one. */
  function NextStep(step: nat): (r: TutorialState)
    ensures step + 1 < TutorialSteps ==> r == OnStep(step + 1)
    ensures step + 1 >= TutorialSteps ==> r == Finished
  {
    if step < TutorialSteps - 1 then OnStep(step + 1) else Finished
  }

  /** One listener's reaction to a click: true for "next", false for "previous". */
  function Handle(t: TutorialState, next: bool): TutorialState {
    match t
    case Finished => Finished
    case OnStep(step) => if next then NextStep(step) else OnStep(PrevStep(step))
  }

  /** A click on a button runs each of its listeners in turn, all on the one shared step. */
  function Press(t: TutorialState, next: bool, listeners: nat): (r: TutorialState)
    ensures listeners == 0 || t == Finished ==> r == t
    ensures t.OnStep? && next && listeners > 0 ==>
              r == if t.step + listeners < TutorialSteps then OnStep(t.step + listeners) else Finished
    ensures t.OnStep? && !next ==> r == OnStep(if t.step >= listeners then t.step - listeners else 0)
    decreases listeners
  {
    if listeners == 0 then t else Press(Handle(t, next), next, listeners - 1)
  }

  /** A run of clicks with the same listeners registered. */
  function Run(t: TutorialState, presses: seq<bool>, listeners: nat): TutorialState
    decreases |presses|
  {
    if |presses| == 0 then t else Run(Press(t, presses[0], listeners), presses[1..], listeners)
  }

  /** The tutorial as the page holds it: its state and how many listeners each of
      the two buttons carries. */
  datatype Tutorial = Tutorial(state: TutorialState, listeners: nat)

  /** Before the first "Get Started" click the window is closed and no listener is registered. */
  const PageLoaded := Tutorial(Finished, 0)

  /** `initTutorial`, as every "Get Started" click runs it: back to the first step,
      and one more listener on each button, the earlier ones staying. */
  function OpenTutorial(t: Tutorial): Tutorial {
    Tutorial(OnStep(0), t.listeners + 1)
  }

  /** The evident intent: each button's listener is registered once, and opening
      the tutorial only goes back to the first step. */
  function OpenTutorialFixed(t: Tutorial): Tutorial {
    Tutorial(OnStep(0), if t.listeners == 0 then 1 else t.listeners)
  }

  /** The tutorial after `n` "Get Started" clicks from page load, as written or as intended. */
  function Opened(n: nat, fixed: bool): (r: Tutorial)
    ensures n > 0 ==> r.state == OnStep(0)
    ensures n > 0 && !fixed ==> r.listeners == n
    ensures n > 0 && fixed ==> r.listeners == 1
  {
    if n == 0 then PageLoaded
    else if fixed then OpenTutorialFixed(Opened(n - 1, fixed))
    else OpenTutorial(Opened(n - 1, fixed))
  }

  /** Whatever buttons are pressed, the tutorial shows one of its four steps or has finished. */
  lemma {:induction false} RunStaysInRange(t: TutorialState, presses: seq<bool>, listeners: nat)
    requires t.OnStep? ==> t.step < TutorialSteps
    ensures var e := Run(t, presses, listeners); e.OnStep? ==> e.step < TutorialSteps
    decreases |presses|
  {
    if |presses| > 0 {
      RunStaysInRange(Press(t, presses[0], listeners), presses[1..], listeners);
    }
  }

  function Nexts(k: nat): (r: seq<bool>)
    ensures |r| == k
    ensures forall i :: 0 <= i < k ==> r[i]
  {
    seq(k, i => true)
  }

  /** With L listeners, k presses of "next" from step s reach step s + k·L, and
      finish the tutorial once that is past the last step. */
  lemma {:induction false} NextsReach(step: nat, k: nat, listeners: nat)
    requires step < TutorialSteps && listeners > 0
    ensures Run(OnStep(step), Nexts(k), listeners)
         == if step + k * listeners < TutorialSteps then OnStep(step + k * listeners) else Finished
    decreases k
  {
    if k > 0 {
      var next := Press(OnStep(step), true, listeners);
      assert Run(OnStep(step), Nexts(k), listeners) == Run(next, Nexts(k - 1), listeners) by {
        assert Nexts(k)[0] && Nexts(k)[1..] == Nexts(k - 1);
      }
      assert k * listeners == listeners + (k - 1) * listeners;
      assert (k - 1) * listeners >= 0;
      if step + listeners < TutorialSteps {
        NextsReach(step + listeners, k - 1, listeners);
      } else {
        RunFinished(Nexts(k - 1), listeners);
      }
    }
  }

  /** A finished tutorial stays finished. */
  lemma {:induction false} RunFinished(presses: seq<bool>, listeners: nat)
    ensures Run(Finished, presses, listeners) == Finished
    decreases |presses|
  {
    if |presses| > 0 {
      RunFinished(presses[1..], listeners);
    }
  }

  /** On the first opening, four presses of "next" finish the tutorial and fewer do not. */
  lemma FourNextsFinish(k: nat)
    ensures var t := Opened(1, false);
            Run(t.state, Nexts(k), t.listeners) == Finished <==> k >= TutorialSteps
  {
    NextsReach(0, k, 1);
  }

  /** As written: on the n-th opening each click of "next" moves n steps, so the
      tutorial finishes after k presses exactly when k·n reaches four. */
  lemma ReopenedTutorialSkips(n: nat, k: nat)
    requires n > 0
    ensures var t := Opened(n, false);
            Run(t.state, Nexts(k), t.listeners) == Finished <==> k * n >= TutorialSteps
  {
    NextsReach(0, k, n);
  }

  /** As written, on the second opening one "next" jumps from the first step to
      the third, and two presses finish the tutorial. */
  lemma SecondOpeningSkipsStep()
    ensures var t := Opened(2, false);
            && Run(t.state, Nexts(1), t.listeners) == OnStep(2)
            && Run(t.state, Nexts(2), t.listeners) == Finished
  {
    NextsReach(0, 1, 2);
    NextsReach(0, 2, 2);
  }

  /** With the listeners registered once, every opening takes exactly four
      presses of "next" to finish, and stepping back never skips a step. */
  lemma EveryOpeningTakesFourNexts(n: nat, k: nat, step: nat)
    requires n > 0
    ensures var t := Opened(n, true);
            Run(t.state, Nexts(k), t.listeners) == Finished <==> k >= TutorialSteps
    ensures Press(OnStep(step), false, Opened(n, true).listeners) == OnStep(PrevStep(step))
  {
    NextsReach(0, k, 1);
  }
}
