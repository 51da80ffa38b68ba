/** The activity history (app.js `addToHistory`, `updateHistoryDisplay`,
    `updateHistoryTimeline`, `clearHistory`): newest first, at most fifty
    entries, viewed through a type filter and a date cutoff. */
module History {
  import opened Basics
  import opened Seqs
  import opened Catalog

  /** How many entries the history keeps. */
  const HistoryLimit: nat := 50

  /** Where the data of an analysis came from. */
  datatype DataSource = FileUpload | ManualInput

  datatype Status = InProgress | Completed

  /** What was done: the payload each kind of history item carries. */
  datatype Activity =
    | AnalysisStarted(source: DataSource)
    | AnalysisCompleted(classification: Disposition, confidence: int, processingTime: real)
    | SearchRun(query: string, results: nat)
    | Export(description: string)
  {
    /** The item's `type` field, which the history filters compare against. */
    function TypeName(): string {
      match this
      case AnalysisStarted(_) => "analysis"
      case AnalysisCompleted(_, _, _) => "analysis"
      case SearchRun(_, _) => "search"
      case Export(_) => "export"
    }
  }

  /** One history item; `id` is the clock reading when it was recorded and
      `timestamp` the moment the activity refers to. */
  datatype Entry = Entry(id: int, timestamp: int, status: Status, activity: Activity)

  /** `addToHistory`: stamp the item with the clock, put it first, keep fifty. */
  function AddToHistory(h: seq<Entry>, item: Entry, now: int): (r: seq<Entry>)
    ensures |r| == Min(HistoryLimit, |h| + 1)
    ensures r[0] == item.(id := now)
    ensures r[1..] == h[..Min(HistoryLimit - 1, |h|)]
  {
    var added := [item.(id := now)] + h;
    var r := added[..Min(HistoryLimit, |added|)];
    assert r[1..] == added[1..Min(HistoryLimit, |added|)];
    r
  }

  /** `s` reversed: the order a sequence of additions leaves its items in. */
  function Reverse<T>(s: seq<T>): (r: seq<T>)
    ensures |r| == |s|
    ensures forall i :: 0 <= i < |s| ==> r[i] == s[|s| - 1 - i]
    decreases |s|
  {
    if |s| == 0 then [] else Reverse(s[1..]) + [s[0]]
  }

  /** The items of a run of additions, each stamped with the clock reading at its addition. */
  function Stamp(items: seq<Entry>, times: seq<int>): (r: seq<Entry>)
    requires |items| == |times|
    ensures |r| == |items|
    ensures forall i :: 0 <= i < |items| ==> r[i] == items[i].(id := times[i])
  {
    seq(|items|, i requires 0 <= i < |items| => items[i].(id := times[i]))
  }

  /** Adding the items one after another, the i-th at clock reading `times[i]`. */
  function Replay(h: seq<Entry>, items: seq<Entry>, times: seq<int>): seq<Entry>
    requires |items| == |times|
    decreases |items|
  {
    if |items| == 0 then h
    else Replay(AddToHistory(h, items[0], times[0]), items[1..], times[1..])
  }

  /** After any run of additions the history is the fifty most recent items,
      newest first, followed by what was there before. */
  lemma {:induction false} ReplayKeepsNewest(h: seq<Entry>, items: seq<Entry>, times: seq<int>)
    requires |items| == |times|
    requires |h| <= HistoryLimit
    ensures var all := Reverse(Stamp(items, times)) + h;
            Replay(h, items, times) == all[..Min(HistoryLimit, |all|)]
    decreases |items|
  {
    if |items| > 0 {
      var h1 := AddToHistory(h, items[0], times[0]);
      ReplayKeepsNewest(h1, items[1..], times[1..]);
      var stamped := Stamp(items, times);
      var rest := Stamp(items[1..], times[1..]);
      assert stamped == [items[0].(id := times[0])] + rest;
      assert Reverse(stamped) == Reverse(rest) + [items[0].(id := times[0])];
      var all := Reverse(stamped) + h;
      var all1 := Reverse(rest) + h1;
      var n := Min(HistoryLimit, |all|);
      assert h1 == ([items[0].(id := times[0])] + h)[..Min(HistoryLimit, |h| + 1)];
      assert all1[..Min(HistoryLimit, |all1|)] == all[..n];
    }
  }

  /** However many additions, the history never holds more than fifty items. */
  lemma ReplayBounded(h: seq<Entry>, items: seq<Entry>, times: seq<int>)
    requires |items| == |times|
    requires |h| <= HistoryLimit
    ensures |Replay(h, items, times)| == Min(HistoryLimit, |h| + |items|)
  {
    ReplayKeepsNewest(h, items, times);
  }

  function TypeIs(typeFilter: string): Entry -> bool {
    (e: Entry) => e.activity.TypeName() == typeFilter
  }

  /** The dashboard list: the items of the chosen type, or all of them for "all". */
  function FilterByType(h: seq<Entry>, typeFilter: string): (r: seq<Entry>)
    ensures typeFilter != "all" ==> r == Filter(h, TypeIs(typeFilter))
    ensures typeFilter == "all" ==> r == h
    ensures Subseq(r, h)
    ensures forall e :: e in r <==> e in h && (typeFilter == "all" || e.activity.TypeName() == typeFilter)
  {
    FilterMembers(h, TypeIs(typeFilter));
    SubseqReflexive(h);
    Narrow(h, typeFilter != "all", TypeIs(typeFilter))
  }

  function SinceFn(cutoff: int): Entry -> bool {
    (e: Entry) => e.timestamp >= cutoff
  }

  /** The timeline's date filter: items at or after the cutoff, or every item when there is none. */
  function FilterSince(h: seq<Entry>, cutoff: Option<int>): (r: seq<Entry>)
    ensures cutoff.Some? ==> r == Filter(h, SinceFn(cutoff.value))
    ensures cutoff.None? ==> r == h
    ensures Subseq(r, h)
    ensures forall e :: e in r <==> e in h && (cutoff.None? || e.timestamp >= cutoff.value)
  {
    if cutoff.Some? then
      FilterMembers(h, SinceFn(cutoff.value));
      Filter(h, SinceFn(cutoff.value))
    else
      SubseqReflexive(h);
      h
  }

  /** The timeline's reading of the type control: an empty value means "all". */
  function TimelineType(typeFilter: string): string {
    if typeFilter == "" then "all" else typeFilter
  }

  /** An item the timeline shows: of the chosen type and not older than the cutoff. */
  predicate OnTimeline(e: Entry, typeFilter: string, cutoff: Option<int>) {
    && (TimelineType(typeFilter) == "all" || e.activity.TypeName() == typeFilter)
    && (cutoff.None? || e.timestamp >= cutoff.value)
  }

  function OnTimelineFn(typeFilter: string, cutoff: Option<int>): Entry -> bool {
    (e: Entry) => OnTimeline(e, typeFilter, cutoff)
  }

  /** `updateHistoryTimeline`: the type filter, then the date filter. */
  function Timeline(h: seq<Entry>, typeFilter: string, cutoff: Option<int>): (r: seq<Entry>)
    ensures r == Filter(h, OnTimelineFn(typeFilter, cutoff))
    ensures Subseq(r, h)
  {
    var byType := FilterByType(h, TimelineType(typeFilter));
    TimelineIsOneFilter(h, typeFilter, cutoff);
    FilterSince(byType, cutoff)
  }

  lemma TimelineIsOneFilter(h: seq<Entry>, typeFilter: string, cutoff: Option<int>)
    ensures FilterSince(FilterByType(h, TimelineType(typeFilter)), cutoff)
         == Filter(h, OnTimelineFn(typeFilter, cutoff))
  {
    var t := TimelineType(typeFilter);
    var byType := (e: Entry) => t == "all" || e.activity.TypeName() == t;
    FilterTrue(h, KeepAll<Entry>());
    NarrowFusion(h, KeepAll<Entry>(), t != "all", TypeIs(t), byType);
    var c := if cutoff.Some? then cutoff.value else 0;
    NarrowFusion(h, byType, cutoff.Some?, SinceFn(c), OnTimelineFn(typeFilter, cutoff));
  }

  /** The newest item heads the "all" view, and a typed view gains it exactly
      when it is of that type. */
  lemma AddThenFilterByType(h: seq<Entry>, item: Entry, now: int, typeFilter: string)
    requires typeFilter != "all"
    ensures var kept := FilterByType(h[..Min(HistoryLimit - 1, |h|)], typeFilter);
            FilterByType(AddToHistory(h, item, now), typeFilter)
            == (if item.activity.TypeName() == typeFilter then [item.(id := now)] + kept else kept)
  {
    var r := AddToHistory(h, item, now);
    assert r == [r[0]] + r[1..];
    FilterCons(r[0], r[1..], TypeIs(typeFilter));
  }

  /** `clearHistory`: only a confirmed request empties the history. */
  function ClearHistory(h: seq<Entry>, confirmed: bool): (r: seq<Entry>)
    ensures confirmed ==> |r| == 0
    ensures !confirmed ==> r == h
  {
    if confirmed then [] else h
  }

  /** A cleared history shows nothing in either view, and the next addition is
      then the only item. */
  lemma ClearedViewsEmpty(h: seq<Entry>, typeFilter: string, cutoff: Option<int>, item: Entry, now: int)
    ensures Timeline(ClearHistory(h, true), typeFilter, cutoff) == []
    ensures FilterByType(ClearHistory(h, true), typeFilter) == []
    ensures AddToHistory(ClearHistory(h, true), item, now) == [item.(id := now)]
  {
  }
}
