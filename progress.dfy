/** The live-progress state of the scan page and the two reducers that fold the decoded stream
    events into it: the Pro scan's (DeepDive.js:887-931) and the legacy scan's (DeepDive.js:1070-1113).
    Each React functional update `setX(prev => ...)` is one application of a pure function here. */
module Progress {
  import opened Wrappers
  import opened Numbers

  /** JavaScript truthiness of an optional JSON number: present and not 0. */
  predicate Truthy(n: Option<int>)
  {
    n.Some? && n.value != 0
  }

  /** The status line, one constructor per message the page composes, holding what it shows. */
  datatype Status =
    | ProAnalyzing(pageTotal: int, multiPart: bool)
    | ProcessingPart(batch: int, totalBatches: Option<int>)
    | PartComplete(finished: Option<int>, nextPending: bool)
    | Complete
    | Starting(totalPages: int)
    | AnalyzingDocument(document: string, pages: int)
    | Reported(text: string)

  /** The `progress` object; an absent key is None. */
  datatype Progress = Progress(
    percent: Option<int>,
    status: Option<Status>,
    documents: Option<seq<string>>,
    totalBatches: Option<int>,
    currentBatch: Option<int>,
    batch: Option<int>)

  /** The object `{}` a scan starts from. */
  const Empty: Progress := Progress(None, None, None, None, None, None)

  datatype Thought = Thought(pages: string, thought: string)

  /** A decoded stream record, selected by its `type`; fields the page never reads are left out,
      findings and analysis results are opaque JSON texts, and `parts` is kept as its length. */
  datatype Event =
    | Start(totalPages: int, batchMode: bool, partCount: Option<nat>, documents: Option<seq<string>>,
            rubricText: string, relevanceMode: string)
    | DocumentStart(document: string, pageCount: int)
    | BatchStart(batch: int, totalBatches: Option<int>)
    | BatchDone(finished: Option<int>)
    | Report(percent: Option<int>, status: Option<string>, reportedBatch: Option<int>, totalBatches: Option<int>)
    | Thinking(pages: string, thought: string)
    | Found(finding: string)
    | Failed(message: string)
    | Done(modelUsed: string, result: string, analysisId: string)
    | Other(kind: string)

  /** What the results tab shows: the Pro outcome assembled on `done`, or the stored analysis the
      legacy flow fetches by id. */
  datatype Outcome = ProOutcome(query: string, modelUsed: string, result: string) | FullAnalysis(analysis: string)

  /** The part of the page's state that a scan drives. */
  datatype View = View(
    progress: Progress,
    thinking: seq<Thought>,
    findings: seq<string>,
    result: Option<Outcome>,
    rubricText: string,
    relevanceMode: string)

  /** Starting either scan (DeepDive.js:855-860, 1032-1037) clears the result and the three
      accumulators; the rubric and relevance mode are kept. */
  function Reset(v: View): (r: View)
    ensures r.progress == Empty && r.thinking == [] && r.findings == [] && r.result == None
    ensures r.rubricText == v.rubricText && r.relevanceMode == v.relevanceMode
  {
    v.(progress := Empty, thinking := [], findings := [], result := None)
  }

  // ---------------------------------------------------------------------------------------------
  // The Pro scan

  /** Percent when part `batch` starts (DeepDive.js:898). */
  function BatchStartPercent(batch: int, total: Option<int>): (pct: int)
    ensures !Truthy(total) ==> pct == 20
    ensures Truthy(total) && 1 <= batch <= total.value ==> 10 <= pct <= 90
  {
    if Truthy(total) then
      var t := total.value;
      JsRoundBetween((batch - 1) * 80, t, 0, 80);
      JsRoundRatio((batch - 1) * 80, t) + 10
    else 20
  }

  /** Percent when part `batch` is done (DeepDive.js:908, 911); `captured` is the total the
      handler divides by. */
  function BatchDonePercent(batch: Option<int>, captured: Option<int>): (pct: int)
    ensures pct <= 90
    ensures !(Truthy(batch) && Truthy(captured)) ==> pct == 50
    ensures Truthy(batch) && Truthy(captured) && 1 <= batch.value <= captured.value ==> 10 <= pct
  {
    var raw :=
      if Truthy(batch) && Truthy(captured) then
        var b, t := batch.value, captured.value;
        JsRoundBetween(b * 80, t, 0, 80);
        JsRoundRatio(b * 80, t) + 10
      else 50;
    if raw < 90 then raw else 90
  }

  /** One event of the Pro reader loop. The flag is true when the handler returns from the whole
      scan (an `error` event, DeepDive.js:915-919). `captured` is the `progress.totalBatches` that
      the `batch_done` handler reads from its render-time closure rather than from `prev`. */
  function ProApply(v: View, e: Event, captured: Option<int>, query: string): (r: (View, bool))
    ensures r.1 <==> e.Failed?
    ensures r.0.thinking == v.thinking && r.0.findings == v.findings
    ensures r.0.rubricText == v.rubricText && r.0.relevanceMode == v.relevanceMode
    ensures e.Start? ==>
      var p := r.0.progress;
      && p.percent == Some(5) && p.currentBatch == Some(0) && p.documents == Some([])
      && p.totalBatches == Some(if e.partCount.Some? && e.partCount.value != 0 then e.partCount.value else 1)
    ensures e.BatchStart? ==>
      var p := r.0.progress;
      && p.currentBatch == Some(e.batch) && p.percent.Some?
      && (Truthy(e.totalBatches) && 1 <= e.batch <= e.totalBatches.value ==> 10 <= p.percent.value <= 90)
      && (!Truthy(e.totalBatches) ==> p.percent == Some(20) && p.totalBatches == v.progress.totalBatches)
      && (Truthy(e.totalBatches) ==> p.totalBatches == e.totalBatches)
    ensures e.BatchDone? ==>
      var p := r.0.progress;
      && p.percent.Some? && p.percent.value <= 90
      && (!(Truthy(e.finished) && Truthy(captured)) ==> p.percent == Some(50))
      && p.totalBatches == v.progress.totalBatches && p.currentBatch == v.progress.currentBatch
      && p.documents == v.progress.documents
    ensures e.Done? ==>
      && r.0.progress == v.progress.(percent := Some(100), status := Some(Complete))
      && r.0.result == Some(ProOutcome(query, e.modelUsed, e.result))
    ensures !(e.Start? || e.BatchStart? || e.BatchDone? || e.Done?) ==> r.0 == v
  {
    match e
    case Start(pages, batchMode, partCount, _, _, _) =>
      var total := if partCount.Some? && partCount.value != 0 then partCount.value else 1;
      (v.(progress := Progress(Some(5), Some(ProAnalyzing(pages, batchMode)), Some([]), Some(total), Some(0), None)), false)
    case BatchStart(batch, total) =>
      var prev := v.progress;
      var p := prev.(
        percent := Some(BatchStartPercent(batch, total)),
        status := Some(ProcessingPart(batch, total)),
        currentBatch := Some(batch),
        totalBatches := if Truthy(total) then total else prev.totalBatches);
      (v.(progress := p), false)
    case BatchDone(batch) =>
      var prev := v.progress;
      var pending := prev.totalBatches.Some? && batch.Some? && prev.totalBatches.value - batch.value > 0;
      var p := prev.(percent := Some(BatchDonePercent(batch, captured)), status := Some(PartComplete(batch, pending)));
      (v.(progress := p), false)
    case Failed(_) => (v, true)
    case Done(modelUsed, result, _) =>
      (v.(progress := v.progress.(percent := Some(100), status := Some(Complete)),
          result := Some(ProOutcome(query, modelUsed, result))), false)
    case _ => (v, false)
  }

  /** Where `batch_done` takes its total from: the value captured when the handler was created
      (as the source does), or the state's own current value (as the status line beside it does). */
  datatype TotalSource = RenderTime(captured: Option<int>) | Current

  function Captured(src: TotalSource, v: View): Option<int>
  {
    match src
    case RenderTime(t) => t
    case Current => v.progress.totalBatches
  }

  /** Folds the Pro handler over events in arrival order; the flag tells whether an `error` ended
      the scan, after which nothing is applied. */
  function ProRun(v: View, events: seq<Event>, src: TotalSource, query: string): (View, bool)
    decreases |events|
  {
    if events == [] then (v, false)
    else
      var (w, stop) := ProApply(v, events[0], Captured(src, v), query);
      if stop then (w, true) else ProRun(w, events[1..], src, query)
  }

  /** Running two stretches of events is running the first, then (unless it stopped) the second. */
  lemma {:induction false} ProRunAppend(v: View, a: seq<Event>, b: seq<Event>, src: TotalSource, query: string)
    ensures ProRun(v, a + b, src, query) ==
      var (w, stop) := ProRun(v, a, src, query);
      if stop then (w, true) else ProRun(w, b, src, query)
    decreases |a|
  {
    if a == [] {
      assert a + b == b;
    } else {
      assert (a + b)[0] == a[0] && (a + b)[1..] == a[1..] + b;
      var (w, stop) := ProApply(v, a[0], Captured(src, v), query);
      if !stop {
        ProRunAppend(w, a[1..], b, src, query);
      }
    }
  }

  /** An `error` is final: whatever follows it is never applied. */
  lemma ProErrorIsFinal(v: View, before: seq<Event>, message: string, after: seq<Event>, src: TotalSource, query: string)
    requires !ProRun(v, before, src, query).1
    ensures var r := ProRun(v, before + [Failed(message)], src, query);
      r.1 && r.0 == ProRun(v, before, src, query).0
      && ProRun(v, before + [Failed(message)] + after, src, query) == r
  {
    var w := ProRun(v, before, src, query).0;
    ProRunAppend(v, before, [Failed(message)], src, query);
    ProRunAppend(v, before + [Failed(message)], after, src, query);
    assert ProRun(w, [Failed(message)], src, query) == (w, true);
  }

  /** The Pro scan never touches the thinking trace or the live findings. */
  lemma {:induction false} ProRunKeepsTrace(v: View, events: seq<Event>, src: TotalSource, query: string)
    ensures var w := ProRun(v, events, src, query).0;
      w.thinking == v.thinking && w.findings == v.findings
    decreases |events|
  {
    if events != [] {
      var (w, stop) := ProApply(v, events[0], Captured(src, v), query);
      if !stop {
        ProRunKeepsTrace(w, events[1..], src, query);
      }
    }
  }

  /** A run that stops has met an `error`; one that does not has met none. */
  lemma {:induction false} ProRunStopsOnError(v: View, events: seq<Event>, src: TotalSource, query: string)
    ensures ProRun(v, events, src, query).1 <==> exists k :: 0 <= k < |events| && events[k].Failed?
    decreases |events|
  {
    if events != [] {
      var (w, stop) := ProApply(v, events[0], Captured(src, v), query);
      if !stop {
        ProRunStopsOnError(w, events[1..], src, query);
        assert forall k :: 1 <= k < |events| ==> events[k] == events[1..][k - 1];
      }
    }
  }

  /** A `done` arrives before any `error`. */
  predicate DoneBeforeError(events: seq<Event>)
    decreases |events|
  {
    events != [] && !events[0].Failed? && (events[0].Done? || DoneBeforeError(events[1..]))
  }

  /** The Pro scan shows an outcome exactly when a `done` arrives before any `error`, and that
      outcome answers the scan's own query. */
  lemma {:induction false} ProRunOutcome(v: View, events: seq<Event>, src: TotalSource, query: string)
    requires v.result.Some? ==> v.result.value.ProOutcome? && v.result.value.query == query
    ensures var w := ProRun(v, events, src, query).0;
      && (w.result.Some? <==> v.result.Some? || DoneBeforeError(events))
      && (w.result.Some? ==> w.result.value.ProOutcome? && w.result.value.query == query)
    decreases |events|
  {
    if events != [] {
      var (w, stop) := ProApply(v, events[0], Captured(src, v), query);
      if !stop {
        ProRunOutcome(w, events[1..], src, query);
      }
    }
  }

  /** The percent shown after each event the Pro handler applies, in order (0 while absent). */
  function Percents(v: View, events: seq<Event>, src: TotalSource, query: string): (r: seq<int>)
    ensures |r| <= |events| && (r == [] <==> events == [])
    decreases |events|
  {
    if events == [] then []
    else
      var (w, stop) := ProApply(v, events[0], Captured(src, v), query);
      [w.progress.percent.GetOr(0)] + (if stop then [] else Percents(w, events[1..], src, query))
  }

  /** The last percent shown is the percent of the state the run ends in. */
  lemma {:induction false} PercentsLast(v: View, events: seq<Event>, src: TotalSource, query: string)
    ensures var ps := Percents(v, events, src, query);
      ps != [] ==> ps[|ps| - 1] == ProRun(v, events, src, query).0.progress.percent.GetOr(0)
    decreases |events|
  {
    if events != [] {
      var (w, stop) := ProApply(v, events[0], Captured(src, v), query);
      if !stop {
        PercentsLast(w, events[1..], src, query);
      }
    }
  }

  lemma {:induction false} PercentsAppend(v: View, a: seq<Event>, b: seq<Event>, src: TotalSource, query: string)
    ensures Percents(v, a + b, src, query) ==
      Percents(v, a, src, query) +
      (var (w, stop) := ProRun(v, a, src, query); if stop then [] else Percents(w, b, src, query))
    decreases |a|
  {
    if a == [] {
      assert a + b == b;
    } else {
      assert (a + b)[0] == a[0] && (a + b)[1..] == a[1..] + b;
      var (w, stop) := ProApply(v, a[0], Captured(src, v), query);
      if !stop {
        PercentsAppend(w, a[1..], b, src, query);
      }
    }
  }

  /** The `batch_start` and `batch_done` records the server sends for parts b..t of t. */
  function PartEvents(b: int, t: int): seq<Event>
    decreases t - b + 1
  {
    if b > t then [] else [BatchStart(b, Some(t)), BatchDone(Some(b))] + PartEvents(b + 1, t)
  }

  /** The whole multi-part Pro stream (server.py:541-570): `start` with t parts, two records per
      part, then `done`. */
  function MultiPartStream(pages: int, t: nat, model: string, result: string, id: string): seq<Event>
  {
    [Start(pages, true, Some(t), None, "", "")] + PartEvents(1, t) + [Done(model, result, id)]
  }

  /** As written: on a page's first scan the `batch_done` handler's closure still holds the `{}`
      of the initial render, so it shows 50, and the next `batch_start` shows less. */
  lemma StaleTotalLowersPercent(v: View, query: string)
    ensures var events := [Start(30, true, Some(3), None, "", ""), BatchStart(1, Some(3)), BatchDone(Some(1)), BatchStart(2, Some(3))];
      var ps := Percents(Reset(v), events, RenderTime(Empty.totalBatches), query);
      ps == [5, 10, 50, 37] && !Rising(0, ps)
  {
    var src := RenderTime(None);
    var w0 := Reset(v);
    var w1 := ProApply(w0, Start(30, true, Some(3), None, "", ""), None, query).0;
    var w2 := ProApply(w1, BatchStart(1, Some(3)), None, query).0;
    var w3 := ProApply(w2, BatchDone(Some(1)), None, query).0;
    var w4 := ProApply(w3, BatchStart(2, Some(3)), None, query).0;
    assert JsRound(0, 3) == 0 && JsRound(80, 3) == 27;
    assert w4.progress.percent == Some(37);
    assert Percents(w3, [BatchStart(2, Some(3))], src, query) == [37];
    assert Percents(w2, [BatchDone(Some(1)), BatchStart(2, Some(3))], src, query) == [50, 37];
    assert Percents(w1, [BatchStart(1, Some(3)), BatchDone(Some(1)), BatchStart(2, Some(3))], src, query) == [10, 50, 37];
    assert !Rising(50, [37]);
    assert [5, 10, 50, 37][1..] == [10, 50, 37] && [10, 50, 37][1..] == [50, 37];
  }

  /** Corrected, for parts b..t: dividing by the current total, no percent falls, and the run
      ends below 90 with the total unchanged. */
  lemma {:induction false} CurrentTotalPartsRise(v: View, b: int, t: int, query: string)
    requires 1 <= t && 1 <= b <= t + 1
    requires v.progress.totalBatches == Some(t)
    requires v.progress.percent.GetOr(0) <= 10 + JsRound((b - 1) * 80, t)
    ensures var w := ProRun(v, PartEvents(b, t), Current, query);
      && Rising(v.progress.percent.GetOr(0), Percents(v, PartEvents(b, t), Current, query))
      && !w.1 && w.0.progress.totalBatches == Some(t) && w.0.progress.percent.GetOr(0) <= 90
    decreases t - b + 1
  {
    if b > t {
      JsRoundBetween(t * 80, t, 80, 80);
    } else {
      var es := PartEvents(b, t);
      var w1 := ProApply(v, BatchStart(b, Some(t)), Some(t), query).0;
      var w2 := ProApply(w1, BatchDone(Some(b)), Some(t), query).0;
      JsRoundMonotone((b - 1) * 80, b * 80, t);
      JsRoundBetween((b - 1) * 80, t, 0, 80);
      JsRoundBetween(b * 80, t, 0, 80);
      assert w1.progress.percent == Some(10 + JsRound((b - 1) * 80, t));
      assert w2.progress.percent == Some(10 + JsRound(b * 80, t));
      assert es == [BatchStart(b, Some(t)), BatchDone(Some(b))] + PartEvents(b + 1, t);
      assert es[1..] == [BatchDone(Some(b))] + PartEvents(b + 1, t);
      assert es[1..][1..] == PartEvents(b + 1, t);
      CurrentTotalPartsRise(w2, b + 1, t, query);
    }
  }

  /** Corrected: over the whole multi-part stream the percent never falls and ends at 100. */
  lemma CurrentTotalStreamRises(v: View, pages: int, t: nat, model: string, result: string, id: string, query: string)
    requires t >= 1
    ensures var ps := Percents(Reset(v), MultiPartStream(pages, t, model, result, id), Current, query);
      Rising(0, ps) && ps[|ps| - 1] == 100
  {
    var start := [Start(pages, true, Some(t), None, "", "")];
    var parts := PartEvents(1, t);
    var done := [Done(model, result, id)];
    var w0 := Reset(v);
    var w1 := ProApply(w0, start[0], None, query).0;
    assert ProRun(w0, start, Current, query) == (w1, false);
    assert Percents(w0, start, Current, query) == [5];
    assert JsRound(0, t) == 0;
    CurrentTotalPartsRise(w1, 1, t, query);
    var w2 := ProRun(w1, parts, Current, query).0;
    assert Percents(w2, done, Current, query) == [100];
    PercentsAppend(w0, start, parts, Current, query);
    ProRunAppend(w0, start, parts, Current, query);
    PercentsAppend(w0, start + parts, done, Current, query);
    PercentsLast(w1, parts, Current, query);
    var p1 := Percents(w1, parts, Current, query);
    RisingAppend(5, p1, [100]);
    RisingAppend(0, [5], p1 + [100]);
    assert [5] + (p1 + [100]) == Percents(w0, start + parts + done, Current, query);
  }

  // ---------------------------------------------------------------------------------------------
  // The legacy scan

  /** One event of the legacy `switch` (DeepDive.js:1070-1113). `fetch` is the analysis the
      `done` handler loads by id; when that request fails, the surrounding catch skips the event. */
  function LegacyApply(v: View, e: Event, fetch: string -> Option<string>): (r: View)
    ensures e.Start? ==>
      && r.progress == Progress(Some(0), Some(Starting(e.totalPages)), e.documents, None, None, None)
      && r.rubricText == (if e.rubricText != "" then e.rubricText else v.rubricText)
      && r.relevanceMode == (if e.relevanceMode != "" then e.relevanceMode else v.relevanceMode)
      && r.thinking == v.thinking && r.findings == v.findings && r.result == v.result
    ensures e.DocumentStart? ==> r == v.(progress := v.progress.(status := Some(AnalyzingDocument(e.document, e.pageCount))))
    ensures e.Report? ==>
      r == v.(progress := Progress(e.percent, if e.status.Some? then Some(Reported(e.status.value)) else None,
                                   None, e.totalBatches, None, e.reportedBatch))
    ensures e.Thinking? ==> r == v.(thinking := v.thinking + [Thought(e.pages, e.thought)])
    ensures e.Found? ==> r == v.(findings := v.findings + [e.finding])
    ensures e.Done? ==> r == v.(result := if fetch(e.analysisId).Some? then Some(FullAnalysis(fetch(e.analysisId).value)) else v.result)
    ensures e.Failed? || e.Other? || e.BatchStart? || e.BatchDone? ==> r == v
  {
    match e
    case Start(pages, _, _, documents, rubric, relevance) =>
      v.(progress := Progress(Some(0), Some(Starting(pages)), documents, None, None, None),
         rubricText := if rubric != "" then rubric else v.rubricText,
         relevanceMode := if relevance != "" then relevance else v.relevanceMode)
    case DocumentStart(document, pages) =>
      v.(progress := v.progress.(status := Some(AnalyzingDocument(document, pages))))
    case Report(percent, status, batch, total) =>
      v.(progress := Progress(percent, if status.Some? then Some(Reported(status.value)) else None, None, total, None, batch))
    case Thinking(pages, thought) => v.(thinking := v.thinking + [Thought(pages, thought)])
    case Found(finding) => v.(findings := v.findings + [finding])
    case Done(_, _, id) =>
      (match fetch(id)
       case Some(analysis) => v.(result := Some(FullAnalysis(analysis)))
       case None => v)
    case _ => v
  }

  /** Folds the legacy handler over events in arrival order; no event ends the fold. */
  function LegacyRun(v: View, events: seq<Event>, fetch: string -> Option<string>): View
    decreases |events|
  {
    if events == [] then v else LegacyRun(LegacyApply(v, events[0], fetch), events[1..], fetch)
  }

  lemma {:induction false} LegacyRunAppend(v: View, a: seq<Event>, b: seq<Event>, fetch: string -> Option<string>)
    ensures LegacyRun(v, a + b, fetch) == LegacyRun(LegacyRun(v, a, fetch), b, fetch)
    decreases |a|
  {
    if a == [] {
      assert a + b == b;
    } else {
      assert (a + b)[0] == a[0] && (a + b)[1..] == a[1..] + b;
      LegacyRunAppend(LegacyApply(v, a[0], fetch), a[1..], b, fetch);
    }
  }

  /** The percent the legacy page shows after each event, in order (0 while absent). */
  function LegacyPercents(v: View, events: seq<Event>, fetch: string -> Option<string>): (r: seq<int>)
    ensures |r| == |events|
    decreases |events|
  {
    if events == [] then []
    else
      var w := LegacyApply(v, events[0], fetch);
      [w.progress.percent.GetOr(0)] + LegacyPercents(w, events[1..], fetch)
  }

  /** A run of `progress` records carrying these percents, in order; the batch numbers and the
      status text they also carry do not bear on the percent shown. */
  function Reports(ps: seq<int>): (r: seq<Event>)
    ensures |r| == |ps|
    ensures forall k :: 0 <= k < |ps| ==> r[k] == Report(Some(ps[k]), None, None, None)
  {
    if ps == [] then [] else [Report(Some(ps[0]), None, None, None)] + Reports(ps[1..])
  }

  /** The legacy page shows each record's percent as it arrives, whatever it showed before: the
      bar follows the stream exactly, falls where the stream falls and adds nothing of its own. */
  lemma {:induction false} LegacyShowsReported(v: View, ps: seq<int>, fetch: string -> Option<string>)
    ensures LegacyPercents(v, Reports(ps), fetch) == ps
    decreases |ps|
  {
    if ps != [] {
      var w := LegacyApply(v, Reports(ps)[0], fetch);
      assert Reports(ps)[1..] == Reports(ps[1..]);
      LegacyShowsReported(w, ps[1..], fetch);
    }
  }

  /** The thoughts carried by a stretch of events, in order. */
  function ThoughtsOf(events: seq<Event>): seq<Thought>
  {
    if events == [] then []
    else (if events[0].Thinking? then [Thought(events[0].pages, events[0].thought)] else []) + ThoughtsOf(events[1..])
  }

  /** The findings carried by a stretch of events, in order. */
  function FindingsOf(events: seq<Event>): seq<string>
  {
    if events == [] then []
    else (if events[0].Found? then [events[0].finding] else []) + FindingsOf(events[1..])
  }

  /** The trace and the findings only grow, each by exactly the entries the events carry, in
      arrival order; nothing is dropped, merged or reordered. */
  lemma {:induction false} LegacyRunAppendsInOrder(v: View, events: seq<Event>, fetch: string -> Option<string>)
    ensures LegacyRun(v, events, fetch).thinking == v.thinking + ThoughtsOf(events)
    ensures LegacyRun(v, events, fetch).findings == v.findings + FindingsOf(events)
    decreases |events|
  {
    if events != [] {
      var w := LegacyApply(v, events[0], fetch);
      LegacyRunAppendsInOrder(w, events[1..], fetch);
      assert w.thinking == v.thinking + (if events[0].Thinking? then [Thought(events[0].pages, events[0].thought)] else []);
    }
  }

  /** After a reset, a scan's trace and findings are exactly those its own events carry. */
  lemma ScanStartsClean(v: View, events: seq<Event>, fetch: string -> Option<string>)
    ensures LegacyRun(Reset(v), events, fetch).findings == FindingsOf(events)
    ensures LegacyRun(Reset(v), events, fetch).thinking == ThoughtsOf(events)
  {
    LegacyRunAppendsInOrder(Reset(v), events, fetch);
  }

  /** An `error` in the legacy flow only raises a toast: the events after it are applied as if it
      had not been there. */
  lemma LegacyErrorIsNotTerminal(v: View, before: seq<Event>, message: string, after: seq<Event>, fetch: string -> Option<string>)
    ensures LegacyRun(v, before + [Failed(message)] + after, fetch) == LegacyRun(v, before + after, fetch)
  {
    LegacyRunAppend(v, before + [Failed(message)], after, fetch);
    LegacyRunAppend(v, before, [Failed(message)], fetch);
    LegacyRunAppend(v, before, after, fetch);
  }

  /** A record of a type the legacy `switch` does not list (the server's per-document `complete`,
      for one) changes nothing. */
  lemma LegacyIgnoresUnknown(v: View, before: seq<Event>, kind: string, after: seq<Event>, fetch: string -> Option<string>)
    ensures LegacyRun(v, before + [Other(kind)] + after, fetch) == LegacyRun(v, before + after, fetch)
  {
    LegacyRunAppend(v, before + [Other(kind)], after, fetch);
    LegacyRunAppend(v, before, [Other(kind)], fetch);
    LegacyRunAppend(v, before, after, fetch);
  }
}
