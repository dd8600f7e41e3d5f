/** The two scan handlers of the deep-dive page (DeepDive.js:841-942 for the Pro scan, 1028-1125
    for the legacy scan): after their guards they reset the live state, read the response body
    chunk by chunk, cut each chunk into lines, and hand every "data: " payload that parses as JSON
    to the reducer of their flow. The network is a parameter: None when the request throws before
    a body is read, otherwise the chunks the reader returns until it is done. */
module Scan {
  import opened Wrappers
  import opened Strings
  import opened Sse
  import opened Progress

  /** Payloads decoded into events, in order; a payload that is not valid JSON is skipped. */
  function Events(payloads: seq<string>, parse: string -> Option<Event>): (r: seq<Event>)
    ensures |r| <= |payloads|
  {
    if payloads == [] then []
    else (match parse(payloads[0]) case Some(e) => [e] case None => []) + Events(payloads[1..], parse)
  }

  lemma {:induction false} EventsAppend(a: seq<string>, b: seq<string>, parse: string -> Option<Event>)
    ensures Events(a + b, parse) == Events(a, parse) + Events(b, parse)
    decreases |a|
  {
    if a == [] {
      assert a + b == b;
    } else {
      assert (a + b)[0] == a[0] && (a + b)[1..] == a[1..] + b;
      EventsAppend(a[1..], b, parse);
    }
  }

  /** The Pro scan of a body read as `chunks`, started from view `v`; the `batch_done` handler
      divides by the total of `v`, the state its closure was created with. */
  function ProScan(v: View, chunks: seq<string>, parse: string -> Option<Event>, query: string): View
  {
    ProRun(Reset(v), Events(StreamPayloads(chunks), parse), RenderTime(v.progress.totalBatches), query).0
  }

  /** The legacy scan of a body read as `chunks`, started from view `v`. */
  function LegacyScan(v: View, chunks: seq<string>, parse: string -> Option<Event>, fetch: string -> Option<string>): View
  {
    LegacyRun(Reset(v), Events(StreamPayloads(chunks), parse), fetch)
  }

  /** The guards of the Pro scan: a Pro document is selected, and neither the query nor the key is
      blank. */
  predicate ProScanAllowed(selectedProDoc: Option<string>, query: string, geminiKey: string)
  {
    selectedProDoc.Some? && !IsBlank(query) && !IsBlank(geminiKey)
  }

  /** The guards of the legacy scan: some document is selected and the query is not blank. */
  predicate LegacyScanAllowed(selectedDocs: seq<string>, query: string)
  {
    selectedDocs != [] && !IsBlank(query)
  }

  /** Events decoded so far: the payloads of the whole chunks read, then of the lines of the current
      chunk handled. */
  ghost function EventsSoFar(chunks: seq<string>, i: int, lines: seq<string>, j: int, parse: string -> Option<Event>): seq<Event>
    requires 0 <= i <= |chunks| && 0 <= j <= |lines|
  {
    Events(StreamPayloads(chunks[..i]) + Payloads(lines[..j]), parse)
  }

  /** Handling line j adds the event it carries, if it is a payload line that parses. */
  lemma LineStep(chunks: seq<string>, i: int, lines: seq<string>, j: int, parse: string -> Option<Event>)
    requires 0 <= i <= |chunks| && 0 <= j < |lines|
    ensures var line := lines[j];
      EventsSoFar(chunks, i, lines, j + 1, parse) ==
      EventsSoFar(chunks, i, lines, j, parse) +
      (if DataPrefix <= line && parse(line[|DataPrefix|..]).Some? then [parse(line[|DataPrefix|..]).value] else [])
  {
    var line := lines[j];
    var done := StreamPayloads(chunks[..i]);
    var extra := if DataPrefix <= line then [line[|DataPrefix|..]] else [];
    PayloadsSnoc(lines, j);
    assert done + Payloads(lines[..j + 1]) == (done + Payloads(lines[..j])) + extra;
    EventsAppend(done + Payloads(lines[..j]), extra, parse);
    if extra != [] {
      assert Events(extra, parse) == Events([line[|DataPrefix|..]], parse);
    }
  }

  /** A chunk whose lines are all handled is a chunk read. */
  lemma ChunkStep(chunks: seq<string>, i: int, parse: string -> Option<Event>)
    requires 0 <= i < |chunks|
    ensures var lines := Split(chunks[i], '\n');
      EventsSoFar(chunks, i, lines, |lines|, parse) == EventsSoFar(chunks, i + 1, [], 0, parse)
  {
    var lines := Split(chunks[i], '\n');
    StreamPayloadsSnoc(chunks, i);
    assert lines[..|lines|] == lines;
    var e: seq<string> := [];
    assert e[..0] == [] && Payloads([]) == [];
    assert StreamPayloads(chunks[..i + 1]) + Payloads(e[..0]) == StreamPayloads(chunks[..i + 1]);
  }

  /** The events still to come after line j of chunk i. */
  ghost function EventsAfter(chunks: seq<string>, i: int, lines: seq<string>, j: int, parse: string -> Option<Event>): seq<Event>
    requires 0 <= i < |chunks| && 0 <= j <= |lines|
  {
    Events(Payloads(lines[j..]) + StreamPayloads(chunks[i + 1..]), parse)
  }

  /** The events so far and the events still to come are the events of the whole body. */
  lemma AllEvents(chunks: seq<string>, i: int, lines: seq<string>, j: int, parse: string -> Option<Event>)
    requires 0 <= i < |chunks| && lines == Split(chunks[i], '\n') && 0 <= j <= |lines|
    ensures Events(StreamPayloads(chunks), parse) ==
      EventsSoFar(chunks, i, lines, j, parse) + EventsAfter(chunks, i, lines, j, parse)
  {
    var x := StreamPayloads(chunks[..i]) + Payloads(lines[..j]);
    var y := Payloads(lines[j..]) + StreamPayloads(chunks[i + 1..]);
    SplitPayloads(chunks, i, lines, j);
    GroupPairs(StreamPayloads(chunks[..i]), Payloads(lines[..j]), Payloads(lines[j..]), StreamPayloads(chunks[i + 1..]));
    EventsAppend(x, y, parse);
  }

  lemma GroupPairs<T>(a: seq<T>, b: seq<T>, c: seq<T>, d: seq<T>)
    ensures a + b + c + d == (a + b) + (c + d)
  {
  }

  lemma SplitPayloads(chunks: seq<string>, i: int, lines: seq<string>, j: int)
    requires 0 <= i < |chunks| && lines == Split(chunks[i], '\n') && 0 <= j <= |lines|
    ensures StreamPayloads(chunks) ==
      StreamPayloads(chunks[..i]) + Payloads(lines[..j]) + Payloads(lines[j..]) + StreamPayloads(chunks[i + 1..])
  {
    StreamPayloadsCut(chunks, i);
    LinesCut(lines, j);
    Regroup(StreamPayloads(chunks[..i]), Payloads(lines[..j]), Payloads(lines[j..]), StreamPayloads(chunks[i + 1..]));
  }

  lemma Regroup<T>(a: seq<T>, b: seq<T>, c: seq<T>, d: seq<T>)
    ensures a + (b + c) + d == a + b + c + d
  {
  }

  lemma StreamPayloadsCut(chunks: seq<string>, i: int)
    requires 0 <= i < |chunks|
    ensures StreamPayloads(chunks) ==
      StreamPayloads(chunks[..i]) + ReadPayloads(chunks[i]) + StreamPayloads(chunks[i + 1..])
  {
    assert chunks == chunks[..i + 1] + chunks[i + 1..];
    StreamPayloadsAppend(chunks[..i + 1], chunks[i + 1..]);
    StreamPayloadsSnoc(chunks, i);
  }

  lemma LinesCut(lines: seq<string>, j: int)
    requires 0 <= j <= |lines|
    ensures Payloads(lines) == Payloads(lines[..j]) + Payloads(lines[j..])
  {
    Cut(lines, j);
    PayloadsAppend(lines[..j], lines[j..]);
  }

  /** The whole body read: the events so far are all its events. */
  lemma BodyRead(chunks: seq<string>, parse: string -> Option<Event>)
    ensures EventsSoFar(chunks, |chunks|, [], 0, parse) == Events(StreamPayloads(chunks), parse)
  {
    assert chunks[..|chunks|] == chunks;
    var e: seq<string> := [];
    assert e[..0] == [] && Payloads([]) == [];
    assert StreamPayloads(chunks) + Payloads(e[..0]) == StreamPayloads(chunks);
  }

  /** One line of the Pro reader loop is one application of the Pro reducer, if it carries an
      event. */
  lemma ProLineStep(r0: View, chunks: seq<string>, i: int, lines: seq<string>, j: int,
                    parse: string -> Option<Event>, src: TotalSource, query: string, view: View)
    requires 0 <= i <= |chunks| && 0 <= j < |lines|
    requires ProRun(r0, EventsSoFar(chunks, i, lines, j, parse), src, query) == (view, false)
    ensures ProRun(r0, EventsSoFar(chunks, i, lines, j + 1, parse), src, query) ==
      var line := lines[j];
      if DataPrefix <= line && parse(line[|DataPrefix|..]).Some?
      then ProApply(view, parse(line[|DataPrefix|..]).value, Captured(src, view), query)
      else (view, false)
  {
    var line := lines[j];
    LineStep(chunks, i, lines, j, parse);
    var extra := if DataPrefix <= line && parse(line[|DataPrefix|..]).Some? then [parse(line[|DataPrefix|..]).value] else [];
    ProRunAppend(r0, EventsSoFar(chunks, i, lines, j, parse), extra, src, query);
  }

  /** An `error` on a line ends the Pro scan: the events after it do not matter. */
  lemma ProStop(r0: View, chunks: seq<string>, i: int, lines: seq<string>, j: int,
                parse: string -> Option<Event>, src: TotalSource, query: string)
    requires 0 <= i < |chunks| && lines == Split(chunks[i], '\n') && 0 <= j <= |lines|
    requires ProRun(r0, EventsSoFar(chunks, i, lines, j, parse), src, query).1
    ensures ProRun(r0, Events(StreamPayloads(chunks), parse), src, query) ==
      ProRun(r0, EventsSoFar(chunks, i, lines, j, parse), src, query)
  {
    AllEvents(chunks, i, lines, j, parse);
    ProRunAppend(r0, EventsSoFar(chunks, i, lines, j, parse), EventsAfter(chunks, i, lines, j, parse), src, query);
  }

  /** One line of the legacy reader loop is one application of the legacy reducer, if it carries
      an event. */
  lemma LegacyLineStep(r0: View, chunks: seq<string>, i: int, lines: seq<string>, j: int,
                       parse: string -> Option<Event>, fetch: string -> Option<string>)
    requires 0 <= i <= |chunks| && 0 <= j < |lines|
    ensures LegacyRun(r0, EventsSoFar(chunks, i, lines, j + 1, parse), fetch) ==
      var view := LegacyRun(r0, EventsSoFar(chunks, i, lines, j, parse), fetch);
      var line := lines[j];
      if DataPrefix <= line && parse(line[|DataPrefix|..]).Some?
      then LegacyApply(view, parse(line[|DataPrefix|..]).value, fetch)
      else view
  {
    var line := lines[j];
    LineStep(chunks, i, lines, j, parse);
    var extra := if DataPrefix <= line && parse(line[|DataPrefix|..]).Some? then [parse(line[|DataPrefix|..]).value] else [];
    LegacyRunAppend(r0, EventsSoFar(chunks, i, lines, j, parse), extra, fetch);
  }

  /** The Pro reader loop (DeepDive.js:877-936) from view `r0`: every read is cut into lines and
      each payload that parses goes to the Pro reducer, until the body ends or an `error` event
      returns. */
  method ReadPro(r0: View, chunks: seq<string>, parse: string -> Option<Event>, captured: Option<int>, query: string)
    returns (view: View)
    ensures view == ProRun(r0, Events(StreamPayloads(chunks), parse), RenderTime(captured), query).0
  {
    view := r0;
    var i := 0;
    assert chunks[..0] == [] && Payloads([][..0]) == [];
    while i < |chunks|
      invariant 0 <= i <= |chunks|
      invariant ProRun(r0, EventsSoFar(chunks, i, [], 0, parse), RenderTime(captured), query) == (view, false)
    {
      var stop;
      view, stop := ReadProLines(r0, chunks, i, parse, captured, query, view);
      if stop {
        return;
      }
      i := i + 1;
    }
    BodyRead(chunks, parse);
  }

  /** The lines of read i in the Pro reader loop; `stop` when an `error` event returned. */
  method ReadProLines(r0: View, chunks: seq<string>, i: int, parse: string -> Option<Event>, captured: Option<int>,
                      query: string, view0: View)
    returns (view: View, stop: bool)
    requires 0 <= i < |chunks|
    requires ProRun(r0, EventsSoFar(chunks, i, [], 0, parse), RenderTime(captured), query) == (view0, false)
    ensures !stop ==> ProRun(r0, EventsSoFar(chunks, i + 1, [], 0, parse), RenderTime(captured), query) == (view, false)
    ensures stop ==> ProRun(r0, Events(StreamPayloads(chunks), parse), RenderTime(captured), query).0 == view
  {
    ghost var src := RenderTime(captured);
    view := view0;
    var lines := Split(chunks[i], '\n');
    var j := 0;
    assert EventsSoFar(chunks, i, lines, 0, parse) == EventsSoFar(chunks, i, [], 0, parse);
    while j < |lines|
      invariant 0 <= j <= |lines|
      invariant ProRun(r0, EventsSoFar(chunks, i, lines, j, parse), src, query) == (view, false)
    {
      var line := lines[j];
      ProLineStep(r0, chunks, i, lines, j, parse, src, query, view);
      if DataPrefix <= line {
        var data := parse(line[|DataPrefix|..]);
        if data.Some? {
          var next := ProApply(view, data.value, captured, query);
          view := next.0;
          if next.1 {
            ProStop(r0, chunks, i, lines, j + 1, parse, src, query);
            return view, true;
          }
        }
      }
      j := j + 1;
    }
    ChunkStep(chunks, i, parse);
    stop := false;
  }

  /** The legacy reader loop (DeepDive.js:1058-1119) from view `r0`: every payload that parses goes
      to the legacy reducer, to the end of the body. */
  method ReadLegacy(r0: View, chunks: seq<string>, parse: string -> Option<Event>, fetch: string -> Option<string>)
    returns (view: View)
    ensures view == LegacyRun(r0, Events(StreamPayloads(chunks), parse), fetch)
  {
    view := r0;
    var i := 0;
    assert chunks[..0] == [] && Payloads([][..0]) == [];
    while i < |chunks|
      invariant 0 <= i <= |chunks|
      invariant LegacyRun(r0, EventsSoFar(chunks, i, [], 0, parse), fetch) == view
    {
      view := ReadLegacyLines(r0, chunks, i, parse, fetch, view);
      i := i + 1;
    }
    BodyRead(chunks, parse);
  }

  /** The lines of read i in the legacy reader loop. */
  method ReadLegacyLines(r0: View, chunks: seq<string>, i: int, parse: string -> Option<Event>,
                         fetch: string -> Option<string>, view0: View)
    returns (view: View)
    requires 0 <= i < |chunks|
    requires LegacyRun(r0, EventsSoFar(chunks, i, [], 0, parse), fetch) == view0
    ensures LegacyRun(r0, EventsSoFar(chunks, i + 1, [], 0, parse), fetch) == view
  {
    view := view0;
    var lines := Split(chunks[i], '\n');
    var j := 0;
    assert EventsSoFar(chunks, i, lines, 0, parse) == EventsSoFar(chunks, i, [], 0, parse);
    while j < |lines|
      invariant 0 <= j <= |lines|
      invariant LegacyRun(r0, EventsSoFar(chunks, i, lines, j, parse), fetch) == view
    {
      var line := lines[j];
      LegacyLineStep(r0, chunks, i, lines, j, parse, fetch);
      if DataPrefix <= line {
        var data := parse(line[|DataPrefix|..]);
        if data.Some? {
          view := LegacyApply(view, data.value, fetch);
        }
      }
      j := j + 1;
    }
    ChunkStep(chunks, i, parse);
  }

  /** The live state of the deep-dive page that the scans drive. */
  class ScanPage {
    var view: View
    var analyzing: bool
    var activeTab: string

    /** The page's initial state (DeepDive.js:697-699, 968-977). */
    constructor ()
      ensures view == View(Empty, [], [], None, "", "normal")
      ensures !analyzing && activeTab == "home"
    {
      view := View(Empty, [], [], None, "", "normal");
      analyzing := false;
      activeTab := "home";
    }

    /** runProAnalyze (DeepDive.js:841-942). Refused by its guards it changes nothing; otherwise it
        ends on the results tab, no longer analyzing, with the view the Pro reducer computes from
        the events of the body; an `error` event stops reading at once. */
    method RunProAnalyze(selectedProDoc: Option<string>, query: string, geminiKey: string,
                         response: Option<seq<string>>, parse: string -> Option<Event>)
      modifies this
      ensures !ProScanAllowed(selectedProDoc, query, geminiKey) ==>
        view == old(view) && analyzing == old(analyzing) && activeTab == old(activeTab)
      ensures ProScanAllowed(selectedProDoc, query, geminiKey) ==>
        && !analyzing && activeTab == "results"
        && view == (match response
                    case None => Reset(old(view))
                    case Some(chunks) => ProScan(old(view), chunks, parse, query))
    {
      if selectedProDoc.None? || IsBlank(query) || IsBlank(geminiKey) {
        return;
      }
      var captured := view.progress.totalBatches;
      analyzing := true;
      activeTab := "results";
      view := Reset(view);
      if response.None? {
        analyzing := false;
        return;
      }
      view := ReadPro(view, response.value, parse, captured, query);
      analyzing := false;
    }

    /** startScan (DeepDive.js:1028-1125). Refused by its guards it changes nothing; otherwise it
        ends on the results tab, no longer analyzing, with the view the legacy reducer computes from
        every event of the body. */
    method StartScan(selectedDocs: seq<string>, query: string, response: Option<seq<string>>,
                     parse: string -> Option<Event>, fetch: string -> Option<string>)
      modifies this
      ensures !LegacyScanAllowed(selectedDocs, query) ==>
        view == old(view) && analyzing == old(analyzing) && activeTab == old(activeTab)
      ensures LegacyScanAllowed(selectedDocs, query) ==>
        && !analyzing && activeTab == "results"
        && view == (match response
                    case None => Reset(old(view))
                    case Some(chunks) => LegacyScan(old(view), chunks, parse, fetch))
    {
      if selectedDocs == [] || IsBlank(query) {
        return;
      }
      analyzing := true;
      activeTab := "results";
      view := Reset(view);
      if response.None? {
        analyzing := false;
        return;
      }
      view := ReadLegacy(view, response.value, parse, fetch);
      analyzing := false;
    }
  }
}
