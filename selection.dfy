/** The document selection of the deep-dive page and the figures derived from it: toggling and
    deleting selected ids (DeepDive.js:996-1009), the page total of the selected documents and the
    pages a page range leaves (DeepDive.js:1134-1139), and the time estimate the speed selector
    shows (DeepDive.js:108-117). */
module Selection {
  import opened Wrappers
  import opened Numbers

  /** A listed document: its id and its `total_pages`, which may be missing. */
  datatype Document = Document(id: string, totalPages: Option<int>)

  /** `prev.filter(id => id !== docId)`. */
  function Without(ids: seq<string>, id: string): (r: seq<string>)
    ensures |r| <= |ids|
  {
    if ids == [] then []
    else (if ids[0] == id then [] else [ids[0]]) + Without(ids[1..], id)
  }

  /** Filtering keeps every other id, in order, and drops every copy of `id`. */
  lemma {:induction false} WithoutKeepsOthers(ids: seq<string>, id: string)
    ensures id !in Without(ids, id)
    ensures forall x :: x != id ==> (x in Without(ids, id) <==> x in ids)
    ensures id !in ids ==> Without(ids, id) == ids
    decreases |ids|
  {
    if ids != [] {
      WithoutKeepsOthers(ids[1..], id);
      assert ids == [ids[0]] + ids[1..];
    }
  }

  /** toggleDoc's updater (DeepDive.js:996-998): a selected id is dropped, another is appended. */
  function Toggle(ids: seq<string>, id: string): seq<string>
  {
    if id in ids then Without(ids, id) else ids + [id]
  }

  /** Toggling flips the id's membership and leaves every other id's alone. */
  lemma ToggleFlips(ids: seq<string>, id: string)
    ensures id in Toggle(ids, id) <==> id !in ids
    ensures forall x :: x != id ==> (x in Toggle(ids, id) <==> x in ids)
  {
    WithoutKeepsOthers(ids, id);
  }

  /** Toggling an unselected id twice restores the selection exactly. */
  lemma ToggleTwice(ids: seq<string>, id: string)
    requires id !in ids
    ensures Toggle(Toggle(ids, id), id) == ids
  {
    WithoutSnoc(ids, id);
  }

  lemma {:induction false} WithoutSnoc(ids: seq<string>, id: string)
    requires id !in ids
    ensures Without(ids + [id], id) == ids
    decreases |ids|
  {
    if ids == [] {
      assert Without([id][1..], id) == [];
    } else {
      assert (ids + [id])[0] == ids[0] && (ids + [id])[1..] == ids[1..] + [id];
      WithoutSnoc(ids[1..], id);
      assert ids == [ids[0]] + ids[1..];
    }
  }

  predicate Distinct(ids: seq<string>)
  {
    forall i, j :: 0 <= i < j < |ids| ==> ids[i] != ids[j]
  }

  /** A selection built by toggling never holds an id twice. */
  lemma ToggleKeepsDistinct(ids: seq<string>, id: string)
    requires Distinct(ids)
    ensures Distinct(Toggle(ids, id))
  {
    if id in ids {
      WithoutSublist(ids, id);
    }
  }

  /** `Without` keeps a subsequence, so it keeps distinctness. */
  lemma {:induction false} WithoutSublist(ids: seq<string>, id: string)
    requires Distinct(ids)
    ensures Distinct(Without(ids, id))
    decreases |ids|
  {
    if ids != [] {
      WithoutSublist(ids[1..], id);
      WithoutKeepsOthers(ids[1..], id);
      var rest := Without(ids[1..], id);
      assert ids[0] !in ids[1..];
      assert ids[0] !in rest;
    }
  }

  /** `d.total_pages || 0`. */
  function PagesOf(d: Document): int
  {
    match d.totalPages
    case Some(n) => n
    case None => 0
  }

  /** `documents.filter(d => selectedDocs.includes(d.id)).reduce((sum, d) => sum + (d.total_pages || 0), 0)`. */
  function TotalPages(documents: seq<Document>, selected: seq<string>): int
  {
    if documents == [] then 0
    else (if documents[0].id in selected then PagesOf(documents[0]) else 0) + TotalPages(documents[1..], selected)
  }

  /** The total depends only on which ids are selected, not on their order or repetition. */
  lemma {:induction false} TotalPagesBySet(documents: seq<Document>, a: seq<string>, b: seq<string>)
    requires forall x :: x in a <==> x in b
    ensures TotalPages(documents, a) == TotalPages(documents, b)
    decreases |documents|
  {
    if documents != [] {
      TotalPagesBySet(documents[1..], a, b);
    }
  }

  /** The pages of the listed documents with a given id. */
  function PagesWithId(documents: seq<Document>, id: string): int
  {
    if documents == [] then 0
    else (if documents[0].id == id then PagesOf(documents[0]) else 0) + PagesWithId(documents[1..], id)
  }

  /** Selecting a document adds its pages to the total, and deselecting it takes them away. */
  lemma {:induction false} ToggleChangesTotal(documents: seq<Document>, selected: seq<string>, id: string)
    ensures id !in selected ==>
      TotalPages(documents, Toggle(selected, id)) == TotalPages(documents, selected) + PagesWithId(documents, id)
    ensures id in selected ==>
      TotalPages(documents, Toggle(selected, id)) == TotalPages(documents, selected) - PagesWithId(documents, id)
    decreases |documents|
  {
    ToggleFlips(selected, id);
    if documents != [] {
      ToggleChangesTotal(documents[1..], selected, id);
    }
  }

  /** The pages a scan is estimated on (DeepDive.js:1137-1139): with the page range enabled and
      an end given, `Math.min((end || total) - (start || 1) + 1, total)`, otherwise the total. A
      bound of 0 counts as missing, as JavaScript's `||` makes it. */
  function EffectivePages(rangeEnabled: bool, start: Option<int>, end: Option<int>, total: int): int
  {
    var s := if start.Some? && start.value != 0 then start.value else 1;
    if rangeEnabled && end.Some? && end.value != 0 then
      var n := end.value - s + 1;
      if n < total then n else total
    else total
  }

  /** The figure never exceeds the total, and for a range inside the documents it is the number
      of pages in that range. */
  lemma EffectivePagesCounts(rangeEnabled: bool, start: Option<int>, end: Option<int>, total: int)
    ensures EffectivePages(rangeEnabled, start, end, total) <= total
    ensures rangeEnabled && start.Some? && end.Some? && 1 <= start.value <= end.value <= total ==>
      EffectivePages(rangeEnabled, start, end, total) == end.value - start.value + 1
    ensures !rangeEnabled || end.None? ==> EffectivePages(rangeEnabled, start, end, total) == total
  {
  }

  /** `pagesPerBatch` of the speed options (DeepDive.js:69-100). */
  function PagesPerBatch(speed: string): (r: Option<nat>)
    ensures r.Some? ==> r.value in {10, 20, 30}
    ensures r == Some(10) <==> speed == "thorough"
    ensures r == Some(20) <==> speed == "balanced"
    ensures r == Some(30) <==> speed == "fast"
    ensures r == None <==> speed !in {"thorough", "balanced", "fast"}
  {
    if speed == "thorough" then Some(10)
    else if speed == "balanced" then Some(20)
    else if speed == "fast" then Some(30)
    else None
  }

  /** The text estimateTime returns. */
  datatype Estimate = SelectDocuments | UnderAMinute | About(minutes: int) | Between(low: int, high: int)

  /** estimateTime (DeepDive.js:108-117), with the factors 0.15 and 0.25 as exact fractions. */
  function EstimateTime(speed: string, pages: int): Estimate
  {
    var opt := PagesPerBatch(speed);
    if pages == 0 || opt.None? then SelectDocuments
    else
      var batches := CeilDiv(pages, opt.value);
      var minTime := CeilDiv(batches * 15, 100);
      var maxTime := CeilDiv(batches * 25, 100);
      if minTime < 1 then UnderAMinute
      else if minTime == maxTime then About(minTime)
      else Between(minTime, maxTime)
  }

  /** For a known speed and a positive page count the estimate is a range of whole minutes: at
      least 9 and at most 15 seconds per batch, rounded up, and never "< 1 min". Only a count below
      zero, which a page range ending before it starts produces, gives "< 1 min"; the selector shows
      an estimate only for a positive count (DeepDive.js:124), so that text never appears. */
  lemma EstimateBrackets(speed: string, pages: int)
    requires PagesPerBatch(speed).Some?
    ensures var b := CeilDiv(pages, PagesPerBatch(speed).value);
      var e := EstimateTime(speed, pages);
      && (pages > 0 ==> (e.About? || e.Between?) && b >= 1)
      && (e.About? ==> e.minutes >= 1 && 100 * (e.minutes - 1) < 15 * b && 25 * b <= 100 * e.minutes)
      && (e.Between? ==>
            && 1 <= e.low < e.high
            && 100 * (e.low - 1) < 15 * b <= 100 * e.low
            && 100 * (e.high - 1) < 25 * b <= 100 * e.high)
      && (e == UnderAMinute <==> pages < 0)
  {
    var ppb := PagesPerBatch(speed).value;
    var b := CeilDiv(pages, ppb);
    var lo, hi := CeilDiv(b * 15, 100), CeilDiv(b * 25, 100);
    if pages > 0 {
      assert b >= 1;
    } else if pages < 0 {
      assert (b - 1) * ppb < pages;
      assert b <= 0;
    }
    if lo == hi {
      assert 25 * b <= 100 * hi;
    }
    if lo >= 1 {
      assert b >= 1;
    }
    if b >= 0 {
      assert b * 25 - b * 15 == b * 10;
      CeilDivMonotone(b * 15, b * 25, 100);
    }
  }

  lemma CeilDivMonotone(n: int, m: int, d: int)
    requires d > 0 && n <= m
    ensures CeilDiv(n, d) <= CeilDiv(m, d)
  {
    var a, b := CeilDiv(n, d), CeilDiv(m, d);
    if a > b {
      MulLe(b, a - 1, d);
    }
  }

  /** More pages never give a shorter minimum. */
  lemma EstimateMonotone(speed: string, pages: int, more: int)
    requires PagesPerBatch(speed).Some? && 0 < pages <= more
    ensures var e, f := EstimateTime(speed, pages), EstimateTime(speed, more);
      Low(e) <= Low(f)
  {
    var ppb := PagesPerBatch(speed).value;
    EstimateBrackets(speed, pages);
    EstimateBrackets(speed, more);
    CeilDivMonotone(pages, more, ppb);
    var b, c := CeilDiv(pages, ppb), CeilDiv(more, ppb);
    MulLe(b, c, 15);
    CeilDivMonotone(b * 15, c * 15, 100);
  }

  /** The lower end of an estimate, in minutes. */
  function Low(e: Estimate): int
  {
    match e
    case About(m) => m
    case Between(lo, _) => lo
    case _ => 0
  }

  /** A 1000-page scan at balanced speed reads "~8-13 min". */
  lemma BalancedThousandPages()
    ensures EstimateTime("balanced", 1000) == Between(8, 13)
  {
    CeilDivUnique(1000, 20, 50);
    CeilDivUnique(750, 100, 8);
    CeilDivUnique(1250, 100, 13);
  }
}
