/** `_split_pdf_by_pages` (server.py:234-269): a PDF of `total` pages is cut into parts of at most
    `maxPages` pages, each of which is also cut short once writing it reaches `maxBytes` bytes.
    The writer's byte count is an oracle: `size(start, cur)` is the size of pages `start` to `cur`
    written as one file. The writer is the sequence of the page numbers added to it.

    As written, a part the page cap closes records an end one past its last page, and the next part
    starts after that page, so that page is written to no part. `EndRule` selects the end as
    written or the last page written. */
module PdfSplit {
  import opened Wrappers

  /** GEMINI_FILE_MAX_PAGES and GEMINI_FILE_MAX_SIZE_MB in bytes (server.py:42-43). */
  const MaxPages: nat := 1000
  const MaxBytes: nat := 45 * 1024 * 1024

  datatype EndRule = AsWritten | LastPageWritten

  /** A part: `part_index`, `start_page`, `end_page`, and the pages its file holds. */
  datatype Part = Part(index: nat, startPage: int, endPage: int, pages: seq<int>)

  /** The pages `a` to `b`, in order; empty when `b < a`. */
  function Range(a: int, b: int): (r: seq<int>)
    ensures |r| == if b < a then 0 else b - a + 1
    decreases b - a
  {
    if b < a then [] else Range(a, b - 1) + [b]
  }

  lemma {:induction false} RangeAt(a: int, b: int, k: int)
    requires 0 <= k <= b - a
    ensures Range(a, b)[k] == a + k
    decreases b - a
  {
    if k < b - a {
      RangeAt(a, b - 1, k);
    }
  }

  /** Two adjacent ranges make one. */
  lemma RangeJoin(a: int, m: int, b: int)
    requires a - 1 <= m <= b
    ensures Range(a, m) + Range(m + 1, b) == Range(a, b)
  {
    var x, y := Range(a, m) + Range(m + 1, b), Range(a, b);
    forall k | 0 <= k < |x|
      ensures x[k] == y[k]
    {
      RangeAt(a, b, k);
      if k < m - a + 1 {
        RangeAt(a, m, k);
      } else {
        RangeAt(m + 1, b, k - (m - a + 1));
      }
    }
  }

  /** Where the inner loop stops: its last `current_page` and the writer it leaves. */
  datatype Closed = Closed(cur: int, writer: seq<int>)

  /** The inner loop from `cur` on, with pages `start` to `cur - 1` already added: it adds page
      `cur`; when the count is a multiple of 50 or `cur` is the last page, and the file has
      reached `maxBytes` with more than one page in it, it drops page `cur` and stops. It also
      stops after the last page or when the part holds `maxPages` pages. */
  function Fill(start: int, cur: int, total: int, maxPages: nat, maxBytes: int, size: (int, int) -> int): (r: Closed)
    requires 1 <= start <= cur
    decreases total + 1 - cur
  {
    if cur <= total && cur - start + 1 <= maxPages then
      var count := cur - start + 1;
      if (count % 50 == 0 || cur == total) && size(start, cur) >= maxBytes && count > 1 then
        Closed(cur - 1, Range(start, cur - 1))
      else
        Fill(start, cur + 1, total, maxPages, maxBytes, size)
    else
      Closed(cur, Range(start, cur - 1))
  }

  /** Where the inner loop can stop: at most one past the last page and one past the cap, and
      with the pages from `start` on in the writer, up to `cur - 1` or, when it stopped on a size
      check, up to `cur`. */
  lemma {:induction false} FillShape(start: int, cur: int, total: int, maxPages: nat, maxBytes: int, size: (int, int) -> int)
    requires 1 <= start <= cur
    ensures var r := Fill(start, cur, total, maxPages, maxBytes, size);
      && start <= r.cur
      && (cur <= total + 1 ==> r.cur <= total + 1)
      && (cur <= start + maxPages ==> r.cur <= start + maxPages && |r.writer| <= maxPages)
      && (cur <= total + 1 && cur <= start + maxPages && r.writer == Range(start, r.cur - 1) ==>
            r.cur == total + 1 || r.cur == start + maxPages)
      && (r.writer == Range(start, r.cur - 1) || (r.writer == Range(start, r.cur) && r.cur <= total))
    decreases total + 1 - cur
  {
    if cur <= total && cur - start + 1 <= maxPages {
      var count := cur - start + 1;
      if !((count % 50 == 0 || cur == total) && size(start, cur) >= maxBytes && count > 1) {
        FillShape(start, cur + 1, total, maxPages, maxBytes, size);
      }
    }
  }

  /** The part the outer loop records after the inner loop stopped at `c`: `end` is
      `current_page`, or `total` once past it, and an empty writer gets the start page alone. */
  function Close(rule: EndRule, index: nat, start: int, total: int, c: Closed): (p: Part)
    requires start <= total && start <= c.cur <= total + 1
    requires c.writer == Range(start, c.cur - 1) || (c.writer == Range(start, c.cur) && c.cur <= total)
    ensures p.index == index && p.startPage == start
    ensures start <= p.endPage <= total
    ensures p.pages != []
  {
    if c.writer == [] then Part(index, start, start, [start])
    else
      var end := match rule
        case AsWritten => if c.cur <= total then c.cur else total
        case LastPageWritten => c.writer[|c.writer| - 1];
      Part(index, start, end, c.writer)
  }

  /** The part starting at `start`: the inner loop, then the end recorded. */
  function NextPart(rule: EndRule, index: nat, start: int, total: int, maxPages: nat, maxBytes: int,
                    size: (int, int) -> int): (p: Part)
    requires 1 <= start <= total
    ensures p.index == index && p.startPage == start && start <= p.endPage <= total
  {
    FillShape(start, start, total, maxPages, maxBytes, size);
    Close(rule, index, start, total, Fill(start, start, total, maxPages, maxBytes, size))
  }

  /** The parts from page `start` on, numbered after `index`. */
  function SplitFrom(rule: EndRule, start: int, index: nat, total: int, maxPages: nat, maxBytes: int,
                     size: (int, int) -> int): seq<Part>
    requires 1 <= start
    decreases total + 1 - start
  {
    if start > total then []
    else
      var p := NextPart(rule, index + 1, start, total, maxPages, maxBytes, size);
      [p] + SplitFrom(rule, p.endPage + 1, index + 1, total, maxPages, maxBytes, size)
  }

  /** The parts of a `total`-page PDF. */
  function Split(rule: EndRule, total: int, maxPages: nat, maxBytes: int, size: (int, int) -> int): seq<Part>
  {
    SplitFrom(rule, 1, 0, total, maxPages, maxBytes, size)
  }

  /** The outer loop of `_split_pdf_by_pages`: one part per round, each starting after the end the
      previous one recorded. */
  method SplitPdfByPages(rule: EndRule, total: int, maxPages: nat, maxBytes: int, size: (int, int) -> int)
    returns (parts: seq<Part>)
    ensures parts == Split(rule, total, maxPages, maxBytes, size)
  {
    parts := [];
    var start := 1;
    while start <= total
      invariant 1 <= start
      invariant parts + SplitFrom(rule, start, |parts|, total, maxPages, maxBytes, size)
             == Split(rule, total, maxPages, maxBytes, size)
      decreases total + 1 - start
    {
      var part := Round(rule, start, |parts|, total, maxPages, maxBytes, size);
      ghost var rest := SplitFrom(rule, part.endPage + 1, |parts| + 1, total, maxPages, maxBytes, size);
      Associate(parts, [part], rest);
      parts, start := parts + [part], part.endPage + 1;
    }
    assert SplitFrom(rule, start, |parts|, total, maxPages, maxBytes, size) == [];
  }

  /** One round of the outer loop: the part starting at `start`. */
  method Round(rule: EndRule, start: int, partIdx: nat, total: int, maxPages: nat, maxBytes: int, size: (int, int) -> int)
    returns (part: Part)
    requires 1 <= start <= total
    ensures start <= part.endPage
    ensures SplitFrom(rule, start, partIdx, total, maxPages, maxBytes, size)
         == [part] + SplitFrom(rule, part.endPage + 1, partIdx + 1, total, maxPages, maxBytes, size)
  {
    var cur, writer := FillPart(start, total, maxPages, maxBytes, size);
    FillShape(start, start, total, maxPages, maxBytes, size);
    part := ClosePart(rule, partIdx + 1, start, total, cur, writer);
  }

  /** The end of a round of the outer loop: the recorded end and the part appended. */
  method ClosePart(rule: EndRule, partIdx: nat, start: int, total: int, cur: int, writer: seq<int>) returns (part: Part)
    requires 1 <= start <= total && start <= cur <= total + 1
    requires writer == Range(start, cur - 1) || (writer == Range(start, cur) && cur <= total)
    ensures part == Close(rule, partIdx, start, total, Closed(cur, writer))
  {
    var end := if cur <= total then cur else total;
    var pages := writer;
    if rule == LastPageWritten && pages != [] {
      end := pages[|pages| - 1];
    }
    if |pages| == 0 {
      pages := [start];
      end := start;
    }
    part := Part(partIdx, start, end, pages);
  }

  /** The inner loop of `_split_pdf_by_pages` for the part starting at `start`. */
  method FillPart(start: int, total: int, maxPages: nat, maxBytes: int, size: (int, int) -> int)
    returns (cur: int, writer: seq<int>)
    requires 1 <= start <= total
    ensures Closed(cur, writer) == Fill(start, start, total, maxPages, maxBytes, size)
  {
    writer := [];
    cur := start;
    while cur <= total && cur - start + 1 <= maxPages
      invariant start <= cur <= total + 1
      invariant writer == Range(start, cur - 1)
      invariant Fill(start, cur, total, maxPages, maxBytes, size) == Fill(start, start, total, maxPages, maxBytes, size)
      decreases total + 1 - cur
    {
      writer := writer + [cur];
      if |writer| % 50 == 0 || cur == total {
        var currentSize := size(start, cur);
        if currentSize >= maxBytes && |writer| > 1 {
          if cur > start {
            cur := cur - 1;
            writer := [];
            for p := start - 1 to cur
              invariant writer == Range(start, p)
            {
              writer := writer + [p + 1];
            }
          }
          return;
        }
      }
      cur := cur + 1;
    }
  }

  /** What a well-formed part is: a non-empty run of pages from its start, within the page cap,
      recorded with the end the rule gives. Under the rule as written the end is one past the
      last page when the cap closed the part. */
  predicate WellFormed(rule: EndRule, p: Part, maxPages: nat)
  {
    && p.startPage <= p.endPage <= p.startPage + maxPages
    && 1 <= |p.pages| <= (if maxPages == 0 then 1 else maxPages)
    && (rule == LastPageWritten ==> p.pages == Range(p.startPage, p.endPage))
    && (rule == AsWritten ==>
          || p.pages == Range(p.startPage, p.endPage)
          || (p.pages == Range(p.startPage, p.endPage - 1) && |p.pages| == maxPages))
  }

  lemma PartShape(rule: EndRule, index: nat, start: int, total: int, maxPages: nat, maxBytes: int, size: (int, int) -> int)
    requires 1 <= start <= total
    ensures WellFormed(rule, NextPart(rule, index, start, total, maxPages, maxBytes, size), maxPages)
  {
    FillShape(start, start, total, maxPages, maxBytes, size);
    var c := Fill(start, start, total, maxPages, maxBytes, size);
    if c.writer != [] {
      if c.writer == Range(start, c.cur - 1) {
        RangeAt(start, c.cur - 1, c.cur - 1 - start);
      } else {
        RangeAt(start, c.cur, c.cur - start);
      }
    }
  }

  predicate Numbered(parts: seq<Part>, index: nat)
  {
    forall k :: 0 <= k < |parts| ==> parts[k].index == index + k + 1
  }

  predicate Consecutive(parts: seq<Part>)
  {
    forall k :: 1 <= k < |parts| ==> parts[k].startPage == parts[k - 1].endPage + 1
  }

  /** The parts are numbered on from `index`, the first starts at `start`, each starts right after
      the end the previous one recorded, the last ends at `total`, and each is well formed. */
  lemma {:induction false} SplitTiles(rule: EndRule, start: int, index: nat, total: int, maxPages: nat, maxBytes: int,
                                      size: (int, int) -> int)
    requires 1 <= start
    ensures var parts := SplitFrom(rule, start, index, total, maxPages, maxBytes, size);
      && Numbered(parts, index)
      && (parts != [] <==> start <= total)
      && (parts != [] ==> parts[0].startPage == start && parts[|parts| - 1].endPage == total)
      && Consecutive(parts)
      && forall k :: 0 <= k < |parts| ==> WellFormed(rule, parts[k], maxPages)
    decreases total + 1 - start
  {
    if start <= total {
      var parts := SplitFrom(rule, start, index, total, maxPages, maxBytes, size);
      var p := NextPart(rule, index + 1, start, total, maxPages, maxBytes, size);
      var rest := SplitFrom(rule, p.endPage + 1, index + 1, total, maxPages, maxBytes, size);
      assert parts == [p] + rest;
      PartShape(rule, index + 1, start, total, maxPages, maxBytes, size);
      SplitTiles(rule, p.endPage + 1, index + 1, total, maxPages, maxBytes, size);
      TilesCons(rule, p, rest, index, total, maxPages);
    }
  }

  /** One well-formed part in front of the tiling of the pages after it tiles from its start. */
  lemma TilesCons(rule: EndRule, p: Part, rest: seq<Part>, index: nat, total: int, maxPages: nat)
    requires p.index == index + 1 && p.startPage <= p.endPage <= total && WellFormed(rule, p, maxPages)
    requires Numbered(rest, index + 1) && Consecutive(rest)
    requires rest != [] <==> p.endPage + 1 <= total
    requires rest != [] ==> rest[0].startPage == p.endPage + 1 && rest[|rest| - 1].endPage == total
    requires forall k :: 0 <= k < |rest| ==> WellFormed(rule, rest[k], maxPages)
    ensures var parts := [p] + rest;
      && Numbered(parts, index) && Consecutive(parts) && parts[|parts| - 1].endPage == total
      && forall k :: 0 <= k < |parts| ==> WellFormed(rule, parts[k], maxPages)
  {
    var parts := [p] + rest;
    forall k | 1 <= k < |parts|
      ensures parts[k].startPage == parts[k - 1].endPage + 1
    {
      if k > 1 {
        assert parts[k] == rest[k - 1] && parts[k - 1] == rest[k - 2];
      }
    }
  }

  /** The pages each part's file holds, in order. */
  function WrittenPages(parts: seq<Part>): seq<int>
  {
    if parts == [] then [] else parts[0].pages + WrittenPages(parts[1..])
  }

  /** With the end taken from the last page written, the parts' files hold every page from
      `start` to `total` exactly once, in order. */
  lemma {:induction false} SplitCovers(start: int, index: nat, total: int, maxPages: nat, maxBytes: int, size: (int, int) -> int)
    requires 1 <= start <= total + 1
    ensures WrittenPages(SplitFrom(LastPageWritten, start, index, total, maxPages, maxBytes, size)) == Range(start, total)
    decreases total + 1 - start
  {
    if start <= total {
      var p := NextPart(LastPageWritten, index + 1, start, total, maxPages, maxBytes, size);
      var rest := SplitFrom(LastPageWritten, p.endPage + 1, index + 1, total, maxPages, maxBytes, size);
      var parts := [p] + rest;
      assert parts[1..] == rest;
      PartShape(LastPageWritten, index + 1, start, total, maxPages, maxBytes, size);
      SplitCovers(p.endPage + 1, index + 1, total, maxPages, maxBytes, size);
      RangeJoin(start, p.endPage, total);
    }
  }

  /** When no check ever finds the file too large, the inner loop stops at the page cap or after
      the last page, with every page up to there in the writer. */
  lemma {:induction false} FillUnderLimit(start: int, cur: int, total: int, maxPages: nat, maxBytes: int, size: (int, int) -> int)
    requires 1 <= start <= cur && cur <= total + 1 && cur <= start + maxPages
    requires forall a, b :: size(a, b) < maxBytes
    ensures var m := if start + maxPages < total + 1 then start + maxPages else total + 1;
      Fill(start, cur, total, maxPages, maxBytes, size) == Closed(m, Range(start, m - 1))
    decreases total + 1 - cur
  {
    if cur <= total && cur - start + 1 <= maxPages {
      assert size(start, cur) < maxBytes;
      FillUnderLimit(start, cur + 1, total, maxPages, maxBytes, size);
    }
  }

  /** A 1001-page PDF of small pages: as written, its one part records pages 1-1001 but holds
      pages 1-1000, and page 1001 is in no part. */
  lemma CapLosesPage()
    ensures var parts := Split(AsWritten, 1001, MaxPages, MaxBytes, (a: int, b: int) => 0);
      && parts == [Part(1, 1, 1001, Range(1, 1000))]
      && 1001 !in WrittenPages(parts)
  {
    var size := (a: int, b: int) => 0;
    FillUnderLimit(1, 1, 1001, MaxPages, MaxBytes, size);
    var parts := Split(AsWritten, 1001, MaxPages, MaxBytes, size);
    assert parts == [Part(1, 1, 1001, Range(1, 1000))] + SplitFrom(AsWritten, 1002, 1, 1001, MaxPages, MaxBytes, size);
    assert WrittenPages(parts) == Range(1, 1000) + WrittenPages([]);
    RangeBounds(1, 1000);
  }

  lemma RangeBounds(a: int, b: int)
    ensures forall x :: x in Range(a, b) ==> a <= x <= b
  {
    forall x | x in Range(a, b)
      ensures a <= x <= b
    {
      var k :| 0 <= k < |Range(a, b)| && Range(a, b)[k] == x;
      RangeAt(a, b, k);
    }
  }

  /** The same PDF with the end taken from the last page written: pages 1-1000, then page 1001. */
  lemma CapKeepsPage()
    ensures Split(LastPageWritten, 1001, MaxPages, MaxBytes, (a: int, b: int) => 0)
         == [Part(1, 1, 1000, Range(1, 1000)), Part(2, 1001, 1001, [1001])]
  {
    var size := (a: int, b: int) => 0;
    FillUnderLimit(1, 1, 1001, MaxPages, MaxBytes, size);
    FillUnderLimit(1001, 1001, 1001, MaxPages, MaxBytes, size);
    RangeAt(1, 1000, 999);
    var first := Part(1, 1, 1000, Range(1, 1000));
    var second := Part(2, 1001, 1001, [1001]);
    assert Range(1001, 1001) == [1001];
    assert SplitFrom(LastPageWritten, 1001, 1, 1001, MaxPages, MaxBytes, size) == [second] + SplitFrom(LastPageWritten, 1002, 2, 1001, MaxPages, MaxBytes, size);
  }
}
