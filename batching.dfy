/** The legacy deep scan of one document on the server (server.py:322-378, `deep_analyze_stream`):
    the pages are cut into batches of a size the speed picks, each batch is announced with a
    progress update and sent to the language model, and the JSON in each reply is turned into a
    page log and a list of findings. The model's reply to batch number b is `llm(b)`, and
    `json.loads` on the extracted text is `parse`, which yields None when the text is not JSON and
    otherwise the reply's fields, each missing field as None or []. */
module Batching {
  import opened Wrappers
  import opened Numbers
  import opened Strings

  datatype Page = Page(pageNumber: int, wordCount: int, text: string)

  /** A finding as the model writes it. */
  datatype RawFinding = RawFinding(text: Option<string>, relevance: Option<string>, confidence: Option<string>)

  /** One entry of `page_results` in a reply. */
  datatype PageResult = PageResult(pageNumber: int, status: Option<string>, summary: Option<string>, findings: seq<RawFinding>)

  /** A reply's JSON: `batch_thinking` and `page_results`. */
  datatype BatchResult = BatchResult(thinking: Option<string>, pageResults: seq<PageResult>)

  /** The model call of one batch: it raises, or it answers with a text. */
  datatype LlmReply = Raised(message: string) | Answered(text: string)

  datatype Finding = Finding(pageNumber: int, document: string, text: string, relevance: string, confidence: string, matchType: string)

  datatype LogEntry = LogEntry(pageNumber: int, status: string, summary: string, document: string)

  /** The updates the generator yields (the model name, relevance mode and status text they also
      carry are left out). */
  datatype Update =
    | ProgressUpdate(batch: nat, totalBatches: nat, startPage: int, endPage: int, totalPages: nat, percent: int)
    | ThinkingUpdate(startPage: int, endPage: int, thought: string)
    | FindingUpdate(finding: Finding)
    | ErrorUpdate(message: string, failedBatch: Option<nat>)
    | CompleteUpdate(findings: seq<Finding>, pageLog: seq<LogEntry>, totalPages: nat, pagesAnalyzed: nat)

  /** `speed_settings.get(speed, 20)`. */
  function BatchSize(speed: string): (r: nat)
    ensures r == 10 || r == 20 || r == 30
    ensures speed != "thorough" && speed != "fast" ==> r == 20
  {
    if speed == "thorough" then 10 else if speed == "fast" then 30 else 20
  }

  /** `(len(pages) + batch_size - 1) // batch_size`. */
  function TotalBatches(n: nat, batchSize: nat): nat
    requires batchSize > 0
  {
    (n + batchSize - 1) / batchSize
  }

  /** The batches from `start` on: `pages[start:start + batch_size]` for start in
      `range(start, len(pages), batch_size)`. */
  function BatchesFrom(pages: seq<Page>, batchSize: nat, start: nat): seq<seq<Page>>
    requires batchSize > 0
    decreases |pages| - start
  {
    if start >= |pages| then []
    else
      var end := if start + batchSize < |pages| then start + batchSize else |pages|;
      [pages[start..end]] + BatchesFrom(pages, batchSize, start + batchSize)
  }

  /** `(n + batch_size - 1) // batch_size` is the ceiling of n / batch_size. */
  lemma TotalBatchesIsCeil(n: nat, batchSize: nat)
    requires batchSize > 0
    ensures TotalBatches(n, batchSize) == CeilDiv(n, batchSize)
  {
    var q := TotalBatches(n, batchSize);
    assert q * batchSize <= n + batchSize - 1 < q * batchSize + batchSize;
    assert (q - 1) * batchSize == q * batchSize - batchSize;
    CeilDivUnique(n, batchSize, q);
  }

  /** The batches are non-empty, hold at most batch_size pages each, and put back together give
      the pages exactly once, in order. */
  lemma {:induction false} BatchesTile(pages: seq<Page>, batchSize: nat, start: nat)
    requires batchSize > 0 && start <= |pages|
    ensures var bs := BatchesFrom(pages, batchSize, start);
      && Flatten(bs) == pages[start..]
      && (forall k :: 0 <= k < |bs| ==> 0 < |bs[k]| <= batchSize)
    decreases |pages| - start
  {
    if start < |pages| {
      var end := if start + batchSize < |pages| then start + batchSize else |pages|;
      var bs, rest := BatchesFrom(pages, batchSize, start), BatchesFrom(pages, batchSize, start + batchSize);
      assert bs == [pages[start..end]] + rest;
      if start + batchSize < |pages| {
        BatchesTile(pages, batchSize, end);
      } else {
        assert rest == [];
      }
      assert pages[start..] == pages[start..end] + pages[end..];
      assert forall k :: 1 <= k < |bs| ==> bs[k] == rest[k - 1];
    }
  }

  /** There are total_batches batches. */
  lemma {:induction false} BatchesCount(pages: seq<Page>, batchSize: nat, start: nat)
    requires batchSize > 0 && start <= |pages|
    ensures |BatchesFrom(pages, batchSize, start)| == TotalBatches(|pages| - start, batchSize)
    decreases |pages| - start
  {
    var n := |pages| - start;
    TotalBatchesIsCeil(n, batchSize);
    if start == |pages| {
      CeilDivUnique(0, batchSize, 0);
    } else if start + batchSize < |pages| {
      BatchesCount(pages, batchSize, start + batchSize);
      TotalBatchesIsCeil(n - batchSize, batchSize);
      CeilDivStep(n, batchSize);
    } else {
      assert BatchesFrom(pages, batchSize, start + batchSize) == [];
      CeilDivUnique(n, batchSize, 1);
    }
  }

  /** `round((batch_num / total_batches) * 100)`, Python's round, on the exact ratio. */
  function BatchPercent(batch: nat, total: nat): int
    requires total > 0
  {
    PyRound(batch * 100, total)
  }

  /** The batch percents grow with the batch, stay within 0..100, and reach 100 on the last batch. */
  lemma BatchPercentBounds(batch: nat, later: nat, total: nat)
    requires 0 < total && batch <= later <= total
    ensures 0 <= BatchPercent(batch, total) <= BatchPercent(later, total) <= 100
    ensures BatchPercent(total, total) == 100
  {
    MulLe(batch, later, 100);
    MulLe(later, total, 100);
    PyRoundMonotone(0, batch * 100, total);
    PyRoundMonotone(batch * 100, later * 100, total);
    PyRoundMonotone(later * 100, total * 100, total);
    PyRoundWhole(0, total);
    PyRoundWhole(100, total);
    assert total * 100 == 100 * total;
  }

  /** The page status a reply's status maps to (server.py:366): match, possible and found are
      found, empty stays empty, anything else is no_match. */
  function NormalizeStatus(status: string): (r: string)
    ensures r == "found" <==> status in {"match", "possible", "found"}
    ensures r == "empty" <==> status == "empty"
    ensures r == "no_match" <==> status !in {"match", "possible", "found", "empty"}
  {
    if status in {"match", "possible", "found"} then "found"
    else if status == "empty" then "empty"
    else "no_match"
  }

  /** `if finding.get('text')`: a present, non-empty text. */
  predicate HasText(raw: RawFinding)
  {
    raw.text.Some? && raw.text.value != ""
  }

  /** The finding a raw finding of a page with status `status` becomes. */
  function ToFinding(pageNumber: int, document: string, status: string, raw: RawFinding): (f: Finding)
    requires HasText(raw)
    ensures f.text != "" && f.pageNumber == pageNumber && f.document == document
    ensures f.matchType == "possible" <==> status == "possible"
    ensures f.matchType == "match" <==> status != "possible"
    ensures raw.confidence.None? ==> f.confidence == "medium"
    ensures raw.confidence.Some? ==> f.confidence == raw.confidence.value
  {
    Finding(pageNumber, document, raw.text.value, raw.relevance.GetOr(""), raw.confidence.GetOr("medium"),
            if status == "possible" then "possible" else "match")
  }

  /** What the generator has yielded and collected so far. */
  datatype Acc = Acc(updates: seq<Update>, findings: seq<Finding>, log: seq<LogEntry>)

  /** The findings of a page's raw findings, handled in order; those without text are dropped. */
  function AddFindings(acc: Acc, pageNumber: int, document: string, status: string, raws: seq<RawFinding>): Acc
    decreases |raws|
  {
    if raws == [] then acc
    else
      var before := AddFindings(acc, pageNumber, document, status, raws[..|raws| - 1]);
      var raw := raws[|raws| - 1];
      if HasText(raw) then
        var f := ToFinding(pageNumber, document, status, raw);
        Acc(before.updates + [FindingUpdate(f)], before.findings + [f], before.log)
      else before
  }

  /** One page result: its log entry, then its findings. */
  function AddPage(acc: Acc, document: string, pr: PageResult): Acc
  {
    var status := pr.status.GetOr("no_match");
    var logged := acc.(log := acc.log + [LogEntry(pr.pageNumber, NormalizeStatus(status), pr.summary.GetOr(""), document)]);
    AddFindings(logged, pr.pageNumber, document, status, pr.findings)
  }

  function AddPages(acc: Acc, document: string, prs: seq<PageResult>): Acc
    decreases |prs|
  {
    if prs == [] then acc else AddPage(AddPages(acc, document, prs[..|prs| - 1]), document, prs[|prs| - 1])
  }

  /** The log entries of a batch whose reply is not JSON: every page "analyzed". */
  function Analyzed(batchPages: seq<Page>, document: string): (r: seq<LogEntry>)
    ensures |r| == |batchPages|
    decreases |batchPages|
  {
    if batchPages == [] then []
    else
      var p := batchPages[|batchPages| - 1];
      Analyzed(batchPages[..|batchPages| - 1], document) + [LogEntry(p.pageNumber, "analyzed", "Processed", document)]
  }

  /** The text from the first '{' to the last '}', inclusive, when a '}' follows the first '{'
      (server.py:358-360, and the rubric reply at server.py:315-317). */
  function JsonSpan(s: string): Option<string>
  {
    var i := IndexOf(s, '{');
    var e := LastIndexOf(s, '}') + 1;
    if i >= 0 && e > i then Some(s[i..e]) else None
  }

  /** There is a span exactly when some '{' comes before some '}', and then it is the infix of the
      text that begins at the first '{' and ends at the last '}'. */
  lemma JsonSpanIsOutermost(s: string)
    ensures JsonSpan(s).Some? <==> exists i, j :: 0 <= i < j < |s| && s[i] == '{' && s[j] == '}'
    ensures JsonSpan(s).Some? ==>
      var t := JsonSpan(s).value;
      exists i :: 0 <= i && i + |t| <= |s| && t == s[i..i + |t|] && '{' !in s[..i] && '}' !in s[i + |t|..]
        && t[0] == '{' && t[|t| - 1] == '}'
  {
    var i := IndexOf(s, '{');
    var e := LastIndexOf(s, '}') + 1;
    if exists a, b :: 0 <= a < b < |s| && s[a] == '{' && s[b] == '}' {
      var t := s[i..e];
      assert t == s[i..i + |t|];
    }
  }

  /** The handling of one batch's reply (server.py:347-377). */
  function AddReply(acc: Acc, batch: nat, startPage: int, endPage: int, document: string, batchPages: seq<Page>,
                    reply: LlmReply, parse: string -> Option<BatchResult>): Acc
  {
    match reply
    case Raised(message) => acc.(updates := acc.updates + [ErrorUpdate(message, Some(batch))])
    case Answered(text) =>
      match JsonSpan(text)
      case None => acc
      case Some(span) =>
        match parse(span)
        case None => acc.(log := acc.log + Analyzed(batchPages, document))
        case Some(result) =>
          var thought := result.thinking.Some? && result.thinking.value != "";
          var told := if thought then acc.(updates := acc.updates + [ThinkingUpdate(startPage, endPage, result.thinking.value)]) else acc;
          AddPages(told, document, result.pageResults)
  }

  /** One batch: its progress update, then its reply. */
  function AddBatch(acc: Acc, batch: nat, total: nat, pageCount: nat, document: string, batchPages: seq<Page>,
                    llm: nat -> LlmReply, parse: string -> Option<BatchResult>): Acc
    requires batchPages != [] && total > 0
  {
    var s, e := batchPages[0].pageNumber, batchPages[|batchPages| - 1].pageNumber;
    var announced := acc.(updates := acc.updates + [ProgressUpdate(batch, total, s, e, pageCount, BatchPercent(batch, total))]);
    AddReply(announced, batch, s, e, document, batchPages, llm(batch), parse)
  }

  /** The batches handled in order, numbered from 1. */
  function AddBatches(acc: Acc, batches: seq<seq<Page>>, total: nat, pageCount: nat, document: string,
                      llm: nat -> LlmReply, parse: string -> Option<BatchResult>): Acc
    requires batches != [] ==> total > 0
    requires forall k :: 0 <= k < |batches| ==> batches[k] != []
    decreases |batches|
  {
    if batches == [] then acc
    else
      var before := AddBatches(acc, batches[..|batches| - 1], total, pageCount, document, llm, parse);
      AddBatch(before, |batches|, total, pageCount, document, batches[|batches| - 1], llm, parse)
  }

  /** Everything deep_analyze_stream yields for one document; without a key it yields one error. */
  function Stream(pages: seq<Page>, document: string, speed: string, hasKey: bool,
                  llm: nat -> LlmReply, parse: string -> Option<BatchResult>): seq<Update>
  {
    if !hasKey then [ErrorUpdate("EMERGENT_LLM_KEY not configured", None)]
    else
      var size := BatchSize(speed);
      var batches := BatchesFrom(pages, size, 0);
      BatchesTile(pages, size, 0);
      BatchesCount(pages, size, 0);
      var acc := AddBatches(Acc([], [], []), batches, TotalBatches(|pages|, size), |pages|, document, llm, parse);
      acc.updates + [CompleteUpdate(acc.findings, acc.log, |pages|, |acc.log|)]
  }

  /** The findings the updates carry, in order. */
  function FindingsIn(updates: seq<Update>): seq<Finding>
  {
    if updates == [] then []
    else
      FindingsIn(updates[..|updates| - 1])
      + (if updates[|updates| - 1].FindingUpdate? then [updates[|updates| - 1].finding] else [])
  }

  /** The percents of the progress updates, in order. */
  function ProgressPercents(updates: seq<Update>): seq<int>
  {
    if updates == [] then []
    else
      ProgressPercents(updates[..|updates| - 1])
      + (if updates[|updates| - 1].ProgressUpdate? then [updates[|updates| - 1].percent] else [])
  }

  /** The collected findings are the findings yielded so far, and each has a text. */
  ghost predicate Consistent(acc: Acc)
  {
    && acc.findings == FindingsIn(acc.updates)
    && forall k :: 0 <= k < |acc.findings| ==> acc.findings[k].text != ""
  }

  /** `after` only appends to `acc`: it keeps consistency, and the progress percents it adds are
      `percents`. */
  ghost predicate Extends(acc: Acc, after: Acc, percents: seq<int>)
  {
    && (Consistent(acc) ==> Consistent(after))
    && ProgressPercents(after.updates) == ProgressPercents(acc.updates) + percents
  }

  lemma AppendOne(us: seq<Update>, u: Update)
    ensures FindingsIn(us + [u]) == FindingsIn(us) + (if u.FindingUpdate? then [u.finding] else [])
    ensures ProgressPercents(us + [u]) == ProgressPercents(us) + (if u.ProgressUpdate? then [u.percent] else [])
  {
    assert (us + [u])[..|us|] == us;
  }

  lemma {:induction false} AddFindingsExtends(acc: Acc, pageNumber: int, document: string, status: string, raws: seq<RawFinding>)
    ensures Extends(acc, AddFindings(acc, pageNumber, document, status, raws), [])
    decreases |raws|
  {
    if raws != [] {
      var before := AddFindings(acc, pageNumber, document, status, raws[..|raws| - 1]);
      AddFindingsExtends(acc, pageNumber, document, status, raws[..|raws| - 1]);
      var raw := raws[|raws| - 1];
      if HasText(raw) {
        AppendOne(before.updates, FindingUpdate(ToFinding(pageNumber, document, status, raw)));
      }
    }
  }

  lemma {:induction false} AddPagesExtends(acc: Acc, document: string, prs: seq<PageResult>)
    ensures Extends(acc, AddPages(acc, document, prs), [])
    decreases |prs|
  {
    if prs != [] {
      var before := AddPages(acc, document, prs[..|prs| - 1]);
      AddPagesExtends(acc, document, prs[..|prs| - 1]);
      var pr := prs[|prs| - 1];
      var status := pr.status.GetOr("no_match");
      var logged := before.(log := before.log + [LogEntry(pr.pageNumber, NormalizeStatus(status), pr.summary.GetOr(""), document)]);
      AddFindingsExtends(logged, pr.pageNumber, document, status, pr.findings);
    }
  }

  lemma AddReplyExtends(acc: Acc, batch: nat, startPage: int, endPage: int, document: string, batchPages: seq<Page>,
                        reply: LlmReply, parse: string -> Option<BatchResult>)
    ensures Extends(acc, AddReply(acc, batch, startPage, endPage, document, batchPages, reply, parse), [])
  {
    match reply
    case Raised(message) =>
      AppendOne(acc.updates, ErrorUpdate(message, Some(batch)));
    case Answered(text) =>
      match JsonSpan(text)
      case None =>
      case Some(span) =>
        match parse(span)
        case None =>
        case Some(result) =>
          if result.thinking.Some? && result.thinking.value != "" {
            var u := ThinkingUpdate(startPage, endPage, result.thinking.value);
            AppendOne(acc.updates, u);
            AddPagesExtends(acc.(updates := acc.updates + [u]), document, result.pageResults);
          } else {
            AddPagesExtends(acc, document, result.pageResults);
          }
  }

  /** The percents of batches 1 to k of `total`. */
  function BatchPercents(k: nat, total: nat): (r: seq<int>)
    requires total > 0
    ensures |r| == k
  {
    if k == 0 then [] else BatchPercents(k - 1, total) + [BatchPercent(k, total)]
  }

  lemma ExtendsChain(a: Acc, b: Acc, c: Acc, p: seq<int>, q: seq<int>)
    requires Extends(a, b, p) && Extends(b, c, q)
    ensures Extends(a, c, p + q)
  {
  }

  /** One batch adds its progress update and whatever its reply yields. */
  lemma AddBatchExtends(acc: Acc, batch: nat, total: nat, pageCount: nat, document: string, batchPages: seq<Page>,
                        llm: nat -> LlmReply, parse: string -> Option<BatchResult>)
    requires batchPages != [] && total > 0
    ensures Extends(acc, AddBatch(acc, batch, total, pageCount, document, batchPages, llm, parse), [BatchPercent(batch, total)])
  {
    var s, e := batchPages[0].pageNumber, batchPages[|batchPages| - 1].pageNumber;
    var u := ProgressUpdate(batch, total, s, e, pageCount, BatchPercent(batch, total));
    var announced := acc.(updates := acc.updates + [u]);
    AppendOne(acc.updates, u);
    AddReplyExtends(announced, batch, s, e, document, batchPages, llm(batch), parse);
    ExtendsChain(acc, announced, AddBatch(acc, batch, total, pageCount, document, batchPages, llm, parse),
                 [BatchPercent(batch, total)], []);
    assert [BatchPercent(batch, total)] + [] == [BatchPercent(batch, total)];
  }

  lemma {:induction false} AddBatchesExtends(acc: Acc, batches: seq<seq<Page>>, total: nat, pageCount: nat, document: string,
                                             llm: nat -> LlmReply, parse: string -> Option<BatchResult>)
    requires total > 0
    requires forall k :: 0 <= k < |batches| ==> batches[k] != []
    ensures Extends(acc, AddBatches(acc, batches, total, pageCount, document, llm, parse), BatchPercents(|batches|, total))
    decreases |batches|
  {
    if batches == [] {
      assert ProgressPercents(acc.updates) + [] == ProgressPercents(acc.updates);
    } else {
      var n := |batches|;
      var before := AddBatches(acc, batches[..n - 1], total, pageCount, document, llm, parse);
      AddBatchesExtends(acc, batches[..n - 1], total, pageCount, document, llm, parse);
      AddBatchExtends(before, n, total, pageCount, document, batches[n - 1], llm, parse);
      ExtendsChain(acc, before, AddBatch(before, n, total, pageCount, document, batches[n - 1], llm, parse),
                   BatchPercents(n - 1, total), [BatchPercent(n, total)]);
    }
  }

  /** The batch percents never fall and end at 100 on the last batch. */
  lemma {:induction false} BatchPercentsRise(k: nat, total: nat)
    requires 0 < total && k <= total
    ensures Rising(0, BatchPercents(k, total))
    ensures k > 0 ==> BatchPercents(k, total)[k - 1] == BatchPercent(k, total) <= 100
  {
    if k > 0 {
      BatchPercentsRise(k - 1, total);
      BatchPercentBounds(k - 1, k, total);
      var ps := BatchPercents(k - 1, total);
      assert Rising(if ps == [] then 0 else ps[|ps| - 1], [BatchPercent(k, total)]) by {
        if ps != [] {
          BatchPercentBounds(k - 1, k, total);
        } else {
          BatchPercentBounds(0, k, total);
        }
      }
      RisingAppend(0, ps, [BatchPercent(k, total)]);
    }
  }

  /** A document's stream, with the key configured: one progress update per batch, whose percents
      are round(b / total_batches * 100) for b = 1, 2, ..., never fall and end at 100; then a
      complete update whose findings are exactly the findings yielded before it, each with a text,
      and whose analysed-page count is the length of its page log. */
  lemma StreamOutcome(pages: seq<Page>, document: string, speed: string, llm: nat -> LlmReply, parse: string -> Option<BatchResult>)
    ensures var us := Stream(pages, document, speed, true, llm, parse);
      var total := TotalBatches(|pages|, BatchSize(speed));
      && us != [] && us[|us| - 1].CompleteUpdate?
      && var c := us[|us| - 1];
      && c.findings == FindingsIn(us[..|us| - 1])
      && (forall k :: 0 <= k < |c.findings| ==> c.findings[k].text != "")
      && c.pagesAnalyzed == |c.pageLog| && c.totalPages == |pages|
      && (total > 0 ==> ProgressPercents(us) == BatchPercents(total, total))
      && Rising(0, ProgressPercents(us))
      && (pages != [] ==> ProgressPercents(us)[|ProgressPercents(us)| - 1] == 100)
  {
    var size := BatchSize(speed);
    var batches := BatchesFrom(pages, size, 0);
    BatchesTile(pages, size, 0);
    BatchesCount(pages, size, 0);
    var total := TotalBatches(|pages|, size);
    var acc := AddBatches(Acc([], [], []), batches, total, |pages|, document, llm, parse);
    var us := Stream(pages, document, speed, true, llm, parse);
    assert us == acc.updates + [CompleteUpdate(acc.findings, acc.log, |pages|, |acc.log|)];
    assert us[..|us| - 1] == acc.updates;
    AppendOne(acc.updates, us[|us| - 1]);
    if total > 0 {
      AddBatchesExtends(Acc([], [], []), batches, total, |pages|, document, llm, parse);
      BatchPercentsRise(total, total);
      BatchPercentBounds(total, total, total);
    } else {
      assert batches == [];
    }
  }

  /** deep_analyze_stream (server.py:322-378): yields the updates into `updates` and collects the
      findings and the page log as it goes. */
  method DeepAnalyzeStream(pages: seq<Page>, document: string, speed: string, hasKey: bool,
                           llm: nat -> LlmReply, parse: string -> Option<BatchResult>)
    returns (updates: seq<Update>)
    ensures updates == Stream(pages, document, speed, hasKey, llm, parse)
  {
    if !hasKey {
      return [ErrorUpdate("EMERGENT_LLM_KEY not configured", None)];
    }
    var batchSize := BatchSize(speed);
    var total := TotalBatches(|pages|, batchSize);
    BatchesTile(pages, batchSize, 0);
    BatchesCount(pages, batchSize, 0);
    var findings, log;
    updates, findings, log := RunBatches(pages, batchSize, total, document, llm, parse);
    updates := updates + [CompleteUpdate(findings, log, |pages|, |log|)];
  }

  /** The `for batch_idx` loop of deep_analyze_stream: the batches of `batchSize` pages, handled
      in order, with the updates, findings and page log they produce. */
  method RunBatches(pages: seq<Page>, batchSize: nat, total: nat, document: string,
                    llm: nat -> LlmReply, parse: string -> Option<BatchResult>)
    returns (updates: seq<Update>, findings: seq<Finding>, log: seq<LogEntry>)
    requires batchSize > 0 && (pages != [] ==> total > 0)
    requires AllNonEmpty(BatchesFrom(pages, batchSize, 0))
    ensures Acc(updates, findings, log)
         == AddBatches(Acc([], [], []), BatchesFrom(pages, batchSize, 0), total, |pages|, document, llm, parse)
  {
    updates, findings, log := [], [], [];
    ghost var done: seq<seq<Page>> := [];
    var start := 0;
    var batchNum := 0;
    while start < |pages|
      invariant batchNum == |done|
      invariant BatchLoop(pages, batchSize, start, done, Acc(updates, findings, log), total, document, llm, parse)
      decreases |pages| - start
    {
      var end := if start + batchSize < |pages| then start + batchSize else |pages|;
      var batchPages := pages[start..end];
      ghost var before := Acc(updates, findings, log);
      batchNum := batchNum + 1;
      updates, findings, log := ProcessBatch(updates, findings, log, batchNum, total, |pages|, document, batchPages, llm, parse);
      BatchLoopStep(pages, batchSize, start, done, before, total, document, llm, parse);
      done := done + [batchPages];
      start := start + batchSize;
    }
    BatchLoopEnd(pages, batchSize, start, done, Acc(updates, findings, log), total, document, llm, parse);
  }

  /** The state of the batch loop at `start`: `done` are the batches before it, and `acc` is what
      handling them produced. */
  ghost predicate BatchLoop(pages: seq<Page>, batchSize: nat, start: nat, done: seq<seq<Page>>, acc: Acc, total: nat,
                            document: string, llm: nat -> LlmReply, parse: string -> Option<BatchResult>)
  {
    && batchSize > 0
    && (pages != [] ==> total > 0)
    && BatchesFrom(pages, batchSize, 0) == done + BatchesFrom(pages, batchSize, start)
    && AllNonEmpty(done)
    && acc == AddBatches(Acc([], [], []), done, total, |pages|, document, llm, parse)
  }

  lemma BatchLoopStep(pages: seq<Page>, batchSize: nat, start: nat, done: seq<seq<Page>>, acc: Acc, total: nat,
                      document: string, llm: nat -> LlmReply, parse: string -> Option<BatchResult>)
    requires start < |pages| && BatchLoop(pages, batchSize, start, done, acc, total, document, llm, parse)
    ensures var end := if start + batchSize < |pages| then start + batchSize else |pages|;
      var batch := pages[start..end];
      && total > 0
      && BatchLoop(pages, batchSize, start + batchSize, done + [batch],
                   AddBatch(acc, |done| + 1, total, |pages|, document, batch, llm, parse), total, document, llm, parse)
  {
    var end := if start + batchSize < |pages| then start + batchSize else |pages|;
    var batch := pages[start..end];
    var later := BatchesFrom(pages, batchSize, start + batchSize);
    assert BatchesFrom(pages, batchSize, start) == [batch] + later;
    Associate(done, [batch], later);
    AddBatchesSnoc(Acc([], [], []), done, batch, total, |pages|, document, llm, parse);
  }

  lemma BatchLoopEnd(pages: seq<Page>, batchSize: nat, start: nat, done: seq<seq<Page>>, acc: Acc, total: nat,
                     document: string, llm: nat -> LlmReply, parse: string -> Option<BatchResult>)
    requires start >= |pages| && BatchLoop(pages, batchSize, start, done, acc, total, document, llm, parse)
    ensures acc == AddBatches(Acc([], [], []), BatchesFrom(pages, batchSize, 0), total, |pages|, document, llm, parse)
  {
    assert BatchesFrom(pages, batchSize, 0) == done;
  }

  predicate AllNonEmpty(batches: seq<seq<Page>>)
  {
    forall k :: 0 <= k < |batches| ==> batches[k] != []
  }

  lemma AddBatchesSnoc(acc: Acc, done: seq<seq<Page>>, batch: seq<Page>, total: nat, pageCount: nat, document: string,
                       llm: nat -> LlmReply, parse: string -> Option<BatchResult>)
    requires total > 0 && batch != [] && AllNonEmpty(done)
    ensures AllNonEmpty(done + [batch])
    ensures AddBatches(acc, done + [batch], total, pageCount, document, llm, parse)
      == AddBatch(AddBatches(acc, done, total, pageCount, document, llm, parse), |done| + 1, total, pageCount, document, batch, llm, parse)
  {
    assert (done + [batch])[..|done|] == done;
  }

  /** One batch of the loop (server.py:341-377): its progress update, then its reply. */
  method ProcessBatch(updates: seq<Update>, findings: seq<Finding>, log: seq<LogEntry>, batchNum: nat, total: nat,
                      pageCount: nat, document: string, batchPages: seq<Page>,
                      llm: nat -> LlmReply, parse: string -> Option<BatchResult>)
    returns (us: seq<Update>, fs: seq<Finding>, ls: seq<LogEntry>)
    requires batchPages != [] && total > 0
    ensures Acc(us, fs, ls) == AddBatch(Acc(updates, findings, log), batchNum, total, pageCount, document, batchPages, llm, parse)
  {
    var startPage, endPage := batchPages[0].pageNumber, batchPages[|batchPages| - 1].pageNumber;
    us := updates + [ProgressUpdate(batchNum, total, startPage, endPage, pageCount, PyRound(batchNum * 100, total))];
    us, fs, ls := HandleReply(us, findings, log, batchNum, startPage, endPage, document, batchPages, llm(batchNum), parse);
  }

  /** The reply handling of one batch (server.py:347-377). */
  method HandleReply(updates: seq<Update>, findings: seq<Finding>, log: seq<LogEntry>, batch: nat, startPage: int, endPage: int,
                     document: string, batchPages: seq<Page>, reply: LlmReply, parse: string -> Option<BatchResult>)
    returns (us: seq<Update>, fs: seq<Finding>, ls: seq<LogEntry>)
    ensures Acc(us, fs, ls) == AddReply(Acc(updates, findings, log), batch, startPage, endPage, document, batchPages, reply, parse)
  {
    us, fs, ls := updates, findings, log;
    if reply.Raised? {
      us := us + [ErrorUpdate(reply.message, Some(batch))];
      return;
    }
    var response := reply.text;
    var jsonStart := IndexOf(response, '{');
    var jsonEnd := LastIndexOf(response, '}') + 1;
    if jsonStart >= 0 && jsonEnd > jsonStart {
      var result := parse(response[jsonStart..jsonEnd]);
      if result.None? {
        var i := 0;
        while i < |batchPages|
          invariant 0 <= i <= |batchPages|
          invariant us == updates && fs == findings && ls == log + Analyzed(batchPages[..i], document)
        {
          assert batchPages[..i + 1][..i] == batchPages[..i];
          ls := ls + [LogEntry(batchPages[i].pageNumber, "analyzed", "Processed", document)];
          i := i + 1;
        }
        assert batchPages[..i] == batchPages;
        return;
      }
      var r := result.value;
      if r.thinking.Some? && r.thinking.value != "" {
        us := us + [ThinkingUpdate(startPage, endPage, r.thinking.value)];
      }
      ghost var told := Acc(us, fs, ls);
      var prs := r.pageResults;
      var j := 0;
      while j < |prs|
        invariant 0 <= j <= |prs|
        invariant Acc(us, fs, ls) == AddPages(told, document, prs[..j])
      {
        assert prs[..j + 1][..j] == prs[..j];
        var pr := prs[j];
        var status := pr.status.GetOr("no_match");
        ls := ls + [LogEntry(pr.pageNumber, NormalizeStatus(status), pr.summary.GetOr(""), document)];
        us, fs, ls := PageFindings(us, fs, ls, pr.pageNumber, document, status, pr.findings);
        j := j + 1;
      }
      assert prs[..j] == prs;
    }
  }

  /** The findings loop of one page result (server.py:368-372). */
  method PageFindings(updates: seq<Update>, findings: seq<Finding>, log: seq<LogEntry>, pageNumber: int, document: string,
                      status: string, raws: seq<RawFinding>)
    returns (us: seq<Update>, fs: seq<Finding>, ls: seq<LogEntry>)
    ensures Acc(us, fs, ls) == AddFindings(Acc(updates, findings, log), pageNumber, document, status, raws)
  {
    us, fs, ls := updates, findings, log;
    var k := 0;
    while k < |raws|
      invariant 0 <= k <= |raws|
      invariant Acc(us, fs, ls) == AddFindings(Acc(updates, findings, log), pageNumber, document, status, raws[..k])
    {
      assert raws[..k + 1][..k] == raws[..k];
      var raw := raws[k];
      if raw.text.Some? && raw.text.value != "" {
        var f := Finding(pageNumber, document, raw.text.value, raw.relevance.GetOr(""), raw.confidence.GetOr("medium"),
                         if status == "possible" then "possible" else "match");
        fs := fs + [f];
        us := us + [FindingUpdate(f)];
      }
      k := k + 1;
    }
    assert raws[..k] == raws;
  }
}
