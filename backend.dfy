/** The sequential decisions of the server around a scan: the page-range filter and the final
    coverage figures of the legacy stream (server.py:622-627, 651-653), the choice of a Gemini Pro
    model (server.py:158-177), and whether an uploaded PDF is split and analysed in batch mode
    (server.py:481-483, 529-534). */
module Backend {
  import opened Wrappers
  import opened Numbers
  import opened Strings
  import opened Batching
  import opened PdfSplit
  import Selection
  import Progress

  // ---------------------------------------------------------------- page range

  /** Python truthiness of an optional page number: None and 0 are false. */
  predicate Given(n: Option<int>)
  {
    n.Some? && n.value != 0
  }

  /** The pages whose number lies in (lo, hi], in their original order. */
  function KeepRange(pages: seq<Page>, lo: int, hi: int): (r: seq<Page>)
    ensures |r| <= |pages|
  {
    if pages == [] then []
    else (if lo < pages[0].pageNumber <= hi then [pages[0]] else []) + KeepRange(pages[1..], lo, hi)
  }

  /** The filter of analyze_documents_stream (server.py:622-627): applied only when a start or an
      end is given, it keeps the pages with `(page_start or 1) - 1 < page_number <= (page_end or
      len(pages))`. */
  function FilterPages(pages: seq<Page>, pageStart: Option<int>, pageEnd: Option<int>): seq<Page>
  {
    if Given(pageStart) || Given(pageEnd) then
      var lo := (if Given(pageStart) then pageStart.value else 1) - 1;
      var hi := if Given(pageEnd) then pageEnd.value else |pages|;
      KeepRange(pages, lo, hi)
    else pages
  }

  /** A page is kept exactly when it is in the range. */
  lemma {:induction false} KeepRangeMembers(pages: seq<Page>, lo: int, hi: int)
    ensures forall p :: p in KeepRange(pages, lo, hi) <==> p in pages && lo < p.pageNumber <= hi
    decreases |pages|
  {
    if pages != [] {
      KeepRangeMembers(pages[1..], lo, hi);
      assert pages == [pages[0]] + pages[1..];
    }
  }

  /** Filtering a concatenation filters each part: the kept pages stay in their order. */
  lemma {:induction false} KeepRangeAppend(a: seq<Page>, b: seq<Page>, lo: int, hi: int)
    ensures KeepRange(a + b, lo, hi) == KeepRange(a, lo, hi) + KeepRange(b, lo, hi)
    decreases |a|
  {
    if a == [] {
      assert a + b == b;
    } else {
      assert (a + b)[0] == a[0] && (a + b)[1..] == a[1..] + b;
      KeepRangeAppend(a[1..], b, lo, hi);
    }
  }

  /** The filter keeps exactly the pages in the range, in order; without a start or an end it keeps
      every page. */
  lemma FilterPagesKeeps(pages: seq<Page>, pageStart: Option<int>, pageEnd: Option<int>)
    ensures var lo := (if Given(pageStart) then pageStart.value else 1) - 1;
      var hi := if Given(pageEnd) then pageEnd.value else |pages|;
      && (Given(pageStart) || Given(pageEnd) ==>
            forall p :: p in FilterPages(pages, pageStart, pageEnd) <==> p in pages && lo < p.pageNumber <= hi)
      && (!Given(pageStart) && !Given(pageEnd) ==> FilterPages(pages, pageStart, pageEnd) == pages)
  {
    var lo := (if Given(pageStart) then pageStart.value else 1) - 1;
    var hi := if Given(pageEnd) then pageEnd.value else |pages|;
    KeepRangeMembers(pages, lo, hi);
  }

  /** The pages of a document numbered 1, 2, ... in order. */
  predicate NumberedFromOne(pages: seq<Page>)
  {
    forall k :: 0 <= k < |pages| ==> pages[k].pageNumber == k + 1
  }

  /** The number of pages 1 to n in (lo, hi]. */
  function InRange(lo: int, hi: int, n: int): int
  {
    var a := if lo < 0 then 0 else lo;
    var b := if hi < n then hi else n;
    if b < a then 0 else b - a
  }

  /** On pages numbered 1 to n the filter keeps as many pages as the range holds. */
  lemma {:induction false} KeepRangeCount(pages: seq<Page>, lo: int, hi: int)
    requires NumberedFromOne(pages)
    ensures |KeepRange(pages, lo, hi)| == InRange(lo, hi, |pages|)
    decreases |pages|
  {
    if pages != [] {
      var n := |pages|;
      var init := pages[..n - 1];
      assert pages == init + [pages[n - 1]];
      KeepRangeAppend(init, [pages[n - 1]], lo, hi);
      assert KeepRange([pages[n - 1]], lo, hi) == (if lo < n <= hi then [pages[n - 1]] else []) + KeepRange([], lo, hi);
      KeepRangeCount(init, lo, hi);
    }
  }

  /** For one document and a range inside it, the page figure the scan page shows for the range
      (DeepDive.js:1137-1139) is the number of pages the server keeps. */
  lemma RangeEstimateAgrees(pages: seq<Page>, start: int, end: int)
    requires NumberedFromOne(pages) && 1 <= start <= end <= |pages|
    ensures |FilterPages(pages, Some(start), Some(end))|
         == Selection.EffectivePages(true, Some(start), Some(end), |pages|) == end - start + 1
  {
    KeepRangeCount(pages, start - 1, end);
  }

  /** The page's estimate counts batches of the size deep_analyze_stream uses, for every speed
      the page offers; an unknown speed, which the page does not estimate, runs at 20 pages. */
  lemma EstimateUsesServerBatches(speed: string)
    ensures Selection.PagesPerBatch(speed).Some? ==> Selection.PagesPerBatch(speed).value == BatchSize(speed)
    ensures Selection.PagesPerBatch(speed).None? <==> speed !in {"thorough", "balanced", "fast"}
    ensures Selection.PagesPerBatch(speed).None? ==> BatchSize(speed) == 20
  {
  }

  // ---------------------------------------------------------------- coverage

  /** The page numbers of the findings that are not "possible". */
  function FoundPages(findings: seq<Finding>): set<int>
  {
    set f | f in findings && f.matchType != "possible" :: f.pageNumber
  }

  /** `pages_with_findings` (server.py:651). */
  function PagesWithFindings(findings: seq<Finding>): nat
  {
    |FoundPages(findings)|
  }

  /** One more finding counts one more page exactly when it is not "possible" and its page is not
      counted yet. */
  lemma FoundPagesSnoc(findings: seq<Finding>, f: Finding)
    ensures FoundPages(findings + [f])
         == FoundPages(findings) + (if f.matchType != "possible" then {f.pageNumber} else {})
    ensures PagesWithFindings(findings + [f])
         == PagesWithFindings(findings)
          + (if f.matchType != "possible" && f.pageNumber !in FoundPages(findings) then 1 else 0)
  {
    FoundPagesSnocSet(findings, f);
  }

  lemma FoundPagesSnocSet(findings: seq<Finding>, f: Finding)
    ensures FoundPages(findings + [f])
         == FoundPages(findings) + (if f.matchType != "possible" then {f.pageNumber} else {})
  {
    var a, b := FoundPages(findings + [f]), FoundPages(findings) + (if f.matchType != "possible" then {f.pageNumber} else {});
    forall x | x in a
      ensures x in b
    {
      var g :| g in findings + [f] && g.matchType != "possible" && g.pageNumber == x;
      if g != f {
        assert g in findings;
      }
    }
    assert a == b;
  }

  /** Never more pages than findings that are not "possible"; none without findings. */
  lemma {:induction false} PagesWithFindingsBound(findings: seq<Finding>)
    ensures PagesWithFindings(findings) <= |findings|
    ensures findings == [] ==> PagesWithFindings(findings) == 0
    decreases |findings|
  {
    if findings != [] {
      var n := |findings|;
      assert findings == findings[..n - 1] + [findings[n - 1]];
      FoundPagesSnoc(findings[..n - 1], findings[n - 1]);
      PagesWithFindingsBound(findings[..n - 1]);
    }
  }

  /** `coverage_percent` in tenths of a percent: `round(pages_analyzed / total_pages * 100, 1)`,
      or 0 without pages (server.py:653), computed exactly with Python's half-to-even rounding. */
  function CoverageTenths(pagesAnalyzed: nat, totalPages: nat): int
  {
    if totalPages > 0 then PyRound(pagesAnalyzed * 1000, totalPages) else 0
  }

  /** Coverage is 0 without pages, grows with the pages analysed, stays within 0-100% while they
      do not exceed the total, and is 100% when every page was analysed. */
  lemma CoverageBounds(pagesAnalyzed: nat, more: nat, totalPages: nat)
    requires pagesAnalyzed <= more
    ensures totalPages == 0 ==> CoverageTenths(pagesAnalyzed, totalPages) == 0
    ensures CoverageTenths(pagesAnalyzed, totalPages) <= CoverageTenths(more, totalPages)
    ensures totalPages > 0 && pagesAnalyzed <= totalPages ==> 0 <= CoverageTenths(pagesAnalyzed, totalPages) <= 1000
    ensures totalPages > 0 ==> CoverageTenths(totalPages, totalPages) == 1000
  {
    if totalPages > 0 {
      PyRoundMonotone(pagesAnalyzed * 1000, more * 1000, totalPages);
      PyRoundWhole(1000, totalPages);
      PyRoundWhole(0, totalPages);
      assert totalPages * 1000 == 1000 * totalPages;
      if pagesAnalyzed <= totalPages {
        PyRoundMonotone(pagesAnalyzed * 1000, totalPages * 1000, totalPages);
        PyRoundMonotone(0, pagesAnalyzed * 1000, totalPages);
      }
    }
  }

  // ---------------------------------------------------------------- progress across documents

  /** The progress percents a multi-document scan relays, in order (server.py:636-648): each
      document's deep_analyze_stream runs on its own and its updates are passed on unchanged. */
  function RelayedPercents(docs: seq<(string, seq<Page>)>, speed: string,
                           llm: nat -> LlmReply, parse: string -> Option<BatchResult>): seq<int>
  {
    if docs == [] then []
    else ProgressPercents(Stream(docs[0].1, docs[0].0, speed, true, llm, parse))
         + RelayedPercents(docs[1..], speed, llm, parse)
  }

  /** The batches of all the documents together. */
  function AllBatches(docs: seq<(string, seq<Page>)>, speed: string): nat
  {
    if docs == [] then 0 else TotalBatches(|docs[0].1|, BatchSize(speed)) + AllBatches(docs[1..], speed)
  }

  /** A document without pages yields no progress update. */
  lemma NoPagesNoProgress(document: string, speed: string, llm: nat -> LlmReply, parse: string -> Option<BatchResult>)
    ensures ProgressPercents(Stream([], document, speed, true, llm, parse)) == []
  {
    var us := Stream([], document, speed, true, llm, parse);
    assert BatchesFrom([], BatchSize(speed), 0) == [];
    assert us == [CompleteUpdate([], [], 0, 0)];
    assert ProgressPercents(us) == ProgressPercents([]) + [];
  }

  /** One relayed percent per batch of the scan. */
  lemma {:induction false} RelayedCount(docs: seq<(string, seq<Page>)>, speed: string,
                                        llm: nat -> LlmReply, parse: string -> Option<BatchResult>)
    ensures |RelayedPercents(docs, speed, llm, parse)| == AllBatches(docs, speed)
    decreases |docs|
  {
    if docs != [] {
      var t := TotalBatches(|docs[0].1|, BatchSize(speed));
      StreamOutcome(docs[0].1, docs[0].0, speed, llm, parse);
      if t == 0 {
        assert docs[0].1 == [];
        NoPagesNoProgress(docs[0].0, speed, llm, parse);
      }
      RelayedCount(docs[1..], speed, llm, parse);
    }
  }

  /** As written, the percent restarts at every document: two 40-page documents at the balanced
      speed relay 50, 100, 50, 100, and the legacy page, which shows each percent as it arrives,
      reaches 100 halfway through the scan and then falls back to 50. */
  lemma PerDocumentPercentsRestart(a: seq<Page>, b: seq<Page>, llm: nat -> LlmReply, parse: string -> Option<BatchResult>,
                                   v: Progress.View, fetch: string -> Option<string>)
    requires |a| == 40 && |b| == 40
    ensures var ps := RelayedPercents([("a.pdf", a), ("b.pdf", b)], "balanced", llm, parse);
      && ps == [50, 100, 50, 100] && !Rising(0, ps)
      && Progress.LegacyPercents(Progress.Reset(v), Progress.Reports(ps), fetch) == ps
  {
    FortyPagesBalanced(a, "a.pdf", llm, parse);
    FortyPagesBalanced(b, "b.pdf", llm, parse);
    var docs := [("a.pdf", a), ("b.pdf", b)];
    var rest := docs[1..];
    assert rest == [("b.pdf", b)] && rest[1..] == [];
    assert RelayedPercents(rest, "balanced", llm, parse) == [50, 100] + [];
    var ps := RelayedPercents(docs, "balanced", llm, parse);
    assert ps == [50, 100] + [50, 100];
    assert !Rising(100, [50, 100]);
    Progress.LegacyShowsReported(Progress.Reset(v), ps, fetch);
  }

  /** A 40-page document at the balanced speed is two batches: 50%, then 100%. */
  lemma FortyPagesBalanced(pages: seq<Page>, document: string, llm: nat -> LlmReply, parse: string -> Option<BatchResult>)
    requires |pages| == 40
    ensures ProgressPercents(Stream(pages, document, "balanced", true, llm, parse)) == [50, 100]
  {
    assert TotalBatches(40, BatchSize("balanced")) == 2;
    PyRoundWhole(50, 2);
    PyRoundWhole(100, 2);
    assert BatchPercents(2, 2) == [50, 100];
    StreamOutcome(pages, document, "balanced", llm, parse);
  }

  /** The percents a scan-wide numbering relays: batch k of all the scan's batches, in order. */
  function OverallPercents(docs: seq<(string, seq<Page>)>, speed: string): (r: seq<int>)
    ensures |r| == AllBatches(docs, speed)
  {
    var all := AllBatches(docs, speed);
    if all == 0 then [] else BatchPercents(all, all)
  }

  /** Numbered across the scan, there is still one percent per batch, the percents never fall and
      the last is 100, and the legacy page shows exactly these. */
  lemma OverallPercentsRise(docs: seq<(string, seq<Page>)>, speed: string,
                            llm: nat -> LlmReply, parse: string -> Option<BatchResult>,
                            v: Progress.View, fetch: string -> Option<string>)
    ensures var ps := OverallPercents(docs, speed);
      && |ps| == |RelayedPercents(docs, speed, llm, parse)|
      && Rising(0, ps) && (ps != [] ==> ps[|ps| - 1] == 100)
      && Progress.LegacyPercents(Progress.Reset(v), Progress.Reports(ps), fetch) == ps
  {
    var all := AllBatches(docs, speed);
    RelayedCount(docs, speed, llm, parse);
    if all > 0 {
      BatchPercentsRise(all, all);
      BatchPercentBounds(all, all, all);
    }
    Progress.LegacyShowsReported(Progress.Reset(v), OverallPercents(docs, speed), fetch);
  }

  // ---------------------------------------------------------------- model selection

  /** An entry of models.list: its name and `supportedGenerationMethods` (a missing name is ""). */
  datatype ModelInfo = ModelInfo(name: string, methods: seq<string>)

  /** `norm`: the "models/" prefix removed, as `str.replace` removes every occurrence. */
  function Norm(name: string): string
  {
    RemoveAll(name, "models/")
  }

  /** models.list names its models "models/<id>": normalising gives back the id, and an id is
      already normal. */
  lemma NormStripsPrefix(id: string)
    requires !Contains(id, "models/")
    ensures Norm("models/" + id) == id && Norm(id) == id
  {
    RemoveAllPrefix("models/", id);
  }

  /** The filters of the `usable` loop (server.py:163-168). */
  predicate Usable(m: ModelInfo, exclude: seq<string>)
  {
    var name := Norm(m.name);
    && name != []
    && "generateContent" in m.methods
    && !Contains(AsciiLower(name), "flash")
    && Contains(AsciiLower(name), "pro")
    && name !in exclude
  }

  /** `usable`: the normalised names of the usable models, in list order. */
  function UsableNames(models: seq<ModelInfo>, exclude: seq<string>): (r: seq<string>)
    ensures |r| <= |models|
  {
    if models == [] then []
    else
      var init := UsableNames(models[..|models| - 1], exclude);
      var m := models[|models| - 1];
      if Usable(m, exclude) then init + [Norm(m.name)] else init
  }

  lemma {:induction false} UsableNamesMembers(models: seq<ModelInfo>, exclude: seq<string>)
    ensures forall n :: n in UsableNames(models, exclude) <==> exists m :: m in models && Usable(m, exclude) && Norm(m.name) == n
    decreases |models|
  {
    if models != [] {
      var init := models[..|models| - 1];
      UsableNamesMembers(init, exclude);
      assert models == init + [models[|models| - 1]];
    }
  }

  /** The preference order after the preferred model (server.py:172-174). */
  const Candidates: seq<string> := ["gemini-2.5-pro", "gemini-2.0-pro", "gemini-1.5-pro"]

  /** The candidates are bare ids: each is its own normal form, and so is the list's
      "models/"-prefixed name for it, so a listed candidate is recognised by name. */
  lemma CandidatesAreNormal()
    ensures forall c :: c in Candidates ==> Norm(c) == c && Norm("models/" + c) == c
  {
    forall c | c in Candidates
      ensures Norm(c) == c && Norm("models/" + c) == c
    {
      NoModelsPrefix(c);
      NormStripsPrefix(c);
    }
  }

  lemma NoModelsPrefix(c: string)
    requires c in Candidates
    ensures !Contains(c, "models/")
  {
    if c == "gemini-2.5-pro" {
      assert '/' !in "gemini-2.5-pro";
    } else if c == "gemini-2.0-pro" {
      assert '/' !in "gemini-2.0-pro";
    } else {
      assert '/' !in "gemini-1.5-pro";
    }
    NoSlashNoPrefix(c);
  }

  /** A text without '/' holds no "models/". */
  lemma {:induction false} NoSlashNoPrefix(s: string)
    requires '/' !in s
    ensures !Contains(s, "models/")
    decreases |s|
  {
    if s != [] {
      assert |s| < 7 || s[6] != '/';
      assert s == [s[0]] + s[1..];
      NoSlashNoPrefix(s[1..]);
    }
  }

  /** The first of `cands` that is usable, normalised. */
  function FirstCandidate(usable: seq<string>, cands: seq<string>): (r: Option<string>)
    ensures r.Some? ==> r.value in usable
  {
    if cands == [] then None
    else if Norm(cands[0]) in usable then Some(Norm(cands[0]))
    else FirstCandidate(usable, cands[1..])
  }

  /** gemini_select_pro_model after models.list: the preferred model when it is usable, otherwise
      the first usable candidate, otherwise the first usable model; with none usable, the error
      listing up to 80 model names. */
  function ChooseProModel(models: seq<ModelInfo>, preferred: string, exclude: seq<string>): Result<string, seq<string>>
  {
    var usable := UsableNames(models, exclude);
    if preferred != [] && Norm(preferred) in usable && Norm(preferred) !in exclude then Ok(Norm(preferred))
    else
      match FirstCandidate(usable, Candidates)
      case Some(c) => Ok(c)
      case None =>
        if usable != [] then Ok(usable[0])
        else
          var names := AllNames(models);
          Err(if |names| <= 80 then names else names[..80])
  }

  /** Every listed model's normalised name, in list order. */
  function AllNames(models: seq<ModelInfo>): (r: seq<string>)
    ensures |r| == |models|
    ensures forall k :: 0 <= k < |models| ==> r[k] == Norm(models[k].name)
  {
    if models == [] then [] else AllNames(models[..|models| - 1]) + [Norm(models[|models| - 1].name)]
  }

  /** The model chosen is one the list offers for generateContent, a Pro model and not Flash, and
      not excluded; there is an error exactly when no model is usable; a usable preferred model
      always wins; when neither it nor any candidate is usable, the first usable model in list
      order is taken; and the error names the first 80 listed models, normalised, in list order. */
  lemma ChoiceIsUsable(models: seq<ModelInfo>, preferred: string, exclude: seq<string>)
    ensures var r := ChooseProModel(models, preferred, exclude);
      && (r.Ok? ==> exists m :: m in models && Usable(m, exclude) && Norm(m.name) == r.value)
      && (r.Err? <==> UsableNames(models, exclude) == [])
      && (preferred != [] && Norm(preferred) in UsableNames(models, exclude) ==> r == Ok(Norm(preferred)))
    ensures var usable := UsableNames(models, exclude);
      && usable != [] && !(preferred != [] && Norm(preferred) in usable)
      && (forall c :: c in Candidates ==> Norm(c) !in usable)
      ==> ChooseProModel(models, preferred, exclude) == Ok(usable[0])
    ensures var r := ChooseProModel(models, preferred, exclude);
      r.Err? ==> && |r.error| == (if |models| <= 80 then |models| else 80)
                 && forall k :: 0 <= k < |r.error| ==> r.error[k] == Norm(models[k].name)
  {
    var usable := UsableNames(models, exclude);
    UsableNamesMembers(models, exclude);
    var r := ChooseProModel(models, preferred, exclude);
    if r.Ok? {
      assert r.value in usable;
    }
    if preferred != [] && Norm(preferred) in usable {
      var m :| m in models && Usable(m, exclude) && Norm(m.name) == Norm(preferred);
    }
    if forall c :: c in Candidates ==> Norm(c) !in usable {
      NoCandidateUsable(usable, Candidates);
    }
  }

  lemma {:induction false} NoCandidateUsable(usable: seq<string>, cands: seq<string>)
    requires forall c :: c in cands ==> Norm(c) !in usable
    ensures FirstCandidate(usable, cands) == None
    decreases |cands|
  {
    if cands != [] {
      assert cands[0] in cands;
      forall c | c in cands[1..]
        ensures Norm(c) !in usable
      {
        assert c in cands;
      }
      NoCandidateUsable(usable, cands[1..]);
    }
  }

  /** Without a usable preferred model, a usable candidate is taken before any other model, and
      no candidate listed before the one taken is usable. */
  lemma CandidateOrder(models: seq<ModelInfo>, preferred: string, exclude: seq<string>, i: nat)
    requires i < |Candidates| && Norm(Candidates[i]) in UsableNames(models, exclude)
    requires !(preferred != [] && Norm(preferred) in UsableNames(models, exclude))
    ensures var r := ChooseProModel(models, preferred, exclude);
      exists j :: (0 <= j <= i && r == Ok(Norm(Candidates[j]))
                   && forall l :: 0 <= l < j ==> Norm(Candidates[l]) !in UsableNames(models, exclude))
  {
    CandidateFound(UsableNames(models, exclude), Candidates, i);
  }

  lemma {:induction false} CandidateFound(usable: seq<string>, cands: seq<string>, i: nat)
    requires i < |cands| && Norm(cands[i]) in usable
    ensures exists j :: (0 <= j <= i && FirstCandidate(usable, cands) == Some(Norm(cands[j]))
                         && forall l :: 0 <= l < j ==> Norm(cands[l]) !in usable)
    decreases i
  {
    if Norm(cands[0]) !in usable {
      CandidateFound(usable, cands[1..], i - 1);
      var j :| 0 <= j <= i - 1 && FirstCandidate(usable, cands[1..]) == Some(Norm(cands[1..][j]))
        && forall l :: 0 <= l < j ==> Norm(cands[1..][l]) !in usable;
      assert forall l :: 1 <= l < j + 1 ==> cands[l] == cands[1..][l - 1];
    }
  }

  /** gemini_select_pro_model (server.py:158-177), after the models.list call. */
  method SelectProModel(models: seq<ModelInfo>, preferred: string, exclude: seq<string>)
    returns (r: Result<string, seq<string>>)
    ensures r == ChooseProModel(models, preferred, exclude)
  {
    var usable: seq<string> := [];
    for i := 0 to |models|
      invariant usable == UsableNames(models[..i], exclude)
    {
      assert models[..i + 1][..i] == models[..i];
      var name := Norm(models[i].name);
      var methods := models[i].methods;
      if name == [] || "generateContent" !in methods {
        continue;
      }
      var lower := AsciiLower(name);
      if Contains(lower, "flash") || !Contains(lower, "pro") {
        continue;
      }
      if name in exclude {
        continue;
      }
      usable := usable + [name];
    }
    assert models[..|models|] == models;
    if preferred != [] && Norm(preferred) in usable && Norm(preferred) !in exclude {
      return Ok(Norm(preferred));
    }
    for i := 0 to |Candidates|
      invariant FirstCandidate(usable, Candidates[i..]) == FirstCandidate(usable, Candidates)
    {
      var c := Norm(Candidates[i]);
      if c in usable {
        return Ok(c);
      }
    }
    if usable != [] {
      return Ok(usable[0]);
    }
    var names := AllNames(models);
    r := Err(if |names| <= 80 then names else names[..80]);
  }

  // ---------------------------------------------------------------- split and batch mode

  /** `needs_split` (server.py:481): over 1000 pages, or over 45 MB where a megabyte is 1024 * 1024
      bytes. */
  predicate NeedsSplit(totalPages: int, sizeBytes: nat)
  {
    totalPages > MaxPages || sizeBytes > MaxBytes
  }

  /** The parts pro_upload_complete records (server.py:482-483): the split parts, or the whole
      file as part 1. */
  function PartsFor(rule: EndRule, totalPages: int, sizeBytes: nat, size: (int, int) -> int): seq<Part>
  {
    if NeedsSplit(totalPages, sizeBytes) then PdfSplit.Split(rule, totalPages, MaxPages, MaxBytes, size)
    else [Part(1, 1, totalPages, Range(1, totalPages))]
  }

  /** `_estimate_tokens_for_pages`: 1000 tokens a page. */
  function EstimatedTokens(totalPages: int): int
  {
    totalPages * 1000
  }

  /** `batch_mode` of pro_analyze_stream (server.py:529-534). */
  predicate BatchMode(totalPages: int, partCount: nat)
  {
    partCount > 1 || EstimatedTokens(totalPages) > 1_900_000
  }

  /** Every recorded part holds at most 1000 pages. */
  lemma PartsWithinPageLimit(rule: EndRule, totalPages: int, sizeBytes: nat, size: (int, int) -> int)
    ensures forall p :: p in PartsFor(rule, totalPages, sizeBytes, size) ==> |p.pages| <= MaxPages
  {
    if NeedsSplit(totalPages, sizeBytes) {
      SplitTiles(rule, 1, 0, totalPages, MaxPages, MaxBytes, size);
    }
  }

  /** A document large enough for token batch mode (over 1900 pages) is always split into two
      parts or more, so multi-part mode holds for it too. */
  lemma TokenModeImpliesParts(rule: EndRule, totalPages: int, sizeBytes: nat, size: (int, int) -> int)
    requires EstimatedTokens(totalPages) > 1_900_000
    ensures |PartsFor(rule, totalPages, sizeBytes, size)| >= 2
  {
    var parts := PdfSplit.Split(rule, totalPages, MaxPages, MaxBytes, size);
    SplitTiles(rule, 1, 0, totalPages, MaxPages, MaxBytes, size);
    assert parts[0].endPage <= 1 + MaxPages < totalPages;
  }

  /** With the end taken from the last page written, any document over 1000 pages has several
      parts and is analysed in batch mode. */
  lemma OverLimitIsBatched(totalPages: int, sizeBytes: nat, size: (int, int) -> int)
    requires totalPages > MaxPages
    ensures BatchMode(totalPages, |PartsFor(LastPageWritten, totalPages, sizeBytes, size)|)
  {
    var parts := PdfSplit.Split(LastPageWritten, totalPages, MaxPages, MaxBytes, size);
    SplitTiles(LastPageWritten, 1, 0, totalPages, MaxPages, MaxBytes, size);
    RangeAt(parts[0].startPage, parts[0].endPage, 0);
    assert parts[0].endPage <= MaxPages;
  }

  /** As written, a 1001-page document of small pages is recorded as one part and analysed
      without batch mode, in one request whose file lacks page 1001. */
  lemma ThousandAndOnePagesNotBatched()
    ensures var parts := PartsFor(AsWritten, 1001, 0, (a: int, b: int) => 0);
      && |parts| == 1 && !BatchMode(1001, |parts|) && 1001 !in parts[0].pages
  {
    CapLosesPage();
    RangeBounds(1, 1000);
  }
}
