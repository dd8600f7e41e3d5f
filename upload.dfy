/** The Pro upload handler of the deep-dive page (DeepDive.js:771-820): after its guards it opens
    an upload session, posts the file in 5 MiB slices, asks the server to complete the upload and
    reloads the document list, reporting a percent after each step. Every request is recorded in the
    order it is sent; which request throws, if any, is a parameter. */
module ProUpload {
  import opened Wrappers
  import opened Numbers
  import opened Strings

  const ChunkSize: nat := 5 * 1024 * 1024

  datatype PdfFile = PdfFile(name: string, size: nat)

  /** The bytes [from, to) of the file that one chunk request carries. */
  datatype Slice = Slice(from: nat, to: nat)

  /** A request the handler sends, with the values it carries. */
  datatype Request =
    | Init(filename: string, sizeBytes: nat)
    | Chunk(uploadId: string, from: nat, to: nat)
    | Complete(uploadId: string, geminiKey: string)

  /** The slices [from, to) the loop cuts from `offset` on: `end = Math.min(offset + chunkSize,
      size)` each time. */
  function Slices(offset: nat, size: nat): (r: seq<Slice>)
    ensures offset < size ==> r != [] && r[0].from == offset
    ensures offset >= size ==> r == []
    decreases size - offset
  {
    if offset >= size then []
    else
      var end := if offset + ChunkSize < size then offset + ChunkSize else size;
      [Slice(offset, end)] + Slices(end, size)
  }

  /** The slices are non-empty, at most 5 MiB, consecutive, and end at the file's size: together
      they cover [offset, size) exactly once. */
  lemma {:induction false} SlicesTile(offset: nat, size: nat)
    ensures var r := Slices(offset, size);
      && (forall k :: 0 <= k < |r| ==> offset <= r[k].from < r[k].to <= r[k].from + ChunkSize && r[k].to <= size)
      && (forall k :: 0 <= k < |r| - 1 ==> r[k].to == r[k + 1].from)
      && (offset < size ==> r[|r| - 1].to == size)
    decreases size - offset
  {
    if offset < size {
      var end := if offset + ChunkSize < size then offset + ChunkSize else size;
      var r, t := Slices(offset, size), Slices(end, size);
      SlicesTile(end, size);
      assert r == [Slice(offset, end)] + t;
      assert forall k :: 1 <= k < |r| ==> r[k] == t[k - 1];
    }
  }

  /** The loop posts ceil(size / 5 MiB) slices. */
  lemma {:induction false} SlicesCount(offset: nat, size: nat)
    requires offset <= size
    ensures |Slices(offset, size)| == CeilDiv(size - offset, ChunkSize)
    decreases size - offset
  {
    if offset == size {
      CeilDivUnique(0, ChunkSize, 0);
    } else if offset + ChunkSize < size {
      SlicesCount(offset + ChunkSize, size);
      CeilDivStep(size - offset, ChunkSize);
    } else {
      assert Slices(offset, size) == [Slice(offset, size)] + Slices(size, size);
      CeilDivUnique(0, ChunkSize, 0);
      CeilDivUnique(size - offset, ChunkSize, 1);
    }
  }

  /** A 12 MiB file goes up in three requests: 5 MiB, 5 MiB, 2 MiB. */
  lemma TwelveMiBTakesThreeSlices()
    ensures Slices(0, 12 * 1024 * 1024) ==
      [Slice(0, ChunkSize), Slice(ChunkSize, 2 * ChunkSize), Slice(2 * ChunkSize, 12 * 1024 * 1024)]
  {
    var size := 12 * 1024 * 1024;
    assert Slices(2 * ChunkSize, size) == [Slice(2 * ChunkSize, size)] + Slices(size, size);
  }

  /** `Math.round((offset / file.size) * 60)`. */
  function UploadPercent(offset: nat, size: nat): (pct: int)
    requires size > 0
    ensures offset <= size ==> 0 <= pct <= 60
    ensures offset == size ==> pct == 60
  {
    PercentBounds(offset, size);
    JsRound(offset * 60, size)
  }

  lemma PercentBounds(offset: nat, size: nat)
    ensures size > 0 && offset <= size ==> 0 <= JsRound(offset * 60, size) <= 60
    ensures size > 0 && offset == size ==> JsRound(offset * 60, size) == 60
  {
    if size > 0 && offset <= size {
      MulLe(offset, size, 60);
      JsRoundBetween(offset * 60, size, 0, 60);
      JsRoundBetween(size * 60, size, 60, 60);
    }
  }

  /** The percents shown after the given slices are posted. */
  function SlicePercents(slices: seq<Slice>, size: nat): (r: seq<int>)
    ensures |r| == |slices|
  {
    if slices == [] then []
    else (if size > 0 then [UploadPercent(slices[0].to, size)] else [0]) + SlicePercents(slices[1..], size)
  }

  /** The percents over the slices never fall and stay at most 60. */
  lemma {:induction false} SlicePercentsRise(offset: nat, size: nat, n: nat)
    requires offset <= size && n <= |Slices(offset, size)|
    ensures var ps := SlicePercents(Slices(offset, size)[..n], size);
      size > 0 ==> Rising(UploadPercent(offset, size), ps) && forall k :: 0 <= k < |ps| ==> ps[k] <= 60
    decreases size - offset
  {
    if n > 0 && size > 0 {
      var end := if offset + ChunkSize < size then offset + ChunkSize else size;
      var rest := Slices(end, size);
      assert Slices(offset, size) == [Slice(offset, end)] + rest;
      PercentsCons(Slice(offset, end), rest, n, size);
      MulLe(offset, end, 60);
      JsRoundMonotone(offset * 60, end * 60, size);
      SlicePercentsRise(end, size, n - 1);
    }
  }

  /** The percents of the first n slices of x + rest: x's, then those of the first n - 1 of rest. */
  lemma PercentsCons(x: Slice, rest: seq<Slice>, n: nat, size: nat)
    requires 0 < n <= |rest| + 1 && size > 0
    ensures SlicePercents(([x] + rest)[..n], size) == [UploadPercent(x.to, size)] + SlicePercents(rest[..n - 1], size)
  {
    var s := ([x] + rest)[..n];
    assert s[0] == x && s[1..] == rest[..n - 1];
  }

  function ChunkRequests(uploadId: string, slices: seq<Slice>): (r: seq<Request>)
    ensures |r| == |slices|
  {
    if slices == [] then [] else [Chunk(uploadId, slices[0].from, slices[0].to)] + ChunkRequests(uploadId, slices[1..])
  }

  /** Every request of an upload that nothing interrupts, in order. */
  function AllRequests(file: PdfFile, uploadId: string, geminiKey: string): seq<Request>
  {
    [Init(file.name, file.size)] + ChunkRequests(uploadId, Slices(0, file.size)) + [Complete(uploadId, Trim(geminiKey))]
  }

  /** The guards: a file whose lower-cased name ends in ".pdf", and a key that is not blank. */
  predicate UploadAllowed(file: Option<PdfFile>, geminiKey: string)
  {
    file.Some? && EndsWith(AsciiLower(file.value.name), ".pdf") && !IsBlank(geminiKey)
  }

  /** The requests that go out when request `failAt` (counting from 0) throws: every request up to
      and including that one. */
  function Sent(file: PdfFile, uploadId: string, geminiKey: string, failAt: Option<nat>): seq<Request>
  {
    var all := AllRequests(file, uploadId, geminiKey);
    if failAt.Some? && failAt.value < |all| then all[..failAt.value + 1] else all
  }

  /** The percents shown when request `failAt` throws: 1, one per slice posted, 70 once every slice
      is posted, 100 once the upload is complete. */
  function Shown(size: nat, failAt: Option<nat>): seq<int>
  {
    var slices := Slices(0, size);
    var m := |slices|;
    var posted := if failAt.None? then m else if failAt.value == 0 then 0 else Min(failAt.value - 1, m);
    [1] + SlicePercents(slices[..posted], size)
    + (if failAt.None? || failAt.value > m then [70] else [])
    + (if failAt.None? || failAt.value > m + 1 then [100] else [])
  }

  function Min(a: int, b: int): int
  {
    if a < b then a else b
  }

  /** From the second value on, the percents shown never fall, and 100 is shown exactly when no
      request throws. */
  lemma ShownRises(size: nat, failAt: Option<nat>)
    ensures var shown := Shown(size, failAt);
      Rising(0, shown[1..])
      && (100 in shown <==> failAt.None? || failAt.value > |Slices(0, size)| + 1)
  {
    var slices := Slices(0, size);
    var m := |slices|;
    var posted := if failAt.None? then m else if failAt.value == 0 then 0 else Min(failAt.value - 1, m);
    var ps := SlicePercents(slices[..posted], size);
    var tail70: seq<int> := if failAt.None? || failAt.value > m then [70] else [];
    var tail100: seq<int> := if failAt.None? || failAt.value > m + 1 then [100] else [];
    assert Shown(size, failAt) == [1] + ps + tail70 + tail100;
    PercentsFromZero(size, posted);
    TailRises(ps, tail70, tail100);
    RisingAppend(0, ps, tail70 + tail100);
    DropHead(1, ps, tail70, tail100);
    assert 100 !in ps;
    assert 100 !in tail70;
    assert 100 in tail100 <==> failAt.None? || failAt.value > m + 1;
  }

  lemma DropHead(x: int, a: seq<int>, b: seq<int>, c: seq<int>)
    ensures ([x] + a + b + c)[1..] == a + (b + c)
    ensures forall y :: y in [x] + a + b + c <==> y == x || y in a || y in b || y in c
  {
    assert [x] + a + b + c == [x] + (a + (b + c));
  }

  lemma PercentsFromZero(size: nat, n: nat)
    requires n <= |Slices(0, size)|
    ensures var ps := SlicePercents(Slices(0, size)[..n], size);
      Rising(0, ps) && forall k :: 0 <= k < |ps| ==> ps[k] <= 60
  {
    SlicePercentsRise(0, size, n);
    if size > 0 {
      JsRoundBetween(0, size, 0, 0);
    }
  }

  lemma TailRises(ps: seq<int>, tail70: seq<int>, tail100: seq<int>)
    requires forall k :: 0 <= k < |ps| ==> ps[k] <= 60
    requires tail70 == [] || tail70 == [70]
    requires tail100 == [] || tail100 == [100]
    ensures Rising(if ps == [] then 0 else ps[|ps| - 1], tail70 + tail100)
    ensures 100 !in ps
  {
    var t := tail70 + tail100;
    if t != [] {
      assert t[1..] == [] || t[1..] == [100];
    }
  }

  /** The upload panel's state (DeepDive.js:706-707). */
  class ProUploadPanel {
    var uploading: bool
    var percent: int

    constructor ()
      ensures !uploading && percent == 0
    {
      uploading := false;
      percent := 0;
    }

    /** uploadPdfPro (DeepDive.js:771-820). Refused by its guards it sends nothing and changes
        nothing. Otherwise it sends the requests of an uninterrupted upload up to and including the
        one that throws, shows the percents `Shown` describes, and ends not uploading, showing the
        last of them. */
    method UploadPdfPro(file: Option<PdfFile>, geminiKey: string, uploadId: string, failAt: Option<nat>)
      returns (sent: seq<Request>, shown: seq<int>)
      modifies this
      ensures !UploadAllowed(file, geminiKey) ==>
        sent == [] && shown == [] && uploading == old(uploading) && percent == old(percent)
      ensures UploadAllowed(file, geminiKey) ==>
        && sent == Sent(file.value, uploadId, geminiKey, failAt)
        && shown == Shown(file.value.size, failAt)
        && !uploading && percent == shown[|shown| - 1]
    {
      if file.None? || !EndsWith(AsciiLower(file.value.name), ".pdf") || IsBlank(geminiKey) {
        return [], [];
      }
      sent, shown := Transfer(file.value, geminiKey, uploadId, failAt);
    }

    /** The part of uploadPdfPro after its guards (DeepDive.js:781-819). */
    method Transfer(file: PdfFile, geminiKey: string, uploadId: string, failAt: Option<nat>)
      returns (sent: seq<Request>, shown: seq<int>)
      modifies this
      ensures sent == Sent(file, uploadId, geminiKey, failAt)
      ensures shown == Shown(file.size, failAt)
      ensures !uploading && percent == shown[|shown| - 1]
    {
      var slices := Slices(0, file.size);
      uploading := true;
      percent := 1;
      if failAt == Some(0) {
        sent, shown := [Init(file.name, file.size)], [1];
        uploading := false;
        InitFails(file, uploadId, geminiKey);
        return;
      }
      var failed;
      sent, shown, failed := PostChunks(file, uploadId, failAt);
      if failed {
        uploading := false;
        ChunkFails(file, uploadId, geminiKey, failAt.value);
        return;
      }
      CompleteSent(file, uploadId, geminiKey, failAt);
      percent := 70;
      shown := shown + [70];
      sent := sent + [Complete(uploadId, Trim(geminiKey))];
      if failAt.Some? && failAt.value == |slices| + 1 {
        uploading := false;
        return;
      }
      percent := 100;
      shown := shown + [100];
      uploading := false;
    }

    /** One pass of the chunk loop: the slice from `offset` is posted and, unless that request
        (number k + 1) throws, the bar moves to the share of the file sent. */
    method PostSlice(uploadId: string, size: nat, offset: nat, k: nat, failIdx: nat, sent: seq<Request>, shown: seq<int>)
      returns (sent': seq<Request>, shown': seq<int>, end: nat, thrown: bool)
      requires offset < size
      modifies this`percent
      ensures end == if offset + ChunkSize < size then offset + ChunkSize else size
      ensures sent' == sent + [Chunk(uploadId, offset, end)]
      ensures thrown <==> failIdx == k + 1
      ensures thrown ==> shown' == shown && percent == old(percent)
      ensures !thrown ==> shown' == shown + [UploadPercent(end, size)] && percent == UploadPercent(end, size)
    {
      end := if offset + ChunkSize < size then offset + ChunkSize else size;
      sent' := sent + [Chunk(uploadId, offset, end)];
      if failIdx == k + 1 {
        return sent', shown, end, true;
      }
      var pct := UploadPercent(end, size);
      percent := pct;
      shown' := shown + [pct];
      thrown := false;
    }

    /** The init request and the chunk loop (DeepDive.js:786-804): every slice is posted in
        order, and the percent after each is the share of the file sent so far, scaled to 60.
        `failAt` is the request (the init request being 0) whose fetch throws. */
    method PostChunks(file: PdfFile, uploadId: string, failAt: Option<nat>)
      returns (sent: seq<Request>, shown: seq<int>, failed: bool)
      requires failAt != Some(0) && percent == 1
      modifies this`percent
      ensures var slices := Slices(0, file.size);
        && (failed <==> failAt.Some? && failAt.value <= |slices|)
        && (failed ==>
              && sent == [Init(file.name, file.size)] + ChunkRequests(uploadId, slices[..failAt.value])
              && shown == [1] + SlicePercents(slices[..failAt.value - 1], file.size))
        && (!failed ==>
              && sent == [Init(file.name, file.size)] + ChunkRequests(uploadId, slices)
              && shown == [1] + SlicePercents(slices, file.size))
      ensures percent == shown[|shown| - 1]
    {
      var size := file.size;
      ghost var slices := Slices(0, size);
      shown := [1];
      sent := [Init(file.name, size)];
      var offset := 0;
      var k := 0;
      ghost var posted: seq<Slice> := [];
      var failIdx := failAt.GetOr(0);
      while offset < size
        invariant k == |posted| && ChunkLoop(file, uploadId, slices, offset, posted, sent, shown)
        invariant percent == shown[|shown| - 1]
        invariant failIdx == 0 || failIdx > k
        decreases size - offset
      {
        ghost var end := if offset + ChunkSize < size then offset + ChunkSize else size;
        ghost var next := posted + [Slice(offset, end)];
        ChunkLoopStep(file, uploadId, slices, offset, posted, sent, shown);
        var thrown;
        sent, shown, offset, thrown := PostSlice(uploadId, size, offset, k, failIdx, sent, shown);
        if thrown {
          assert slices[..failAt.value] == next && slices[..failAt.value - 1] == posted;
          return sent, shown, true;
        }
        posted := next;
        k := k + 1;
      }
      assert slices == posted;
      failed := false;
    }
  }

  lemma InitFails(file: PdfFile, uploadId: string, geminiKey: string)
    ensures Sent(file, uploadId, geminiKey, Some(0)) == [Init(file.name, file.size)]
    ensures Shown(file.size, Some(0)) == [1]
  {
    var slices := Slices(0, file.size);
    var cr := ChunkRequests(uploadId, slices);
    PrefixOfCons(Init(file.name, file.size), cr, [Complete(uploadId, Trim(geminiKey))], 0);
    EmptyPrefix(slices);
    assert SlicePercents(slices[..0], file.size) == [];
  }

  lemma EmptyPrefix<T>(s: seq<T>)
    ensures s[..0] == []
  {
  }

  lemma ChunkFails(file: PdfFile, uploadId: string, geminiKey: string, f: nat)
    requires 1 <= f <= |Slices(0, file.size)|
    ensures Sent(file, uploadId, geminiKey, Some(f)) ==
      [Init(file.name, file.size)] + ChunkRequests(uploadId, Slices(0, file.size)[..f])
    ensures Shown(file.size, Some(f)) == [1] + SlicePercents(Slices(0, file.size)[..f - 1], file.size)
  {
    AllRequestsPrefix(file, uploadId, geminiKey, f);
    assert Min(f - 1, |Slices(0, file.size)|) == f - 1;
  }

  /** Once every slice is posted: the complete request goes out last. */
  lemma CompleteSent(file: PdfFile, uploadId: string, geminiKey: string, failAt: Option<nat>)
    requires failAt.None? || failAt.value > |Slices(0, file.size)|
    ensures Sent(file, uploadId, geminiKey, failAt) ==
      [Init(file.name, file.size)] + ChunkRequests(uploadId, Slices(0, file.size)) + [Complete(uploadId, Trim(geminiKey))]
    ensures Shown(file.size, failAt) ==
      [1] + SlicePercents(Slices(0, file.size), file.size) + [70]
      + (if failAt.None? || failAt.value > |Slices(0, file.size)| + 1 then [100] else [])
  {
    var slices := Slices(0, file.size);
    assert slices[..|slices|] == slices;
    var all := AllRequests(file, uploadId, geminiKey);
    if failAt.Some? && failAt.value < |all| {
      assert failAt.value + 1 == |all|;
      assert all[..failAt.value + 1] == all;
    }
  }

  /** The state of the chunk loop at `offset`: `posted` are the slices sent so far, and `sent`
      and `shown` the requests and percents they gave. */
  ghost predicate ChunkLoop(file: PdfFile, uploadId: string, slices: seq<Slice>, offset: nat, posted: seq<Slice>,
                            sent: seq<Request>, shown: seq<int>)
  {
    && offset <= file.size
    && slices == posted + Slices(offset, file.size)
    && sent == [Init(file.name, file.size)] + ChunkRequests(uploadId, posted)
    && shown == [1] + SlicePercents(posted, file.size)
  }

  /** One turn of the upload loop: the next slice is the one at `offset`, and posting it extends
      the requests and the percents by one entry each. */
  lemma ChunkLoopStep(file: PdfFile, uploadId: string, slices: seq<Slice>, offset: nat, posted: seq<Slice>,
                      sent: seq<Request>, shown: seq<int>)
    requires offset < file.size && ChunkLoop(file, uploadId, slices, offset, posted, sent, shown)
    ensures var size := file.size;
      var end := if offset + ChunkSize < size then offset + ChunkSize else size;
      var next := posted + [Slice(offset, end)];
      && ChunkLoop(file, uploadId, slices, end, next, sent + [Chunk(uploadId, offset, end)], shown + [UploadPercent(end, size)])
      && |next| <= |slices| && slices[..|next|] == next && slices[..|posted|] == posted
      && sent + [Chunk(uploadId, offset, end)] == [Init(file.name, size)] + ChunkRequests(uploadId, next)
  {
    SliceStep(slices, file.size, offset, posted, uploadId, Init(file.name, file.size));
  }

  lemma SliceStep(slices: seq<Slice>, size: nat, offset: nat, posted: seq<Slice>, uploadId: string, init: Request)
    requires offset < size && slices == posted + Slices(offset, size)
    ensures var end := if offset + ChunkSize < size then offset + ChunkSize else size;
      var next := posted + [Slice(offset, end)];
      && slices == next + Slices(end, size)
      && |next| <= |slices| && slices[..|next|] == next && slices[..|posted|] == posted
      && [init] + ChunkRequests(uploadId, next) == [init] + ChunkRequests(uploadId, posted) + [Chunk(uploadId, offset, end)]
      && [1] + SlicePercents(next, size) == [1] + SlicePercents(posted, size) + [UploadPercent(end, size)]
  {
    var end := if offset + ChunkSize < size then offset + ChunkSize else size;
    var rest := Slices(end, size);
    assert Slices(offset, size) == [Slice(offset, end)] + rest;
    Reassociate(posted, Slice(offset, end), rest, slices);
    ChunkRequestsSnoc(uploadId, posted, Slice(offset, end));
    SlicePercentsSnoc(posted, Slice(offset, end), size);
    Associate([init], ChunkRequests(uploadId, posted), [Chunk(uploadId, offset, end)]);
    Associate([1], SlicePercents(posted, size), [UploadPercent(end, size)]);
  }

  lemma Reassociate<T>(done: seq<T>, x: T, rest: seq<T>, all: seq<T>)
    requires all == done + ([x] + rest)
    ensures all == (done + [x]) + rest && all[..|done| + 1] == done + [x]
  {
    assert all[..|done| + 1] == done + [x];
  }

  /** The requests sent up to a chunk that throws. */
  lemma AllRequestsPrefix(file: PdfFile, uploadId: string, geminiKey: string, n: nat)
    requires 1 <= n <= |Slices(0, file.size)|
    ensures AllRequests(file, uploadId, geminiKey)[..n + 1] ==
      [Init(file.name, file.size)] + ChunkRequests(uploadId, Slices(0, file.size)[..n])
  {
    var slices := Slices(0, file.size);
    var cr := ChunkRequests(uploadId, slices);
    ChunkRequestsPrefix(uploadId, slices, n);
    PrefixOfCons(Init(file.name, file.size), cr, [Complete(uploadId, Trim(geminiKey))], n);
  }

  lemma {:induction false} ChunkRequestsPrefix(uploadId: string, slices: seq<Slice>, n: nat)
    requires n <= |slices|
    ensures ChunkRequests(uploadId, slices[..n]) == ChunkRequests(uploadId, slices)[..n]
  {
    if n > 0 {
      assert slices[..n][1..] == slices[1..][..n - 1];
      ChunkRequestsPrefix(uploadId, slices[1..], n - 1);
    }
  }

  lemma PrefixOfCons<T>(x: T, a: seq<T>, b: seq<T>, n: nat)
    requires n <= |a|
    ensures ([x] + a + b)[..n + 1] == [x] + a[..n]
  {
  }

  lemma ChunkRequestsSnoc(uploadId: string, slices: seq<Slice>, s: Slice)
    ensures ChunkRequests(uploadId, slices + [s]) == ChunkRequests(uploadId, slices) + [Chunk(uploadId, s.from, s.to)]
    decreases |slices|
  {
    if slices != [] {
      assert (slices + [s])[1..] == slices[1..] + [s];
      ChunkRequestsSnoc(uploadId, slices[1..], s);
    }
  }

  lemma SlicePercentsSnoc(slices: seq<Slice>, s: Slice, size: nat)
    ensures SlicePercents(slices + [s], size) ==
      SlicePercents(slices, size) + (if size > 0 then [UploadPercent(s.to, size)] else [0])
    decreases |slices|
  {
    if slices != [] {
      assert (slices + [s])[1..] == slices[1..] + [s];
      SlicePercentsSnoc(slices[1..], s, size);
    }
  }
}
