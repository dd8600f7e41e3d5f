/** Framing of the server-sent event streams that both scan flows read (DeepDive.js:880-885 and
    1062-1068): every network read is split on newlines on its own, and only lines that start with
    "data: " carry a payload. Payloads are opaque, newline-free JSON texts here. */
module Sse {
  import opened Wrappers
  import opened Strings

  const DataPrefix: string := "data: "

  /** Payloads of the lines that carry the "data: " prefix, prefix removed, in order. */
  function Payloads(lines: seq<string>): (r: seq<string>)
    ensures |r| <= |lines|
  {
    if lines == [] then []
    else
      var rest := Payloads(lines[1..]);
      if DataPrefix <= lines[0] then [lines[0][|DataPrefix|..]] + rest else rest
  }

  /** What one read yields in the source: its lines, decoded without anything carried over. */
  function ReadPayloads(read: string): seq<string>
  {
    Payloads(Split(read, '\n'))
  }

  /** The payloads of a whole stream as the source decodes it: each read on its own, in order. */
  function StreamPayloads(chunks: seq<string>): seq<string>
  {
    if chunks == [] then [] else ReadPayloads(chunks[0]) + StreamPayloads(chunks[1..])
  }

  /** One frame as the server writes it (server.py:541, 557, 561, 570, 573, 635, 637, 648, 654): "data: <json>\n\n". */
  function Frame(payload: string): string
  {
    DataPrefix + payload + "\n\n"
  }

  function Frames(payloads: seq<string>): string
  {
    if payloads == [] then [] else Frame(payloads[0]) + Frames(payloads[1..])
  }

  predicate LineFree(payloads: seq<string>)
  {
    forall k :: 0 <= k < |payloads| ==> '\n' !in payloads[k]
  }

  lemma PayloadsAppend(a: seq<string>, b: seq<string>)
    ensures Payloads(a + b) == Payloads(a) + Payloads(b)
  {
    if a == [] {
      assert a + b == b;
    } else {
      assert (a + b)[1..] == a[1..] + b;
      assert (a + b)[0] == a[0];
      PayloadsAppend(a[1..], b);
    }
  }

  lemma {:induction false} StreamPayloadsAppend(a: seq<string>, b: seq<string>)
    ensures StreamPayloads(a + b) == StreamPayloads(a) + StreamPayloads(b)
    decreases |a|
  {
    if a == [] {
      assert a + b == b;
    } else {
      assert (a + b)[0] == a[0] && (a + b)[1..] == a[1..] + b;
      StreamPayloadsAppend(a[1..], b);
    }
  }

  /** Reading one more chunk adds that chunk's payloads at the end. */
  lemma StreamPayloadsSnoc(chunks: seq<string>, i: int)
    requires 0 <= i < |chunks|
    ensures StreamPayloads(chunks[..i + 1]) == StreamPayloads(chunks[..i]) + ReadPayloads(chunks[i])
  {
    assert chunks[..i + 1] == chunks[..i] + [chunks[i]];
    StreamPayloadsAppend(chunks[..i], [chunks[i]]);
    assert StreamPayloads([chunks[i]]) == ReadPayloads(chunks[i]) + StreamPayloads([]);
  }

  /** Reading one more line of a chunk adds that line's payload, if it has one. */
  lemma PayloadsSnoc(lines: seq<string>, j: int)
    requires 0 <= j < |lines|
    ensures Payloads(lines[..j + 1]) ==
      Payloads(lines[..j]) + (if DataPrefix <= lines[j] then [lines[j][|DataPrefix|..]] else [])
  {
    assert lines[..j + 1] == lines[..j] + [lines[j]];
    PayloadsAppend(lines[..j], [lines[j]]);
  }

  /** The reads the source receives can be decoded one by one only because the server's frames
      end in a newline: cutting the stream right after a newline changes nothing. */
  lemma {:induction false} ReadPayloadsAtLineEnd(a: string, b: string)
    requires a == [] || a[|a| - 1] == '\n'
    ensures ReadPayloads(a + b) == ReadPayloads(a) + ReadPayloads(b)
    decreases |a|
  {
    if a == [] {
      assert a + b == b;
      assert ReadPayloads(a) == Payloads([[]]) == [];
    } else {
      var line, more := FirstLine(a);
      assert a + b == line + "\n" + (more + b);
      ReadPayloadsAtLineEnd(more, b);
      ReadPayloadsOfLine(line, more);
      ReadPayloadsOfLine(line, more + b);
    }
  }

  /** Cuts a string that holds a newline at its first newline. */
  lemma FirstLine(a: string) returns (line: string, more: string)
    requires '\n' in a
    ensures '\n' !in line && a == line + "\n" + more
    ensures a[|a| - 1] == '\n' ==> more == [] || more[|more| - 1] == '\n'
  {
    var i := IndexOf(a, '\n');
    line, more := a[..i], a[i + 1..];
    assert a == line + "\n" + more;
  }

  /** A read that starts with a complete line yields that line's payload, then the rest's. */
  lemma ReadPayloadsOfLine(line: string, rest: string)
    requires '\n' !in line
    ensures ReadPayloads(line + "\n" + rest) == Payloads([line]) + ReadPayloads(rest)
  {
    SplitLineEnd(line, '\n', rest);
    PayloadsAppend([line], Split(rest, '\n'));
  }

  /** Round trip: a read that holds whole server frames yields their payloads, in order; the blank
      separator lines are skipped. */
  lemma {:induction false} FramesRoundTrip(payloads: seq<string>)
    requires LineFree(payloads)
    ensures ReadPayloads(Frames(payloads)) == payloads
  {
    if payloads == [] {
      assert ReadPayloads([]) == Payloads([[]]) == [];
    } else {
      var p := payloads[0];
      var line := DataPrefix + p;
      var rest := Frames(payloads[1..]);
      var empty: string := [];
      assert Frames(payloads) == line + "\n" + (empty + "\n" + rest);
      SplitLineEnd(line, '\n', empty + "\n" + rest);
      SplitLineEnd(empty, '\n', rest);
      assert Split(Frames(payloads), '\n') == [line] + ([empty] + Split(rest, '\n'));
      PayloadsAppend([line], [empty] + Split(rest, '\n'));
      PayloadsAppend([empty], Split(rest, '\n'));
      assert line[|DataPrefix|..] == p;
      FramesRoundTrip(payloads[1..]);
    }
  }

  /** The source keeps no carry-over between reads: a frame that the network cuts in two is lost
      (an input that shows it: the reads "da" and "ta: x\n"). */
  lemma SplitLineIsLost()
    ensures StreamPayloads(["da", "ta: x\n"]) == []
    ensures ReadPayloads(Flatten(["da", "ta: x\n"])) == ["x"]
  {
    StreamOfTwo("da", "ta: x\n");
    NoPayload("da", "ta: x\n");
    assert "da" + "ta: x\n" == "data: x\n";
    OnePayload();
  }

  lemma NoPayload(first: string, second: string)
    requires first == "da" && second == "ta: x\n"
    ensures ReadPayloads(first) == [] && ReadPayloads(second) == []
  {
    var empty: string := [];
    SplitOfLine(first, '\n');
    assert Payloads([first]) == [];
    assert second == "ta: x" + "\n" + empty;
    ReadPayloadsOfLine("ta: x", empty);
    assert ReadPayloads(empty) == Payloads([empty]) == [];
  }

  lemma OnePayload()
    ensures ReadPayloads("data: x\n") == ["x"]
  {
    var empty: string := [];
    assert "data: x\n" == "data: x" + "\n" + empty;
    NoNewline("data: x");
    ReadPayloadsOfLine("data: x", empty);
    EmptyRead();
    PayloadOfX();
  }

  lemma NoNewline(line: string)
    requires line == "data: x"
    ensures '\n' !in line
  {
  }

  lemma EmptyRead()
    ensures ReadPayloads([]) == []
  {
    var empty: string := [];
    assert Split(empty, '\n') == [empty];
    assert Payloads([empty]) == [];
  }

  lemma PayloadOfX()
    ensures Payloads(["data: x"]) == ["x"]
  {
    var line := "data: x";
    assert DataPrefix <= line && line[|DataPrefix|..] == "x";
    assert Payloads([line][1..]) == [];
  }

  lemma StreamOfTwo(first: string, second: string)
    ensures StreamPayloads([first, second]) == ReadPayloads(first) + ReadPayloads(second)
    ensures Flatten([first, second]) == first + second
  {
    assert [first, second][1..] == [second];
    assert [second][1..] == [];
    assert Flatten([second]) == second + Flatten([]);
    assert StreamPayloads([second]) == ReadPayloads(second) + StreamPayloads([]);
  }

  /** Line-aligned chunks: when every read but the last ends in a newline, the source's per-read
      decoding is the decoding of the whole stream. */
  lemma {:induction false} AlignedReadsDecodeAsOne(chunks: seq<string>)
    requires forall k :: 0 <= k < |chunks| - 1 ==> chunks[k] != [] && chunks[k][|chunks[k]| - 1] == '\n'
    ensures StreamPayloads(chunks) == ReadPayloads(Flatten(chunks))
  {
    if chunks == [] {
      assert Split([], '\n') == [[]];
    } else if |chunks| == 1 {
      assert chunks[1..] == [];
      assert Flatten(chunks) == chunks[0] + Flatten([]) == chunks[0];
      assert StreamPayloads(chunks) == ReadPayloads(chunks[0]) + [];
    } else {
      AlignedReadsDecodeAsOne(chunks[1..]);
      ReadPayloadsAtLineEnd(chunks[0], Flatten(chunks[1..]));
    }
  }

  // A decoder that carries the unfinished last line of each read over to the next one, so that
  // a line cut between two reads is decoded whole: what the page evidently intends.

  function Init(lines: seq<string>): seq<string>
    requires lines != []
  {
    lines[..|lines| - 1]
  }

  function Last(lines: seq<string>): string
    requires lines != []
  {
    lines[|lines| - 1]
  }

  /** Payloads of the complete lines of carry + chunks, and the unfinished line left at the end. */
  function Buffered(carry: string, chunks: seq<string>): (seq<string>, string)
    decreases |chunks|
  {
    if chunks == [] then ([], carry)
    else
      var lines := Split(carry + chunks[0], '\n');
      var (more, left) := Buffered(Last(lines), chunks[1..]);
      (Payloads(Init(lines)) + more, left)
  }

  /** Buffering makes decoding independent of where the network cuts the stream: the payloads are
      those of the complete lines of the concatenated chunks. */
  lemma {:induction false} BufferedDecodesWholeLines(carry: string, chunks: seq<string>)
    requires '\n' !in carry
    decreases |chunks|
    ensures var lines := Split(carry + Flatten(chunks), '\n');
      Buffered(carry, chunks) == (Payloads(Init(lines)), Last(lines))
  {
    if chunks == [] {
      assert carry + Flatten(chunks) == carry;
      SplitOfLine(carry, '\n');
    } else {
      var x := carry + chunks[0];
      var rest := Flatten(chunks[1..]);
      assert carry + Flatten(chunks) == x + rest;
      var sx := Split(x, '\n');
      SplitJoin(x, '\n');
      BufferedDecodesWholeLines(Last(sx), chunks[1..]);
      CarryStep(x, rest);
    }
  }

  /** Splitting x + rest: the complete lines of x, then the lines of x's last piece + rest. */
  lemma CarryStep(x: string, rest: string)
    ensures var sx := Split(x, '\n');
      var st := Split(Last(sx) + rest, '\n');
      var sxr := Split(x + rest, '\n');
      Payloads(Init(sxr)) == Payloads(Init(sx)) + Payloads(Init(st)) && Last(sxr) == Last(st)
  {
    var sx := Split(x, '\n');
    var st := Split(Last(sx) + rest, '\n');
    CarryLines(x, rest);
    PayloadsAppend(Init(sx), Init(st));
  }

  /** The lines of x + rest: the complete lines of x, then the lines of x's last piece + rest. */
  lemma CarryLines(x: string, rest: string)
    ensures var sx := Split(x, '\n');
      var st := Split(Last(sx) + rest, '\n');
      var sxr := Split(x + rest, '\n');
      && st != [] && sxr != []
      && Init(sxr) == Init(sx) + Init(st) && Last(sxr) == Last(st)
  {
    var sx := Split(x, '\n');
    SplitJoin(x, '\n');
    SplitAppend(x, rest, '\n');
    SplitAppend(Last(sx), rest, '\n');
    SplitOfLine(Last(sx), '\n');
    FuseLast(sx, Split(Last(sx), '\n'), Split(rest, '\n'), Split(Last(sx) + rest, '\n'), Split(x + rest, '\n'));
  }

  /** Sequence bookkeeping for the step above. */
  lemma FuseLast<T>(sx: seq<seq<T>>, sl: seq<seq<T>>, sr: seq<seq<T>>, st: seq<seq<T>>, sxr: seq<seq<T>>)
    requires |sx| >= 1 && |sr| >= 1
    requires sl == [sx[|sx| - 1]]
    requires st == sl[..|sl| - 1] + [sl[|sl| - 1] + sr[0]] + sr[1..]
    requires sxr == sx[..|sx| - 1] + [sx[|sx| - 1] + sr[0]] + sr[1..]
    ensures sxr == sx[..|sx| - 1] + st && |st| >= 1
    ensures sxr[..|sxr| - 1] == sx[..|sx| - 1] + st[..|st| - 1]
    ensures sxr[|sxr| - 1] == st[|st| - 1]
  {
    assert st == [sx[|sx| - 1] + sr[0]] + sr[1..];
  }

  /** Fragmentation invariance: two ways of cutting the same bytes into chunks decode alike. */
  lemma BufferedIsFragmentationInvariant(chunks1: seq<string>, chunks2: seq<string>)
    requires Flatten(chunks1) == Flatten(chunks2)
    ensures Buffered([], chunks1) == Buffered([], chunks2)
  {
    BufferedDecodesWholeLines([], chunks1);
    BufferedDecodesWholeLines([], chunks2);
    assert [] + Flatten(chunks1) == [] + Flatten(chunks2);
  }
}
