/** The few string operations of JavaScript and Python that the dashboard and its server rely on,
    over strings as sequences of characters. */
module Strings {

  /** Number of occurrences of character c in s. */
  function Count(s: string, c: char): nat
  {
    if s == [] then 0 else (if s[0] == c then 1 else 0) + Count(s[1..], c)
  }

  /** Glues pieces back together with sep between consecutive pieces. */
  function Join(pieces: seq<string>, sep: char): string
  {
    if |pieces| <= 1 then (if pieces == [] then [] else pieces[0])
    else pieces[0] + [sep] + Join(pieces[1..], sep)
  }

  /** JavaScript's s.split(sep) for a one-character separator: the maximal separator-free pieces,
      so that a trailing separator yields a trailing empty piece and "" yields [""]. */
  function Split(s: string, sep: char): (r: seq<string>)
    ensures |r| >= 1
  {
    if s == [] then [[]]
    else
      var rest := Split(s[1..], sep);
      if s[0] == sep then [[]] + rest
      else [[s[0]] + rest[0]] + rest[1..]
  }

  /** Split has one more piece than there are separators, no piece holds a separator, and joining
      the pieces with the separator gives the string back. */
  lemma {:induction false} SplitJoin(s: string, sep: char)
    ensures var r := Split(s, sep);
      && |r| == Count(s, sep) + 1
      && (forall k :: 0 <= k < |r| ==> sep !in r[k])
      && Join(r, sep) == s
  {
    if s != [] {
      SplitJoin(s[1..], sep);
      var rest := Split(s[1..], sep);
      assert s == [s[0]] + s[1..];
      if s[0] == sep {
        assert Split(s, sep) == [[]] + rest;
        assert Join([[]] + rest, sep) == [] + [sep] + Join(rest, sep);
      } else {
        var r := Split(s, sep);
        assert r == [[s[0]] + rest[0]] + rest[1..];
        if |rest| > 1 {
          assert Join(rest, sep) == rest[0] + [sep] + Join(rest[1..], sep);
        }
      }
    }
  }

  lemma SplitHeadSep(a: string, sep: char)
    requires a != [] && a[0] == sep
    ensures Split(a, sep) == [[]] + Split(a[1..], sep)
  {
  }
  lemma SplitHeadChar(a: string, sep: char)
    requires a != [] && a[0] != sep
    ensures var st := Split(a[1..], sep); Split(a, sep) == [[a[0]] + st[0]] + st[1..]
  {
  }
  // Bookkeeping of the two cases of SplitAppend, stated on plain sequences of sequences.

  lemma ShapeSep<T>(st: seq<seq<T>>, stb: seq<seq<T>>, sb: seq<seq<T>>, sab: seq<seq<T>>, sa: seq<seq<T>>)
    requires |st| >= 1 && |sb| >= 1
    requires stb == st[..|st| - 1] + [st[|st| - 1] + sb[0]] + sb[1..]
    requires sa == [[]] + st
    requires sab == [[]] + stb
    ensures sab == sa[..|sa| - 1] + [sa[|sa| - 1] + sb[0]] + sb[1..]
  {
    assert sa[..|sa| - 1] == [[]] + st[..|st| - 1];
  }
  lemma ShapeChar<T>(c: T, st: seq<seq<T>>, stb: seq<seq<T>>, sb: seq<seq<T>>, sab: seq<seq<T>>, sa: seq<seq<T>>)
    requires |st| >= 1 && |sb| >= 1
    requires stb == st[..|st| - 1] + [st[|st| - 1] + sb[0]] + sb[1..]
    requires sa == [[c] + st[0]] + st[1..]
    requires sab == [[c] + stb[0]] + stb[1..]
    ensures sab == sa[..|sa| - 1] + [sa[|sa| - 1] + sb[0]] + sb[1..]
  {
    if |st| == 1 {
      assert stb[0] == st[0] + sb[0] && stb[1..] == sb[1..];
      assert [c] + stb[0] == sa[0] + sb[0];
    } else {
      assert stb[0] == st[0];
      assert stb[1..] == st[1..|st| - 1] + [st[|st| - 1] + sb[0]] + sb[1..];
      assert sa[..|sa| - 1] == [[c] + st[0]] + st[1..|st| - 1];
    }
  }
  /** Splitting a concatenation: the last piece of a and the first piece of b fuse into one. */
  lemma {:induction false} SplitAppend(a: string, b: string, sep: char)
    ensures var sa, sb := Split(a, sep), Split(b, sep);
      Split(a + b, sep) == sa[..|sa| - 1] + [sa[|sa| - 1] + sb[0]] + sb[1..]
  {
    var sb := Split(b, sep);
    if a == [] {
      var e: string := [];
      assert a + b == b && e + sb[0] == sb[0];
      assert sb == [e + sb[0]] + sb[1..];
    } else {
      var tail := a[1..];
      assert (a + b)[1..] == tail + b;
      assert (a + b)[0] == a[0];
      SplitAppend(tail, b, sep);
      if a[0] == sep {
        SplitHeadSep(a, sep);
        SplitHeadSep(a + b, sep);
        ShapeSep(Split(tail, sep), Split(tail + b, sep), sb, Split(a + b, sep), Split(a, sep));
      } else {
        SplitHeadChar(a, sep);
        SplitHeadChar(a + b, sep);
        ShapeChar(a[0], Split(tail, sep), Split(tail + b, sep), sb, Split(a + b, sep), Split(a, sep));
      }
    }
  }

  /** A separator-free string is a single piece. */
  lemma SplitOfLine(line: string, sep: char)
    requires sep !in line
    ensures Split(line, sep) == [line]
  {
    if line != [] {
      SplitOfLine(line[1..], sep);
      assert line == [line[0]] + line[1..];
    }
  }

  /** A separator-free line followed by the separator splits off as the first piece. */
  lemma {:induction false} SplitLineEnd(line: string, sep: char, rest: string)
    requires sep !in line
    ensures Split(line + [sep] + rest, sep) == [line] + Split(rest, sep)
  {
    if line == [] {
      assert line + [sep] + rest == [sep] + rest;
      SplitHeadSep([sep] + rest, sep);
      assert ([sep] + rest)[1..] == rest;
    } else {
      var s := line + [sep] + rest;
      assert s[1..] == line[1..] + [sep] + rest;
      SplitLineEnd(line[1..], sep, rest);
      SplitHeadChar(s, sep);
      assert [line[0]] + line[1..] == line;
    }
  }

  /** A string that ends in a separator leaves an empty last piece. */
  lemma SplitEndingInSep(a: string, sep: char)
    requires a != [] && a[|a| - 1] == sep
    ensures var sa := Split(a, sep); sa[|sa| - 1] == []
  {
    var init := a[..|a| - 1];
    assert a == init + [sep];
    SplitAppend(init, [sep], sep);
  }

  /** Index of the first c in s, or -1 (JavaScript indexOf, Python str.find). */
  function IndexOf(s: string, c: char): (r: int)
    ensures -1 <= r < |s|
    ensures r == -1 <==> c !in s
    ensures 0 <= r ==> s[r] == c && c !in s[..r]
  {
    if s == [] then -1
    else if s[0] == c then 0
    else
      var k := IndexOf(s[1..], c);
      if k < 0 then -1
      else
        assert s[..k + 1] == [s[0]] + s[1..][..k];
        k + 1
  }

  /** Index of the last c in s, or -1 (Python str.rfind). */
  function LastIndexOf(s: string, c: char): (r: int)
    ensures -1 <= r < |s|
    ensures r == -1 <==> c !in s
    ensures 0 <= r ==> s[r] == c && c !in s[r + 1..]
  {
    if s == [] then -1
    else if s[|s| - 1] == c then |s| - 1
    else
      var k := LastIndexOf(s[..|s| - 1], c);
      assert s[..|s| - 1][k + 1..] == s[k + 1..|s| - 1];
      assert s == s[..|s| - 1] + [s[|s| - 1]];
      k
  }

  /** Python's `sub in s` for strings: sub occurs as a contiguous piece of s. */
  predicate Contains(s: string, sub: string)
    decreases |s|
  {
    sub <= s || (s != [] && Contains(s[1..], sub))
  }

  function AsciiLowerChar(c: char): char
  {
    if 'A' <= c <= 'Z' then (c as int + 32) as char else c
  }

  /** Lower-casing, restricted to the ASCII letters (Python str.lower, JavaScript toLowerCase). */
  function AsciiLower(s: string): (r: string)
    ensures |r| == |s|
    ensures forall k :: 0 <= k < |s| ==> r[k] == AsciiLowerChar(s[k])
  {
    if s == [] then [] else [AsciiLowerChar(s[0])] + AsciiLower(s[1..])
  }

  /** Python's s.replace(pat, ""): every occurrence of pat removed, scanning left to right
      without overlap. */
  function RemoveAll(s: string, pat: string): (r: string)
    requires pat != []
    ensures |r| <= |s|
    ensures !Contains(s, pat) ==> r == s
    decreases |s|
  {
    if pat <= s then RemoveAll(s[|pat|..], pat)
    else if s == [] then []
    else [s[0]] + RemoveAll(s[1..], pat)
  }

  /** A leading occurrence is removed and, with no other occurrence, the rest is kept as is. */
  lemma RemoveAllPrefix(pat: string, rest: string)
    requires pat != [] && !Contains(rest, pat)
    ensures RemoveAll(pat + rest, pat) == rest
  {
    assert pat <= pat + rest;
    assert (pat + rest)[|pat|..] == rest;
  }

  /** The characters JavaScript's String.prototype.trim removes that this model recognises. */
  predicate IsSpace(c: char)
  {
    c == ' ' || c == '\t' || c == '\n' || c == '\r' || c == '\U{000B}' || c == '\U{000C}'
    || c == '\U{00A0}' || c == '\U{FEFF}' || c == '\U{2028}' || c == '\U{2029}'
  }

  /** `!s.trim()`: the string is empty once surrounding white space is removed. */
  predicate IsBlank(s: string)
  {
    forall k :: 0 <= k < |s| ==> IsSpace(s[k])
  }

  /** String.prototype.trimStart: leading white space removed. */
  function TrimStart(s: string): (r: string)
    ensures |r| <= |s|
  {
    if s != [] && IsSpace(s[0]) then TrimStart(s[1..]) else s
  }

  /** TrimStart removes exactly the leading white space: what remains is a suffix that is empty or
      starts with a character that is not white space. */
  lemma {:induction false} TrimStartRemovesLeadingSpace(s: string)
    ensures var r := TrimStart(s);
      && r == s[|s| - |r|..]
      && (r == [] || !IsSpace(r[0]))
      && (forall k :: 0 <= k < |s| - |r| ==> IsSpace(s[k]))
  {
    if s != [] && IsSpace(s[0]) {
      TrimStartRemovesLeadingSpace(s[1..]);
    }
  }

  /** String.prototype.trimEnd: trailing white space removed. */
  function TrimEnd(s: string): (r: string)
    ensures |r| <= |s|
  {
    if s != [] && IsSpace(s[|s| - 1]) then TrimEnd(s[..|s| - 1]) else s
  }

  /** TrimEnd removes exactly the trailing white space. */
  lemma {:induction false} TrimEndRemovesTrailingSpace(s: string)
    ensures var r := TrimEnd(s);
      && r == s[..|r|]
      && (r == [] || !IsSpace(r[|r| - 1]))
      && (forall k :: |r| <= k < |s| ==> IsSpace(s[k]))
  {
    if s != [] && IsSpace(s[|s| - 1]) {
      TrimEndRemovesTrailingSpace(s[..|s| - 1]);
    }
  }

  /** String.prototype.trim. */
  function Trim(s: string): string
  {
    TrimEnd(TrimStart(s))
  }

  /** Trimming leaves nothing exactly when the string is blank, so `!s.trim()` is IsBlank(s). */
  lemma TrimIsEmptyIffBlank(s: string)
    ensures Trim(s) == [] <==> IsBlank(s)
  {
    var t := TrimStart(s);
    TrimStartRemovesLeadingSpace(s);
    TrimEndRemovesTrailingSpace(t);
    if Trim(s) == [] {
      assert t == [];
    } else {
      assert t != [] && !IsSpace(t[0]);
      assert s[|s| - |t|] == t[0];
    }
  }

  /** String.prototype.endsWith. */
  predicate EndsWith(s: string, suffix: string)
  {
    |suffix| <= |s| && s[|s| - |suffix|..] == suffix
  }
}
