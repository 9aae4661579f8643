/**
 * Text operations that the protocol code performs with Python's `str`
 * methods: prefix and substring tests, ASCII case folding, deleting spaces,
 * `join`, `lstrip`, `splitlines` and `split()`.
 */
module Strings {

  import opened Wrappers

  const CRLF: string := "\r\n"

  predicate StartsWith(s: string, p: string) {
    |p| <= |s| && s[..|p|] == p
  }

  /** `p` occurs in `s` starting at index `i`. */
  predicate OccursAt(s: string, p: string, i: nat) {
    i + |p| <= |s| && s[i..i + |p|] == p
  }

  /** Python's `p in s`, as a left-to-right scan. */
  predicate Contains(s: string, p: string)
    decreases |s|
  {
    StartsWith(s, p) || (|s| > 0 && Contains(s[1..], p))
  }

  lemma {:induction false} ContainsIff(s: string, p: string)
    ensures Contains(s, p) <==> exists i: nat :: OccursAt(s, p, i)
    decreases |s|
  {
    if StartsWith(s, p) {
      assert OccursAt(s, p, 0);
    }
    if |s| > 0 {
      ContainsIff(s[1..], p);
      if Contains(s[1..], p) {
        var i: nat :| OccursAt(s[1..], p, i);
        assert s[i + 1..i + 1 + |p|] == s[1..][i..i + |p|];
        assert OccursAt(s, p, i + 1);
      }
      if exists i: nat :: OccursAt(s, p, i) {
        var i: nat :| OccursAt(s, p, i);
        if i > 0 {
          assert s[1..][i - 1..i - 1 + |p|] == s[i..i + |p|];
          assert OccursAt(s[1..], p, i - 1);
        }
      }
    } else {
      if exists i: nat :: OccursAt(s, p, i) {
        var i: nat :| OccursAt(s, p, i);
        assert |p| == 0;
      }
    }
  }

  lemma OccursAtContains(s: string, p: string, i: nat)
    requires OccursAt(s, p, i)
    ensures Contains(s, p)
  {
    ContainsIff(s, p);
  }

  /** Whatever occurs in `s` still occurs once text is put around it. */
  lemma ContainsWithin(a: string, s: string, b: string, p: string)
    requires Contains(s, p)
    ensures Contains(a + s + b, p)
  {
    ContainsIff(s, p);
    var i: nat :| OccursAt(s, p, i);
    assert (a + s + b)[|a| + i..|a| + i + |p|] == s[i..i + |p|];
    OccursAtContains(a + s + b, p, |a| + i);
  }

  lemma ContainsInfix(a: string, p: string, b: string)
    ensures Contains(a + p + b, p)
  {
    assert (a + p + b)[|a|..|a| + |p|] == p;
    OccursAtContains(a + p + b, p, |a|);
  }

  // ---------------------------------------------------------------------
  // ASCII case folding (`str.lower`, and `str.casefold` on ASCII text)

  function LowerChar(c: char): char {
    if 'A' <= c <= 'Z' then (c as int + 32) as char else c
  }

  function Lower(s: string): string {
    seq(|s|, i requires 0 <= i < |s| => LowerChar(s[i]))
  }

  lemma LowerConcat(a: string, b: string)
    ensures Lower(a + b) == Lower(a) + Lower(b)
  {
    assert forall i :: 0 <= i < |a + b| ==> Lower(a + b)[i] == (Lower(a) + Lower(b))[i];
  }

  /** Folding the case of the text folds the case of everything in it. */
  lemma ContainsLower(s: string, p: string)
    requires Contains(s, p)
    ensures Contains(Lower(s), Lower(p))
  {
    ContainsIff(s, p);
    var i: nat :| OccursAt(s, p, i);
    assert Lower(s)[i..i + |p|] == Lower(p) by {
      assert forall k :: 0 <= k < |p| ==> Lower(s)[i..i + |p|][k] == Lower(p)[k] by {
        forall k | 0 <= k < |p| ensures Lower(s)[i..i + |p|][k] == Lower(p)[k] {
          assert s[i..i + |p|][k] == p[k];
        }
      }
    }
    OccursAtContains(Lower(s), Lower(p), i);
  }

  // ---------------------------------------------------------------------
  // `s.replace(" ", "")`

  function RemoveSpaces(s: string): (r: string)
    decreases |s|
  {
    if s == [] then []
    else (if s[0] == ' ' then [] else [s[0]]) + RemoveSpaces(s[1..])
  }

  lemma {:induction false} RemoveSpacesConcat(a: string, b: string)
    ensures RemoveSpaces(a + b) == RemoveSpaces(a) + RemoveSpaces(b)
    decreases |a|
  {
    if a == [] {
      assert a + b == b;
    } else {
      assert (a + b)[1..] == a[1..] + b;
      RemoveSpacesConcat(a[1..], b);
    }
  }

  /** Only spaces are deleted: a text without spaces is kept whole. */
  lemma {:induction false} RemoveSpacesKeepsOthers(s: string)
    requires ' ' !in s
    ensures RemoveSpaces(s) == s
    decreases |s|
  {
    if s != [] {
      assert ' ' !in s[1..] by {
        forall i | 0 <= i < |s[1..]| ensures s[1..][i] != ' ' {
          assert s[1..][i] == s[i + 1];
        }
      }
      RemoveSpacesKeepsOthers(s[1..]);
    }
  }

  /** Every character other than a space survives, in its place between the rest. */
  lemma RemoveSpacesKeepsChar(a: string, c: char, b: string)
    requires c != ' '
    ensures RemoveSpaces(a + [c] + b) == RemoveSpaces(a) + [c] + RemoveSpaces(b)
  {
    RemoveSpacesConcat(a + [c], b);
    RemoveSpacesConcat(a, [c]);
    assert [c][1..] == [];
  }

  lemma {:induction false} RemoveSpacesHasNoSpace(s: string)
    ensures ' ' !in RemoveSpaces(s)
    decreases |s|
  {
    if s != [] {
      RemoveSpacesHasNoSpace(s[1..]);
    }
  }

  // ---------------------------------------------------------------------
  // `sep.join(parts)`

  function Join(sep: string, parts: seq<string>): string
    decreases |parts|
  {
    if |parts| == 0 then ""
    else if |parts| == 1 then parts[0]
    else parts[0] + sep + Join(sep, parts[1..])
  }

  lemma {:induction false} JoinSnoc(sep: string, parts: seq<string>, last: string)
    requires |parts| > 0
    ensures Join(sep, parts + [last]) == Join(sep, parts) + sep + last
    decreases |parts|
  {
    if |parts| == 1 {
      assert (parts + [last])[1..] == [last];
    } else {
      assert (parts + [last])[1..] == parts[1..] + [last];
      JoinSnoc(sep, parts[1..], last);
    }
  }

  /** Every part appears in the joined text. */
  lemma {:induction false} JoinContainsPart(sep: string, parts: seq<string>, k: nat)
    requires k < |parts|
    ensures Contains(Join(sep, parts), parts[k])
    decreases |parts|
  {
    if |parts| == 1 {
      ContainsInfix("", parts[0], "");
      assert "" + parts[0] + "" == parts[0];
    } else if k == 0 {
      ContainsInfix("", parts[0], sep + Join(sep, parts[1..]));
      assert "" + parts[0] + (sep + Join(sep, parts[1..])) == Join(sep, parts);
    } else {
      JoinContainsPart(sep, parts[1..], k - 1);
      ContainsWithin(parts[0] + sep, Join(sep, parts[1..]), "", parts[k]);
      assert parts[0] + sep + Join(sep, parts[1..]) + "" == Join(sep, parts);
    }
  }

  /** A part of a joined text is found in it, whatever follows the join. */
  lemma JoinedContains(sep: string, parts: seq<string>, k: nat, tail: string)
    requires k < |parts|
    ensures Contains(Join(sep, parts) + tail, parts[k])
  {
    JoinContainsPart(sep, parts, k);
    ContainsWithin("", Join(sep, parts), tail, parts[k]);
    assert "" + Join(sep, parts) + tail == Join(sep, parts) + tail;
  }

  /** A joined text starts with its first part. */
  lemma JoinedStartsWith(sep: string, parts: seq<string>, tail: string)
    requires |parts| > 0
    ensures StartsWith(Join(sep, parts) + tail, parts[0])
  {
    if |parts| > 1 {
      assert Join(sep, parts) + tail == parts[0] + (sep + Join(sep, parts[1..]) + tail);
    }
  }

  /** Text without any line boundary, so `splitlines` keeps it as one line. */
  predicate SingleLine(s: string) {
    forall i :: 0 <= i < |s| ==> !IsLineBreak(s[i])
  }

  lemma SingleLineConcat(a: string, b: string)
    requires SingleLine(a) && SingleLine(b)
    ensures SingleLine(a + b)
  {
    forall i | 0 <= i < |a + b| ensures !IsLineBreak((a + b)[i]) {
      if i >= |a| {
        assert (a + b)[i] == b[i - |a|];
      }
    }
  }

  /** Text in which a line feed is never directly followed by a carriage return. */
  predicate NoLfCr(s: string) {
    forall i :: 0 <= i < |s| - 1 ==> !(s[i] == '\n' && s[i + 1] == '\r')
  }

  /**
   * Non-empty lines without line boundaries, joined by CRLF, give text
   * that starts and ends with a character of the first and the last line and
   * has no empty line inside.
   */
  lemma {:induction false} JoinLinesShape(lines: seq<string>)
    requires |lines| > 0
    requires forall k :: 0 <= k < |lines| ==> |lines[k]| > 0 && SingleLine(lines[k])
    ensures var j := Join(CRLF, lines);
      |j| > 0 && j[0] == lines[0][0] && j[|j| - 1] == lines[|lines| - 1][|lines[|lines| - 1]| - 1]
      && NoLfCr(j)
    decreases |lines|
  {
    if |lines| > 1 {
      var rest := Join(CRLF, lines[1..]);
      JoinLinesShape(lines[1..]);
      var j := lines[0] + CRLF + rest;
      assert j == Join(CRLF, lines);
      var n := |lines[0]|;
      assert j[n] == '\r' && j[n + 1] == '\n';
      forall i | 0 <= i < |j| - 1
        ensures !(j[i] == '\n' && j[i + 1] == '\r')
      {
        if i < n {
          assert j[i] == lines[0][i];
        } else if i == n + 1 {
          assert j[i + 1] == rest[0];
        } else if i > n + 1 {
          assert j[i] == rest[i - n - 2] && j[i + 1] == rest[i - n - 1];
        }
      }
    }
  }

  // ---------------------------------------------------------------------
  // `s.lstrip(chars)`: drop every leading character that is in `chars`

  function LStrip(s: string, chars: string): string
    decreases |s|
  {
    if s != [] && s[0] in chars then LStrip(s[1..], chars) else s
  }

  /**
   * `lstrip` keeps a suffix: what it drops are characters of `chars`, and
   * what it keeps is empty or starts with a character outside `chars`.
   */
  lemma {:induction false} LStripStrips(s: string, chars: string)
    ensures var r := LStrip(s, chars);
      |r| <= |s| && r == s[|s| - |r|..]
      && (forall i :: 0 <= i < |s| - |r| ==> s[i] in chars)
      && (r == [] || r[0] !in chars)
    decreases |s|
  {
    if s != [] && s[0] in chars {
      LStripStrips(s[1..], chars);
      var r := LStrip(s, chars);
      assert s[1..][|s[1..]| - |r|..] == s[|s| - |r|..];
      forall i | 0 <= i < |s| - |r| ensures s[i] in chars {
        if i > 0 { assert s[i] == s[1..][i - 1]; }
      }
    }
  }

  // ---------------------------------------------------------------------
  // Python's notion of whitespace (`str.isspace`, used by `split()`) and of a
  // line boundary (used by `splitlines()`), both written out by code point.

  predicate IsSpace(c: char) {
    var n := c as int;
    (9 <= n <= 13) || (28 <= n <= 32) || n == 0x85 || n == 0xA0 || n == 0x1680
    || (0x2000 <= n <= 0x200A) || n == 0x2028 || n == 0x2029 || n == 0x202F
    || n == 0x205F || n == 0x3000
  }

  predicate IsLineBreak(c: char) {
    var n := c as int;
    (10 <= n <= 13) || (28 <= n <= 30) || n == 0x85 || n == 0x2028 || n == 0x2029
  }

  /** The index of the first line boundary in `s`, or `|s|` if there is none. */
  function LineEnd(s: string): (i: nat)
    ensures i <= |s|
    ensures i < |s| ==> IsLineBreak(s[i])
    ensures forall j :: 0 <= j < i ==> !IsLineBreak(s[j])
    decreases |s|
  {
    if s == [] || IsLineBreak(s[0]) then 0 else 1 + LineEnd(s[1..])
  }

  /** `s.splitlines()`: a CR directly followed by LF ends one line, not two. */
  function SplitLines(s: string): seq<string>
    decreases |s|
  {
    if s == [] then []
    else
      var i := LineEnd(s);
      if i == |s| then [s]
      else
        var next := if s[i] == '\r' && i + 1 < |s| && s[i + 1] == '\n' then i + 2 else i + 1;
        [s[..i]] + SplitLines(s[next..])
  }

  lemma {:induction false} SplitLinesHaveNoBreak(s: string)
    ensures forall k, j :: 0 <= k < |SplitLines(s)| && 0 <= j < |SplitLines(s)[k]| ==>
      !IsLineBreak(SplitLines(s)[k][j])
    decreases |s|
  {
    if s != [] {
      var i := LineEnd(s);
      if i < |s| {
        var next := if s[i] == '\r' && i + 1 < |s| && s[i + 1] == '\n' then i + 2 else i + 1;
        SplitLinesHaveNoBreak(s[next..]);
      }
    }
  }

  /** Splitting CRLF-joined lines gives the lines back (the last must not be empty). */
  lemma {:induction false} SplitLinesJoin(lines: seq<string>)
    requires |lines| > 0 && |lines[|lines| - 1]| > 0
    requires forall k :: 0 <= k < |lines| ==> SingleLine(lines[k])
    ensures SplitLines(Join(CRLF, lines)) == lines
    decreases |lines|
  {
    var l0 := lines[0];
    if |lines| == 1 {
      assert LineEnd(l0) == |l0|;
    } else {
      var rest := Join(CRLF, lines[1..]);
      var s := l0 + CRLF + rest;
      assert s == Join(CRLF, lines);
      assert s[|l0|] == '\r' && s[|l0| + 1] == '\n';
      assert forall j :: 0 <= j < |l0| ==> s[j] == l0[j];
      assert LineEnd(s) == |l0|;
      assert s[..|l0|] == l0 && s[|l0| + 2..] == rest;
      SplitLinesJoin(lines[1..]);
      assert lines == [l0] + lines[1..];
    }
  }

  /** The first of `lines` that starts with `prefix` (Python's `next(...)`). */
  function FirstWithPrefix(lines: seq<string>, prefix: string): (r: Option<string>)
    ensures r.Some? ==> exists k :: (0 <= k < |lines| && lines[k] == r.value && StartsWith(lines[k], prefix)
      && forall j :: 0 <= j < k ==> !StartsWith(lines[j], prefix))
    ensures r.None? ==> forall k :: 0 <= k < |lines| ==> !StartsWith(lines[k], prefix)
    decreases |lines|
  {
    if lines == [] then None
    else if StartsWith(lines[0], prefix) then Some(lines[0])
    else
      var r := FirstWithPrefix(lines[1..], prefix);
      assert r.Some? ==> exists k :: (0 <= k < |lines| && lines[k] == r.value && StartsWith(lines[k], prefix)
        && forall j :: 0 <= j < k ==> !StartsWith(lines[j], prefix)) by {
        if r.Some? {
          var k :| 0 <= k < |lines[1..]| && lines[1..][k] == r.value && StartsWith(lines[1..][k], prefix)
            && forall j :: 0 <= j < k ==> !StartsWith(lines[1..][j], prefix);
          assert lines[k + 1] == r.value;
          assert forall j :: 0 <= j < k + 1 ==> !StartsWith(lines[j], prefix) by {
            forall j | 0 <= j < k + 1 ensures !StartsWith(lines[j], prefix) {
              if j > 0 { assert lines[j] == lines[1..][j - 1]; }
            }
          }
        }
      }
      r
  }

  /** Trailing whitespace removed. */
  function TrimEnd(s: string): (r: string)
    decreases |s|
  {
    if s != [] && IsSpace(s[|s| - 1]) then TrimEnd(s[..|s| - 1]) else s
  }

  /** The longest suffix of `s` that holds no whitespace. */
  function TrailingWord(s: string): (r: string)
    decreases |s|
  {
    if s != [] && !IsSpace(s[|s| - 1]) then TrailingWord(s[..|s| - 1]) + [s[|s| - 1]] else []
  }

  /** `line.split()[-1]`: the last whitespace-separated token of `line`. */
  function LastToken(line: string): string {
    TrailingWord(TrimEnd(line))
  }

  predicate NoSpace(t: string) {
    forall i :: 0 <= i < |t| ==> !IsSpace(t[i])
  }

  /** A word that follows whitespace (or starts the text) is the trailing word. */
  lemma {:induction false} TrailingWordAfterSpace(a: string, t: string)
    requires a == [] || IsSpace(a[|a| - 1])
    requires NoSpace(t)
    ensures TrailingWord(a + t) == t
    decreases |t|
  {
    if t == [] {
      assert a + t == a;
    } else {
      var s := a + t;
      assert s[..|s| - 1] == a + t[..|t| - 1];
      TrailingWordAfterSpace(a, t[..|t| - 1]);
      assert t == t[..|t| - 1] + [t[|t| - 1]];
    }
  }

  /** `split()[-1]` of `head + " " + t` is `t` when `t` is one non-empty token. */
  lemma LastTokenAfterSpace(head: string, t: string)
    requires |t| > 0 && NoSpace(t)
    ensures LastToken(head + " " + t) == t
  {
    var s := head + " " + t;
    assert !IsSpace(s[|s| - 1]);
    assert TrimEnd(s) == s;
    assert s == (head + " ") + t;
    TrailingWordAfterSpace(head + " ", t);
  }

  // ---------------------------------------------------------------------
  // `s.replace(c, "", 1)`

  function IndexOf(s: string, c: char): (i: nat)
    ensures i <= |s|
    ensures i < |s| ==> s[i] == c
    ensures forall j :: 0 <= j < i ==> s[j] != c
    decreases |s|
  {
    if s == [] || s[0] == c then 0 else 1 + IndexOf(s[1..], c)
  }

  function RemoveFirst(s: string, c: char): string {
    var i := IndexOf(s, c);
    if i < |s| then s[..i] + s[i + 1..] else s
  }
}
