/**
 * The Python string primitives the system relies on, with their CPython meaning:
 * `str.isspace` / regex `\s`, `strip`, whitespace `split()`, `split(sep)`, `join`,
 * `replace`, `find`, `in`, `lower` (ASCII), slicing with clamped and negative bounds,
 * and `str(int)`.
 */
module Strings {
  import opened Wrappers

  /** `str.isspace()` and the regex class `\s` on str patterns (both use Py_UNICODE_ISSPACE). */
  predicate IsSpace(c: char) {
    c == ' ' || c == '\t' || c == '\n' || c == '\r' || c == '\U{B}' || c == '\U{C}'
    || ('\U{1C}' <= c <= '\U{1F}') || c == '\U{85}' || c == '\U{A0}' || c == '\U{1680}'
    || ('\U{2000}' <= c <= '\U{200A}') || c == '\U{2028}' || c == '\U{2029}'
    || c == '\U{202F}' || c == '\U{205F}' || c == '\U{3000}'
  }

  predicate NoSpace(w: string) {
    forall i :: 0 <= i < |w| ==> !IsSpace(w[i])
  }

  predicate IsAsciiDigit(c: char) { '0' <= c <= '9' }
  predicate IsAsciiUpper(c: char) { 'A' <= c <= 'Z' }
  predicate IsAsciiLower(c: char) { 'a' <= c <= 'z' }
  predicate IsAsciiLetter(c: char) { IsAsciiUpper(c) || IsAsciiLower(c) }
  predicate IsHexDigit(c: char) { IsAsciiDigit(c) || 'a' <= c <= 'f' || 'A' <= c <= 'F' }

  /**
   * Whether a non-ASCII character is alphanumeric for `str.isalnum` and regex `\w`;
   * this comes from the Unicode character database and is left uninterpreted
   * (no whitespace character is alphanumeric there, which `IsAlnum` keeps).
   */
  const UnicodeAlnum: char -> bool

  /** `str.isalnum()` on one character. */
  predicate IsAlnum(c: char) {
    IsAsciiLetter(c) || IsAsciiDigit(c) || (c as int > 127 && !IsSpace(c) && UnicodeAlnum(c))
  }

  /** The regex class `\w` on str patterns. */
  predicate IsWordChar(c: char) {
    IsAlnum(c) || c == '_'
  }

  /** `str.lower()` restricted to ASCII letters. */
  function LowerChar(c: char): (r: char)
    ensures !IsAsciiUpper(r)
    ensures IsAsciiUpper(c) ==> r as int == c as int + 32 && IsAsciiLower(r)
    ensures !IsAsciiUpper(c) ==> r == c
  {
    if IsAsciiUpper(c) then (c as int + 32) as char else c
  }

  function Lower(s: string): (r: string)
    ensures |r| == |s|
    ensures forall i :: 0 <= i < |s| ==> r[i] == LowerChar(s[i])
  {
    if |s| == 0 then "" else [LowerChar(s[0])] + Lower(s[1..])
  }

  /** Lower-casing twice is lower-casing once. */
  lemma {:induction false} LowerIdempotent(s: string)
    ensures Lower(Lower(s)) == Lower(s)
  {
    if |s| > 0 {
      LowerIdempotent(s[1..]);
      assert Lower(s)[1..] == Lower(s[1..]);
    }
  }

  predicate StartsWith(s: string, p: string) {
    |p| <= |s| && s[..|p|] == p
  }

  predicate EndsWith(s: string, p: string) {
    |p| <= |s| && s[|s| - |p|..] == p
  }

  /** `p` occurs in `s` at index `j`. */
  predicate OccursAt(s: string, p: string, j: nat) {
    j + |p| <= |s| && s[j..j + |p|] == p
  }

  /** `p` occurs nowhere in `s`. */
  ghost predicate Absent(s: string, p: string) {
    forall j: nat :: !OccursAt(s, p, j)
  }

  /** `p` occurs in `s` at `i` and at no earlier index. */
  ghost predicate FirstAt(s: string, p: string, i: nat) {
    OccursAt(s, p, i) && forall j: nat :: j < i ==> !OccursAt(s, p, j)
  }

  /** `s.find(p)`: the first index at which `p` occurs, searching from `from`. */
  function IndexOfFrom(s: string, p: string, from: nat): (r: Option<nat>)
    ensures r.Some? ==> from <= r.value && OccursAt(s, p, r.value)
    ensures r.Some? ==> forall j :: from <= j < r.value ==> !OccursAt(s, p, j)
    ensures r.None? ==> forall j :: from <= j ==> !OccursAt(s, p, j)
    decreases |s| - from
  {
    if from + |p| > |s| then None
    else if s[from..from + |p|] == p then Some(from)
    else IndexOfFrom(s, p, from + 1)
  }

  function IndexOf(s: string, p: string): Option<nat> {
    IndexOfFrom(s, p, 0)
  }

  /** Python's substring test `p in s`. */
  predicate Contains(s: string, p: string) {
    IndexOf(s, p).Some?
  }

  /** `s.replace(pat, rep, 1)`. */
  function ReplaceFirst(s: string, pat: string, rep: string): string {
    match IndexOf(s, pat)
    case None => s
    case Some(i) => s[..i] + rep + s[i + |pat|..]
  }

  /** `s.replace(c, rep)` for a one-character pattern. */
  function ReplaceChar(s: string, c: char, rep: string): string {
    if |s| == 0 then "" else (if s[0] == c then rep else [s[0]]) + ReplaceChar(s[1..], c, rep)
  }

  /**
   * After `s.replace(c, rep)` no `c` remains unless `rep` brings one, every character comes
   * from `s` or `rep`, a string without `c` is unchanged, and a one-character `rep` keeps the length.
   */
  lemma {:induction false} ReplaceCharProps(s: string, c: char, rep: string)
    ensures c !in rep ==> c !in ReplaceChar(s, c, rep)
    ensures forall x :: x in ReplaceChar(s, c, rep) ==> x in s || x in rep
    ensures c !in s ==> ReplaceChar(s, c, rep) == s
    ensures |rep| == 1 ==> |ReplaceChar(s, c, rep)| == |s|
  {
    if |s| > 0 {
      ReplaceCharProps(s[1..], c, rep);
      assert s == [s[0]] + s[1..];
    }
  }

  lemma {:induction false} ReplaceCharAbsent(s: string, c: char, rep: string)
    requires c !in s
    ensures ReplaceChar(s, c, rep) == s
  {
    if |s| > 0 {
      ReplaceCharAbsent(s[1..], c, rep);
      assert s == [s[0]] + s[1..];
    }
  }

  lemma ReplaceCharSingle(c: char, x: char, rep: string)
    ensures ReplaceChar([c], x, rep) == if c == x then rep else [c]
  {
    assert [c][1..] == "";
  }

  /** A chain of one-character replacements, applied in list order. */
  function ReplaceAll(s: string, pairs: seq<(char, string)>): string
    decreases |pairs|
  {
    if |pairs| == 0 then s else ReplaceAll(ReplaceChar(s, pairs[0].0, pairs[0].1), pairs[1..])
  }

  lemma {:induction false} ReplaceAllAppend(a: string, b: string, pairs: seq<(char, string)>)
    ensures ReplaceAll(a + b, pairs) == ReplaceAll(a, pairs) + ReplaceAll(b, pairs)
    decreases |pairs|
  {
    if |pairs| > 0 {
      ReplaceCharAppend(a, b, pairs[0].0, pairs[0].1);
      ReplaceAllAppend(ReplaceChar(a, pairs[0].0, pairs[0].1), ReplaceChar(b, pairs[0].0, pairs[0].1), pairs[1..]);
    }
  }

  /** A string holding none of the replaced characters passes through the chain unchanged. */
  lemma {:induction false} ReplaceAllAbsent(s: string, pairs: seq<(char, string)>)
    requires forall k :: 0 <= k < |pairs| ==> pairs[k].0 !in s
    ensures ReplaceAll(s, pairs) == s
    decreases |pairs|
  {
    if |pairs| > 0 {
      ReplaceCharAbsent(s, pairs[0].0, pairs[0].1);
      ReplaceAllAbsent(s, pairs[1..]);
    }
  }

  lemma {:induction false} ReplaceCharAppend(a: string, b: string, c: char, rep: string)
    ensures ReplaceChar(a + b, c, rep) == ReplaceChar(a, c, rep) + ReplaceChar(b, c, rep)
  {
    if |a| > 0 {
      assert (a + b)[1..] == a[1..] + b;
      ReplaceCharAppend(a[1..], b, c, rep);
    } else {
      assert a + b == b;
    }
  }

  /** `str.lstrip()`. */
  function LStrip(s: string): (r: string)
    ensures |r| <= |s| && r == s[|s| - |r|..]
    ensures |r| > 0 ==> !IsSpace(r[0])
    ensures forall i :: 0 <= i < |s| - |r| ==> IsSpace(s[i])
  {
    if |s| > 0 && IsSpace(s[0]) then LStrip(s[1..]) else s
  }

  /** `str.rstrip()`. */
  function RStrip(s: string): (r: string)
    ensures |r| <= |s| && r == s[..|r|]
    ensures |r| > 0 ==> !IsSpace(r[|r| - 1])
    ensures forall i :: |r| <= i < |s| ==> IsSpace(s[i])
  {
    if |s| > 0 && IsSpace(s[|s| - 1]) then RStrip(s[..|s| - 1]) else s
  }

  /** `r` is the slice of `s` that starts at index `a`. */
  predicate SliceAt(s: string, r: string, a: nat) {
    a + |r| <= |s| && s[a..a + |r|] == r
  }

  /** `str.strip()`: whitespace removed from both ends. */
  function Strip(s: string): (r: string)
    ensures |r| <= |s|
    ensures |r| > 0 ==> !IsSpace(r[0]) && !IsSpace(r[|r| - 1])
  {
    RStrip(LStrip(s))
  }

  /**
   * The stripped string is the slice of the original starting at `a`, with only
   * whitespace outside it, and it is empty exactly when the original is all whitespace.
   */
  lemma StripIsSlice(s: string) returns (a: nat)
    ensures SliceAt(s, Strip(s), a)
    ensures forall i :: 0 <= i < a ==> IsSpace(s[i])
    ensures forall i :: a + |Strip(s)| <= i < |s| ==> IsSpace(s[i])
    ensures Strip(s) == [] <==> forall i :: 0 <= i < |s| ==> IsSpace(s[i])
  {
    var l := LStrip(s);
    var r := RStrip(l);
    assert r == Strip(s);
    a := |s| - |l|;
    assert l == s[a..];
    assert r == l[..|r|];
    assert SliceAt(s, r, a);
    forall i | a + |r| <= i < |s| ensures IsSpace(s[i]) {
      assert s[i] == l[i - a];
    }
    if |r| > 0 {
      assert s[a] == r[0] && !IsSpace(s[a]);
    } else {
      assert a == |s|;
    }
  }

  lemma StripOfStripped(s: string)
    requires |s| > 0 ==> !IsSpace(s[0]) && !IsSpace(s[|s| - 1])
    ensures Strip(s) == s
  {
  }

  /** A stripped piece keeps out what the piece kept out, and stripping it again changes nothing. */
  lemma StrippedPiece(p: string, c: char)
    requires c !in p
    ensures c !in Strip(p) && Strip(Strip(p)) == Strip(p)
  {
    var a := StripIsSlice(p);
    assert Strip(p) == p[a..a + |Strip(p)|];
    StripOfStripped(Strip(p));
  }

  predicate AllSpace(w: string) {
    forall i :: 0 <= i < |w| ==> IsSpace(w[i])
  }

  lemma {:induction false} LStripAppend(s: string, w: string)
    ensures LStrip(s + w) == if AllSpace(s) then LStrip(w) else LStrip(s) + w
    decreases |s|
  {
    if |s| == 0 {
      assert s + w == w;
    } else {
      assert (s + w)[0] == s[0];
      assert (s + w)[1..] == s[1..] + w;
      LStripAppend(s[1..], w);
      AllSpaceCons(s);
      if IsSpace(s[0]) {
        assert LStrip(s + w) == LStrip(s[1..] + w);
        assert LStrip(s) == LStrip(s[1..]);
      } else {
        assert LStrip(s + w) == s + w;
        assert LStrip(s) == s;
      }
    }
  }

  lemma AllSpaceCons(s: string)
    requires |s| > 0
    ensures AllSpace(s) <==> IsSpace(s[0]) && AllSpace(s[1..])
  {
    if IsSpace(s[0]) && AllSpace(s[1..]) {
      forall i | 0 <= i < |s| ensures IsSpace(s[i]) {
        if i > 0 { assert s[i] == s[1..][i - 1]; }
      }
    }
  }

  lemma {:induction false} RStripAppendSpaces(s: string, w: string)
    requires AllSpace(w)
    ensures RStrip(s + w) == RStrip(s)
    decreases |w|
  {
    if |w| == 0 {
      assert s + w == s;
    } else {
      var sw := s + w;
      assert sw[..|sw| - 1] == s + w[..|w| - 1];
      RStripAppendSpaces(s, w[..|w| - 1]);
    }
  }

  lemma {:induction false} LStripPrependSpaces(w: string, s: string)
    requires AllSpace(w)
    ensures LStrip(w + s) == LStrip(s)
    decreases |w|
  {
    if |w| > 0 {
      assert (w + s)[1..] == w[1..] + s;
      LStripPrependSpaces(w[1..], s);
    } else {
      assert w + s == s;
    }
  }

  /** Whitespace added at either end is removed again by `strip`. */
  lemma StripSurroundingSpaces(w1: string, s: string, w2: string)
    requires AllSpace(w1) && AllSpace(w2)
    ensures Strip(w1 + s + w2) == Strip(s)
  {
    assert w1 + s + w2 == w1 + (s + w2);
    LStripPrependSpaces(w1, s + w2);
    LStripAppend(s, w2);
    if AllSpace(s) {
      assert AllSpace(LStrip(w2));
    } else {
      RStripAppendSpaces(LStrip(s), w2);
    }
  }

  /** `sep.join(parts)`. */
  function Join(parts: seq<string>, sep: string): string {
    if |parts| == 0 then "" else if |parts| == 1 then parts[0] else parts[0] + sep + Join(parts[1..], sep)
  }

  lemma {:induction false} JoinSnoc(parts: seq<string>, p: string, sep: string)
    ensures Join(parts + [p], sep) == if parts == [] then p else Join(parts, sep) + sep + p
  {
    if |parts| == 0 {
      assert parts + [p] == [p];
    } else if |parts| == 1 {
      assert parts + [p] == [parts[0], p];
    } else {
      assert (parts + [p])[1..] == parts[1..] + [p];
      JoinSnoc(parts[1..], p, sep);
    }
  }

  /** Joining two non-empty lists of parts puts one separator between them. */
  lemma {:induction false} JoinAppend(a: seq<string>, b: seq<string>, sep: string)
    requires |a| > 0 && |b| > 0
    ensures Join(a + b, sep) == Join(a, sep) + sep + Join(b, sep)
  {
    if |a| == 1 {
      assert (a + b)[1..] == b;
    } else {
      assert (a + b)[1..] == a[1..] + b;
      JoinAppend(a[1..], b, sep);
    }
  }

  /** A joined text begins with its first part and ends with its last. */
  lemma {:induction false} JoinEnds(parts: seq<string>, sep: string)
    requires |parts| > 0
    ensures StartsWith(Join(parts, sep), parts[0])
    ensures EndsWith(Join(parts, sep), parts[|parts| - 1])
  {
    var j := Join(parts, sep);
    if |parts| > 1 {
      assert j == parts[0] + (sep + Join(parts[1..], sep));
      assert j[..|parts[0]|] == parts[0];
      var init := parts[..|parts| - 1];
      JoinSnoc(init, parts[|parts| - 1], sep);
      assert init + [parts[|parts| - 1]] == parts;
      var last := parts[|parts| - 1];
      assert j == (Join(init, sep) + sep) + last;
      assert j[|j| - |last|..] == last;
    }
  }

  /** Each part followed by the separator, as a loop appending `part + sep` builds it. */
  function Terminated(parts: seq<string>, sep: string): string
    decreases |parts|
  {
    if |parts| == 0 then "" else Terminated(parts[..|parts| - 1], sep) + parts[|parts| - 1] + sep
  }

  lemma TerminatedSnoc(parts: seq<string>, p: string, sep: string)
    ensures Terminated(parts + [p], sep) == Terminated(parts, sep) + p + sep
  {
    assert (parts + [p])[..|parts|] == parts;
  }

  /** Terminating every part is joining them with one more, empty, part. */
  lemma {:induction false} TerminatedJoin(parts: seq<string>, sep: string)
    ensures Terminated(parts, sep) == Join(parts + [""], sep)
    decreases |parts|
  {
    if |parts| > 0 {
      var n := |parts| - 1;
      var init := parts[..n];
      TerminatedJoin(init, sep);
      assert init + [parts[n]] == parts;
      JoinSnoc(parts, "", sep);
      if n == 0 {
        assert parts == [parts[0]];
      } else {
        JoinSnoc(init, "", sep);
        JoinSnoc(init, parts[n], sep);
      }
    }
  }

  /** Python truthiness of an optional string: present and not empty. */
  predicate Truthy(s: Option<string>) {
    s.Some? && s.value != ""
  }

  /** `s or default` for an optional string. */
  function Or(s: Option<string>, default: string): (r: string)
    ensures Truthy(s) ==> r == s.value
    ensures !Truthy(s) ==> r == default
  {
    if Truthy(s) then s.value else default
  }

  /** `s.split(sep)` for a one-character separator: always at least one piece. */
  function SplitOn(s: string, sep: char): (r: seq<string>)
    ensures |r| >= 1
    ensures |r| == 1 <==> sep !in s
    ensures forall k :: 0 <= k < |r| ==> sep !in r[k]
    decreases |s|
  {
    if |s| == 0 then [""]
    else
      var rest := SplitOn(s[1..], sep);
      if s[0] == sep then [""] + rest else [[s[0]] + rest[0]] + rest[1..]
  }

  /** Joining the pieces with the separator gives back the string. */
  lemma {:induction false} JoinSplitOn(s: string, sep: char)
    ensures Join(SplitOn(s, sep), [sep]) == s
    decreases |s|
  {
    if |s| > 0 {
      var rest := SplitOn(s[1..], sep);
      JoinSplitOn(s[1..], sep);
      assert Join(rest, [sep]) == s[1..];
      assert [s[0]] + s[1..] == s;
      var r := SplitOn(s, sep);
      if s[0] == sep {
        assert r == [""] + rest && r[1..] == rest;
        assert Join(r, [sep]) == "" + [sep] + Join(rest, [sep]);
      } else {
        assert r == [[s[0]] + rest[0]] + rest[1..];
        if |rest| == 1 {
          assert Join(r, [sep]) == [s[0]] + rest[0];
        } else {
          assert r[1..] == rest[1..];
          assert Join(rest, [sep]) == rest[0] + [sep] + Join(rest[1..], [sep]);
          assert Join(r, [sep]) == ([s[0]] + rest[0]) + [sep] + Join(rest[1..], [sep]);
          assert ([s[0]] + rest[0]) + [sep] + Join(rest[1..], [sep]) == [s[0]] + (rest[0] + [sep] + Join(rest[1..], [sep]));
        }
      }
    }
  }

  lemma {:induction false} SplitOnNoSep(a: string, sep: char)
    requires sep !in a
    ensures SplitOn(a, sep) == [a]
  {
    if |a| > 0 {
      SplitOnNoSep(a[1..], sep);
      assert [a[0]] + a[1..] == a;
    }
  }

  lemma {:induction false} SplitOnPieceThenSep(a: string, sep: char, b: string)
    requires sep !in a
    ensures SplitOn(a + [sep] + b, sep) == [a] + SplitOn(b, sep)
  {
    var s := a + [sep] + b;
    if |a| == 0 {
      assert s[0] == sep && s[1..] == b;
    } else {
      assert s[0] == a[0] && s[1..] == a[1..] + [sep] + b;
      SplitOnPieceThenSep(a[1..], sep, b);
      assert [a[0]] + a[1..] == a;
    }
  }

  /** Splitting pieces joined by a separator they do not contain gives back the pieces. */
  lemma {:induction false} SplitOnJoin(ps: seq<string>, sep: char)
    requires |ps| >= 1
    requires forall k :: 0 <= k < |ps| ==> sep !in ps[k]
    ensures SplitOn(Join(ps, [sep]), sep) == ps
  {
    if |ps| == 1 {
      SplitOnNoSep(ps[0], sep);
    } else {
      SplitOnJoin(ps[1..], sep);
      SplitOnPieceThenSep(ps[0], sep, Join(ps[1..], [sep]));
    }
  }

  /** `s.split()`: the maximal runs of non-whitespace characters. */
  function Words(s: string): (r: seq<string>)
    ensures forall k :: 0 <= k < |r| ==> |r[k]| > 0 && NoSpace(r[k])
    ensures |s| > 0 && !IsSpace(s[0]) ==> |r| > 0 && r[0][0] == s[0]
    decreases |s|
  {
    if |s| == 0 then []
    else
      var rest := Words(s[1..]);
      if IsSpace(s[0]) then rest
      else if |s| == 1 || IsSpace(s[1]) then [[s[0]]] + rest
      else [[s[0]] + rest[0]] + rest[1..]
  }

  /** `' '.join(s.split())`. */
  function CollapseSpaces(s: string): string {
    Join(Words(s), " ")
  }

  /**
   * A collapsed line: its only whitespace is single ' ' characters, each of them
   * between two non-whitespace characters.
   */
  predicate Collapsed(s: string) {
    forall i :: 0 <= i < |s| ==> SingleSpaceAt(s, i)
  }

  /** The character at `i`, if it is whitespace, is a ' ' between two non-whitespace characters. */
  predicate SingleSpaceAt(s: string, i: nat)
    requires i < |s|
  {
    IsSpace(s[i]) ==> s[i] == ' ' && 0 < i < |s| - 1 && !IsSpace(s[i - 1]) && !IsSpace(s[i + 1])
  }

  lemma {:induction false} JoinWordsCollapsed(ws: seq<string>)
    requires forall k :: 0 <= k < |ws| ==> |ws[k]| > 0 && NoSpace(ws[k])
    ensures Collapsed(Join(ws, " "))
    ensures |ws| > 0 ==>
      (|Join(ws, " ")| > 0 && !IsSpace(Join(ws, " ")[0]) && !IsSpace(Join(ws, " ")[|Join(ws, " ")| - 1]))
  {
    if |ws| > 1 {
      JoinWordsCollapsed(ws[1..]);
      var w, j := ws[0], Join(ws[1..], " ");
      var s := w + " " + j;
      assert Join(ws, " ") == s;
      forall i | 0 <= i < |s|
        ensures SingleSpaceAt(s, i)
      {
        if i < |w| {
          assert s[i] == w[i];
        } else if i > |w| {
          var m := i - |w| - 1;
          assert s[i] == j[m];
          if IsSpace(j[m]) {
            assert SingleSpaceAt(j, m);
            assert s[i - 1] == j[m - 1] && s[i + 1] == j[m + 1];
          }
        } else {
          assert s[i - 1] == w[|w| - 1];
          assert s[i + 1] == j[0];
        }
      }
    }
  }

  /** Collapsing leaves a collapsed line with no whitespace at either end. */
  lemma CollapseSpacesCollapsed(s: string)
    ensures Collapsed(CollapseSpaces(s))
  {
    JoinWordsCollapsed(Words(s));
  }

  lemma {:induction false} WordsOfWordThenSpace(w: string, j: string)
    requires |w| > 0 && NoSpace(w)
    ensures Words(w + " " + j) == [w] + Words(j)
    decreases |w|
  {
    var s := w + " " + j;
    assert s[1..] == w[1..] + " " + j;
    if |w| == 1 {
      assert s[1] == ' ' && w == [s[0]];
      assert s[1..][1..] == j;
      assert Words(s[1..]) == Words(j);
    } else {
      WordsOfWordThenSpace(w[1..], j);
      assert [w[0]] + w[1..] == w;
    }
  }

  /** Splitting words joined by single spaces gives back the words, so `count_words` counts them. */
  lemma {:induction false} WordsOfJoin(ws: seq<string>)
    requires forall k :: 0 <= k < |ws| ==> |ws[k]| > 0 && NoSpace(ws[k])
    ensures Words(Join(ws, " ")) == ws
  {
    if |ws| == 1 {
      WordsOfNoSpace(ws[0]);
    } else if |ws| > 1 {
      WordsOfJoin(ws[1..]);
      WordsOfWordThenSpace(ws[0], Join(ws[1..], " "));
    }
  }

  lemma {:induction false} WordsOfNoSpace(w: string)
    requires |w| > 0 && NoSpace(w)
    ensures Words(w) == [w]
    decreases |w|
  {
    if |w| == 1 {
      assert w == [w[0]];
    } else {
      WordsOfNoSpace(w[1..]);
      assert !IsSpace(w[1]);
      assert [w[0]] + w[1..] == w;
    }
  }

  function DigitChar(d: nat): (c: char)
    requires d < 10
    ensures IsAsciiDigit(c)
  {
    ('0' as int + d) as char
  }

  /** `str(n)` for a non-negative integer. */
  function NatToString(n: nat): (r: string)
    ensures |r| >= 1
    ensures forall i :: 0 <= i < |r| ==> IsAsciiDigit(r[i])
    ensures n > 0 ==> r[0] != '0'
  {
    if n < 10 then [DigitChar(n)] else NatToString(n / 10) + [DigitChar(n % 10)]
  }

  /** `str(i)` for any integer. */
  function IntToString(i: int): string {
    if i < 0 then "-" + NatToString(-i) else NatToString(i)
  }

  /** The value of a string of decimal digits. */
  function DecimalValue(s: string): nat
    requires forall i :: 0 <= i < |s| ==> IsAsciiDigit(s[i])
  {
    if |s| == 0 then 0
    else
      assert IsAsciiDigit(s[|s| - 1]);
      10 * DecimalValue(s[..|s| - 1]) + (s[|s| - 1] as int - '0' as int)
  }

  /** Reading the decimal digits back gives the number. */
  lemma {:induction false} DecimalValueOfNatToString(n: nat)
    ensures DecimalValue(NatToString(n)) == n
  {
    if n >= 10 {
      DecimalValueOfNatToString(n / 10);
      var s := NatToString(n);
      assert s[..|s| - 1] == NatToString(n / 10);
    }
  }

  /** A Python slice bound `k` on a sequence of length `len`, after negative and clamping rules. */
  function SliceBound(k: int, len: nat): (r: nat)
    ensures r <= len
    ensures 0 <= k <= len ==> r == k
    ensures k > len ==> r == len
    ensures k < 0 ==> r == if len + k < 0 then 0 else len + k
  {
    if k < 0 then (if len + k < 0 then 0 else len + k) else if k > len then len else k
  }

  /** `s[:k]`. */
  function SliceTo(s: string, k: int): string {
    s[..SliceBound(k, |s|)]
  }

  /** `s[k:]`. */
  function SliceFrom(s: string, k: int): string {
    s[SliceBound(k, |s|)..]
  }

  /** `s[:i] + ins + s[j:]`. */
  function Splice(s: string, i: int, j: int, ins: string): string {
    SliceTo(s, i) + ins + SliceFrom(s, j)
  }

  /** Splicing at a later span first leaves an earlier span where it was. */
  lemma SpliceTwice(s: string, i1: int, j1: int, i2: int, j2: int, a1: string, a2: string)
    requires 0 <= i1 <= j1 <= i2 <= j2 <= |s|
    ensures Splice(Splice(s, i2, j2, a2), i1, j1, a1) == s[..i1] + a1 + s[j1..i2] + a2 + s[j2..]
  {
    var t := s[..i2] + a2 + s[j2..];
    assert Splice(s, i2, j2, a2) == t;
    assert t[..i1] == s[..i1];
    assert t[j1..] == s[j1..i2] + a2 + s[j2..];
  }

  /** `c * n`: `n` copies of `c`, none for `n <= 0`. */
  function Repeat(c: char, n: int): (r: string)
    ensures |r| == if n <= 0 then 0 else n
    ensures forall i :: 0 <= i < |r| ==> r[i] == c
    decreases if n <= 0 then 0 else n
  {
    if n <= 0 then "" else [c] + Repeat(c, n - 1)
  }

  /**
   * `s.replace(pat, rep, 1)` replaces the first occurrence of `pat` and nothing else, and
   * leaves `s` alone when `pat` does not occur.
   */
  lemma ReplaceFirstSpec(s: string, pat: string, rep: string)
    ensures Absent(s, pat) ==> ReplaceFirst(s, pat, rep) == s
    ensures forall i: nat :: FirstAt(s, pat, i) ==> ReplaceFirst(s, pat, rep) == s[..i] + rep + s[i + |pat|..]
  {
    var r := IndexOf(s, pat);
    if r.Some? {
      forall i: nat | FirstAt(s, pat, i)
        ensures i == r.value
      {
        assert i >= r.value;
        assert i <= r.value;
      }
    }
  }
}
