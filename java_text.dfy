/**
 * The few pieces of java.lang String behaviour the mock engine relies on:
 * null references, concatenation, trim, the `\s+` whitespace collapse,
 * Character.isWhitespace, Integer/Long.parseInt, Boolean.parseBoolean and the
 * "first N characters plus ..." truncation used by every display helper.
 */
module JavaText {

  datatype Option<+T> = None | Some(value: T)

  /** A Java `String` reference; `None` stands for `null`. */
  type JStr = Option<string>

  /** The text Java's `+` appends for a possibly-null string reference. */
  function Show(s: JStr): (r: string)
    ensures s.Some? ==> r == s.value
    ensures s.None? ==> r == "null"
  {
    match s
    case None => "null"
    case Some(t) => t
  }

  predicate StartsWith(s: string, prefix: string) {
    |prefix| <= |s| && s[..|prefix|] == prefix
  }

  predicate EndsWith(s: string, suffix: string) {
    |suffix| <= |s| && s[|s| - |suffix|..] == suffix
  }

  /** `String.contains`: `part` occurs somewhere in `s`. */
  predicate Contains(s: string, part: string)
    decreases |s|
  {
    StartsWith(s, part) || (|s| > 0 && Contains(s[1..], part))
  }

  /** `String.isEmpty` on a possibly-null reference, with the null test first. */
  predicate IsNullOrEmpty(s: JStr) {
    s.None? || s.value == ""
  }

  /** `s.indexOf(c)` for a character known to occur. */
  function IndexOf(s: string, c: char): (r: nat)
    requires c in s
    ensures r < |s| && s[r] == c && c !in s[..r]
  {
    if s[0] == c then 0
    else
      assert c in s[1..] by { assert s == [s[0]] + s[1..]; }
      var k := IndexOf(s[1..], c);
      assert s[..k + 1] == [s[0]] + s[1..][..k];
      k + 1
  }

  /** The first occurrence is the one with none before it. */
  lemma IndexOfFirst(s: string, c: char, i: nat)
    requires i < |s| && s[i] == c
    ensures c in s
    ensures c !in s[..i] ==> IndexOf(s, c) == i
  {
    assert s[i] == c;
  }

  /** `s.split(c, 2)` when `c` occurs: the text before its first occurrence and the text after it. */
  function SplitAtFirst(s: string, c: char): (r: (string, string))
    requires c in s
    ensures s == r.0 + [c] + r.1 && c !in r.0
  {
    var i := IndexOf(s, c);
    assert s == s[..i] + [c] + s[i + 1..];
    (s[..i], s[i + 1..])
  }

  /** Text built around a first occurrence of `c` splits back into its two parts. */
  lemma SplitAtFirstOf(a: string, c: char, b: string)
    requires c !in a
    ensures c in a + [c] + b && SplitAtFirst(a + [c] + b, c) == (a, b)
  {
    var s := a + [c] + b;
    assert s[|a|] == c;
    var i := IndexOf(s, c);
    assert i == |a| by {
      if i < |a| {
        assert false;
      } else if i > |a| {
        assert false;
      }
    }
    assert s[..i] == a && s[i + 1..] == b;
  }

  /** `s.lastIndexOf(c)`: the last index of `c`, or -1. */
  function LastIndexOf(s: string, c: char): (r: int)
    ensures -1 <= r < |s|
    ensures r == -1 <==> c !in s
    ensures r >= 0 ==> s[r] == c && c !in s[r + 1..]
  {
    if s == [] then -1
    else if s[|s| - 1] == c then |s| - 1
    else
      var r := LastIndexOf(s[..|s| - 1], c);
      assert s == s[..|s| - 1] + [s[|s| - 1]];
      assert r >= 0 ==> s[r + 1..] == s[..|s| - 1][r + 1..] + [s[|s| - 1]];
      r
  }

  // ---------------------------------------------------------------------------
  // Whitespace

  /** `String.trim` drops every leading and trailing character up to U+0020. */
  predicate IsTrimmable(c: char) {
    c <= ' '
  }

  function TrimStart(s: string): (r: string)
    ensures |r| <= |s| && r == s[|s| - |r|..]
    ensures r == [] || !IsTrimmable(r[0])
    ensures forall i :: 0 <= i < |s| - |r| ==> IsTrimmable(s[i])
  {
    if |s| > 0 && IsTrimmable(s[0]) then
      var r := TrimStart(s[1..]);
      assert r == s[|s| - |r|..] by {
        assert s[1..][|s| - 1 - |r|..] == s[|s| - |r|..];
      }
      assert forall i :: 0 <= i < |s| - |r| ==> IsTrimmable(s[i]) by {
        forall i | 0 < i < |s| - |r|
          ensures IsTrimmable(s[i])
        {
          assert s[i] == s[1..][i - 1];
        }
      }
      r
    else s
  }

  function TrimEnd(s: string): (r: string)
    ensures |r| <= |s| && r == s[..|r|]
    ensures r == [] || !IsTrimmable(r[|r| - 1])
    ensures forall i :: |r| <= i < |s| ==> IsTrimmable(s[i])
  {
    if |s| > 0 && IsTrimmable(s[|s| - 1]) then TrimEnd(s[..|s| - 1]) else s
  }

  /** `String.trim`. */
  function Trim(s: string): (r: string)
    ensures r == [] || (!IsTrimmable(r[0]) && !IsTrimmable(r[|r| - 1]))
  {
    TrimEnd(TrimStart(s))
  }

  /** Text whose ends `trim` would not touch. */
  predicate IsTrimmed(s: string) {
    s == [] || (!IsTrimmable(s[0]) && !IsTrimmable(s[|s| - 1]))
  }

  lemma TrimOfTrimmed(s: string)
    requires IsTrimmed(s)
    ensures Trim(s) == s
  {
  }

  lemma {:induction false} TrimIsIdempotent(s: string)
    ensures Trim(Trim(s)) == Trim(s)
  {
    TrimOfTrimmed(Trim(s));
  }

  /** Trimming only removes characters: one absent before is absent after. */
  lemma TrimKeepsAbsent(s: string, c: char)
    requires c !in s
    ensures c !in Trim(s)
  {
    var st := TrimStart(s);
    var t := TrimEnd(st);
    forall i | 0 <= i < |t| ensures t[i] != c {
      assert t[i] == st[i] == s[|s| - |st| + i];
    }
  }

  /** Trimming a trimmed text behind leading blanks gives the text back. */
  lemma {:induction false} TrimAfterBlanks(blanks: string, m: string)
    requires forall i :: 0 <= i < |blanks| ==> IsTrimmable(blanks[i])
    requires IsTrimmed(m)
    ensures Trim(blanks + m) == m
  {
    if blanks == [] {
      assert blanks + m == m;
      TrimOfTrimmed(m);
    } else {
      assert (blanks + m)[1..] == blanks[1..] + m;
      TrimAfterBlanks(blanks[1..], m);
    }
  }

  /** The characters of Java's regular-expression class `\s`. */
  predicate IsRegexSpace(c: char) {
    c == ' ' || c == '\t' || c == '\n' || c == '\U{0B}' || c == '\U{0C}' || c == '\r'
  }

  /** `Character.isWhitespace`. */
  predicate IsJavaWhitespace(c: char) {
    || c == ' '
    || ('\t' <= c <= '\r')
    || ('\U{1C}' <= c <= '\U{1F}')
    || c == '\U{1680}'
    || ('\U{2000}' <= c <= '\U{2006}')
    || ('\U{2008}' <= c <= '\U{200A}')
    || c == '\U{2028}' || c == '\U{2029}' || c == '\U{205F}' || c == '\U{3000}'
  }

  /** `s` without its leading run of `\s` characters. */
  function DropRegexSpaces(s: string): (r: string)
    ensures |r| <= |s|
    ensures r == [] || !IsRegexSpace(r[0])
  {
    if |s| > 0 && IsRegexSpace(s[0]) then DropRegexSpaces(s[1..]) else s
  }

  /** What is dropped is exactly a leading run of `\s` characters: the rest is a suffix. */
  lemma {:induction false} DropSpacesShape(s: string)
    ensures var r := DropRegexSpaces(s);
      && r == s[|s| - |r|..]
      && forall i :: 0 <= i < |s| - |r| ==> IsRegexSpace(s[i])
  {
    if |s| > 0 && IsRegexSpace(s[0]) {
      DropSpacesShape(s[1..]);
      var r := DropRegexSpaces(s);
      assert s[1..][|s| - 1 - |r|..] == s[|s| - |r|..];
      forall i | 0 < i < |s| - |r|
        ensures IsRegexSpace(s[i])
      {
        assert s[i] == s[1..][i - 1];
      }
    }
  }

  /** The characters of `s` outside the class `\s`, in order. */
  function NonSpace(s: string): (r: string)
    ensures |r| <= |s|
  {
    if s == [] then []
    else (if IsRegexSpace(s[0]) then [] else [s[0]]) + NonSpace(s[1..])
  }

  lemma {:induction false} NonSpaceAppend(a: string, b: string)
    ensures NonSpace(a + b) == NonSpace(a) + NonSpace(b)
  {
    if a == [] {
      assert a + b == b;
    } else {
      assert (a + b)[1..] == a[1..] + b;
      NonSpaceAppend(a[1..], b);
    }
  }

  lemma {:induction false} NonSpaceOfSpaces(s: string)
    requires forall i :: 0 <= i < |s| ==> IsRegexSpace(s[i])
    ensures NonSpace(s) == []
  {
    if s != [] {
      NonSpaceOfSpaces(s[1..]);
    }
  }

  /** No two neighbouring characters both belong to `\s`. */
  ghost predicate NoSpaceRuns(s: string) {
    forall i, j :: 0 <= i < j < |s| && j == i + 1 ==> !(IsRegexSpace(s[i]) && IsRegexSpace(s[j]))
  }

  /** Every `\s` character in `s` is a plain space. */
  predicate OnlyPlainSpaces(s: string) {
    forall i :: 0 <= i < |s| && IsRegexSpace(s[i]) ==> s[i] == ' '
  }

  /**
   * `s.replaceAll("\\s+", " ")`: each maximal run of `\s` characters becomes
   * one space; the other characters are kept in order.
   */
  function CollapseSpaces(s: string): string
    decreases |s|
  {
    if s == [] then []
    else if IsRegexSpace(s[0]) then " " + CollapseSpaces(DropRegexSpaces(s[1..]))
    else [s[0]] + CollapseSpaces(s[1..])
  }

  /**
   * The collapse leaves no `\s` run and no `\s` character but the plain space,
   * keeps every other character in order, and starts with a `\s` character
   * exactly when its input does.
   */
  lemma {:induction false} CollapseShape(s: string)
    ensures var r := CollapseSpaces(s);
      && NoSpaceRuns(r) && OnlyPlainSpaces(r)
      && NonSpace(r) == NonSpace(s)
      && (r == [] <==> s == [])
      && (r != [] ==> (IsRegexSpace(r[0]) <==> IsRegexSpace(s[0])))
    decreases |s|
  {
    if s == [] {
    } else if IsRegexSpace(s[0]) {
      var rest := DropRegexSpaces(s[1..]);
      var tail := CollapseSpaces(rest);
      assert NonSpace(s[1..]) == NonSpace(rest) by {
        DropSpacesShape(s[1..]);
        var run := s[1..][..|s| - 1 - |rest|];
        assert s[1..] == run + rest;
        NonSpaceAppend(run, rest);
        NonSpaceOfSpaces(run);
      }
      CollapseShape(rest);
      NonSpaceAppend(" ", tail);
      ConsKeepsShape(' ', tail);
    } else {
      var tail := CollapseSpaces(s[1..]);
      CollapseShape(s[1..]);
      NonSpaceAppend([s[0]], tail);
      ConsKeepsShape(s[0], tail);
    }
  }

  /** Putting a character in front keeps the shape, unless it starts a `\s` run or is another `\s` character. */
  lemma ConsKeepsShape(c: char, tail: string)
    requires NoSpaceRuns(tail) && OnlyPlainSpaces(tail)
    requires IsRegexSpace(c) ==> c == ' ' && (tail == [] || !IsRegexSpace(tail[0]))
    ensures NoSpaceRuns([c] + tail) && OnlyPlainSpaces([c] + tail)
  {
    var t := [c] + tail;
    forall i, j | 0 <= i < j < |t| && j == i + 1
      ensures !(IsRegexSpace(t[i]) && IsRegexSpace(t[j]))
    {
      if i > 0 {
        assert t[i] == tail[i - 1] && t[j] == tail[j - 1];
      }
    }
  }

  /** Text without any `\s` character is left alone by the collapse. */
  lemma {:induction false} CollapseWord(w: string)
    requires forall i :: 0 <= i < |w| ==> !IsRegexSpace(w[i])
    ensures CollapseSpaces(w) == w
  {
    if w != [] {
      CollapseWord(w[1..]);
    }
  }

  /** Dropping the leading `\s` run of `x + y` stops inside `x` when `x` holds another character. */
  lemma {:induction false} DropSpacesAppend(x: string, y: string)
    requires DropRegexSpaces(x) != []
    ensures DropRegexSpaces(x + y) == DropRegexSpaces(x) + y
  {
    if IsRegexSpace(x[0]) {
      assert (x + y)[1..] == x[1..] + y;
      DropSpacesAppend(x[1..], y);
    }
  }

  /** Dropping a leading `\s` run stops before a last character outside `\s`. */
  lemma {:induction false} DropSpacesKeepsLast(x: string)
    requires x != [] && !IsRegexSpace(x[|x| - 1])
    ensures DropRegexSpaces(x) != [] && DropRegexSpaces(x)[|DropRegexSpaces(x)| - 1] == x[|x| - 1]
  {
    if IsRegexSpace(x[0]) {
      assert x[1..][|x| - 2] == x[|x| - 1];
      DropSpacesKeepsLast(x[1..]);
    }
  }

  /** A run of `\s` characters in front of text that does not start with one is dropped exactly. */
  lemma {:induction false} DropSpacesOfRun(w: string, b: string)
    requires forall i :: 0 <= i < |w| ==> IsRegexSpace(w[i])
    requires b == [] || !IsRegexSpace(b[0])
    ensures DropRegexSpaces(w + b) == b
  {
    if w == [] {
      assert w + b == b;
    } else {
      assert (w + b)[1..] == w[1..] + b;
      DropSpacesOfRun(w[1..], b);
    }
  }

  /** A whole `\s` run in front of text that does not start with one collapses to one space. */
  lemma CollapseRun(w: string, b: string)
    requires w != [] && forall i :: 0 <= i < |w| ==> IsRegexSpace(w[i])
    requires b == [] || !IsRegexSpace(b[0])
    ensures CollapseSpaces(w + b) == " " + CollapseSpaces(b)
  {
    var t := w + b;
    assert t[1..] == w[1..] + b;
    DropSpacesOfRun(w[1..], b);
    assert DropRegexSpaces(t[1..]) == b;
  }

  /**
   * No `\s` run crosses the end of text whose last character is outside
   * `\s`, so the collapse of a concatenation is then the two collapses.
   */
  lemma {:induction false} CollapseAppend(a: string, r: string)
    requires a == [] || !IsRegexSpace(a[|a| - 1])
    ensures CollapseSpaces(a + r) == CollapseSpaces(a) + CollapseSpaces(r)
    decreases |a|, 1
  {
    if a == [] {
      assert a + r == r;
    } else if IsRegexSpace(a[0]) {
      CollapseAppendSpace(a, r);
    } else {
      CollapseAppendWord(a, r);
    }
  }

  /** `CollapseAppend` when `a` opens with a character outside `\s`. */
  lemma {:induction false} CollapseAppendWord(a: string, r: string)
    requires a != [] && !IsRegexSpace(a[0]) && !IsRegexSpace(a[|a| - 1])
    ensures CollapseSpaces(a + r) == CollapseSpaces(a) + CollapseSpaces(r)
    decreases |a|, 0
  {
    var t := a + r;
    var x, y := CollapseSpaces(a[1..]), CollapseSpaces(r);
    assert CollapseSpaces(t) == [a[0]] + CollapseSpaces(a[1..] + r) by {
      assert t[0] == a[0] && t[1..] == a[1..] + r;
    }
    assert CollapseSpaces(a[1..] + r) == x + y by {
      assert a[1..] == [] || a[1..][|a| - 2] == a[|a| - 1];
      CollapseAppend(a[1..], r);
    }
    assert CollapseSpaces(a) == [a[0]] + x;
    assert [a[0]] + (x + y) == [a[0]] + x + y;
  }

  /** `CollapseAppend` when `a` opens with a `\s` run. */
  lemma {:induction false} CollapseAppendSpace(a: string, r: string)
    requires a != [] && IsRegexSpace(a[0]) && !IsRegexSpace(a[|a| - 1])
    ensures CollapseSpaces(a + r) == CollapseSpaces(a) + CollapseSpaces(r)
    decreases |a|, 0
  {
    var t := a + r;
    var a' := DropRegexSpaces(a[1..]);
    assert a' != [] && !IsRegexSpace(a'[|a'| - 1]) by {
      assert a[1..] != [] && a[1..][|a| - 2] == a[|a| - 1];
      DropSpacesKeepsLast(a[1..]);
    }
    assert DropRegexSpaces(t[1..]) == a' + r by {
      assert t[1..] == a[1..] + r;
      DropSpacesAppend(a[1..], r);
    }
    assert CollapseSpaces(t) == " " + CollapseSpaces(a' + r);
    CollapseAppend(a', r);
  }

  /**
   * The collapse replaces each maximal `\s` run by one space and leaves the
   * text on either side of it to be collapsed on its own: with `w` a whole
   * run between `a` and `b`, the result is that of `a`, one space, that of `b`.
   */
  lemma {:induction false} CollapseAround(a: string, w: string, b: string)
    requires w != [] && forall i :: 0 <= i < |w| ==> IsRegexSpace(w[i])
    requires a == [] || !IsRegexSpace(a[|a| - 1])
    requires b == [] || !IsRegexSpace(b[0])
    ensures CollapseSpaces(a + w + b) == CollapseSpaces(a) + " " + CollapseSpaces(b)
  {
    assert a + w + b == a + (w + b);
    CollapseAppend(a, w + b);
    CollapseRun(w, b);
  }

  /** Every character `trim` would drop is one that `\s` also matches. */
  predicate TrimDropsOnlySpaces(s: string) {
    forall i :: 0 <= i < |s| && IsTrimmable(s[i]) ==> IsRegexSpace(s[i])
  }

  lemma {:induction false} NonSpaceHas(t: string, i: nat)
    requires i < |t| && !IsRegexSpace(t[i])
    ensures t[i] in NonSpace(t)
  {
    if i > 0 {
      NonSpaceHas(t[1..], i - 1);
    }
  }

  lemma {:induction false} NonSpaceFrom(t: string, x: char)
    requires x in NonSpace(t)
    ensures x in t && !IsRegexSpace(x)
  {
    if t[0] != x || IsRegexSpace(t[0]) {
      NonSpaceFrom(t[1..], x);
    }
  }

  /** The collapse brings in no character `trim` would drop that `\s` does not match. */
  lemma CollapseDropsOnlySpaces(s: string)
    requires TrimDropsOnlySpaces(s)
    ensures TrimDropsOnlySpaces(CollapseSpaces(s))
  {
    var c := CollapseSpaces(s);
    CollapseShape(s);
    forall i | 0 <= i < |c| && IsTrimmable(c[i])
      ensures IsRegexSpace(c[i])
    {
      if !IsRegexSpace(c[i]) {
        NonSpaceHas(c, i);
        NonSpaceFrom(s, c[i]);
        assert false;
      }
    }
  }

  /** `r` is `c` from index `lo` on, with only trimmable characters cut off at either end. */
  predicate BlankCut(c: string, lo: nat, r: string) {
    && lo + |r| <= |c| && r == c[lo..lo + |r|]
    && (forall i :: 0 <= i < lo ==> IsTrimmable(c[i]))
    && (forall i :: lo + |r| <= i < |c| ==> IsTrimmable(c[i]))
  }

  /** A prefix of a suffix is a slice. */
  lemma {:induction false} PrefixOfSuffix(c: string, lo: nat, st: string, r: string)
    requires lo <= |c| && st == c[lo..] && |r| <= |st| && r == st[..|r|]
    ensures r == c[lo..lo + |r|]
  {
    forall k | 0 <= k < |r|
      ensures r[k] == c[lo + k]
    {
      assert r[k] == st[k];
    }
  }

  /** What lies behind a prefix of a suffix lies behind the slice in the whole text. */
  lemma {:induction false} BehindPrefixOfSuffix(c: string, lo: nat, st: string, n: nat)
    requires lo <= |c| && st == c[lo..] && n <= |st|
    requires forall i :: n <= i < |st| ==> IsTrimmable(st[i])
    ensures forall i :: lo + n <= i < |c| ==> IsTrimmable(c[i])
  {
    forall i | lo + n <= i < |c|
      ensures IsTrimmable(c[i])
    {
      assert c[i] == st[i - lo];
    }
  }

  /** `trim` leaves a slice of the text, starting where `TrimStart` stopped. */
  lemma {:induction false} TrimIsSlice(c: string)
    ensures |c| - |TrimStart(c)| + |Trim(c)| <= |c|
    ensures Trim(c) == c[|c| - |TrimStart(c)|..|c| - |TrimStart(c)| + |Trim(c)|]
  {
    var st := TrimStart(c);
    PrefixOfSuffix(c, |c| - |st|, st, TrimEnd(st));
  }

  /** Everything `trim` cuts from the end is trimmable. */
  lemma {:induction false} TrimCutsEnd(c: string)
    ensures forall i :: |c| - |TrimStart(c)| + |Trim(c)| <= i < |c| ==> IsTrimmable(c[i])
  {
    var st := TrimStart(c);
    BehindPrefixOfSuffix(c, |c| - |st|, st, |TrimEnd(st)|);
  }

  /** What `trim` leaves of a text: a slice with only trimmable characters outside it. */
  lemma TrimSlice(c: string)
    ensures BlankCut(c, |c| - |TrimStart(c)|, Trim(c))
  {
    TrimIsSlice(c);
    TrimCutsEnd(c);
  }

  /** Cutting trimmable ends off text whose trimmable characters are all `\s` loses no other character. */
  lemma {:induction false} BlankCutKeepsWords(c: string, lo: nat, r: string)
    requires BlankCut(c, lo, r) && TrimDropsOnlySpaces(c)
    ensures NonSpace(r) == NonSpace(c)
  {
    var pre, post := c[..lo], c[lo + |r|..];
    assert c == pre + r + post;
    assert forall i :: 0 <= i < |pre| ==> IsRegexSpace(pre[i]) by {
      forall i | 0 <= i < |pre| ensures IsRegexSpace(pre[i]) {
        assert pre[i] == c[i];
      }
    }
    assert forall i :: 0 <= i < |post| ==> IsRegexSpace(post[i]) by {
      forall i | 0 <= i < |post| ensures IsRegexSpace(post[i]) {
        assert post[i] == c[lo + |r| + i];
      }
    }
    NonSpaceAppend(pre + r, post);
    NonSpaceAppend(pre, r);
    NonSpaceOfSpaces(pre);
    NonSpaceOfSpaces(post);
  }

  /** When every trimmable character is `\s`, `trim` keeps every other character, in order. */
  lemma {:induction false} TrimKeepsWords(c: string)
    requires TrimDropsOnlySpaces(c)
    ensures NonSpace(Trim(c)) == NonSpace(c)
  {
    TrimSlice(c);
    BlankCutKeepsWords(c, |c| - |TrimStart(c)|, Trim(c));
  }

  /** When `trim` only meets `\s` characters, cleaning keeps every other character of the input, in order. */
  lemma {:induction false} CleanTextKeepsWords(s: string)
    ensures TrimDropsOnlySpaces(s) ==> NonSpace(Trim(CollapseSpaces(s))) == NonSpace(s)
  {
    if TrimDropsOnlySpaces(s) {
      var c := CollapseSpaces(s);
      CollapseDropsOnlySpaces(s);
      TrimKeepsWords(c);
      assert NonSpace(c) == NonSpace(s) by {
        CollapseShape(s);
      }
    }
  }

  /**
   * `s.replaceAll("\\s+", " ").trim()`, the cleaning every display helper
   * applies: the collapsed text with its blank ends cut, which keeps every
   * character of the input outside `\s` when `trim` has only `\s` to drop.
   */
  function CleanText(s: string): (r: string)
    ensures NoSpaceRuns(r) && OnlyPlainSpaces(r) && IsTrimmed(r)
    ensures exists lo :: BlankCut(CollapseSpaces(s), lo, r)
    ensures TrimDropsOnlySpaces(s) ==> NonSpace(r) == NonSpace(s)
  {
    var c := CollapseSpaces(s);
    CollapseShape(s);
    TrimStartKeepsShape(c);
    TrimEndKeepsShape(TrimStart(c));
    TrimSlice(c);
    CleanTextKeepsWords(s);
    Trim(c)
  }

  /** Two words with any `\s` run between them clean to the words joined by one space. */
  lemma {:induction false} CleanTextJoinsWords(a: string, w: string, b: string)
    requires a != [] && b != [] && IsTrimmed(a) && IsTrimmed(b)
    requires forall i :: 0 <= i < |a| ==> !IsRegexSpace(a[i])
    requires forall i :: 0 <= i < |b| ==> !IsRegexSpace(b[i])
    requires w != [] && forall i :: 0 <= i < |w| ==> IsRegexSpace(w[i])
    ensures CleanText(a + w + b) == a + " " + b
  {
    CollapseAround(a, w, b);
    CollapseWord(a);
    CollapseWord(b);
    var j := a + " " + b;
    assert j[0] == a[0] && j[|j| - 1] == b[|b| - 1];
    TrimOfTrimmed(j);
  }

  /** Text that is already clean comes back unchanged, so cleaning twice is cleaning once. */
  lemma {:induction false} CleanTextOfClean(s: string)
    requires NoSpaceRuns(s) && OnlyPlainSpaces(s) && IsTrimmed(s)
    ensures CleanText(s) == s
  {
    CollapseOfClean(s);
    TrimOfTrimmed(s);
  }

  lemma {:induction false} CollapseOfClean(s: string)
    requires NoSpaceRuns(s) && OnlyPlainSpaces(s)
    ensures CollapseSpaces(s) == s
  {
    if s != [] {
      assert NoSpaceRuns(s[1..]) && OnlyPlainSpaces(s[1..]) by {
        SliceKeepsShape(s, 1, |s|);
        assert s[1..|s|] == s[1..];
      }
      CollapseOfClean(s[1..]);
      if IsRegexSpace(s[0]) {
        assert s[1..] == [] || !IsRegexSpace(s[1]);
        DropSpacesOfRun([], s[1..]);
        assert [] + s[1..] == s[1..];
      }
    }
  }

  lemma CleanTextIsIdempotent(s: string)
    ensures CleanText(CleanText(s)) == CleanText(s)
  {
    CleanTextOfClean(CleanText(s));
  }

  /** A slice of text without `\s` runs and with plain spaces only has the same shape. */
  lemma SliceKeepsShape(c: string, lo: nat, hi: nat)
    requires lo <= hi <= |c|
    requires NoSpaceRuns(c) && OnlyPlainSpaces(c)
    ensures NoSpaceRuns(c[lo..hi]) && OnlyPlainSpaces(c[lo..hi])
  {
    var t := c[lo..hi];
    forall i, j | 0 <= i < j < |t| && j == i + 1
      ensures !(IsRegexSpace(t[i]) && IsRegexSpace(t[j]))
    {
      assert t[i] == c[lo + i] && t[j] == c[lo + j];
    }
  }

  lemma {:induction false} TrimStartKeepsShape(c: string)
    requires NoSpaceRuns(c) && OnlyPlainSpaces(c)
    ensures NoSpaceRuns(TrimStart(c)) && OnlyPlainSpaces(TrimStart(c))
    decreases |c|
  {
    if |c| > 0 && IsTrimmable(c[0]) {
      SliceKeepsShape(c, 1, |c|);
      TrimStartKeepsShape(c[1..]);
    }
  }

  lemma {:induction false} TrimEndKeepsShape(c: string)
    requires NoSpaceRuns(c) && OnlyPlainSpaces(c)
    ensures NoSpaceRuns(TrimEnd(c)) && OnlyPlainSpaces(TrimEnd(c))
    decreases |c|
  {
    if |c| > 0 && IsTrimmable(c[|c| - 1]) {
      SliceKeepsShape(c, 0, |c| - 1);
      assert c[0..|c| - 1] == c[..|c| - 1];
      TrimEndKeepsShape(c[..|c| - 1]);
    }
  }

  /**
   * The truncation all display helpers share: text longer than `limit`
   * becomes its first `limit - 3` characters followed by "...".
   */
  function Abbreviate(s: string, limit: nat): (r: string)
    requires limit >= 3
    ensures |r| <= limit
    ensures |s| <= limit ==> r == s
    ensures |s| > limit ==> |r| == limit && r == s[..limit - 3] + "..."
  {
    if |s| > limit then s[..limit - 3] + "..." else s
  }

  // ---------------------------------------------------------------------------
  // Number and boolean parsing

  predicate IsDigit(c: char) {
    '0' <= c <= '9'
  }

  predicate AllDigits(s: string) {
    forall i :: 0 <= i < |s| ==> IsDigit(s[i])
  }

  function DigitValue(c: char): (d: nat)
    requires IsDigit(c)
    ensures d < 10
  {
    (c as int) - ('0' as int)
  }

  function DigitChar(d: nat): (c: char)
    requires d < 10
    ensures IsDigit(c) && DigitValue(c) == d
  {
    ('0' as int + d) as char
  }

  /** The value of a run of decimal digits, most significant first. */
  function DigitsValue(s: string): nat
    requires AllDigits(s)
  {
    if s == [] then 0 else 10 * DigitsValue(s[..|s| - 1]) + DigitValue(s[|s| - 1])
  }

  /**
   * `Long.parseLong`/`Integer.parseInt` in radix 10 for the range [lo, hi]:
   * an optional leading '-' or '+', at least one digit, and a value in range;
   * `None` is the NumberFormatException (null, empty, a lone sign, a stray
   * character, overflow).
   */
  function ParseDecimal(s: JStr, lo: int, hi: int): (r: Option<int>)
    ensures r.Some? ==> lo <= r.value <= hi
    ensures r.Some? ==> s.Some? && s.value != []
    ensures s.Some? && s.value != [] && AllDigits(s.value) ==>
      r == if lo <= DigitsValue(s.value) <= hi then Some(DigitsValue(s.value)) else None
  {
    if s.None? || s.value == [] then None
    else
      var t := s.value;
      var negative := t[0] == '-';
      var digits := if t[0] == '-' || t[0] == '+' then t[1..] else t;
      if digits == [] || !AllDigits(digits) then None
      else
        var magnitude: int := DigitsValue(digits);
        var v := if negative then -magnitude else magnitude;
        if lo <= v <= hi then Some(v) else None
  }

  const INT_MIN: int := -0x8000_0000
  const INT_MAX: int := 0x7FFF_FFFF
  const LONG_MIN: int := -0x8000_0000_0000_0000
  const LONG_MAX: int := 0x7FFF_FFFF_FFFF_FFFF

  /** `Integer.parseInt(s)`. */
  function ParseInt(s: JStr): (r: Option<int>)
    ensures r.Some? ==> INT_MIN <= r.value <= INT_MAX
  {
    ParseDecimal(s, INT_MIN, INT_MAX)
  }

  /** `Long.parseLong(s)`. */
  function ParseLong(s: JStr): (r: Option<int>)
    ensures r.Some? ==> LONG_MIN <= r.value <= LONG_MAX
  {
    ParseDecimal(s, LONG_MIN, LONG_MAX)
  }

  function LowerAscii(c: char): char {
    if 'A' <= c <= 'Z' then (c as int + 32) as char else c
  }

  /** `Boolean.parseBoolean`: true exactly for "true" in any letter case; never fails. */
  function ParseBoolean(s: JStr): (r: bool)
    ensures r <==> s.Some? && |s.value| == 4 && forall i :: 0 <= i < 4 ==> LowerAscii(s.value[i]) == "true"[i]
    ensures s == Some("true") || s == Some("TRUE") || s == Some("True") ==> r
    ensures s == Some("false") || s == None ==> !r
  {
    s.Some? && |s.value| == 4
    && LowerAscii(s.value[0]) == 't' && LowerAscii(s.value[1]) == 'r'
    && LowerAscii(s.value[2]) == 'u' && LowerAscii(s.value[3]) == 'e'
  }

  /** The decimal digits of a natural number, as `Integer.toString` writes them. */
  function NatText(n: nat): (r: string)
    ensures r != [] && AllDigits(r)
  {
    if n < 10 then [DigitChar(n)] else NatText(n / 10) + [DigitChar(n % 10)]
  }

  /** `Integer.toString(n)` / `String.valueOf(n)`. */
  function DecimalText(n: int): string {
    if n < 0 then "-" + NatText(-n) else NatText(n)
  }

  lemma {:induction false} NatTextValue(n: nat)
    ensures DigitsValue(NatText(n)) == n
  {
    if n >= 10 {
      NatTextValue(n / 10);
      var t := NatText(n);
      assert t[..|t| - 1] == NatText(n / 10);
    }
  }

  /** Parsing the decimal text of a number in range gives the number back. */
  lemma {:induction false} ParseDecimalOfDecimalText(n: int, lo: int, hi: int)
    requires lo <= n <= hi
    ensures ParseDecimal(Some(DecimalText(n)), lo, hi) == Some(n)
  {
    if n < 0 {
      NatTextValue(-n);
      assert ("-" + NatText(-n))[1..] == NatText(-n);
    } else {
      NatTextValue(n);
    }
  }

  /** Parsing what `Integer.toString` wrote gives the number back. */
  lemma ParseIntOfDecimalText(n: int)
    requires INT_MIN <= n <= INT_MAX
    ensures ParseInt(Some(DecimalText(n))) == Some(n)
  {
    ParseDecimalOfDecimalText(n, INT_MIN, INT_MAX);
  }

  /** Parsing what `Long.toString` wrote gives the number back. */
  lemma ParseLongOfDecimalText(n: int)
    requires LONG_MIN <= n <= LONG_MAX
    ensures ParseLong(Some(DecimalText(n))) == Some(n)
  {
    ParseDecimalOfDecimalText(n, LONG_MIN, LONG_MAX);
  }
}
