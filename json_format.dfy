/**
 * The renderer's two JSON re-layouts, both single passes over the text that
 * track whether they are inside a string literal and whether the previous
 * character was a backslash: minifying drops whitespace outside strings,
 * pretty-printing re-indents around brackets, commas and colons.
 */
module JsonFormat {
  import opened JavaText

  /** The scanner state both passes keep: inside a string literal, after a backslash. */
  datatype ScanState = ScanState(inString: bool, escaped: bool)

  const Start := ScanState(false, false)

  /** The state after reading `c`. */
  function Next(st: ScanState, c: char): (r: ScanState)
    ensures c == '"' && !st.escaped ==> r.inString == !st.inString
    ensures c != '"' || st.escaped ==> r.inString == st.inString
    ensures r.escaped <==> !st.escaped && c == '\\'
  {
    if st.escaped then st.(escaped := false)
    else if c == '\\' then st.(escaped := true)
    else if c == '"' then st.(inString := !st.inString)
    else st
  }

  /** `c` is read outside any string literal and is not a backslash or quote: layout may change around it. */
  predicate Structural(st: ScanState, c: char) {
    !st.escaped && c != '\\' && c != '"' && !st.inString
  }

  /** The state after reading all of `s`. */
  function After(s: string, st: ScanState): ScanState
  {
    if s == [] then st else After(s[1..], Next(st, s[0]))
  }

  /** What the minifier keeps of `c` read in state `st`: nothing for whitespace outside strings. */
  function MinifyChunk(st: ScanState, c: char): string
  {
    if Structural(st, c) && IsJavaWhitespace(c) then [] else [c]
  }

  /** `minifyJson` from state `st`: whitespace read outside strings is dropped, everything else kept. */
  function MinifyFrom(s: string, st: ScanState): string
  {
    if s == [] then [] else MinifyChunk(st, s[0]) + MinifyFrom(s[1..], Next(st, s[0]))
  }

  function Minify(s: string): string {
    MinifyFrom(s, Start)
  }

  /** `addIndent`: two spaces per level; a level below one adds nothing. */
  function Indent(level: int): (r: string)
    ensures forall i :: 0 <= i < |r| ==> r[i] == ' '
    decreases level
  {
    if level <= 0 then "" else "  " + Indent(level - 1)
  }

  /** The text the pretty-printer emits for `c` read in state `st` at indent `level`. */
  function PrettyChunk(st: ScanState, c: char, level: int): string
  {
    if !Structural(st, c) then [c]
    else if c == '{' || c == '[' then [c, '\n'] + Indent(level + 1)
    else if c == '}' || c == ']' then ['\n'] + Indent(level - 1) + [c]
    else if c == ',' then [c, '\n'] + Indent(level)
    else if c == ':' then ": "
    else if IsJavaWhitespace(c) then ""
    else [c]
  }

  /** The indent after reading `c`: one deeper after an opening bracket, one shallower after a closing one. */
  function NextLevel(st: ScanState, c: char, level: int): int
  {
    if Structural(st, c) && (c == '{' || c == '[') then level + 1
    else if Structural(st, c) && (c == '}' || c == ']') then level - 1
    else level
  }

  /** `prettyPrintJson` from state `st` at indent `level`. */
  function PrettyFrom(s: string, st: ScanState, level: int): string
  {
    if s == [] then []
    else PrettyChunk(st, s[0], level) + PrettyFrom(s[1..], Next(st, s[0]), NextLevel(st, s[0], level))
  }

  function Pretty(s: string): string {
    PrettyFrom(s, Start, 0)
  }

  /** `sub` is `s` with some characters left out. */
  predicate IsSubsequence(sub: string, s: string)
    decreases |s|
  {
    if sub == [] then true
    else if s == [] then false
    else if sub[0] == s[0] then IsSubsequence(sub[1..], s[1..])
    else IsSubsequence(sub, s[1..])
  }

  /** The characters of `s` that are not Java whitespace, in order. */
  function Visible(s: string): (r: string)
  {
    if s == [] then [] else (if IsJavaWhitespace(s[0]) then [] else [s[0]]) + Visible(s[1..])
  }

  lemma {:induction false} VisibleAppend(a: string, b: string)
    ensures Visible(a + b) == Visible(a) + Visible(b)
  {
    if a != [] {
      assert (a + b)[0] == a[0];
      assert (a + b)[1..] == a[1..] + b;
      VisibleAppend(a[1..], b);
      var h: string := if IsJavaWhitespace(a[0]) then [] else [a[0]];
      assert Visible(a + b) == h + Visible(a[1..] + b);
      assert h + (Visible(a[1..]) + Visible(b)) == (h + Visible(a[1..])) + Visible(b);
    } else {
      assert a + b == b;
    }
  }

  /** Minifying only ever leaves characters out. */
  lemma {:induction false} MinifyIsSubsequence(s: string, st: ScanState)
    ensures IsSubsequence(MinifyFrom(s, st), s)
  {
    if s != [] {
      var c := s[0];
      var rest := MinifyFrom(s[1..], Next(st, c));
      MinifyIsSubsequence(s[1..], Next(st, c));
      if !(Structural(st, c) && IsJavaWhitespace(c)) {
        assert MinifyFrom(s, st) == [c] + rest;
        assert ([c] + rest)[1..] == rest;
      } else {
        assert MinifyFrom(s, st) == [] + rest;
        assert [] + rest == rest;
        SubsequenceOfTail(rest, s);
      }
    }
  }

  lemma {:induction false} SubsequenceOfTail(sub: string, s: string)
    requires s != [] && IsSubsequence(sub, s[1..])
    ensures IsSubsequence(sub, s)
    decreases |s|, 0
  {
    if sub != [] && sub[0] == s[0] {
      SubsequenceDropFirst(sub, s[1..]);
    }
  }

  lemma {:induction false} SubsequenceDropFirst(sub: string, t: string)
    requires sub != [] && IsSubsequence(sub, t)
    ensures IsSubsequence(sub[1..], t)
    decreases |t|, 1
  {
    assert t != [];
    if sub[0] == t[0] {
      assert IsSubsequence(sub[1..], t[1..]);
    } else {
      SubsequenceDropFirst(sub, t[1..]);
    }
    SubsequenceOfTail(sub[1..], t);
  }

  /** Minifying keeps every character that is not whitespace: only whitespace is dropped. */
  lemma {:induction false} MinifyKeepsVisible(s: string, st: ScanState)
    ensures Visible(MinifyFrom(s, st)) == Visible(s)
  {
    if s != [] {
      var c := s[0];
      var rest := MinifyFrom(s[1..], Next(st, c));
      MinifyKeepsVisible(s[1..], Next(st, c));
      var head: string := if Structural(st, c) && IsJavaWhitespace(c) then [] else [c];
      VisibleAppend(head, rest);
      assert s == [c] + s[1..];
      VisibleAppend([c], s[1..]);
    }
  }

  /** Inside a string literal, text without quotes or backslashes is kept verbatim, whitespace included. */
  lemma {:induction false} MinifyKeepsStringBody(body: string, rest: string)
    requires '"' !in body && '\\' !in body
    ensures MinifyFrom(body + rest, ScanState(true, false)) == body + MinifyFrom(rest, ScanState(true, false))
  {
    if body != [] {
      assert (body + rest)[0] == body[0];
      assert (body + rest)[1..] == body[1..] + rest;
      MinifyKeepsStringBody(body[1..], rest);
      var inside := ScanState(true, false);
      assert MinifyFrom(body + rest, inside) == [body[0]] + MinifyFrom(body[1..] + rest, inside);
      assert [body[0]] + body[1..] == body;
    } else {
      assert body + rest == rest;
    }
  }

  /** A quoted literal without quotes or backslashes inside comes out of the minifier unchanged. */
  lemma MinifyKeepsStringLiteral(body: string, rest: string)
    requires '"' !in body && '\\' !in body
    ensures Minify("\"" + body + "\"" + rest) == "\"" + body + "\"" + Minify(rest)
  {
    var inside := ScanState(true, false);
    var s := "\"" + body + "\"" + rest;
    assert s[1..] == body + ("\"" + rest);
    MinifyKeepsStringBody(body, "\"" + rest);
    assert ("\"" + rest)[1..] == rest;
  }

  /** A backslash and the character after it are both kept, whatever that character is. */
  lemma MinifyKeepsEscape(c: char, rest: string, st: ScanState)
    requires !st.escaped
    ensures MinifyFrom(['\\', c] + rest, st) == ['\\', c] + MinifyFrom(rest, st)
  {
    assert (['\\', c] + rest)[1..] == [c] + rest;
    assert ([c] + rest)[1..] == rest;
  }

  /** Minifying a concatenation: the second part is read in the state the first leaves. */
  lemma {:induction false} MinifyAppend(a: string, b: string, st: ScanState)
    ensures MinifyFrom(a + b, st) == MinifyFrom(a, st) + MinifyFrom(b, After(a, st))
  {
    if a != [] {
      assert (a + b)[0] == a[0];
      assert (a + b)[1..] == a[1..] + b;
      MinifyAppend(a[1..], b, Next(st, a[0]));
      var h: string := if Structural(st, a[0]) && IsJavaWhitespace(a[0]) then [] else [a[0]];
      assert MinifyFrom(a + b, st) == h + MinifyFrom(a[1..] + b, Next(st, a[0]));
      assert MinifyFrom(a, st) == h + MinifyFrom(a[1..], Next(st, a[0]));
    } else {
      assert a + b == b;
    }
  }

  lemma {:induction false} AfterAppend(a: string, b: string, st: ScanState)
    ensures After(a + b, st) == After(b, After(a, st))
  {
    if a != [] {
      assert (a + b)[0] == a[0];
      assert (a + b)[1..] == a[1..] + b;
      AfterAppend(a[1..], b, Next(st, a[0]));
    } else {
      assert a + b == b;
    }
  }

  /** Whitespace read outside strings leaves no trace and no change of state. */
  lemma {:induction false} MinifyOfLayout(w: string)
    requires forall i :: 0 <= i < |w| ==> w[i] == ' ' || w[i] == '\n'
    ensures MinifyFrom(w, Start) == [] && After(w, Start) == Start
  {
    if w != [] {
      MinifyOfLayout(w[1..]);
    }
  }

  /** One step of the pretty-printer, read back by the minifier. */
  lemma ChunkMinifies(st: ScanState, c: char, level: int)
    ensures MinifyFrom(PrettyChunk(st, c, level), st) == MinifyFrom([c], st)
    ensures After(PrettyChunk(st, c, level), st) == Next(st, c)
  {
    if Structural(st, c) {
      assert st == Start;
      if c == '{' || c == '[' {
        var w := ['\n'] + Indent(level + 1);
        MinifyOfLayout(w);
        MinifyAppend([c], w, st);
        AfterAppend([c], w, st);
      } else if c == '}' || c == ']' {
        var w := ['\n'] + Indent(level - 1);
        MinifyOfLayout(w);
        MinifyAppend(w, [c], st);
        AfterAppend(w, [c], st);
      } else if c == ',' {
        var w := ['\n'] + Indent(level);
        MinifyOfLayout(w);
        MinifyAppend([c], w, st);
        AfterAppend([c], w, st);
      } else if c == ':' {
        MinifyOfLayout(" ");
        MinifyAppend([c], " ", st);
        AfterAppend([c], " ", st);
      }
    }
  }

  /**
   * Pretty-printing changes layout only: minifying its output gives the
   * same text as minifying its input, from any state and at any indent.
   */
  lemma {:induction false} PrettyThenMinify(s: string, st: ScanState, level: int)
    ensures MinifyFrom(PrettyFrom(s, st, level), st) == MinifyFrom(s, st)
  {
    if s != [] {
      var c := s[0];
      var chunk := PrettyChunk(st, c, level);
      var rest := PrettyFrom(s[1..], Next(st, c), NextLevel(st, c, level));
      ChunkMinifies(st, c, level);
      MinifyAppend(chunk, rest, st);
      PrettyThenMinify(s[1..], Next(st, c), NextLevel(st, c, level));
      assert MinifyFrom([c], st) == (if Structural(st, c) && IsJavaWhitespace(c) then [] else [c]);
    }
  }

  lemma PrettyPreservesMinified(s: string)
    ensures Minify(Pretty(s)) == Minify(s)
  {
    PrettyThenMinify(s, Start, 0);
  }

  /** Inside a string literal, the pretty-printer copies text without quotes or backslashes verbatim. */
  lemma {:induction false} PrettyKeepsStringBody(body: string, rest: string, level: int)
    requires '"' !in body && '\\' !in body
    ensures PrettyFrom(body + rest, ScanState(true, false), level)
      == body + PrettyFrom(rest, ScanState(true, false), level)
  {
    if body != [] {
      assert (body + rest)[0] == body[0];
      assert (body + rest)[1..] == body[1..] + rest;
      PrettyKeepsStringBody(body[1..], rest, level);
      var inside := ScanState(true, false);
      assert PrettyFrom(body + rest, inside, level) == [body[0]] + PrettyFrom(body[1..] + rest, inside, level);
      assert [body[0]] + body[1..] == body;
    } else {
      assert body + rest == rest;
    }
  }

  /**
   * The layout around structure outside strings: a newline and one more
   * level after `{` and `[`, a newline and one level less before `}` and
   * `]`, a newline after `,`, and a space after `:`.
   */
  lemma PrettyLayout(c: char, rest: string, level: int)
    ensures c == '{' || c == '[' ==>
      Pretty([c] + rest) == [c, '\n'] + Indent(1) + PrettyFrom(rest, Start, 1)
    ensures c == '}' || c == ']' ==>
      PrettyFrom([c] + rest, Start, level) == ['\n'] + Indent(level - 1) + [c] + PrettyFrom(rest, Start, level - 1)
    ensures c == ',' ==> PrettyFrom([c] + rest, Start, level) == [c, '\n'] + Indent(level) + PrettyFrom(rest, Start, level)
    ensures c == ':' ==> PrettyFrom([c] + rest, Start, level) == ": " + PrettyFrom(rest, Start, level)
  {
    assert ([c] + rest)[0] == c && ([c] + rest)[1..] == rest;
  }

  /** One character of the minifier, read at position `i`. */
  lemma MinifyStep(s: string, i: nat, st: ScanState)
    requires i < |s|
    ensures MinifyFrom(s[i..], st) == MinifyChunk(st, s[i]) + MinifyFrom(s[i + 1..], Next(st, s[i]))
  {
    assert s[i..][0] == s[i] && s[i..][1..] == s[i + 1..];
  }

  /** One character of the pretty-printer, read at position `i`. */
  lemma PrettyStep(s: string, i: nat, st: ScanState, level: int)
    requires i < |s|
    ensures PrettyFrom(s[i..], st, level)
      == PrettyChunk(st, s[i], level) + PrettyFrom(s[i + 1..], Next(st, s[i]), NextLevel(st, s[i], level))
  {
    assert s[i..][0] == s[i] && s[i..][1..] == s[i + 1..];
  }

  /** `minifyJson`: the character loop. */
  method MinifyJson(json: string) returns (result: string)
    ensures result == Minify(json)
  {
    result := "";
    var inString := false;
    var escaped := false;
    var i := 0;
    while i < |json|
      invariant 0 <= i <= |json|
      invariant result + MinifyFrom(json[i..], ScanState(inString, escaped)) == Minify(json)
    {
      var c := json[i];
      ghost var st := ScanState(inString, escaped);
      ghost var before := result;
      ghost var tail := MinifyFrom(json[i + 1..], Next(st, c));
      ghost var step := MinifyChunk(st, c);
      MinifyStep(json, i, st);
      assert before + (step + tail) == Minify(json);
      assert before + (step + tail) == (before + step) + tail;
      i := i + 1;
      if escaped {
        result := result + [c];
        escaped := false;
      } else if c == '\\' {
        result := result + [c];
        escaped := true;
      } else if c == '"' {
        inString := !inString;
        result := result + [c];
      } else if inString {
        result := result + [c];
      } else if !IsJavaWhitespace(c) {
        result := result + [c];
      }
      assert ScanState(inString, escaped) == Next(st, c);
      assert result == before + step;
    }
  }

  /** `addIndent`: appends two spaces per level. */
  method AddIndent(sb: string, indent: int) returns (r: string)
    ensures r == sb + Indent(indent)
  {
    r := sb;
    var i := 0;
    while i < indent
      invariant 0 <= i && (indent >= 0 ==> i <= indent)
      invariant r + Indent(indent - i) == sb + Indent(indent)
    {
      r := r + "  ";
      i := i + 1;
    }
  }

  /** The structural branch of `prettyPrintJson`'s loop: what it appends for `c` and the indent it leaves. */
  method AppendStructural(sb: string, c: char, indent: int) returns (r: string, level: int)
    requires c != '\\' && c != '"'
    ensures r == sb + PrettyChunk(Start, c, indent)
    ensures level == NextLevel(Start, c, indent)
  {
    level := indent;
    if c == '{' || c == '[' {
      r := sb + [c, '\n'];
      level := indent + 1;
      r := AddIndent(r, level);
    } else if c == '}' || c == ']' {
      r := sb + ['\n'];
      level := indent - 1;
      r := AddIndent(r, level);
      r := r + [c];
    } else if c == ',' {
      r := sb + [c, '\n'];
      r := AddIndent(r, indent);
    } else if c == ':' {
      r := sb + [c, ' '];
    } else if !IsJavaWhitespace(c) {
      r := sb + [c];
    } else {
      r := sb;
    }
  }

  /** `prettyPrintJson`: the character loop. */
  method PrettyPrintJson(json: string) returns (result: string)
    ensures result == Pretty(json)
  {
    result := "";
    var inString := false;
    var escaped := false;
    var indent := 0;
    var i := 0;
    while i < |json|
      invariant 0 <= i <= |json|
      invariant result + PrettyFrom(json[i..], ScanState(inString, escaped), indent) == Pretty(json)
    {
      var c := json[i];
      ghost var st := ScanState(inString, escaped);
      ghost var level := indent;
      ghost var before := result;
      ghost var tail := PrettyFrom(json[i + 1..], Next(st, c), NextLevel(st, c, indent));
      ghost var step := PrettyChunk(st, c, indent);
      PrettyStep(json, i, st, indent);
      assert before + (step + tail) == Pretty(json);
      assert before + (step + tail) == (before + step) + tail;
      i := i + 1;
      if escaped {
        result := result + [c];
        escaped := false;
      } else if c == '\\' {
        result := result + [c];
        escaped := true;
      } else if c == '"' {
        inString := !inString;
        result := result + [c];
      } else if inString {
        result := result + [c];
      } else {
        result, indent := AppendStructural(result, c, indent);
      }
      assert ScanState(inString, escaped) == Next(st, c);
      assert indent == NextLevel(st, c, level);
      assert result == before + step;
    }
  }
}
