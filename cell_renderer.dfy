/**
 * The results-table renderer: the one-line display text of a JSON cell
 * (minified or whitespace-collapsed, truncated, remembered in a bounded
 * least-recently-used cache), the multi-line tooltip text, the JSON test
 * both use, and the HTML escaping applied to the tooltip.
 */
module JsonCellRenderer {
  import opened JavaText
  import opened JsonFormat

  const MaxCacheSize := 100
  const MaxDisplayLength := 200
  const TooltipMaxLength := 1000

  /** Null, or text that `trim` empties. */
  predicate IsBlank(text: JStr) {
    text.None? || Trim(text.value) == []
  }

  /** `isJson`: the trimmed text is wrapped in braces or in brackets. */
  function IsJson(text: JStr): (r: bool)
    ensures r ==> !IsBlank(text)
    ensures r <==> (!IsBlank(text) &&
      var t := Trim(text.value);
      |t| >= 2 && ((t[0] == '{' && t[|t| - 1] == '}') || (t[0] == '[' && t[|t| - 1] == ']')))
  {
    if IsBlank(text) then false
    else
      var t := Trim(text.value);
      (StartsWith(t, "{") && EndsWith(t, "}")) || (StartsWith(t, "[") && EndsWith(t, "]"))
  }

  /** `formatJsonForDisplay` without the cache: minified JSON or cleaned text, at most 200 characters. */
  function DisplayText(json: JStr): (r: string)
    ensures |r| <= MaxDisplayLength
    ensures IsBlank(json) ==> r == "<empty>"
    ensures IsJson(json) && |Minify(json.value)| <= MaxDisplayLength ==> r == Minify(json.value)
    ensures !IsBlank(json) && !IsJson(json) && |CleanText(json.value)| <= MaxDisplayLength ==> r == CleanText(json.value)
  {
    if IsBlank(json) then "<empty>"
    else Abbreviate(if IsJson(json) then Minify(json.value) else CleanText(json.value), MaxDisplayLength)
  }

  /** `formatJsonForTooltip`: pretty-printed JSON or the text as given, at most 1000 characters. */
  function TooltipText(json: JStr): (r: string)
    ensures |r| <= TooltipMaxLength
    ensures IsBlank(json) ==> r == "<empty>"
    ensures IsJson(json) && |Pretty(json.value)| <= TooltipMaxLength ==> r == Pretty(json.value)
    ensures !IsBlank(json) && !IsJson(json) ==> r == Abbreviate(json.value, TooltipMaxLength)
    ensures !IsBlank(json) && !IsJson(json) && |json.value| <= TooltipMaxLength ==> r == json.value
  {
    if IsBlank(json) then "<empty>"
    else Abbreviate(if IsJson(json) then Pretty(json.value) else json.value, TooltipMaxLength)
  }

  /** Long display text is cut to its first 197 characters followed by "..."; short text is shown whole. */
  lemma DisplayTruncates(s: string)
    requires !IsBlank(Some(s))
    ensures var full := if IsJson(Some(s)) then Minify(s) else CleanText(s);
      var r := DisplayText(Some(s));
      && (|full| > MaxDisplayLength ==> |r| == MaxDisplayLength && r[..197] == full[..197] && r[197..] == "...")
      && (|full| <= MaxDisplayLength ==> r == full)
  {
  }

  /** Short JSON is displayed minified: a subsequence of the input with every visible character kept. */
  lemma {:induction false} DisplayOfJson(s: string)
    requires IsJson(Some(s)) && |Minify(s)| <= MaxDisplayLength
    ensures IsSubsequence(DisplayText(Some(s)), s)
    ensures Visible(DisplayText(Some(s))) == Visible(s)
  {
    MinifyIsSubsequence(s, Start);
    MinifyKeepsVisible(s, Start);
  }

  /** Text followed by "..." keeps the shape of cleaned text. */
  lemma DotsKeepShape(p: string)
    requires NoSpaceRuns(p) && OnlyPlainSpaces(p)
    ensures NoSpaceRuns(p + "...") && OnlyPlainSpaces(p + "...")
  {
    var t := p + "...";
    forall i, j | 0 <= i < j < |t| && j == i + 1
      ensures !(IsRegexSpace(t[i]) && IsRegexSpace(t[j]))
    {
      if j < |p| {
        assert t[i] == p[i] && t[j] == p[j];
      } else {
        assert t[j] == '.';
      }
    }
  }

  /**
   * Displayed plain text is the cleaned text, whole or cut: no whitespace
   * runs, only plain spaces, and, when it fits and `trim` only meets `\s`
   * characters, every other character of the cell in order.
   */
  lemma {:induction false} DisplayOfPlainText(s: string)
    requires !IsBlank(Some(s)) && !IsJson(Some(s))
    ensures NoSpaceRuns(DisplayText(Some(s))) && OnlyPlainSpaces(DisplayText(Some(s)))
    ensures var c := CleanText(s);
      DisplayText(Some(s)) == c || DisplayText(Some(s)) == c[..197] + "..."
    ensures TrimDropsOnlySpaces(s) && |CleanText(s)| <= MaxDisplayLength ==>
      NonSpace(DisplayText(Some(s))) == NonSpace(s)
  {
    var c := CleanText(s);
    if |c| > MaxDisplayLength {
      SliceKeepsShape(c, 0, 197);
      assert c[0..197] == c[..197];
      DotsKeepShape(c[..197]);
    }
  }

  /** The tooltip and the display show the same JSON: minifying the tooltip gives the display text. */
  lemma {:induction false} TooltipAgreesWithDisplay(s: string)
    requires IsJson(Some(s)) && |Pretty(s)| <= TooltipMaxLength && |Minify(s)| <= MaxDisplayLength
    ensures Minify(TooltipText(Some(s))) == DisplayText(Some(s))
  {
    PrettyPreservesMinified(s);
  }

  // ---------------------------------------------------------------------------
  // HTML escaping

  /** `String.replace` of one character by a text. */
  function ReplaceChar(s: string, c: char, rep: string): (r: string)
    ensures c !in rep ==> c !in r
  {
    if s == [] then [] else (if s[0] == c then rep else [s[0]]) + ReplaceChar(s[1..], c, rep)
  }

  lemma {:induction false} ReplaceAppend(a: string, b: string, c: char, rep: string)
    ensures ReplaceChar(a + b, c, rep) == ReplaceChar(a, c, rep) + ReplaceChar(b, c, rep)
  {
    if a == [] {
      assert a + b == b;
    } else {
      assert (a + b)[0] == a[0] && (a + b)[1..] == a[1..] + b;
      ReplaceAppend(a[1..], b, c, rep);
      var h := if a[0] == c then rep else [a[0]];
      assert ReplaceChar(a + b, c, rep) == h + ReplaceChar(a[1..] + b, c, rep);
      assert h + (ReplaceChar(a[1..], c, rep) + ReplaceChar(b, c, rep))
        == (h + ReplaceChar(a[1..], c, rep)) + ReplaceChar(b, c, rep);
    }
  }

  /** Replacing a character a text does not contain changes nothing. */
  lemma {:induction false} ReplaceAbsent(s: string, c: char, rep: string)
    requires c !in s
    ensures ReplaceChar(s, c, rep) == s
  {
    if s != [] {
      assert s == [s[0]] + s[1..];
      ReplaceAbsent(s[1..], c, rep);
    }
  }

  /** A run of `String.replace` calls, applied in order. */
  function ReplaceAll(s: string, rs: seq<(char, string)>): string
    decreases |rs|
  {
    if rs == [] then s else ReplaceAll(ReplaceChar(s, rs[0].0, rs[0].1), rs[1..])
  }

  /** The non-breaking space entity; a tab becomes four of them. */
  const Nbsp := "&nbsp;"

  /** The replacements of `escapeHtml`, in the order it chains them: ampersand first. */
  const HtmlReplacements: seq<(char, string)> := [
    ('&', "&amp;"), ('<', "&lt;"), ('>', "&gt;"), ('"', "&quot;"), ('\'', "&#39;"),
    (' ', Nbsp), ('\n', "<br>"), ('\t', Nbsp + Nbsp + Nbsp + Nbsp)]

  /** `escapeHtml`: the chain of replacements; null gives the empty text. */
  function EscapeHtml(text: JStr): (r: string)
    ensures text.None? ==> r == ""
  {
    if text.None? then "" else ReplaceAll(text.value, HtmlReplacements)
  }

  lemma {:induction false} ReplaceAllAppend(a: string, b: string, rs: seq<(char, string)>)
    ensures ReplaceAll(a + b, rs) == ReplaceAll(a, rs) + ReplaceAll(b, rs)
    decreases |rs|
  {
    if rs != [] {
      ReplaceAppend(a, b, rs[0].0, rs[0].1);
      ReplaceAllAppend(ReplaceChar(a, rs[0].0, rs[0].1), ReplaceChar(b, rs[0].0, rs[0].1), rs[1..]);
    }
  }

  /** A text none of whose characters is replaced comes through unchanged. */
  lemma {:induction false} ReplaceAllAbsent(s: string, rs: seq<(char, string)>)
    requires forall i :: 0 <= i < |rs| ==> rs[i].0 !in s
    ensures ReplaceAll(s, rs) == s
  {
    if rs != [] {
      ReplaceAbsent(s, rs[0].0, rs[0].1);
      assert forall i :: 0 <= i < |rs[1..]| ==> rs[1..][i] == rs[i + 1];
      ReplaceAllAbsent(s, rs[1..]);
    }
  }

  /**
   * A character first replaced by step `j` becomes that step's text, as long
   * as no later step replaces a character of it.
   */
  lemma {:induction false} ReplaceAllOne(c: char, rs: seq<(char, string)>, j: nat)
    requires j < |rs| && rs[j].0 == c
    requires forall i :: 0 <= i < j ==> rs[i].0 != c
    requires forall i :: j < i < |rs| ==> rs[i].0 !in rs[j].1
    ensures ReplaceAll([c], rs) == rs[j].1
  {
    assert [c][0] == c && [c][1..] == [];
    if j == 0 {
      assert ReplaceChar([c], c, rs[0].1) == rs[0].1 + [];
      assert rs[0].1 + [] == rs[0].1;
      assert forall i :: 0 <= i < |rs[1..]| ==> rs[1..][i] == rs[i + 1];
      ReplaceAllAbsent(rs[0].1, rs[1..]);
    } else {
      assert [c] + [] == [c];
      assert forall i :: 0 <= i < |rs[1..]| ==> rs[1..][i] == rs[i + 1];
      assert ReplaceChar([c], rs[0].0, rs[0].1) == [c] + [];
      ReplaceAllOne(c, rs[1..], j - 1);
    }
  }

  /** A character no step replaces comes through unchanged. */
  lemma ReplaceAllNone(c: char, rs: seq<(char, string)>)
    requires forall i :: 0 <= i < |rs| ==> rs[i].0 != c
    ensures ReplaceAll([c], rs) == [c]
  {
    ReplaceAllAbsent([c], rs);
  }

  /** What one input character becomes once escaped. */
  function EscapeChar(c: char): string {
    match c
    case '&' => "&amp;"
    case '<' => "&lt;"
    case '>' => "&gt;"
    case '"' => "&quot;"
    case '\'' => "&#39;"
    case ' ' => Nbsp
    case '\n' => "<br>"
    case '\t' => Nbsp + Nbsp + Nbsp + Nbsp
    case _ => [c]
  }

  /** Escaping character by character, the reference the chain of replacements is checked against. */
  function EscapeEach(s: string): string {
    if s == [] then [] else EscapeChar(s[0]) + EscapeEach(s[1..])
  }

  /** A single character goes through the chain of replacements to exactly its escape. */
  lemma EscapeOneChar(c: char)
    ensures ReplaceAll([c], HtmlReplacements) == EscapeChar(c)
  {
    if c == '&' || c == '<' || c == '>' {
      EscapeMarkupChar(c);
    } else if c == '"' || c == '\'' {
      EscapeQuoteChar(c);
    } else if c == ' ' || c == '\n' || c == '\t' {
      EscapeLayoutChar(c);
    } else {
      ReplaceAllNone(c, HtmlReplacements);
    }
  }

  lemma EscapeMarkupChar(c: char)
    requires c == '&' || c == '<' || c == '>'
    ensures ReplaceAll([c], HtmlReplacements) == EscapeChar(c)
  {
    var rs := HtmlReplacements;
    if c == '&' {
      ReplaceAllOne(c, rs, 0);
    } else if c == '<' {
      ReplaceAllOne(c, rs, 1);
    } else {
      ReplaceAllOne(c, rs, 2);
    }
  }

  lemma EscapeQuoteChar(c: char)
    requires c == '"' || c == '\''
    ensures ReplaceAll([c], HtmlReplacements) == EscapeChar(c)
  {
    var rs := HtmlReplacements;
    if c == '"' {
      ReplaceAllOne(c, rs, 3);
    } else {
      ReplaceAllOne(c, rs, 4);
    }
  }

  lemma EscapeLayoutChar(c: char)
    requires c == ' ' || c == '\n' || c == '\t'
    ensures ReplaceAll([c], HtmlReplacements) == EscapeChar(c)
  {
    var rs := HtmlReplacements;
    if c == ' ' {
      ReplaceAllOne(c, rs, 5);
    } else if c == '\n' {
      ReplaceAllOne(c, rs, 6);
    } else {
      ReplaceAllOne(c, rs, 7);
    }
  }

  /** The chain of replacements escapes each character on its own: no replacement rewrites another's output. */
  lemma {:induction false} EscapeIsPerChar(s: string)
    ensures EscapeHtml(Some(s)) == EscapeEach(s)
  {
    if s == [] {
      ReplaceAllAbsent(s, HtmlReplacements);
    } else {
      assert s == [s[0]] + s[1..];
      ReplaceAllAppend([s[0]], s[1..], HtmlReplacements);
      EscapeOneChar(s[0]);
      EscapeIsPerChar(s[1..]);
    }
  }

  /** The characters one escape never contains. */
  lemma EscapeCharIsSafe(c: char)
    ensures var e := EscapeChar(c);
      '"' !in e && '\'' !in e && ' ' !in e && '\t' !in e && '\n' !in e
      && (c != '\n' ==> '<' !in e && '>' !in e)
  {
  }

  lemma {:induction false} EachIsSafe(s: string)
    ensures var r := EscapeEach(s);
      '"' !in r && '\'' !in r && ' ' !in r && '\t' !in r && '\n' !in r
      && ((forall i :: 0 <= i < |s| ==> s[i] != '\n') ==> '<' !in r && '>' !in r)
  {
    if s != [] {
      EscapeCharIsSafe(s[0]);
      EachIsSafe(s[1..]);
      assert forall i :: 0 <= i < |s[1..]| ==> s[1..][i] == s[i + 1];
    }
  }

  /** No quote, apostrophe, space, tab or newline is left in escaped text. */
  lemma EscapedHasNoRawSpecials(s: string)
    ensures var r := EscapeHtml(Some(s));
      '"' !in r && '\'' !in r && ' ' !in r && '\t' !in r && '\n' !in r
  {
    EscapeIsPerChar(s);
    EachIsSafe(s);
  }

  /** Without newlines in the input, escaped text has no angle brackets: only "<br>" brings one back. */
  lemma EscapedHasNoTags(s: string)
    requires forall i :: 0 <= i < |s| ==> s[i] != '\n'
    ensures '<' !in EscapeHtml(Some(s)) && '>' !in EscapeHtml(Some(s))
  {
    EscapeIsPerChar(s);
    EachIsSafe(s);
  }

  /** An ampersand is replaced first, so an escaped character is never escaped a second time. */
  lemma AmpersandFirst()
    ensures EscapeHtml(Some("<")) == "&lt;"
    ensures EscapeHtml(Some("&lt;")) == "&amp;lt;"
  {
    EscapeIsPerChar("<");
    EscapeIsPerChar("&lt;");
    assert EscapeEach("<") == "&lt;" by {
      assert EscapeEach("<") == EscapeChar('<') + EscapeEach("");
    }
    assert EscapeEach("lt;") == "lt;" by {
      assert EscapeEach(";") == ";" + EscapeEach("");
      assert EscapeEach("t;") == "t" + EscapeEach(";");
      assert EscapeEach("lt;") == "l" + EscapeEach("t;");
    }
    assert EscapeEach("&lt;") == "&amp;lt;" by {
      assert EscapeEach("&lt;") == EscapeChar('&') + EscapeEach("lt;");
    }
  }

  /** A tab and four spaces escape to the same text: the tooltip cannot tell them apart. */
  lemma TabLooksLikeFourSpaces()
    ensures EscapeHtml(Some("\t")) == EscapeHtml(Some("    "))
  {
    EscapeIsPerChar("\t");
    EscapeIsPerChar("    ");
    assert EscapeEach("\t") == EscapeChar('\t') + EscapeEach("");
    assert EscapeEach("    ") == Nbsp + EscapeEach("   ");
    assert EscapeEach("   ") == Nbsp + EscapeEach("  ");
    assert EscapeEach("  ") == Nbsp + EscapeEach(" ");
    assert EscapeEach(" ") == Nbsp + EscapeEach("");
  }

  // ---------------------------------------------------------------------------
  // The format cache

  /** One cached display text under its input text. */
  datatype CacheEntry = CacheEntry(key: string, value: string)

  predicate DistinctKeys(c: seq<CacheEntry>) {
    forall i, j :: 0 <= i < j < |c| ==> c[i].key != c[j].key
  }

  /** `containsKey`: where key `k` sits in the cache, eldest first. */
  function FindKey(c: seq<CacheEntry>, k: string): (r: Option<nat>)
    ensures r.Some? ==> r.value < |c| && c[r.value].key == k
    ensures r.None? ==> forall i :: 0 <= i < |c| ==> c[i].key != k
  {
    if c == [] then None
    else if c[|c| - 1].key == k then Some(|c| - 1)
    else FindKey(c[..|c| - 1], k)
  }

  /**
   * The access-ordered cache after a display of `k` whose text is `v`: a
   * hit moves the entry to the most recent end; a miss appends it and, past
   * the capacity, drops the eldest entry.
   */
  function Touch(c: seq<CacheEntry>, k: string, v: string): seq<CacheEntry>
  {
    match FindKey(c, k)
    case Some(i) => c[..i] + c[i + 1..] + [c[i]]
    case None =>
      var d := c + [CacheEntry(k, v)];
      if |d| > MaxCacheSize then d[1..] else d
  }

  /** The cache stays within its capacity, keeps distinct keys, ends with `k`, and holds only old entries and the new one. */
  lemma TouchKeepsShape(c: seq<CacheEntry>, k: string, v: string)
    requires |c| <= MaxCacheSize && DistinctKeys(c)
    ensures var t := Touch(c, k, v);
      |t| <= MaxCacheSize && DistinctKeys(t) && t != [] && t[|t| - 1].key == k
      && (forall e :: e in t ==> e in c || e == CacheEntry(k, v))
  {
    var t := Touch(c, k, v);
    match FindKey(c, k)
    case Some(i) =>
      forall a, b | 0 <= a < b < |t| ensures t[a].key != t[b].key {
        var ia := if a < i then a else a + 1;
        var ib := if b < i then b else if b < |t| - 1 then b + 1 else i;
        assert t[a] == c[ia] && t[b] == c[ib];
      }
    case None =>
      var d := c + [CacheEntry(k, v)];
      assert DistinctKeys(d) by {
        forall a, b | 0 <= a < b < |d| ensures d[a].key != d[b].key {
          if b < |c| {
            assert d[a] == c[a] && d[b] == c[b];
          }
        }
      }
  }

  /** A hit loses nothing: the same entries, in a new order. */
  lemma TouchHitKeepsEntries(c: seq<CacheEntry>, k: string, v: string)
    requires FindKey(c, k).Some?
    ensures multiset(Touch(c, k, v)) == multiset(c)
  {
    var i := FindKey(c, k).value;
    var before, after := c[..i], c[i + 1..];
    assert c == before + [c[i]] + after;
    assert Touch(c, k, v) == before + after + [c[i]];
    calc {
      multiset(Touch(c, k, v));
      multiset(before) + multiset(after) + multiset([c[i]]);
      multiset(before) + multiset([c[i]]) + multiset(after);
      multiset(c);
    }
  }

  /** A miss on a full cache evicts exactly the least recently used entry and keeps every other one. */
  lemma TouchEvictsEldest(c: seq<CacheEntry>, k: string, v: string)
    requires |c| == MaxCacheSize && DistinctKeys(c) && FindKey(c, k).None?
    ensures c[0] !in Touch(c, k, v)
    ensures forall i :: 1 <= i < |c| ==> c[i] in Touch(c, k, v)
    ensures CacheEntry(k, v) in Touch(c, k, v)
  {
    var t := Touch(c, k, v);
    assert t == c[1..] + [CacheEntry(k, v)];
    forall j | 0 <= j < |t| ensures t[j] != c[0] {
      if j < |c| - 1 {
        assert t[j] == c[j + 1];
      }
    }
    forall i | 1 <= i < |c| ensures c[i] in t {
      assert t[i - 1] == c[i];
    }
    assert t[|t| - 1] == CacheEntry(k, v);
  }

  /** A miss on a cache with room keeps every entry and adds the new one last. */
  lemma TouchMissWithRoom(c: seq<CacheEntry>, k: string, v: string)
    requires |c| < MaxCacheSize && FindKey(c, k).None?
    ensures |Touch(c, k, v)| == |c| + 1
    ensures Touch(c, k, v)[..|c|] == c && Touch(c, k, v)[|c|] == CacheEntry(k, v)
  {
  }

  class JsonTableCellRenderer {
    /** `formatCache`: the cached display texts, least recently used first. */
    var formatCache: seq<CacheEntry>

    /** At most 100 entries, one per key, each holding exactly the display text of its key. */
    ghost predicate Valid()
      reads this
    {
      |formatCache| <= MaxCacheSize && DistinctKeys(formatCache)
      && forall e :: e in formatCache ==> e.value == DisplayText(Some(e.key))
    }

    constructor()
      ensures Valid() && formatCache == []
    {
      formatCache := [];
    }

    /**
     * `formatJsonForDisplay`: the answer never depends on what is cached;
     * blank text leaves the cache alone, any other text is touched in it.
     */
    method FormatJsonForDisplay(json: JStr) returns (r: string)
      requires Valid()
      modifies this
      ensures Valid()
      ensures r == DisplayText(json)
      ensures IsBlank(json) ==> formatCache == old(formatCache)
      ensures !IsBlank(json) ==> formatCache == Touch(old(formatCache), json.value, r)
    {
      if json.None? || Trim(json.value) == [] {
        return "<empty>";
      }
      var s := json.value;
      ghost var before := formatCache;
      var found := FindKey(formatCache, s);
      if found.Some? {
        var i := found.value;
        r := formatCache[i].value;
        assert formatCache[i] in formatCache;
        assert r == DisplayText(json);
        formatCache := formatCache[..i] + formatCache[i + 1..] + [formatCache[i]];
      } else {
        var result := FreshDisplayText(json);
        r := result;
        formatCache := formatCache + [CacheEntry(s, result)];
        if |formatCache| > MaxCacheSize {
          formatCache := formatCache[1..];
        }
      }
      assert formatCache == Touch(before, s, r);
      TouchKeepsShape(before, s, r);
      forall e | e in formatCache
        ensures e.value == DisplayText(Some(e.key))
      {
        assert e in before || e == CacheEntry(s, r);
      }
    }

    /** The uncached path of `formatJsonForDisplay`: minify or clean, then truncate. */
    static method FreshDisplayText(json: JStr) returns (result: string)
      requires !IsBlank(json)
      ensures result == DisplayText(json)
    {
      var s := json.value;
      ghost var full := if IsJson(json) then Minify(s) else CleanText(s);
      assert DisplayText(json) == Abbreviate(full, MaxDisplayLength);
      if IsJson(json) {
        result := MinifyJson(s);
      } else {
        result := CleanText(s);
      }
      assert result == full;
      if |result| > MaxDisplayLength {
        result := result[..MaxDisplayLength - 3] + "...";
      }
    }

    /** `formatJsonForTooltip`: nothing is cached. */
    method FormatJsonForTooltip(json: JStr) returns (r: string)
      ensures r == TooltipText(json)
    {
      if json.None? || Trim(json.value) == [] {
        return "<empty>";
      }
      if IsJson(json) {
        r := PrettyPrintJson(json.value);
      } else {
        r := json.value;
      }
      if |r| > TooltipMaxLength {
        r := r[..TooltipMaxLength - 3] + "...";
      }
    }
  }

  /** Displaying the same text twice gives the same answer, the second time from the cache. */
  method DisplayTwice(json: string)
    requires !IsBlank(Some(json))
  {
    var renderer := new JsonTableCellRenderer();
    var first := renderer.FormatJsonForDisplay(Some(json));
    assert |renderer.formatCache| == 1;
    var second := renderer.FormatJsonForDisplay(Some(json));
    assert first == second;
    assert renderer.formatCache == [CacheEntry(json, first)];
  }
}
