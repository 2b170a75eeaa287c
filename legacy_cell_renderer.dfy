/**
 * The first version of the results-table renderer: cleaned display text cut
 * at 60 characters, and a tooltip holding the whole cell text with the five
 * HTML markup characters escaped.
 */
module LegacyCellRenderer {
  import opened JavaText
  import JsonCellRenderer

  const MaxDisplayLength := 60

  /** `formatJsonForDisplay`: blank text shows "<empty>"; other text is cleaned and cut to 60 characters. */
  function DisplayText(json: JStr): (r: string)
    ensures |r| <= MaxDisplayLength
    ensures json.None? || Trim(json.value) == [] ==> r == "<empty>"
    ensures json.Some? && Trim(json.value) != [] && |CleanText(json.value)| <= MaxDisplayLength ==> r == CleanText(json.value)
  {
    if json.None? || Trim(json.value) == [] then "<empty>"
    else Abbreviate(CleanText(json.value), MaxDisplayLength)
  }

  /** Long display text becomes its first 57 characters followed by "...". */
  lemma DisplayTruncates(s: string)
    requires Trim(s) != [] && |CleanText(s)| > MaxDisplayLength
    ensures DisplayText(Some(s)) == CleanText(s)[..57] + "..."
  {
  }

  /**
   * Displayed text has no whitespace runs and only plain spaces, truncated or
   * not; when it fits and `trim` only meets `\s` characters, it keeps every
   * other character of the cell in order.
   */
  lemma {:induction false} DisplayHasCleanShape(s: string)
    requires Trim(s) != []
    ensures NoSpaceRuns(DisplayText(Some(s))) && OnlyPlainSpaces(DisplayText(Some(s)))
    ensures TrimDropsOnlySpaces(s) && |CleanText(s)| <= MaxDisplayLength ==>
      NonSpace(DisplayText(Some(s))) == NonSpace(s)
  {
    var c := CleanText(s);
    if |c| > MaxDisplayLength {
      SliceKeepsShape(c, 0, 57);
      assert c[0..57] == c[..57];
      JsonCellRenderer.DotsKeepShape(c[..57]);
    }
  }

  // ---------------------------------------------------------------------------
  // HTML escaping

  /** The replacements of `escapeHtml`, in the order it chains them: ampersand first. */
  const HtmlReplacements: seq<(char, string)> := [
    ('&', "&amp;"), ('<', "&lt;"), ('>', "&gt;"), ('"', "&quot;"), ('\'', "&#39;")]

  /** `escapeHtml`: the chain of replacements; null gives the empty text. */
  function EscapeHtml(text: JStr): (r: string)
    ensures text.None? ==> r == ""
  {
    if text.None? then "" else JsonCellRenderer.ReplaceAll(text.value, HtmlReplacements)
  }

  /** What one input character becomes once escaped. */
  function EscapeChar(c: char): string {
    match c
    case '&' => "&amp;"
    case '<' => "&lt;"
    case '>' => "&gt;"
    case '"' => "&quot;"
    case '\'' => "&#39;"
    case _ => [c]
  }

  function EscapeEach(s: string): string {
    if s == [] then [] else EscapeChar(s[0]) + EscapeEach(s[1..])
  }

  lemma EscapeOneChar(c: char)
    ensures JsonCellRenderer.ReplaceAll([c], HtmlReplacements) == EscapeChar(c)
  {
    var rs := HtmlReplacements;
    if c == '&' {
      JsonCellRenderer.ReplaceAllOne(c, rs, 0);
    } else if c == '<' {
      JsonCellRenderer.ReplaceAllOne(c, rs, 1);
    } else if c == '>' {
      JsonCellRenderer.ReplaceAllOne(c, rs, 2);
    } else if c == '"' {
      JsonCellRenderer.ReplaceAllOne(c, rs, 3);
    } else if c == '\'' {
      JsonCellRenderer.ReplaceAllOne(c, rs, 4);
    } else {
      JsonCellRenderer.ReplaceAllNone(c, rs);
    }
  }

  /** The chain escapes each character on its own: `&` goes first, so no escape is escaped again. */
  lemma {:induction false} EscapeIsPerChar(s: string)
    ensures EscapeHtml(Some(s)) == EscapeEach(s)
  {
    if s == [] {
      JsonCellRenderer.ReplaceAllAbsent(s, HtmlReplacements);
    } else {
      assert s == [s[0]] + s[1..];
      JsonCellRenderer.ReplaceAllAppend([s[0]], s[1..], HtmlReplacements);
      EscapeOneChar(s[0]);
      EscapeIsPerChar(s[1..]);
    }
  }

  /** Reading the five entities back: the inverse of escaping. */
  function Unescape(s: string): string
    decreases |s|
  {
    if s == [] then []
    else if StartsWith(s, "&amp;") then "&" + Unescape(s[5..])
    else if StartsWith(s, "&lt;") then "<" + Unescape(s[4..])
    else if StartsWith(s, "&gt;") then ">" + Unescape(s[4..])
    else if StartsWith(s, "&quot;") then "\"" + Unescape(s[6..])
    else if StartsWith(s, "&#39;") then "'" + Unescape(s[5..])
    else [s[0]] + Unescape(s[1..])
  }

  lemma UnescapeOne(c: char, rest: string)
    ensures Unescape(EscapeChar(c) + rest) == [c] + Unescape(rest)
  {
    var t := EscapeChar(c) + rest;
    if c == '&' || c == '<' || c == '>' {
      UnescapeMarkup(c, rest);
    } else if c == '"' || c == '\'' {
      UnescapeQuote(c, rest);
    } else {
      assert t[0] == c && t[1..] == rest;
      assert !StartsWith(t, "&amp;") && !StartsWith(t, "&lt;") && !StartsWith(t, "&gt;")
        && !StartsWith(t, "&quot;") && !StartsWith(t, "&#39;");
      assert Unescape(t) == [c] + Unescape(t[1..]);
    }
  }

  lemma UnescapeMarkup(c: char, rest: string)
    requires c == '&' || c == '<' || c == '>'
    ensures Unescape(EscapeChar(c) + rest) == [c] + Unescape(rest)
  {
    var t := EscapeChar(c) + rest;
    if c == '&' {
      assert t[..5] == "&amp;" && t[5..] == rest;
      assert Unescape(t) == "&" + Unescape(t[5..]);
    } else if c == '<' {
      assert t[..4] == "&lt;" && t[4..] == rest;
      assert !StartsWith(t, "&amp;") by { assert t[1] == 'l'; }
      assert Unescape(t) == "<" + Unescape(t[4..]);
    } else {
      assert t[..4] == "&gt;" && t[4..] == rest;
      assert t[1] == 'g';
      assert !StartsWith(t, "&amp;") && !StartsWith(t, "&lt;");
      assert Unescape(t) == ">" + Unescape(t[4..]);
    }
  }

  lemma UnescapeQuote(c: char, rest: string)
    requires c == '"' || c == '\''
    ensures Unescape(EscapeChar(c) + rest) == [c] + Unescape(rest)
  {
    var t := EscapeChar(c) + rest;
    if c == '"' {
      assert t[..6] == "&quot;" && t[6..] == rest;
      assert t[1] == 'q';
      assert !StartsWith(t, "&amp;") && !StartsWith(t, "&lt;") && !StartsWith(t, "&gt;");
      assert Unescape(t) == "\"" + Unescape(t[6..]);
    } else {
      assert t[..5] == "&#39;" && t[5..] == rest;
      assert t[1] == '#';
      assert !StartsWith(t, "&amp;") && !StartsWith(t, "&lt;") && !StartsWith(t, "&gt;") && !StartsWith(t, "&quot;");
      assert Unescape(t) == "'" + Unescape(t[5..]);
    }
  }

  lemma {:induction false} UnescapeEach(s: string)
    ensures Unescape(EscapeEach(s)) == s
  {
    if s != [] {
      UnescapeOne(s[0], EscapeEach(s[1..]));
      UnescapeEach(s[1..]);
      assert [s[0]] + s[1..] == s;
    }
  }

  /** Escaping loses nothing: unescaping gives the text back, whatever it contains. */
  lemma EscapeRoundTrip(s: string)
    ensures Unescape(EscapeHtml(Some(s))) == s
  {
    EscapeIsPerChar(s);
    UnescapeEach(s);
  }

  lemma EscapeCharHasNoMarkup(c: char)
    ensures var e := EscapeChar(c); '<' !in e && '>' !in e && '"' !in e && '\'' !in e
  {
  }

  lemma {:induction false} EachHasNoMarkup(s: string)
    ensures var r := EscapeEach(s); '<' !in r && '>' !in r && '"' !in r && '\'' !in r
  {
    if s != [] {
      EscapeCharHasNoMarkup(s[0]);
      EachHasNoMarkup(s[1..]);
    }
  }

  /** No raw `<`, `>`, `"` or `'` is left in escaped text. */
  lemma EscapedHasNoMarkup(s: string)
    ensures var r := EscapeHtml(Some(s)); '<' !in r && '>' !in r && '"' !in r && '\'' !in r
  {
    EscapeIsPerChar(s);
    EachHasNoMarkup(s);
  }

  // ---------------------------------------------------------------------------
  // The rendered cell

  /** The label text and the tooltip of a cell; a null cell reads as the empty text. */
  datatype Rendered = Rendered(text: string, tooltip: string)

  /** `getTableCellRendererComponent`: the short display text, and the whole text escaped in the tooltip. */
  function Render(value: JStr): (r: Rendered)
    ensures value.None? ==> r.text == "<empty>"
  {
    var text := if value.None? then "" else value.value;
    Rendered(DisplayText(Some(text)), "<html><pre>" + EscapeHtml(Some(text)) + "</pre></html>")
  }

  /** The tooltip keeps the whole text, even when the display text is truncated. */
  lemma TooltipKeepsWholeText(s: string)
    ensures var t := Render(Some(s)).tooltip;
      |t| >= 24 && t[..11] == "<html><pre>" && t[|t| - 13..] == "</pre></html>"
      && Unescape(t[11..|t| - 13]) == s
  {
    var e := EscapeHtml(Some(s));
    var t := "<html><pre>" + e + "</pre></html>";
    assert t[11..|t| - 13] == e;
    EscapeRoundTrip(s);
  }
}
