/**
 * The pop-up cell editor of the first plugin version: the button text it
 * shows, which editor it opens, the "ExceptionType: message" text it reads
 * into two fields and writes back, and when an edit is committed.
 */
module CellEditor {
  import opened JavaText
  import JsonCellRenderer

  const MaxButtonLength := 50
  const DefaultExceptionType := "java.lang.RuntimeException"
  const DefaultExceptionMessage := "Mocked exception"

  /** `truncateValue`: null shows as nothing; other text is cleaned and cut to 50 characters. */
  function TruncateValue(value: JStr): (r: string)
    ensures |r| <= MaxButtonLength
    ensures value.None? ==> r == ""
    ensures value.Some? && |CleanText(value.value)| > MaxButtonLength ==> r == CleanText(value.value)[..47] + "..."
    ensures value.Some? && |CleanText(value.value)| <= MaxButtonLength ==> r == CleanText(value.value)
  {
    if value.None? then "" else Abbreviate(CleanText(value.value), MaxButtonLength)
  }

  /**
   * The button text has no whitespace runs and only plain spaces, truncated
   * or not; when it fits and `trim` only meets `\s` characters, it keeps
   * every other character of the value in order.
   */
  lemma {:induction false} TruncatedHasCleanShape(s: string)
    ensures NoSpaceRuns(TruncateValue(Some(s))) && OnlyPlainSpaces(TruncateValue(Some(s)))
    ensures TrimDropsOnlySpaces(s) && |CleanText(s)| <= MaxButtonLength ==>
      NonSpace(TruncateValue(Some(s))) == NonSpace(s)
  {
    var c := CleanText(s);
    if |c| > MaxButtonLength {
      SliceKeepsShape(c, 0, 47);
      assert c[0..47] == c[..47];
      JsonCellRenderer.DotsKeepShape(c[..47]);
    }
  }

  /** The two fields of the exception editor. */
  datatype ExceptionFields = ExceptionFields(exceptionType: string, message: string)

  /**
   * The fields `showExceptionEditor` starts from: the defaults, or the cell
   * text split at its first colon with both parts trimmed.
   */
  function ParseException(value: JStr): (r: ExceptionFields)
    ensures value.None? || ':' !in value.value ==> r == ExceptionFields(DefaultExceptionType, DefaultExceptionMessage)
    ensures value.Some? && ':' in value.value ==>
      ':' !in r.exceptionType && IsTrimmed(r.exceptionType) && IsTrimmed(r.message)
  {
    if value.Some? && ':' in value.value then
      var parts := SplitAtFirst(value.value, ':');
      TrimKeepsAbsent(parts.0, ':');
      ExceptionFields(Trim(parts.0), Trim(parts.1))
    else ExceptionFields(DefaultExceptionType, DefaultExceptionMessage)
  }

  /** The cell text an accepted exception edit writes. */
  function ComposeException(exceptionType: string, message: string): (r: string)
    ensures ':' !in exceptionType ==> ':' in r && IndexOf(r, ':') == |exceptionType|
    ensures |r| == |exceptionType| + 2 + |message| && r[|exceptionType| + 2..] == message
  {
    var r := exceptionType + ": " + message;
    assert r[|exceptionType|] == ':' && r[..|exceptionType|] == exceptionType;
    IndexOfFirst(r, ':', |exceptionType|);
    r
  }

  /** Written fields read back unchanged, as long as the type has no colon. */
  lemma ExceptionRoundTrip(exceptionType: string, message: string)
    requires ':' !in exceptionType && IsTrimmed(exceptionType) && IsTrimmed(message)
    ensures ParseException(Some(ComposeException(exceptionType, message))) == ExceptionFields(exceptionType, message)
  {
    var s := ComposeException(exceptionType, message);
    var rest := " " + message;
    assert s == exceptionType + [':'] + rest;
    assert ':' in s && SplitAtFirst(s, ':') == (exceptionType, rest) by {
      SplitAtFirstOf(exceptionType, ':', rest);
    }
    assert Trim(exceptionType) == exceptionType by { TrimOfTrimmed(exceptionType); }
    assert Trim(rest) == message by { TrimAfterBlanks(" ", message); }
    ParseOfSplit(s, exceptionType, rest);
  }

  lemma ParseOfSplit(s: string, before: string, after: string)
    requires ':' in s && SplitAtFirst(s, ':') == (before, after)
    ensures ParseException(Some(s)) == ExceptionFields(Trim(before), Trim(after))
  {
  }

  /** What the exception editor commits for a colon-free type is read back as the trimmed fields. */
  lemma ConfirmedFieldsReadBack(typeText: string, messageText: string)
    requires ':' !in typeText
    ensures ParseException(Some(ComposeException(Trim(typeText), Trim(messageText))))
      == ExceptionFields(Trim(typeText), Trim(messageText))
  {
    TrimKeepsAbsent(typeText, ':');
    ExceptionRoundTrip(Trim(typeText), Trim(messageText));
  }

  /** A colon in the type moves the rest of the type into the message. */
  lemma ColonInTypeMovesIntoMessage()
    ensures ParseException(Some(ComposeException("a:b", "m"))) == ExceptionFields("a", "b: m")
  {
    assert ComposeException("a:b", "m") == "a" + [':'] + "b: m";
    SplitAtFirstOf("a", ':', "b: m");
    assert Trim("a") == "a" by { TrimOfTrimmed("a"); }
    assert Trim("b: m") == "b: m" by { TrimOfTrimmed("b: m"); }
  }

  /** Which pop-up a click opens: the JSON editor, or the exception editor with its starting fields. */
  datatype EditorKind = JsonValueEditor | ExceptionEditor(fields: ExceptionFields)

  class JsonTableCellEditor {
    /** `currentValue`: the text being edited; null before the first edit. */
    var currentValue: JStr
    /** `currentRow`, and whether `currentTable` has been set. */
    var currentRow: int
    var hasTable: bool

    constructor()
      ensures currentValue == None && currentRow == 0 && !hasTable
    {
      currentValue := None;
      currentRow := 0;
      hasTable := false;
    }

    /** `getTableCellEditorComponent`: remembers the cell; a null cell starts as "{}". */
    method GetTableCellEditorComponent(value: JStr, row: int) returns (buttonText: string, tooltip: string)
      modifies this
      ensures hasTable && currentRow == row
      ensures currentValue == Some(if value.None? then "{}" else value.value)
      ensures buttonText == TruncateValue(currentValue)
      ensures tooltip == "Click to edit: " + currentValue.value
    {
      var text := if value.None? then "{}" else value.value;
      buttonText := TruncateValue(Some(text));
      tooltip := "Click to edit: " + text;
      hasTable, currentRow, currentValue := true, row, Some(text);
      assert hasTable && currentRow == row;
    }

    /**
     * `showJsonEditor`: the exception editor exactly when the mode column
     * of the current row reads "Exception"; `modeCell` is that column's value.
     */
    method ShowJsonEditor(modeCell: JStr) returns (k: EditorKind)
      ensures k.ExceptionEditor? <==> hasTable && currentRow >= 0 && modeCell == Some("Exception")
      ensures k.ExceptionEditor? ==> k.fields == ParseException(currentValue)
    {
      var isExceptionMode := false;
      if hasTable && currentRow >= 0 {
        isExceptionMode := modeCell == Some("Exception");
      }
      if isExceptionMode {
        k := ExceptionEditor(ParseException(currentValue));
      } else {
        k := JsonValueEditor;
      }
    }

    /** OK in the JSON editor: the edited text is committed only when the editor reports valid JSON. */
    method ConfirmJson(isValidJson: bool, edited: string)
      modifies this
      ensures currentValue == if isValidJson then Some(edited) else old(currentValue)
      ensures currentRow == old(currentRow) && hasTable == old(hasTable)
    {
      if isValidJson {
        currentValue := Some(edited);
      }
    }

    /**
     * OK in the exception editor: an empty trimmed type is refused and
     * nothing changes; otherwise "type: message" is committed, which
     * `ConfirmedFieldsReadBack` shows reopening the editor reads back.
     */
    method ConfirmException(typeText: string, messageText: string) returns (accepted: bool)
      modifies this`currentValue
      ensures accepted <==> Trim(typeText) != []
      ensures accepted ==> currentValue == Some(ComposeException(Trim(typeText), Trim(messageText)))
      ensures !accepted ==> currentValue == old(currentValue)
      ensures currentRow == old(currentRow) && hasTable == old(hasTable)
    {
      var t := Trim(typeText);
      var m := Trim(messageText);
      if t == [] {
        return false;
      }
      currentValue := Some(ComposeException(t, m));
      accepted := true;
    }
  }
}
