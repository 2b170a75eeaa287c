/**
 * The mock tool window: a six-column table over the stored specs, whose
 * Enabled, Mode and Value cells write straight into the spec objects; the
 * Previous/Next page state; the global enable toggle; and the stats line.
 */
module ToolWindow {
  import opened JavaText
  import opened MethodSpec
  import CellEditor

  const PageSize := 20

  // ---------------------------------------------------------------------------
  // What a table row shows and what editing a cell does, on spec values

  /** The fields of one spec at one moment. */
  datatype SpecFields = SpecFields(
    className: JStr, methodName: JStr, signature: JStr,
    returnValue: JStr, returnType: JStr, enabled: bool,
    throwException: bool, exceptionType: JStr, exceptionMessage: JStr)

  function Snapshot(m: MockMethodConfig): SpecFields
    reads m
  {
    SpecFields(m.className, m.methodName, m.signature, m.returnValue, m.returnType,
      m.enabled, m.throwException, m.exceptionType, m.exceptionMessage)
  }

  /** A table cell as `getValueAt` hands it out; `NullDereference` stands for the exception a null class name raises. */
  datatype CellValue = Null | Flag(b: bool) | Text(s: string) | NullDereference

  function FromJStr(s: JStr): CellValue {
    if s.None? then Null else Text(s.value)
  }

  /** The Class column: the class name after its last dot; the whole name when it has none. */
  function SimpleClassName(name: string): (r: string)
    ensures EndsWith(name, r) && '.' !in r
    ensures |r| < |name| ==> name[|name| - |r| - 1] == '.'
  {
    var i := LastIndexOf(name, '.');
    var r := name[i + 1..];
    assert EndsWith(name, r) && '.' !in r && (|r| < |name| ==> name[|name| - |r| - 1] == '.') by {
      assert |name| - |r| == i + 1;
    }
    r
  }

  const ModeException := "Exception"
  const ModeReturnValue := "Return Value"

  /** `isCellEditable`: only the Enabled, Mode and Value columns. */
  predicate IsCellEditable(column: int) {
    column == 0 || column == 4 || column == 5
  }

  /** The Value column in exception mode: type and message around ": ", null parts written "null". */
  function ExceptionCell(s: SpecFields): string {
    CellEditor.ComposeException(Show(s.exceptionType), Show(s.exceptionMessage))
  }

  /** `getValueAt` for a row that exists. */
  function CellAt(s: SpecFields, column: int): (r: CellValue)
    ensures column == 0 ==> r == Flag(s.enabled)
    ensures r.NullDereference? <==> column == 1 && s.className.None?
    ensures column == 1 && s.className.Some? ==> r == Text(SimpleClassName(s.className.value))
    ensures column == 2 ==> r == FromJStr(s.methodName)
    ensures column == 3 ==> r == FromJStr(s.signature)
    ensures column == 4 ==> (r == Text(ModeException) <==> s.throwException)
    ensures column == 5 && s.throwException ==> r.Text? && |r.s| >= 2
    ensures column == 5 && s.throwException ==>
      r == Text(CellEditor.ComposeException(Show(s.exceptionType), Show(s.exceptionMessage)))
    ensures column == 5 && !s.throwException ==> r == FromJStr(s.returnValue)
    ensures column < 0 || column > 5 ==> r == Null
  {
    if column == 0 then Flag(s.enabled)
    else if column == 1 then
      if s.className.None? then NullDereference else Text(SimpleClassName(s.className.value))
    else if column == 2 then FromJStr(s.methodName)
    else if column == 3 then FromJStr(s.signature)
    else if column == 4 then Text(if s.throwException then ModeException else ModeReturnValue)
    else if column == 5 then
      if s.throwException then Text(ExceptionCell(s)) else FromJStr(s.returnValue)
    else Null
  }

  /** What the value handed to `setValueAt` must be for the cast or `toString` of that column to succeed. */
  predicate Fits(value: CellValue, column: int) {
    (column == 0 ==> value.Flag?) && (column == 4 || column == 5 ==> value.Text?)
  }

  /**
   * `setValueAt` on a row that exists: the Enabled flag, the mode (exception
   * exactly for "Exception"), or the value — the return value in value
   * mode; in exception mode the text split at its first colon into a
   * trimmed type and message, or only the message when it has no colon.
   */
  function EditedSpec(s: SpecFields, value: CellValue, column: int): (r: SpecFields)
    requires Fits(value, column)
    ensures !IsCellEditable(column) ==> r == s
    ensures r.className == s.className && r.methodName == s.methodName
      && r.signature == s.signature && r.returnType == s.returnType
    ensures column == 4 ==> (r.throwException <==> value.s == ModeException)
    ensures column != 4 ==> r.throwException == s.throwException
    ensures column == 0 ==> r == s.(enabled := value.b)
    ensures column == 5 && s.throwException && ':' in value.s ==>
      r.exceptionType.Some? && ':' !in r.exceptionType.value
    ensures column == 5 && s.throwException && ':' in value.s ==>
      var f := CellEditor.ParseException(Some(value.s));
      r == s.(exceptionType := Some(f.exceptionType), exceptionMessage := Some(f.message))
    ensures column == 5 && s.throwException && ':' !in value.s ==> r == s.(exceptionMessage := Some(value.s))
    ensures column == 5 && !s.throwException ==> r == s.(returnValue := Some(value.s))
  {
    if column == 0 then s.(enabled := value.b)
    else if column == 4 then s.(throwException := value.s == ModeException)
    else if column == 5 then
      if !s.throwException then s.(returnValue := Some(value.s))
      else if ':' in value.s then
        var f := CellEditor.ParseException(Some(value.s));
        s.(exceptionType := Some(f.exceptionType), exceptionMessage := Some(f.message))
      else s.(exceptionMessage := Some(value.s))
    else s
  }

  /**
   * Writing back what an editable cell shows changes nothing, provided the
   * exception type has no colon and type and message are already trimmed
   * (otherwise the split and the trimming change them), and a value-mode
   * return value is not null.
   */
  lemma ShownValueEditsBack(s: SpecFields, column: int)
    requires IsCellEditable(column)
    requires column == 5 && s.throwException ==>
      s.exceptionType.Some? && s.exceptionMessage.Some?
      && ':' !in s.exceptionType.value
      && IsTrimmed(s.exceptionType.value) && IsTrimmed(s.exceptionMessage.value)
    requires column == 5 && !s.throwException ==> s.returnValue.Some?
    ensures Fits(CellAt(s, column), column)
    ensures EditedSpec(s, CellAt(s, column), column) == s
  {
    if column == 5 && s.throwException {
      var t := s.exceptionType.value;
      var m := s.exceptionMessage.value;
      assert ExceptionCell(s) == CellEditor.ComposeException(t, m);
      assert ':' in ExceptionCell(s) by { assert ExceptionCell(s)[|t|] == ':'; }
      CellEditor.ExceptionRoundTrip(t, m);
    }
  }

  /** A value `setValueAt` accepts for `column` that differs from what the row holds there. */
  function ChangingEdit(s: SpecFields, column: int): CellValue {
    if column == 0 then Flag(!s.enabled)
    else if column == 4 then Text(if s.throwException then ModeReturnValue else ModeException)
    else if s.throwException then Text(if s.exceptionMessage == Some("a") then "b" else "a")
    else Text(if s.returnValue == Some("a") then "b" else "a")
  }

  /**
   * The editable columns are exactly those an edit can change: each of them
   * takes some value that alters the row, and every other column leaves the
   * row as it was whatever value is written.
   */
  lemma EditableColumnsTakeEdits(s: SpecFields, column: int)
    ensures IsCellEditable(column) ==>
      Fits(ChangingEdit(s, column), column) && EditedSpec(s, ChangingEdit(s, column), column) != s
    ensures !IsCellEditable(column) ==> forall v :: Fits(v, column) ==> EditedSpec(s, v, column) == s
  {
    if column == 5 && s.throwException {
      var v := ChangingEdit(s, column);
      assert ':' !in v.s;
    }
  }

  /** A type with a colon does not survive writing back its own cell. */
  lemma ColonInTypeIsSplit()
    ensures var s := SpecFields(None, None, None, None, None, true, true, Some("a:b"), Some("m"));
      EditedSpec(s, CellAt(s, 5), 5).exceptionType == Some("a")
  {
    var s := SpecFields(None, None, None, None, None, true, true, Some("a:b"), Some("m"));
    assert ExceptionCell(s) == CellEditor.ComposeException("a:b", "m");
    assert ExceptionCell(s)[1] == ':';
    CellEditor.ColonInTypeMovesIntoMessage();
  }

  // ---------------------------------------------------------------------------
  // The table model

  class MockTableModel {
    /** `mockMethods`: a copy of the stored list, holding the same spec objects. */
    var mockMethods: seq<MockMethodConfig>

    constructor()
      ensures mockMethods == []
    {
      mockMethods := [];
    }

    method SetMockMethods(methods: seq<MockMethodConfig>)
      modifies this
      ensures mockMethods == methods
    {
      mockMethods := methods;
    }

    /** `getValueAt`: null past the last row. */
    function ValueAt(row: nat, column: int): (r: CellValue)
      reads this, mockMethods
      ensures row >= |mockMethods| ==> r == Null
      ensures row < |mockMethods| ==> r == CellAt(Snapshot(mockMethods[row]), column)
    {
      if row >= |mockMethods| then Null else CellAt(Snapshot(mockMethods[row]), column)
    }

    /**
     * `setValueAt`: the spec on that row takes the edit; every other spec,
     * and every spec when the row does not exist, stays as it was.
     */
    method SetValueAt(value: CellValue, row: nat, column: int)
      requires Fits(value, column)
      modifies mockMethods
      ensures row < |mockMethods| ==>
        Snapshot(mockMethods[row]) == EditedSpec(old(Snapshot(mockMethods[row])), value, column)
      ensures forall i | 0 <= i < |mockMethods| && (row >= |mockMethods| || mockMethods[i] != mockMethods[row]) ::
        unchanged(mockMethods[i])
    {
      if row < |mockMethods| {
        EditSpec(mockMethods[row], value, column);
      }
    }
  }

  /** The body of `setValueAt` once the row's spec is found: only that spec changes, by the edit. */
  method EditSpec(m: MockMethodConfig, value: CellValue, column: int)
    requires Fits(value, column)
    modifies m
    ensures Snapshot(m) == EditedSpec(old(Snapshot(m)), value, column)
  {
    ghost var before := Snapshot(m);
    if column == 0 {
      m.SetEnabled(value.b);
      assert Snapshot(m) == before.(enabled := value.b);
    } else if column == 4 {
      var isException := value.s == ModeException;
      m.SetThrowException(isException);
      assert Snapshot(m) == before.(throwException := isException);
    } else if column == 5 {
      if m.throwException {
        EditExceptionValue(m, value.s);
      } else {
        m.SetReturnValue(Some(value.s));
        assert Snapshot(m) == before.(returnValue := Some(value.s));
      }
    }
  }

  /** The Value column in exception mode: split at the first colon, or the message alone. */
  method EditExceptionValue(m: MockMethodConfig, text: string)
    requires m.throwException
    modifies m
    ensures Snapshot(m) == EditedSpec(old(Snapshot(m)), Text(text), 5)
  {
    ghost var before := Snapshot(m);
    if ':' in text {
      var parts := SplitAtFirst(text, ':');
      CellEditor.ParseOfSplit(text, parts.0, parts.1);
      assert EditedSpec(before, Text(text), 5)
        == before.(exceptionType := Some(Trim(parts.0)), exceptionMessage := Some(Trim(parts.1)));
      m.SetExceptionType(Some(Trim(parts.0)));
      m.SetExceptionMessage(Some(Trim(parts.1)));
      assert Snapshot(m) == before.(exceptionType := Some(Trim(parts.0)), exceptionMessage := Some(Trim(parts.1)));
    } else {
      assert EditedSpec(before, Text(text), 5) == before.(exceptionMessage := Some(text));
      m.SetExceptionMessage(Some(text));
      assert Snapshot(m) == before.(exceptionMessage := Some(text));
    }
  }

  /** Editing a cell with the value it shows leaves its row as it was. */
  method ReenterCell(model: MockTableModel, row: nat, column: int)
    requires row < |model.mockMethods| && IsCellEditable(column)
    requires var s := Snapshot(model.mockMethods[row]);
      column == 5 && s.throwException ==>
        s.exceptionType.Some? && s.exceptionMessage.Some?
        && ':' !in s.exceptionType.value
        && IsTrimmed(s.exceptionType.value) && IsTrimmed(s.exceptionMessage.value)
    requires column == 5 && !model.mockMethods[row].throwException ==> model.mockMethods[row].returnValue.Some?
    modifies model.mockMethods
    ensures forall i | 0 <= i < |model.mockMethods| :: Snapshot(model.mockMethods[i]) == old(Snapshot(model.mockMethods[i]))
  {
    var shown := model.ValueAt(row, column);
    ShownValueEditsBack(Snapshot(model.mockMethods[row]), column);
    model.SetValueAt(shown, row, column);
  }

  // ---------------------------------------------------------------------------
  // Pages, the global toggle and the stats line

  /** `getTotalPages`: rows divided by 20, rounded up. */
  function PageCount(rows: nat): (r: nat)
    ensures rows <= r * PageSize
    ensures r == 0 || (r - 1) * PageSize < rows
  {
    (rows + PageSize - 1) / PageSize
  }

  /** `enabled` counted over a list of specs, an object counted once per occurrence. */
  function CountEnabled(ms: seq<MockMethodConfig>): (r: nat)
    reads ms
    ensures r <= |ms|
  {
    if ms == [] then 0
    else CountEnabled(ms[..|ms| - 1]) + (if ms[|ms| - 1].enabled then 1 else 0)
  }

  /** When every spec has the same flag, the count is all or nothing. */
  lemma {:induction false} CountUniform(ms: seq<MockMethodConfig>, flag: bool)
    requires forall i | 0 <= i < |ms| :: ms[i].enabled == flag
    ensures CountEnabled(ms) == if flag then |ms| else 0
  {
    if ms != [] {
      CountUniform(ms[..|ms| - 1], flag);
    }
  }

  class MockRunnerToolWindowContent {
    const tableModel: MockTableModel
    /** The stored spec list of the configuration service. */
    var configMethods: seq<MockMethodConfig>
    var currentPage: int
    var globalEnabled: bool

    ghost predicate Valid()
      reads this
    {
      currentPage >= 0
    }

    /** The window starts on the first page, everything enabled, showing the stored specs. */
    constructor(methods: seq<MockMethodConfig>)
      ensures Valid() && currentPage == 0 && globalEnabled
      ensures configMethods == methods && tableModel.mockMethods == methods
      ensures fresh(tableModel)
    {
      var model := new MockTableModel();
      model.SetMockMethods(methods);
      tableModel := model;
      configMethods := methods;
      currentPage := 0;
      globalEnabled := true;
    }

    /** `getTotalPages`: the fewest pages of 20 rows that hold every row of the table. */
    function TotalPages(): (r: nat)
      reads this, tableModel
      ensures |tableModel.mockMethods| <= r * PageSize
      ensures r == 0 || (r - 1) * PageSize < |tableModel.mockMethods|
      ensures r == 0 <==> tableModel.mockMethods == []
    {
      PageCount(|tableModel.mockMethods|)
    }

    predicate CanGoBack()
      reads this
    {
      currentPage > 0
    }

    predicate CanGoForward()
      reads this, tableModel
    {
      currentPage < TotalPages() - 1
    }

    /** `previousPage`: one page back only when there is one; the page never goes negative. */
    method PreviousPage()
      requires Valid()
      modifies this`currentPage
      ensures Valid()
      ensures currentPage == if old(CanGoBack()) then old(currentPage) - 1 else old(currentPage)
      ensures old(currentPage) < PageCount(|tableModel.mockMethods|) ==> currentPage < PageCount(|tableModel.mockMethods|)
    {
      if currentPage > 0 {
        currentPage := currentPage - 1;
      }
    }

    /** `nextPage`: one page on only when the page is not the last; a page within range stays within range. */
    method NextPage()
      requires Valid()
      modifies this`currentPage
      ensures Valid()
      ensures currentPage == if old(CanGoForward()) then old(currentPage) + 1 else old(currentPage)
      ensures old(currentPage) < PageCount(|tableModel.mockMethods|) ==> currentPage < PageCount(|tableModel.mockMethods|)
    {
      var totalPages: int := PageCount(|tableModel.mockMethods|);
      if currentPage < totalPages - 1 {
        currentPage := currentPage + 1;
      }
    }

    /**
     * `updatePaginationControls`: the label counts pages from 1 and shows at
     * least one page; each button is enabled exactly when pressing it moves.
     */
    method UpdatePaginationControls() returns (pageText: string, prevEnabled: bool, nextEnabled: bool)
      requires Valid()
      ensures prevEnabled <==> currentPage > 0
      ensures nextEnabled <==> currentPage + 1 < PageCount(|tableModel.mockMethods|)
      ensures pageText == "Page " + NatText(currentPage + 1) + " of " + NatText(if TotalPages() > 1 then TotalPages() else 1)
    {
      var totalPages: int := PageCount(|tableModel.mockMethods|);
      var shown := if totalPages > 1 then totalPages else 1;
      pageText := "Page " + NatText(currentPage + 1) + " of " + NatText(shown);
      prevEnabled := currentPage > 0;
      nextEnabled := currentPage < totalPages - 1;
    }

    /** `updateStats`: the table's row count and the number of enabled stored specs. */
    method UpdateStats() returns (total: nat, enabled: nat, statsText: string)
      ensures total == |tableModel.mockMethods|
      ensures enabled == CountEnabled(configMethods) && enabled <= |configMethods|
      ensures statsText == "Mock Methods: " + NatText(total) + " (Enabled: " + NatText(enabled) + ")"
    {
      total := |tableModel.mockMethods|;
      enabled := 0;
      var i := 0;
      while i < |configMethods|
        invariant 0 <= i <= |configMethods|
        invariant enabled == CountEnabled(configMethods[..i])
      {
        assert configMethods[..i + 1][..i] == configMethods[..i];
        if configMethods[i].enabled {
          enabled := enabled + 1;
        }
        i := i + 1;
      }
      assert configMethods[..i] == configMethods;
      statsText := "Mock Methods: " + NatText(total) + " (Enabled: " + NatText(enabled) + ")";
    }

    /**
     * `toggleGlobalEnabled`: the flag flips and every stored spec takes it,
     * nothing else in a spec changing; the stats then count all or none.
     */
    method ToggleGlobalEnabled() returns (buttonText: string)
      modifies this`globalEnabled, configMethods
      ensures globalEnabled == !old(globalEnabled)
      ensures buttonText == if globalEnabled then "Disable All" else "Enable All"
      ensures forall i | 0 <= i < |configMethods| ::
        Snapshot(configMethods[i]) == old(Snapshot(configMethods[i])).(enabled := globalEnabled)
      ensures CountEnabled(configMethods) == if globalEnabled then |configMethods| else 0
    {
      globalEnabled := !globalEnabled;
      buttonText := if globalEnabled then "Disable All" else "Enable All";
      for i := 0 to |configMethods|
        invariant globalEnabled == !old(globalEnabled)
        invariant forall m | m in configMethods :: Snapshot(m) == old(Snapshot(m)).(enabled := m.enabled)
        invariant forall j | 0 <= j < i :: configMethods[j].enabled == globalEnabled
      {
        configMethods[i].SetEnabled(globalEnabled);
      }
      CountUniform(configMethods, globalEnabled);
    }

    /** `refresh` / `loadMockConfigs`: the table shows the stored list again; the page is kept. */
    method Refresh()
      modifies tableModel
      ensures tableModel.mockMethods == configMethods
    {
      tableModel.SetMockMethods(configMethods);
    }
  }
}
