/**
  The quick-watch dialog rewriter (QuickWatchDialog.cs).

  Every WPF object is reduced to a value: an element is an `ElemId`, a panel's
  children are a `seq<ElemId>`, a visibility is a boolean (visible or not), a
  text property is an optional string. What the element-tree search finds in
  the dialog is handed in as a `DialogTree`.
 */
module QuickWatch {
  import opened Wrappers
  import opened Children

  /**
    An element: either one that belongs to the host dialog, or one of the controls
    the session creates itself (so a synthetic control never collides with a host one).
   */
  datatype ElemId =
    | Host(n: nat)
    | StackPanel
    | UseMultiLineCheckBox
    | MultiLineExpressionTextBox
    | NewReevaluateButton

  /** Runtime type name of the dialog window that gets rewritten. */
  const WatchWindowTypeName: string := "QuickWatchDialog"
  /** Required runtime type name of the element named "ExpressionTextBox". */
  const ExpressionTextBoxTypeName: string := "IntellisenseTextBox"
  /** `System.Windows.Input.Key.Enter`. */
  const KeyEnter: int := 6
  /** The `Control` flag of `System.Windows.Input.ModifierKeys`. */
  const ModifierControl: bv32 := 2

  /** The children of a host panel: host elements only, none twice. */
  predicate Layout(g: seq<ElemId>) {
    Distinct(g) && forall e :: e in g ==> e.Host?
  }

  // ---------------------------------------------------------------------------
  // Text access. The reflective lookup of a public "Text" property becomes an
  // optional value: None when the element has no such property.
  // ---------------------------------------------------------------------------

  /** Reading a text property that does not exist yields the empty string. */
  function GetText(property: Option<string>): (t: string)
    ensures property.None? ==> t == ""
  {
    match property
    case None => ""
    case Some(t) => t
  }

  /** Writing a text property that does not exist does nothing. */
  function SetText(property: Option<string>, text: string): (r: Option<string>)
    ensures r.Some? <==> property.Some?
    ensures r.Some? ==> r.value == text
  {
    match property
    case None => None
    case Some(_) => Some(text)
  }

  /** What is written is read back when the property exists; otherwise nothing is stored. */
  lemma TextRoundTrip(property: Option<string>, text: string)
    ensures GetText(SetText(property, text)) == if property.Some? then text else ""
    ensures SetText(property, text).Some? == property.Some?
  {
  }

  /** Initial mode: the expression already contains a carriage return or a line feed. */
  predicate IsMultiLine(text: string)
    ensures IsMultiLine(text) <==> exists i :: 0 <= i < |text| && (text[i] == '\r' || text[i] == '\n')
  {
    '\r' in text || '\n' in text
  }

  // ---------------------------------------------------------------------------
  // What the element locator finds inside the dialog.
  // ---------------------------------------------------------------------------

  /** An element found by name, with its runtime type name and its text property. */
  datatype NamedElement = NamedElement(id: ElemId, typeName: string, text: Option<string>)

  /**
    A button whose content is a string, with the screen position of its top-left
    corner and, when its parent is a Grid, that grid's children.
   */
  datatype Candidate = Candidate(id: ElemId, x: int, y: int, grid: Option<seq<ElemId>>)

  datatype DialogTree = DialogTree(
    comboBox: Option<ElemId>,                  // named "ExpressionComboBox"
    comboBoxVisible: bool,
    comboBoxGrid: Option<seq<ElemId>>,         // the combo box's parent, when it is a Grid
    expressionTextBox: Option<NamedElement>,   // named "ExpressionTextBox"
    expressionLabel: Option<ElemId>,           // named "ExpressionLabel"
    buttons: seq<Candidate>)                   // buttons with string content, in tree order

  /**
    The shape any real dialog has: a parent lists its child, and elements found by
    different names are different. The model keeps the two grids it edits as
    separate sequences, so it also takes the combo box and the chosen button to sit
    in different grids; any other button may share the combo box's grid.
   */
  predicate WellFormed(t: DialogTree) {
    (t.comboBox.Some? ==> t.comboBox.value.Host?)
    && (t.expressionLabel.Some? ==> t.expressionLabel.value.Host?)
    && (t.comboBox.Some? && t.expressionLabel.Some? ==> t.comboBox.value != t.expressionLabel.value)
    && (t.comboBoxGrid.Some? ==>
          t.comboBox.Some? && Layout(t.comboBoxGrid.value) && t.comboBox.value in t.comboBoxGrid.value)
    && (forall c :: c in t.buttons ==>
          c.id.Host?
          && (c.grid.Some? ==> Layout(c.grid.value) && c.id in c.grid.value))
    && (t.comboBox.Some? && ChosenButton(t).Some? && ChosenButton(t).value.grid.Some? ==>
          t.comboBox.value !in ChosenButton(t).value.grid.value)
  }

  /** The original text box is used only when it has the expected runtime type. */
  function FindOriginalExpressionTextBox(found: Option<NamedElement>): (r: Option<NamedElement>)
    ensures r.Some? <==> found.Some? && found.value.typeName == ExpressionTextBoxTypeName
    ensures r.Some? ==> r == found
  {
    match found
    case None => None
    case Some(e) => if e.typeName == ExpressionTextBoxTypeName then found else None
  }

  // ---------------------------------------------------------------------------
  // Choosing the re-evaluate button. The query sorts by X descending and then,
  // stably, by Y ascending, and takes the first: Y ascending is the primary key,
  // X descending the secondary one, and list order breaks full ties.
  // ---------------------------------------------------------------------------

  /** `a` sorts strictly before `b`: higher on screen, or level and further right. */
  predicate Before(a: Candidate, b: Candidate) {
    a.y < b.y || (a.y == b.y && a.x > b.x)
  }

  /** `i` is the first candidate of the sorted sequence. */
  predicate IsFirstInOrder(cs: seq<Candidate>, i: nat) {
    i < |cs|
    && (forall j :: 0 <= j < |cs| ==> !Before(cs[j], cs[i]))
    && (forall j :: 0 <= j < i ==> Before(cs[i], cs[j]))
  }

  function SelectReevaluateButton(cs: seq<Candidate>): (r: Option<nat>)
    ensures r.None? <==> |cs| == 0
    ensures r.Some? ==> IsFirstInOrder(cs, r.value)
    decreases |cs|
  {
    if |cs| == 0 then None
    else
      var n := |cs| - 1;
      var last := cs[n];
      match SelectReevaluateButton(cs[..n])
      case None => Some(0)
      case Some(i) =>
        assert forall j :: 0 <= j < n ==> cs[..n][j] == cs[j];
        if Before(last, cs[i]) then Some(n) else Some(i)
  }

  /** The full tie-break: the selection is the only index that sorts first. */
  lemma SelectionIsUnique(cs: seq<Candidate>, i: nat)
    requires IsFirstInOrder(cs, i)
    ensures SelectReevaluateButton(cs) == Some(i)
  {
  }

  /** The button the constructor binds to, when there is one. */
  function ChosenButton(t: DialogTree): (c: Option<Candidate>)
    ensures c.Some? <==> |t.buttons| > 0
    ensures c.Some? ==> exists i: nat :: IsFirstInOrder(t.buttons, i) && c.value == t.buttons[i]
  {
    match SelectReevaluateButton(t.buttons)
    case None => None
    case Some(i) => Some(t.buttons[i])
  }

  /** What a well-formed tree says about the chosen button. */
  lemma ChosenButtonShape(t: DialogTree)
    requires WellFormed(t) && |t.buttons| > 0
    ensures var c := ChosenButton(t).value;
      c.id.Host?
      && (c.grid.Some? ==>
            Layout(c.grid.value) && c.id in c.grid.value
            && (t.comboBox.Some? ==> t.comboBox.value !in c.grid.value))
  {
    var i := SelectReevaluateButton(t.buttons).value;
    assert t.buttons[i] in t.buttons;
  }

  /**
    A button that is not chosen may sit in the combo box's grid: here the topmost
    button, alone in its own grid, is chosen, and a lower one shares the grid of
    the combo box and the label.
   */
  lemma OtherButtonMayShareGrid()
    ensures var t := DialogTree(Some(Host(1)), true, Some([Host(0), Host(1), Host(2)]), None, Some(Host(0)),
                                [Candidate(Host(2), 0, 10, Some([Host(0), Host(1), Host(2)])),
                                 Candidate(Host(11), 0, 0, Some([Host(11)]))]);
      WellFormed(t) && Constructible(t) && ChosenButton(t).value.id == Host(11)
      && t.buttons[0].id in t.comboBoxGrid.value
  {
    var t := DialogTree(Some(Host(1)), true, Some([Host(0), Host(1), Host(2)]), None, Some(Host(0)),
                        [Candidate(Host(2), 0, 10, Some([Host(0), Host(1), Host(2)])),
                         Candidate(Host(11), 0, 0, Some([Host(11)]))]);
    assert t.buttons[..1] == [t.buttons[0]];
    assert SelectReevaluateButton(t.buttons) == Some(1);
  }

  /**
    The constructor dereferences the combo box, the chosen button and the label,
    so it throws unless all three were found.
   */
  predicate Constructible(t: DialogTree) {
    t.comboBox.Some? && t.expressionLabel.Some? && |t.buttons| > 0
  }

  /** `_isOk` of a session built from `t`. */
  predicate SessionOk(t: DialogTree)
    requires Constructible(t)
    ensures SessionOk(t) <==>
      t.comboBoxGrid.Some?
      && t.expressionTextBox.Some? && t.expressionTextBox.value.typeName == ExpressionTextBoxTypeName
      && ChosenButton(t).value.grid.Some?
  {
    t.comboBoxGrid.Some?
    && FindOriginalExpressionTextBox(t.expressionTextBox).Some?
    && ChosenButton(t).value.grid.Some?
  }

  // ---------------------------------------------------------------------------
  // The layout edits of InitialSetup, as functions of the grids before it.
  // ---------------------------------------------------------------------------

  /** The expression grid after the label swap and the multi-line box insertion. */
  function SetupExpressionGrid(grid: seq<ElemId>, labelElem: ElemId, combo: ElemId): (r: seq<ElemId>)
    requires labelElem in grid && combo in grid
    ensures |r| == |grid| + 1 && r[IndexOf(grid, combo)] == MultiLineExpressionTextBox
  {
    var comboIndex := IndexOf(grid, combo);
    var labelIndex := IndexOf(grid, labelElem);
    var swapped := Insert(Remove(grid, labelElem), labelIndex, StackPanel);
    Insert(swapped, comboIndex, MultiLineExpressionTextBox)
  }

  /** The re-evaluate grid after the button swap. */
  function SetupReevaluateGrid(grid: seq<ElemId>, button: ElemId): (r: seq<ElemId>)
    requires button in grid
    ensures |r| == |grid| && r[IndexOf(grid, button)] == NewReevaluateButton
  {
    Insert(Remove(grid, button), IndexOf(grid, button), NewReevaluateButton)
  }

  /**
    The label swap alone: the stack panel takes the label's index, the length and
    every other child stay as they were, and the label is no longer a child.
   */
  lemma LabelSwap(grid: seq<ElemId>, labelElem: ElemId)
    requires Layout(grid) && labelElem in grid
    ensures IndexOf(grid, labelElem) <= |Remove(grid, labelElem)|
    ensures var r := Insert(Remove(grid, labelElem), IndexOf(grid, labelElem), StackPanel);
      |r| == |grid|
      && r[IndexOf(grid, labelElem)] == StackPanel
      && (forall k :: 0 <= k < |grid| && k != IndexOf(grid, labelElem) ==> r[k] == grid[k])
      && labelElem !in r
  {
    ReplaceInPlace(grid, labelElem, StackPanel);
    RemoveDistinct(grid, labelElem);
    NotInAfterInsert(Remove(grid, labelElem), IndexOf(grid, labelElem), StackPanel, labelElem);
  }

  /**
    The whole edit of the expression grid: one child more; the multi-line box at
    the combo box's former index with the combo box right after it; the stack
    panel where the label was (one further right when the label came after the
    combo box); every other original child kept, in order, shifted right by one
    from the combo box's index on; and removing the multi-line box again leaves
    exactly the label swap.
   */
  lemma ExpressionGridSetup(grid: seq<ElemId>, labelElem: ElemId, combo: ElemId)
    requires Layout(grid) && labelElem in grid && combo in grid && labelElem != combo
    ensures var r := SetupExpressionGrid(grid, labelElem, combo);
      var li := IndexOf(grid, labelElem);
      var ci := IndexOf(grid, combo);
      |r| == |grid| + 1
      && r[ci] == MultiLineExpressionTextBox
      && r[ci + 1] == combo
      && r[if li < ci then li else li + 1] == StackPanel
      && labelElem !in r
      && (forall k :: 0 <= k < |grid| && k != li ==> r[if k < ci then k else k + 1] == grid[k])
  {
    var li := IndexOf(grid, labelElem);
    var ci := IndexOf(grid, combo);
    var swapped := grid[li := StackPanel];
    LabelSwap(grid, labelElem);
    ReplaceInPlace(grid, labelElem, StackPanel);
    assert SetupExpressionGrid(grid, labelElem, combo) == Insert(swapped, ci, MultiLineExpressionTextBox);
    assert labelElem !in swapped;
    InsertAfterReplace(grid, li, ci, StackPanel, MultiLineExpressionTextBox);
    NotInAfterInsert(swapped, ci, MultiLineExpressionTextBox, labelElem);
  }

  /**
    The multi-line box is the only child the setup adds on top of the label swap:
    removing it again leaves the label-swapped grid, so the original children keep
    their relative order.
   */
  lemma MultiLineInsertKeepsOrder(grid: seq<ElemId>, labelElem: ElemId, combo: ElemId)
    requires Layout(grid) && labelElem in grid && combo in grid
    ensures Remove(SetupExpressionGrid(grid, labelElem, combo), MultiLineExpressionTextBox)
         == grid[IndexOf(grid, labelElem) := StackPanel]
  {
    var li := IndexOf(grid, labelElem);
    ReplaceInPlace(grid, labelElem, StackPanel);
    var swapped := grid[li := StackPanel];
    HostOnlyAfterUpdate(grid, li, StackPanel, MultiLineExpressionTextBox);
    InsertThenRemove(swapped, IndexOf(grid, combo), MultiLineExpressionTextBox);
  }

  /** Writing `y` over one host child leaves out every other synthetic element `z`. */
  lemma HostOnlyAfterUpdate(grid: seq<ElemId>, i: nat, y: ElemId, z: ElemId)
    requires Layout(grid) && i < |grid| && !z.Host? && z != y
    ensures z !in grid[i := y]
  {
    var s := grid[i := y];
    forall k | 0 <= k < |s| ensures s[k] != z {
      if k != i { assert grid[k] in grid; }
    }
  }

  /** Inserting an element other than `z` does not bring `z` in. */
  lemma NotInAfterInsert<T>(s: seq<T>, i: nat, x: T, z: T)
    requires i <= |s| && z !in s && z != x
    ensures z !in Insert(s, i, x)
  {
    var r := Insert(s, i, x);
    InsertSplit(s, i, x);
    forall k | 0 <= k < |r| ensures r[k] != z {
      if k < i { assert r[k] == s[k]; }
      else if k > i { assert r[k] == s[k - 1]; }
    }
  }

  /**
    The button swap: the new button takes the original button's index, the length
    and every other child are unchanged, and the original button is no longer a child.
   */
  lemma ReevaluateGridSetup(grid: seq<ElemId>, button: ElemId)
    requires Layout(grid) && button in grid
    ensures var r := SetupReevaluateGrid(grid, button);
      var bi := IndexOf(grid, button);
      |r| == |grid|
      && r[bi] == NewReevaluateButton
      && button !in r
      && (forall k :: 0 <= k < |grid| && k != bi ==> r[k] == grid[k])
  {
    ReplaceInPlace(grid, button, NewReevaluateButton);
    RemoveDistinct(grid, button);
    NotInAfterInsert(Remove(grid, button), IndexOf(grid, button), NewReevaluateButton, button);
  }

  // ---------------------------------------------------------------------------
  // Finding the dialog window.
  // ---------------------------------------------------------------------------

  /** The first open window whose runtime type name is "QuickWatchDialog". */
  method FindWatchWindow(windows: seq<string>) returns (r: Option<nat>)
    ensures r.None? <==> WatchWindowTypeName !in windows
    ensures r.Some? ==>
      r.value < |windows| && windows[r.value] == WatchWindowTypeName
      && WatchWindowTypeName !in windows[..r.value]
  {
    var i := 0;
    while i < |windows|
      invariant 0 <= i <= |windows|
      invariant WatchWindowTypeName !in windows[..i]
    {
      if windows[i] == WatchWindowTypeName {
        return Some(i);
      }
      assert windows[..i + 1] == windows[..i] + [windows[i]];
      i := i + 1;
    }
    assert windows[..i] == windows;
    return None;
  }

  // ---------------------------------------------------------------------------
  // The session.
  // ---------------------------------------------------------------------------

  /**
    Where a session stands. `SetupFailed` is the state InitialSetup leaves behind
    when it throws part-way (the label is not a child of the expression grid).
   */
  datatype Phase = Built | SetupFailed | Ready

  class QuickWatchDialog {
    // Host elements bound at construction (never null once construction succeeded).
    const comboBox: ElemId
    const expressionLabel: ElemId
    const originalReevaluateButton: ElemId
    // Whether the other three lookups succeeded.
    const hasExpressionGrid: bool
    const hasExpressionTextBox: bool
    const hasReevaluateGrid: bool

    var expressionGrid: seq<ElemId>
    var reevaluateGrid: seq<ElemId>
    var stackPanel: seq<ElemId>
    var comboBoxVisible: bool
    var multiLineVisible: bool
    var isChecked: bool
    /** The original text box's text property (None: it has none). */
    var originalText: Option<string>
    var multiLineText: string
    /** Click events raised on the original re-evaluate button. */
    var clicks: nat
    /** Whether the checkbox's Checked/Unchecked handlers are subscribed. */
    var statusHandlersWired: bool
    var phase: Phase

    /** `_isOk`: every element the session needs was found. */
    predicate IsOk()
      reads this
    {
      hasExpressionGrid && hasExpressionTextBox && hasReevaluateGrid
    }

    /** The editor the checkbox selects is the only one shown. */
    predicate ModeShown()
      reads this
    {
      comboBoxVisible == !isChecked && multiLineVisible == isChecked
    }

    ghost predicate Valid()
      reads this
    {
      comboBox.Host? && expressionLabel.Host? && comboBox != expressionLabel
      && (statusHandlersWired <==> phase != Built)
      && (phase != Built ==> IsOk())
      && (phase == Built ==>
            stackPanel == [] && !multiLineVisible
            && (hasExpressionGrid ==> comboBox in expressionGrid)
            && (hasReevaluateGrid ==> originalReevaluateButton in reevaluateGrid))
      && (phase == Ready ==>
            stackPanel == [expressionLabel, UseMultiLineCheckBox]
            && MultiLineExpressionTextBox in expressionGrid
            && NewReevaluateButton in reevaluateGrid)
    }

    /**
      The state right after the constructor: the elements found in `tree` are bound,
      the checkbox is unchecked, and the multi-line box is collapsed and empty.
     */
    ghost predicate BuiltFrom(tree: DialogTree)
      requires Constructible(tree)
      reads this
    {
      comboBox == tree.comboBox.value && expressionLabel == tree.expressionLabel.value
      && originalReevaluateButton == ChosenButton(tree).value.id
      && hasExpressionGrid == tree.comboBoxGrid.Some?
      && hasReevaluateGrid == ChosenButton(tree).value.grid.Some?
      && hasExpressionTextBox == FindOriginalExpressionTextBox(tree.expressionTextBox).Some?
      && (hasExpressionGrid ==> expressionGrid == tree.comboBoxGrid.value)
      && (hasReevaluateGrid ==> reevaluateGrid == ChosenButton(tree).value.grid.value)
      && (hasExpressionTextBox ==> originalText == tree.expressionTextBox.value.text)
      && (!hasExpressionTextBox ==> originalText.None?)
      && comboBoxVisible == tree.comboBoxVisible
      && !multiLineVisible && !isChecked && multiLineText == "" && clicks == 0
    }

    /** The private constructor, reached only when the three dereferenced lookups succeeded. */
    constructor (tree: DialogTree)
      requires WellFormed(tree) && Constructible(tree)
      ensures Valid() && phase == Built && BuiltFrom(tree)
      ensures IsOk() <==> SessionOk(tree)
    {
      var button := ChosenButton(tree).value;
      var textBox := FindOriginalExpressionTextBox(tree.expressionTextBox);
      comboBox := tree.comboBox.value;
      expressionLabel := tree.expressionLabel.value;
      originalReevaluateButton := button.id;
      hasExpressionGrid := tree.comboBoxGrid.Some?;
      hasExpressionTextBox := textBox.Some?;
      hasReevaluateGrid := button.grid.Some?;
      expressionGrid := if tree.comboBoxGrid.Some? then tree.comboBoxGrid.value else [];
      reevaluateGrid := if button.grid.Some? then button.grid.value else [];
      stackPanel := [];
      comboBoxVisible := tree.comboBoxVisible;
      multiLineVisible := false;
      isChecked := false;
      originalText := if textBox.Some? then textBox.value.text else None;
      multiLineText := "";
      clicks := 0;
      statusHandlersWired := false;
      phase := Built;
      new;
      ChosenButtonShape(tree);
    }

    /** Writes the original text box's text property (a no-op when it has none). */
    method SetOriginalText(text: string)
      requires hasExpressionTextBox
      modifies this`originalText
      ensures originalText == SetText(old(originalText), text)
    {
      originalText := SetText(originalText, text);
    }

    /** The checkbox's Checked and Unchecked handler. */
    method CheckBoxStatusChanged()
      requires hasExpressionTextBox
      modifies this`comboBoxVisible, this`multiLineVisible, this`originalText
      ensures ModeShown()
      ensures isChecked ==> originalText == old(originalText)
      ensures !isChecked ==> originalText == SetText(old(originalText), "")
    {
      if isChecked {
        comboBoxVisible := false;
        multiLineVisible := true;
      } else {
        SetOriginalText("");
        comboBoxVisible := true;
        multiLineVisible := false;
      }
    }

    /**
      Assigning the checkbox's IsChecked: Checked or Unchecked is raised only when
      the value changes, and reaches the handler only once it is subscribed.
     */
    method SetChecked(value: bool)
      requires statusHandlersWired ==> hasExpressionTextBox
      modifies this`isChecked, this`comboBoxVisible, this`multiLineVisible, this`originalText
      ensures isChecked == value
      ensures statusHandlersWired && value != old(isChecked) ==>
        ModeShown()
        && originalText == if value then old(originalText) else SetText(old(originalText), "")
      ensures !(statusHandlersWired && value != old(isChecked)) ==>
        comboBoxVisible == old(comboBoxVisible) && multiLineVisible == old(multiLineVisible)
        && originalText == old(originalText)
    {
      var changed := value != isChecked;
      isChecked := value;
      if statusHandlersWired && changed {
        CheckBoxStatusChanged();
      }
    }

    /**
      Rewrites the dialog. Does nothing when `_isOk` is false; throws part-way
      (reported as `threw`) when the label is not a child of the expression grid.
     */
    method InitialSetup() returns (threw: bool)
      requires Valid() && phase == Built
      modifies this
      ensures Valid()
      ensures !IsOk() ==> !threw && unchanged(this)
      ensures IsOk() && expressionLabel !in old(expressionGrid) ==>
        threw && phase == SetupFailed
        && isChecked == IsMultiLine(GetText(old(originalText)))
        && expressionGrid == old(expressionGrid) && reevaluateGrid == old(reevaluateGrid)
        && stackPanel == old(stackPanel)
        && comboBoxVisible == old(comboBoxVisible) && multiLineVisible == old(multiLineVisible)
        && originalText == old(originalText) && multiLineText == old(multiLineText)
        && clicks == old(clicks)
      ensures IsOk() && expressionLabel in old(expressionGrid) ==>
        var text := GetText(old(originalText));
        !threw && phase == Ready
        && isChecked == IsMultiLine(text)
        && multiLineText == text
        && multiLineVisible == isChecked
        && comboBoxVisible == (old(comboBoxVisible) && !isChecked)
        && (old(comboBoxVisible) ==> ModeShown())
        && originalText == old(originalText)
        && clicks == old(clicks)
        && stackPanel == [expressionLabel, UseMultiLineCheckBox]
        && expressionGrid == SetupExpressionGrid(old(expressionGrid), expressionLabel, comboBox)
        && reevaluateGrid == SetupReevaluateGrid(old(reevaluateGrid), originalReevaluateButton)
    {
      if !IsOk() {
        return false;
      }
      var comboIndex := IndexOf(expressionGrid, comboBox);
      var text := GetText(originalText);
      var multiline := IsMultiLine(text);

      // The label moves into a new horizontal stack panel next to the checkbox.
      var labelIndex := IndexOf(expressionGrid, expressionLabel);
      expressionGrid := Remove(expressionGrid, expressionLabel);
      SetChecked(multiline);
      statusHandlersWired := true;
      if labelIndex < 0 {
        // The label still has its own parent, so adding it to the stack panel throws.
        phase := SetupFailed;
        return true;
      }
      CompleteSetup(labelIndex, comboIndex, text, multiline);
      threw := false;
    }

    /**
      The rest of InitialSetup once the label is detached: the label and the
      checkbox go into the stack panel, which takes the label's index; the
      multi-line box, holding `text`, goes where the combo box was, and the combo
      box hides in multi-line mode; the new re-evaluate button takes the original
      one's place.
     */
    method CompleteSetup(labelIndex: nat, comboIndex: nat, text: string, multiline: bool)
      requires labelIndex <= |expressionGrid| && comboIndex <= |expressionGrid|
      requires originalReevaluateButton in reevaluateGrid
      modifies this`stackPanel, this`expressionGrid, this`comboBoxVisible, this`multiLineText
      modifies this`multiLineVisible, this`reevaluateGrid, this`phase
      ensures stackPanel == old(stackPanel) + [expressionLabel, UseMultiLineCheckBox]
      ensures expressionGrid
        == Insert(Insert(old(expressionGrid), labelIndex, StackPanel), comboIndex, MultiLineExpressionTextBox)
      ensures comboBoxVisible == (old(comboBoxVisible) && !multiline)
      ensures multiLineText == text && multiLineVisible == multiline
      ensures reevaluateGrid == SetupReevaluateGrid(old(reevaluateGrid), originalReevaluateButton)
      ensures phase == Ready
    {
      stackPanel := stackPanel + [expressionLabel];
      stackPanel := stackPanel + [UseMultiLineCheckBox];
      expressionGrid := Insert(expressionGrid, labelIndex, StackPanel);

      if multiline {
        comboBoxVisible := false;
      }
      multiLineText := text;
      multiLineVisible := multiline;
      expressionGrid := Insert(expressionGrid, comboIndex, MultiLineExpressionTextBox);

      var reevaluateIndex := IndexOf(reevaluateGrid, originalReevaluateButton);
      reevaluateGrid := Remove(reevaluateGrid, originalReevaluateButton);
      reevaluateGrid := Insert(reevaluateGrid, reevaluateIndex, NewReevaluateButton);
      phase := Ready;
    }

    /**
      Re-evaluation: in multi-line mode the multi-line text is first copied into the
      original text box; then one click is raised on the original button.
     */
    method Reevaluate()
      requires hasExpressionTextBox
      modifies this`originalText, this`clicks
      ensures clicks == old(clicks) + 1
      ensures originalText == if isChecked then SetText(old(originalText), multiLineText) else old(originalText)
    {
      if isChecked {
        SetOriginalText(multiLineText);
      }
      clicks := clicks + 1;
    }

    /** The new button's Click handler (the button is in the dialog only after setup). */
    method NewReevaluateButtonClick()
      requires Valid() && phase == Ready
      modifies this
      ensures Valid() && phase == Ready
      ensures clicks == old(clicks) + 1
      ensures isChecked ==> originalText == SetText(old(originalText), multiLineText)
      ensures !isChecked ==> originalText == old(originalText)
      ensures unchanged(this`isChecked, this`multiLineText, this`comboBoxVisible, this`multiLineVisible)
      ensures unchanged(this`expressionGrid, this`reevaluateGrid, this`stackPanel)
    {
      Reevaluate();
    }

    /** The multi-line box's KeyUp handler: only Ctrl+Enter re-evaluates. */
    method MultiLineExpressionTextBoxKeyUp(key: int, modifiers: bv32)
      requires Valid() && phase == Ready
      modifies this
      ensures Valid() && phase == Ready
      ensures key == KeyEnter && modifiers & ModifierControl != 0 ==>
        clicks == old(clicks) + 1
        && originalText == if isChecked then SetText(old(originalText), multiLineText) else old(originalText)
      ensures !(key == KeyEnter && modifiers & ModifierControl != 0) ==>
        clicks == old(clicks) && originalText == old(originalText)
      ensures unchanged(this`isChecked, this`multiLineText, this`comboBoxVisible, this`multiLineVisible)
      ensures unchanged(this`expressionGrid, this`reevaluateGrid, this`stackPanel)
    {
      if key == KeyEnter && modifiers & ModifierControl != 0 {
        Reevaluate();
      }
    }

    /**
      The user clicks the checkbox (it is in the dialog only after setup): both
      editors flip together, the multi-line text survives, and switching back to
      single-line mode clears the original text.
     */
    method ClickCheckBox()
      requires Valid() && phase == Ready
      modifies this
      ensures Valid() && phase == Ready
      ensures isChecked == !old(isChecked)
      ensures ModeShown()
      ensures old(ModeShown()) ==> comboBoxVisible == !old(comboBoxVisible) && multiLineVisible == !old(multiLineVisible)
      ensures originalText == if isChecked then old(originalText) else SetText(old(originalText), "")
      ensures unchanged(this`multiLineText, this`clicks, this`expressionGrid, this`reevaluateGrid, this`stackPanel)
    {
      SetChecked(!isChecked);
    }

    /**
      Returns at once when `_isOk` is false; otherwise it polls until the dialog is
      gone (the polling is not modelled). Either way no session state changes.
     */
    method WaitForClosing()
      ensures unchanged(this)
    {
      if !IsOk() {
        return;
      }
      // The close-polling loop reads only the open windows.
    }
  }

  /** What `TryCreate` produces: nothing, an exception from the constructor, or a session. */
  datatype Creation = NoWindow | Threw | Created(dialog: QuickWatchDialog)

  /** Finds the dialog among the open windows and builds a session over it. */
  method TryCreate(windows: seq<string>, tree: DialogTree) returns (r: Creation)
    requires WellFormed(tree)
    ensures r.NoWindow? <==> WatchWindowTypeName !in windows
    ensures r.Threw? <==> WatchWindowTypeName in windows && !Constructible(tree)
    ensures r.Created? ==>
      Constructible(tree) && fresh(r.dialog) && r.dialog.Valid() && r.dialog.phase == Built
      && r.dialog.BuiltFrom(tree) && (r.dialog.IsOk() <==> SessionOk(tree))
  {
    var window := FindWatchWindow(windows);
    if window.None? {
      return NoWindow;
    }
    if !Constructible(tree) {
      return Threw;
    }
    var d := new QuickWatchDialog(tree);
    return Created(d);
  }
}
