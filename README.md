# Multi-line debug expression evaluator: the dialog rewriter and the scan loop

This Dafny model covers the two pieces of logic in the Visual Studio extension
MultiLineDebugExpressionEvaluator:

- **The quick-watch dialog rewriter** (`QuickWatchDialog`). When Visual Studio's
  QuickWatch window is open, the rewriter replaces the expression label with a
  horizontal stack panel. The panel holds the label and a "use multiline" checkbox.
  A multi-line text box goes in at the combo box's index. The original re-evaluate
  button is swapped for a new button. When the checkbox is checked, the new button
  first copies the multi-line text back into the original text box.
- **The background scan loop** (`Backgrounder.ScanAsync`). It polls for that window
  with a delay that starts at 1000 ms. Each failure adds 1000 ms, and each completed
  session resets the delay.

Every WPF object is reduced to a value:

- an element is an `ElemId`;
- a panel's children are a `seq<ElemId>`;
- a visibility or checked state is a `bool`;
- a reflected `Text` property is an `Option<string>`;
- a button's screen position is an integer pair.

What the element-tree search finds in the window is an input (`DialogTree`). So is the
list of open windows' runtime type names. The scan loop is modelled over a finite
sequence of per-pass outcomes. Each await is an opaque step.

Files:

- `wrappers.dfy`: `Option`.
- `children.dfy`: module `Children`. The three child-collection operations the rewriter
  uses (`IndexOf`, `Remove`, `Insert`), each with the collection's semantics, and the
  splice lemmas about them.
- `quickwatch.dfy`: module `QuickWatch`. The dialog tree, the selection rules, the
  layout edits as functions, and the class `QuickWatchDialog` with its setup and
  event handlers.
- `backgrounder.dfy`: module `Backgrounder`. The loop as a transition function `Step`
  and its iteration `Run`. The method `ScanAsync` is proved against `Run`. It also has
  the backoff lemmas and one dialog pass built from the `QuickWatch` model.

Points where the code decides and the model follows it:

- **Sort keys of the button query.** The query has two `orderby` clauses. In LINQ's
  stable sort the second clause is the primary key. The chosen button is therefore the
  topmost one, then the rightmost, then the first in tree order.
- **Constructor dereferences.** The constructor dereferences the combo box, the label
  and the chosen button without a null check. When any of them is missing, creation
  throws instead of producing an inert session. A session whose `_isOk` is false is
  possible only when the grids or the text box are missing.
- **Label that is not a child of the combo box's grid.** `IndexOf` gives -1 and
  `Remove` does nothing. The checkbox is still set and subscribed. Adding the label
  to the stack panel then throws, because the label already has a parent. The pass
  ends in the loop's general exception handler.
- **`disabled`.** It is assigned only in commented-out code, so it stays false.
- **`waitTimeout`.** It is an unchecked C# `int`. After 2,147,483 consecutive failures
  it wraps to -2,147,483,296. While it stays below -1, `Task.Delay` throws at once on
  every pass that is not cancelled, and each throw adds 1000 again. That stretch is
  finite: after 2,147,484 such passes the timeout is 704. The first delay after the
  stretch is 704, below the default; further errors give 1704, 2704, and so on. The timeout stays even, so it never
  reaches the -1 that would block the delay forever.
- **Cancellation while the dialog is open.** `WaitForClosingAsync` checks the token
  only as its loop condition, and its 250 ms delay takes no token. A cancellation then
  ends the wait normally: the pass still resets the timeout, and the loop returns at
  the top of the next pass.

## Model

| member | source | states |
|---|---|---|
| Children.IndexOf | MultiLineDebugExpressionEvaluator/QuickWatchDialog.cs:102-104 | -1 exactly when the element is not a child; otherwise an index that holds the element |
| Children.IndexOfIsFirst | MultiLineDebugExpressionEvaluator/QuickWatchDialog.cs:111-113 | the index found is that of the first occurrence |
| Children.IndexOfFirst | MultiLineDebugExpressionEvaluator/QuickWatchDialog.cs:160 | a position holding the element with no earlier occurrence is what IndexOf returns |
| Children.Remove | MultiLineDebugExpressionEvaluator/QuickWatchDialog.cs:114 | removing an absent element changes nothing; removing a present one shortens the collection by one |
| Children.RemoveSplit | MultiLineDebugExpressionEvaluator/QuickWatchDialog.cs:114 | removing a present element cuts out exactly its first occurrence and keeps the rest in order |
| Children.RemoveAt | MultiLineDebugExpressionEvaluator/QuickWatchDialog.cs:114 | after removing a present element, each position holds the original child before its index and the next original child from it on |
| Children.RemoveMultiset | MultiLineDebugExpressionEvaluator/QuickWatchDialog.cs:161 | the children after Remove are those before, less one occurrence of the element (none when absent) |
| Children.RemoveDistinct | MultiLineDebugExpressionEvaluator/QuickWatchDialog.cs:161 | in a collection without duplicates the removed element is no longer a child and no duplicate appears |
| Children.Insert | MultiLineDebugExpressionEvaluator/QuickWatchDialog.cs:133 | one child more, and the inserted element sits at the given index |
| Children.InsertSplit | MultiLineDebugExpressionEvaluator/QuickWatchDialog.cs:151 | insertion keeps the children before the index and those from it on, in order, around the new one |
| Children.InsertAt | MultiLineDebugExpressionEvaluator/QuickWatchDialog.cs:151 | after insertion, each position holds the original child before the index, the new element at it, and the original child one to the left after it |
| Children.ReplaceInPlace | MultiLineDebugExpressionEvaluator/QuickWatchDialog.cs:160-162 | Remove followed by Insert at the removed element's former index overwrites that one position and keeps the length |
| Children.InsertThenRemove | MultiLineDebugExpressionEvaluator/QuickWatchDialog.cs:151 | an element that was not a child, once inserted, is found at its index, and removing it gives back the original children |
| Children.InsertAfterReplace | MultiLineDebugExpressionEvaluator/QuickWatchDialog.cs:111-151 | overwriting one index and then inserting at another keeps every other original child, shifted right by one from the insertion index on |
| QuickWatch.TextRoundTrip | MultiLineDebugExpressionEvaluator/QuickWatchDialog.cs:209-255 | text written to an element with a Text property is read back; an element without one keeps none and reads as "" |
| QuickWatch.FindOriginalExpressionTextBox | MultiLineDebugExpressionEvaluator/QuickWatchDialog.cs:257-273 | the text box is used exactly when it was found and its runtime type is IntellisenseTextBox, and then it is that element |
| QuickWatch.SelectReevaluateButton | MultiLineDebugExpressionEvaluator/QuickWatchDialog.cs:313-325 | none exactly when there are no candidates; otherwise a candidate with minimal Y, maximal X among those, and the earliest on a full tie |
| QuickWatch.SelectionIsUnique | MultiLineDebugExpressionEvaluator/QuickWatchDialog.cs:318-325 | any index that sorts first in that order is the one selected |
| QuickWatch.ChosenButton | MultiLineDebugExpressionEvaluator/QuickWatchDialog.cs:303-328 | a button exactly when the candidate list is non-empty, and then the candidate that sorts first |
| QuickWatch.ChosenButtonShape | MultiLineDebugExpressionEvaluator/QuickWatchDialog.cs:55-56 | the chosen button is a host element, and when its parent is a grid the button is a child of it |
| QuickWatch.GetText | MultiLineDebugExpressionEvaluator/QuickWatchDialog.cs:209-225 | an element without a public Text property reads as the empty string (the round trip with SetText is `TextRoundTrip`) |
| QuickWatch.SetText | MultiLineDebugExpressionEvaluator/QuickWatchDialog.cs:237-255 | writing never creates or removes a Text property; when one exists it afterwards holds the text written |
| QuickWatch.IsMultiLine | MultiLineDebugExpressionEvaluator/QuickWatchDialog.cs:106-107 | the initial mode is multi-line exactly when some character of the text is a carriage return or a line feed |
| QuickWatch.SessionOk | MultiLineDebugExpressionEvaluator/QuickWatchDialog.cs:31-38 | `_isOk` of a constructed session (the constructor ties `IsOk` to it): the combo box's parent is a grid, the text box was found with type IntellisenseTextBox, and the chosen button's parent is a grid |
| QuickWatch.OtherButtonMayShareGrid | MultiLineDebugExpressionEvaluator/QuickWatchDialog.cs:55-56 | a dialog where a button that is not chosen shares the combo box's grid is accepted (well-formed and constructible), and the topmost button is still the one chosen |
| QuickWatch.SetupExpressionGrid | MultiLineDebugExpressionEvaluator/QuickWatchDialog.cs:102-151 | the edited expression grid has one child more, with the multi-line box at the combo box's pre-setup index (the full account is `ExpressionGridSetup`) |
| QuickWatch.SetupReevaluateGrid | MultiLineDebugExpressionEvaluator/QuickWatchDialog.cs:160-162 | the edited re-evaluate grid keeps its length, with the new button at the original button's index (the full account is `ReevaluateGridSetup`) |
| QuickWatch.LabelSwap | MultiLineDebugExpressionEvaluator/QuickWatchDialog.cs:111-133 | the label swap keeps the grid's length; the stack panel takes the label's index; every other child is untouched; the label is no longer a child |
| QuickWatch.ExpressionGridSetup | MultiLineDebugExpressionEvaluator/QuickWatchDialog.cs:102-151 | after setup the grid has one child more; the multi-line box is at the combo box's pre-setup index with the combo box right after it; the stack panel holds the label's slot; the label is gone; every other child is kept, shifted right by one from the combo box's index on |
| QuickWatch.MultiLineInsertKeepsOrder | MultiLineDebugExpressionEvaluator/QuickWatchDialog.cs:151 | removing the multi-line box again leaves the label-swapped grid, so the original children keep their relative order |
| QuickWatch.ReevaluateGridSetup | MultiLineDebugExpressionEvaluator/QuickWatchDialog.cs:160-162 | the new button sits at the original button's former index; the original button is no longer a child; the length and every other child are unchanged |
| QuickWatch.FindWatchWindow | MultiLineDebugExpressionEvaluator/QuickWatchDialog.cs:363-375 | none exactly when no window's type name is QuickWatchDialog; otherwise the first such window |
| QuickWatch.QuickWatchDialog.constructor | MultiLineDebugExpressionEvaluator/QuickWatchDialog.cs:40-93 | binds the found elements (`BuiltFrom`); `_isOk` holds exactly when the grids and a text box of the required type were found; the checkbox starts unchecked; the multi-line box starts collapsed and empty; no click has been raised |
| QuickWatch.QuickWatchDialog.SetOriginalText | MultiLineDebugExpressionEvaluator/QuickWatchDialog.cs:227-235 | the original text box's text property becomes the given text, or stays absent |
| QuickWatch.QuickWatchDialog.CheckBoxStatusChanged | MultiLineDebugExpressionEvaluator/QuickWatchDialog.cs:330-349 | afterwards exactly the editor the checkbox selects is visible; checking changes no text; unchecking clears the original text |
| QuickWatch.QuickWatchDialog.SetChecked | MultiLineDebugExpressionEvaluator/QuickWatchDialog.cs:116-118 | assigning IsChecked runs the handler only when the value changes and the handlers are subscribed; otherwise visibility and text are untouched |
| QuickWatch.QuickWatchDialog.InitialSetup | MultiLineDebugExpressionEvaluator/QuickWatchDialog.cs:95-165 | with `_isOk` false, nothing changes. When the label is not a grid child, setup throws after only checking the box. Otherwise: checked iff the text contains CR or LF; the multi-line text equals the original text; the multi-line box is visible iff checked; the combo box is visible iff it was and the box is unchecked, so exactly one editor shows; no text is cleared and no click is raised; both grids are the splice results above |
| QuickWatch.QuickWatchDialog.CompleteSetup | MultiLineDebugExpressionEvaluator/QuickWatchDialog.cs:130-162 | the stack panel gains the label and the checkbox; the stack panel and the multi-line box are inserted at the recorded indices; visibility and text follow the mode; the button swap is done |
| QuickWatch.QuickWatchDialog.Reevaluate | MultiLineDebugExpressionEvaluator/QuickWatchDialog.cs:172-186 | exactly one click is raised; when checked the original text becomes the multi-line text first, otherwise it is untouched |
| QuickWatch.QuickWatchDialog.NewReevaluateButtonClick | MultiLineDebugExpressionEvaluator/QuickWatchDialog.cs:167-170 | the new button's click re-evaluates and changes nothing else |
| QuickWatch.QuickWatchDialog.MultiLineExpressionTextBoxKeyUp | MultiLineDebugExpressionEvaluator/QuickWatchDialog.cs:351-361 | Ctrl+Enter re-evaluates; any other key changes nothing |
| QuickWatch.QuickWatchDialog.ClickCheckBox | MultiLineDebugExpressionEvaluator/QuickWatchDialog.cs:337-348 | a toggle flips the checked flag; it flips both visibility flags together, so exactly one editor stays visible; the multi-line text is kept; unchecking clears the original text |
| QuickWatch.QuickWatchDialog.WaitForClosing | MultiLineDebugExpressionEvaluator/QuickWatchDialog.cs:188-207 | returns at once when `_isOk` is false, and in no case changes session state |
| QuickWatch.TryCreate | MultiLineDebugExpressionEvaluator/QuickWatchDialog.cs:377-389 | none when no QuickWatch window is open; an exception when one is open but the combo box, the label or a button is missing; otherwise a fresh session in the constructor's initial state over that tree (`BuiltFrom`: bound elements, both grids, the original text, combo box visibility, unchecked, empty and collapsed multi-line box, no clicks) |
| Backgrounder.Wrap32 | MultiLineDebugExpressionEvaluator/Backgrounder.cs:111 | the result is in int range, equals the input when that is in range, agrees with it modulo 2^32, and has the same parity |
| Backgrounder.Step | MultiLineDebugExpressionEvaluator/Backgrounder.cs:56-113 | a cancelled pass only stops the loop; any other pass starts a delay of the current timeout; at most one session per pass, and a session resets the timeout; a pass that ends the loop leaves the timeout alone; `disabled` never changes |
| Backgrounder.Run | MultiLineDebugExpressionEvaluator/Backgrounder.cs:56-113 | `disabled` is never changed; at most one session per pass; at most one delay per pass, appended to those before |
| Backgrounder.RunAppend | MultiLineDebugExpressionEvaluator/Backgrounder.cs:56-113 | one more pass is one step from where the passes before ended, unless the loop had already returned |
| Backgrounder.ScanAsync | MultiLineDebugExpressionEvaluator/Backgrounder.cs:45-121 | the loop ends in exactly the state Run gives from the initial one (timeout 1000, not disabled); over at most 2147482 passes, the timeout and every delay are at least 1000 |
| Backgrounder.TimeoutNeverBelowDefault | MultiLineDebugExpressionEvaluator/Backgrounder.cs:49-111 | over at most 2147482 passes, the timeout stays within [1000, 1000 + 1000·passes], and every delay is at least 1000 |
| Backgrounder.FailureStreak | MultiLineDebugExpressionEvaluator/Backgrounder.cs:49-112 | for n ≤ 2147482: after n consecutive errors from the start, the timeout is 1000 + 1000·n and the delays were 1000, 2000, …, 1000·n |
| Backgrounder.TimeoutWraps | MultiLineDebugExpressionEvaluator/Backgrounder.cs:111 | error number 2147483 wraps the timeout to -2147483296 |
| Backgrounder.RunConcat | MultiLineDebugExpressionEvaluator/Backgrounder.cs:56-113 | running two stretches of passes in turn is running their concatenation |
| Backgrounder.BackOffStretch | MultiLineDebugExpressionEvaluator/Backgrounder.cs:65-111 | while the timeout stays below -1, n passes that are not cancelled raise it by exactly 1000n, and the delays tried are the timeouts passed through |
| Backgrounder.TimeoutRecovers | MultiLineDebugExpressionEvaluator/Backgrounder.cs:111 | after the wrap, 2147484 throwing passes bring the timeout back to 704, below the 1000 default, with the loop still running |
| Backgrounder.NegativeTimeoutOnlyBacksOff | MultiLineDebugExpressionEvaluator/Backgrounder.cs:65-112 | once the timeout is below -1, every pass that is not cancelled only starts a delay and adds 1000 |
| Backgrounder.TimeoutStaysEven | MultiLineDebugExpressionEvaluator/Backgrounder.cs:52-111 | from an even timeout, every timeout reached is even, so never -1 (the argument that waits forever) |
| Backgrounder.CompletedCycleResets | MultiLineDebugExpressionEvaluator/Backgrounder.cs:82-98 | from any reached running state with a non-negative timeout, a pass that finds the dialog, sets it up and sees it close resets the timeout to 1000 and completes one session |
| Backgrounder.NotFoundCycleKeeps | MultiLineDebugExpressionEvaluator/Backgrounder.cs:82-87 | from any reached running state with a non-negative timeout, a pass that finds no dialog leaves the timeout unchanged |
| Backgrounder.ErrorCycleBacksOff | MultiLineDebugExpressionEvaluator/Backgrounder.cs:105-112 | from any reached running state whose timeout is non-negative and leaves room for 1000 more in an `int`, a pass ending in an ordinary exception adds exactly 1000 to the timeout |
| Backgrounder.CancellationStops | MultiLineDebugExpressionEvaluator/Backgrounder.cs:60-104 | cancellation ends the loop whatever follows; the timeout and sessions stay untouched; seen at the top of a pass, it starts no delay |
| Backgrounder.DialogCycle | MultiLineDebugExpressionEvaluator/Backgrounder.cs:82-98 | the pass creates at most one session, and one exactly when the window is open and the constructor does not throw; a completed pass created one; setup rewrites the dialog exactly when the session is ok and the label is in the combo box's grid, and a rewritten session is waited for to completion; the outcome is the one determined by the windows and the dialog contents |
| Backgrounder.DialogOutcome | MultiLineDebugExpressionEvaluator/Backgrounder.cs:82-112 | a pass that reaches the dialog ends not found exactly when no QuickWatch window is open; it ends in an error exactly when a window is open and the constructor throws, or the session is ok and setup throws because the label is not in the combo box's grid; otherwise it completes |
| Backgrounder.CancelDuringWaitResets | MultiLineDebugExpressionEvaluator/Backgrounder.cs:89-98 | a cancellation during the dialog wait is a completed pass and then a cancelled one: the timeout is reset to 1000, the session counted, and the loop ends |

## Left out

- The element-tree search (`GetRecursiveByName`, `GetAllRecursiveByPredicate`) is not part of this model. What it finds is the input `DialogTree`.
- Reflection in `GetText`/`SetText` is reduced to an optional text value. Reading a `Text` property that holds null is not modelled.
- `PointToScreen` and its `double` coordinates are replaced by integer screen positions supplied as input.
- The 250 ms polling in `WaitForClosingAsync`, `Task.Delay`'s waiting, the thread switches and the `CancellationTokenSource` are left out:
  - their effect on a pass is its `Outcome`;
  - a cancellation during the delay or the switch to the main thread is `Interrupted`;
  - a cancellation during the dialog wait is a `Completed` pass followed by a `Cancelled` one;
  - the delays are recorded only as the arguments passed.
- Logging (`Logging.LogVS`) is left out.
- The `Backgrounder` constructor is left out. It only wires Visual Studio events.
- The package registration file is left out.
- The enumeration of `Application.Current.Windows` is a sequence of runtime type names.
- Layout without logic is left out: margins, padding, heights, alignment, the checkbox caption, and the grid rows copied by `Grid.SetRow`.
- The combo box's grid and the chosen re-evaluate button's grid are assumed to be different panels. A dialog where they are the same grid is not modelled, because the model keeps the two grids as separate sequences. Any other button may share the combo box's grid.
- The outer `catch` of `ScanAsync` is not modelled. Only the logging calls in the inner handler could throw out to it, and logging is not part of this model: it is assumed not to throw.
- The loop runs forever in the source. `Run` and `ScanAsync` cover any finite prefix of passes.
- `ScanAsync`: the lower bound of 1000 on the timeout is stated only for runs of at most 2147482 passes. A longer run of failures wraps the C# `int` (shown by `TimeoutWraps`). Later the timeout climbs back to 704, below the default (shown by `TimeoutRecovers`).
- `TimeoutNeverBelowDefault`: stated only for runs of at most 2147482 passes, for the same reason.
- `QuickWatch.QuickWatchDialog.InitialSetup`: after a setup that throws, the model records only the state reached. It does not model the labels and grids WPF leaves behind mid-way.
