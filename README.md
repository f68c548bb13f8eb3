# encapsulating — a Dafny model of the token-list engine

The jQuery `encapsulating` plugin hides a `<textarea>` and replaces it with an
area of *items*: one link per token, in order, plus one draft `<input>` that
stands somewhere among them. After every push and every sync the hidden
textarea holds the items joined by newlines, so the form can still submit it. Two revisions of the
plugin exist, `jquery.encapsulating.js` and `jquery-encapsulating.js`. They
share the push and sync logic and differ in their key handling.

This project models:

- the text rules: the `\s` trim, the split on `[\n\r,]+` and the newline join;
- the area's shared operations: push, the two textarea syncs, starting an
  edit, and removing an item;
- each revision's event handlers: input keys, input focus and blur, item
  click, item keys, and the remove control.

Modules:

- `Tokens` (`tokens.dfy`): trim, split, join, `Parse` and `Serialize`, and
  their round trip.
- `Widget` (`widget.dfy`): the area's state and the shared operations.
  - Each operation is a function on an `AreaState`. It is also a method of
    the class `Area`, whose fields the method updates in place. Each method
    is proved to leave exactly the state its function describes.
  - The draft's place is an index: the draft stands between
    `items[..draft]` and `items[draft..]`.
- `DotPlugin` (`dot_plugin.dfy`): the handlers of `jquery.encapsulating.js`.
  - It includes the key-string builder `transEventKey`, with a loop and a
    proof that different events give different strings.
  - It includes the caret flags of `selectionPosition`.
- `DashPlugin` (`dash_plugin.dfy`): the handlers of `jquery-encapsulating.js`,
  which switch on `keyCode` after ignoring modified keys.

How the handlers are modelled:

- A handler is a function from the state and the event to an `Outcome`. The
  outcome holds the new state, whether `preventDefault` was called, and where
  the focus went:
  - `Keep`: unchanged;
  - `Input`: the draft;
  - `Item(i)`: the i-th item of the new list;
  - `Lost`: the focus left every child of the area, because the focused
    item was removed and no item follows it.
- Each handler is also a method on an `Area`, proved against that function.
- jQuery's `.focus()`, `.blur()` and `.click()` run the bound handlers.
  - Focusing the input runs its focus handler, which saves the value as
    `prevVal`.
  - In `jquery.encapsulating.js`, `toolbox.focus($next, $input)` first
    triggers `blur` on the input, which runs its blur handler and pushes the
    input a second time. That push changes nothing, because the first push
    left the draft empty and last (`PushDraftIdle`).
  - In `jquery-encapsulating.js`, `$next.focus()` after a push runs no
    handler of the input, so the model pushes only once there.
  - Triggering `blur` on the input runs its blur handler, which calls
    `preventDefault`. jQuery then skips the browser's own blur. `Keep` after
    such a blur means that no handler moves the focus.
- Browser checks (`$.browser.msie || $.browser.opera`) are the Boolean
  parameter `ie`.

Behaviours of the code worth knowing:

- **Where push leaves the draft.** A push inserts the new item where the
  draft stood. It then moves the draft input to the END of the area
  (jquery.encapsulating.js lines 258-260), not to just after the new item.
- **Comma relocation in `jquery.encapsulating.js`.** The relocation before
  the following item is guarded by `key == 188` (line 336), where `key` is
  the key string. A string such as `"keydown:188"` converts to NaN, so the
  guard is never true: `CommaRelocationIsDead` proves this. A comma at the
  end of the draft therefore leaves the draft after every item. The other
  revision tests `e.keyCode == 188` and does relocate
  (`DashPlugin.CommaAtEndRelocates`).
- **Esc.** Esc restores the value saved on focus and then commits it like
  enter does (lines 320-326). It does not only reset the draft.
- **No re-sync on edit or item delete.** An item click, and backspace or
  delete on an item, do not write the textarea. The removed item stays in
  the textarea until the next push or sync. The remove control is the
  exception: it syncs at once (jquery.encapsulating.js line 499).

## Model

| member | source | states |
|---|---|---|
| Tokens.TrimStartDropsSpace | jquery.encapsulating.js:233 | `^\s+` removes exactly a leading run of white space: the result is a suffix of the input, what was dropped is all space, and the result is empty or starts with a non-space |
| Tokens.TrimEndDropsSpace | jquery.encapsulating.js:233 | `\s+$` removes exactly a trailing run of white space: the result is a prefix, the dropped part is all space, and the result is empty or ends with a non-space |
| Tokens.Trim | jquery.encapsulating.js:233 | the trimmed value has white space at neither end |
| Tokens.TrimKeeps | jquery.encapsulating.js:233 | a character that is not white space survives the trim |
| Tokens.TrimEmptyIff | jquery.encapsulating.js:233-236 | the trimmed value is empty (so `if (val)` creates no item) exactly when the value is all white space |
| Tokens.TrimOfTrimmed | jquery.encapsulating.js:233 | a value without surrounding white space is left unchanged |
| Tokens.TrimIdempotent | jquery.encapsulating.js:233 | trimming twice is trimming once |
| Tokens.TrimDelimiterFree | jquery.encapsulating.js:233 | trimming a value without newline, carriage return or comma adds none |
| Tokens.TrimStart | jquery.encapsulating.js:233 | the `^\s+` half of the trim; `TrimStartDropsSpace` proves it removes exactly the leading run of white space |
| Tokens.TrimEnd | jquery.encapsulating.js:233 | the `\s+$` half of the trim; `TrimEndDropsSpace` proves it removes exactly the trailing run of white space |
| Tokens.Split | jquery.encapsulating.js:193 | `split(/[\n\r,]+/)` yields at least one piece, and no piece holds a delimiter; `SplitWord`, `SplitRun` and `SplitCut` pin down the pieces themselves |
| Tokens.SplitWord | jquery.encapsulating.js:193 | a text without delimiters splits into itself alone |
| Tokens.SplitRun | jquery.encapsulating.js:193 | a leading run of one or more delimiters yields one empty piece, then the pieces of what follows the run |
| Tokens.SplitCut | jquery.encapsulating.js:193 | a delimiter-free word, a run of delimiters, and a rest that does not start with a delimiter split into the word followed by the pieces of the rest |
| Tokens.SplitTrailingRun | jquery.encapsulating.js:193 | a trailing run of delimiters leaves one empty piece at the end |
| Tokens.SplitFourWords | jquery.encapsulating.js:193 | four words separated by three delimiter runs of any length split into exactly those four words |
| Tokens.SplitExample | jquery.encapsulating.js:193 | `"a, b,,  c\nd"` splits into `"a"`, `" b"`, `"  c"` and `"d"` |
| Tokens.TrimExample | jquery.encapsulating.js:233 | the trim of those four pieces is `"a"`, `"b"`, `"c"` and `"d"` |
| Tokens.ParseExample | jquery.encapsulating.js:190-194 | reading `"a, b,,  c\nd"` from the textarea gives the items `a`, `b`, `c` and `d` |
| Tokens.Join | jquery.encapsulating.js:181-188 | the join of the item texts with a separator; `SplitSerialize` proves the split undoes it |
| Tokens.Serialize | jquery.encapsulating.js:181-188 | what `syncToTextarea` writes: the items joined by newlines; `ParseSerializeRoundTrip` proves reading it back gives the items |
| Tokens.Parse | jquery.encapsulating.js:190-194 | what `syncFromTextarea` pushes: the split pieces, trimmed, with empty ones dropped; `ParsedItemsAreClean`, `ParseSerializeRoundTrip`, `ParseIdempotent` and `ParseExample` state what it yields |
| Tokens.SplitLosesOnlyDelimiters | jquery.encapsulating.js:193 | the pieces, concatenated, are the input with its delimiters removed: the split loses nothing else and keeps the order |
| Tokens.TrimmedNonEmpty | jquery.encapsulating.js:233-236 | pushing pieces one by one keeps at most one item per piece, and every item is non-empty and trimmed |
| Tokens.TrimmedNonEmptyDelimiterFree | jquery.encapsulating.js:193-236 | items made from delimiter-free pieces are delimiter-free |
| Tokens.ParsedItemsAreClean | jquery.encapsulating.js:190-194 | every item read from the textarea is non-empty, trimmed and free of delimiters |
| Tokens.TrimmedNonEmptyKeepsClean | jquery.encapsulating.js:233-236 | pushing texts that are already clean items keeps them all, unchanged |
| Tokens.SplitAfterWord | jquery.encapsulating.js:193 | a delimiter-free word at the front of the text joins the first piece of the rest |
| Tokens.SplitSerialize | jquery.encapsulating.js:187-193 | splitting the newline join of non-empty, delimiter-free texts gives back the texts |
| Tokens.ParseSerializeRoundTrip | jquery.encapsulating.js:181-194 | reading back what `syncToTextarea` wrote yields the same items, for items that are trimmed, non-empty and free of delimiters |
| Tokens.ParseIdempotent | jquery.encapsulating.js:181-194 | a sync to the textarea and back after a read changes nothing: parse, serialize, parse equals parse |
| Widget.PushedItems | jquery.encapsulating.js:233-260 | the items after a push of a string; `PushBlankAddsNothing`, `PushInsertsBeforeDraft` and `PushedItemsClean` state what it holds |
| Widget.AfterSyncTo | jquery.encapsulating.js:181-188 | the sync to the textarea; `SyncRoundTrip` proves it is undone by the sync back |
| Widget.AfterSyncFrom | jquery.encapsulating.js:190-194 | the sync from the textarea; `SyncFromParses` proves it replaces the items with the parsed value |
| Widget.AfterPushText | jquery.encapsulating.js:232-268 | pushing a string leaves the draft after every item |
| Widget.PushedItemsClean | jquery.encapsulating.js:233-256 | a push keeps every item non-empty and trimmed |
| Widget.PushKeepsWellFormed | jquery.encapsulating.js:232-268 | a push keeps the area well formed: the draft in range and every item clean |
| Widget.AfterPushElement | jquery.encapsulating.js:212-230 | pushing an input element keeps the draft index in range |
| Widget.AfterPushElements | jquery.encapsulating.js:214-225 | pushing a jQuery set keeps the draft index in range |
| Widget.AfterPush | jquery.encapsulating.js:202-269 | every push argument (string, array, set) keeps the draft index in range |
| Widget.AfterPushAll | jquery.encapsulating.js:206-211 | pushing an array element by element keeps the draft index in range |
| Widget.AfterEdit | jquery.encapsulating.js:429-442 | the item click keeps the area well formed |
| Widget.AfterRemove | jquery.encapsulating.js:494-499 | removing an item keeps the area well formed |
| Widget.AfterPushDraft | jquery.encapsulating.js:394-403 | pushing the draft input (its blur handler) keeps the draft index in range |
| Widget.PushBlankAddsNothing | jquery.encapsulating.js:233-268 | a blank string adds no item; the draft still moves to the end and the textarea is rewritten (the same as jquery-encapsulating.js lines 112-139) |
| Widget.PushInsertsBeforeDraft | jquery.encapsulating.js:233-268 | a non-blank string becomes one new item at the draft's place, the other items keep their order, the draft is the last child, and the textarea lists the items (the same as jquery-encapsulating.js lines 112-139) |
| Widget.PushDraftTwice | jquery.encapsulating.js:228-229 | pushing the draft input twice is pushing it once: the first push clears it |
| Widget.PushArrayConcat | jquery.encapsulating.js:206-211 | pushing the concatenation of two arrays is pushing one array and then the other |
| Widget.PushArrayFirstElementFirst | jquery.encapsulating.js:208-209 | an array push handles its first element before the rest |
| Widget.PushSetMemberByMember | jquery.encapsulating.js:221-225 | a larger set is pushed member by member, like an array of one-element sets |
| Widget.PushStringsAppends | jquery.encapsulating.js:206-211 | with the draft at the end, pushing strings appends their trimmed non-empty texts; the textarea lists the items once any string was pushed |
| Widget.PushTextAppends | jquery.encapsulating.js:233-260 | with the draft at the end, a push appends the trimmed text when it is non-empty |
| Widget.SyncFromParses | jquery.encapsulating.js:190-194 | `syncFromTextarea` replaces the items with the parsed textarea value, leaves the draft last, rewrites the textarea in normal form, and leaves the input alone (the same as jquery-encapsulating.js lines 67-72) |
| Widget.SyncRoundTrip | jquery.encapsulating.js:181-194 | writing the textarea and reading it back restores the items, when they hold no delimiter |
| Widget.EditTakesTheSlot | jquery.encapsulating.js:429-442 | the item click puts the draft exactly where the item stood among the children, gives it the item's text, and leaves the textarea |
| Widget.EditThenCommitRestores | jquery.encapsulating.js:429-442 | clicking an item and then pushing the draft restores the same items, with the textarea listing them |
| Widget.SiblingAtNamesChild | jquery.encapsulating.js:452-465 | `.prev()`/`.next()` name the child at that position: the draft exactly when the draft stands there, otherwise that item |
| Widget.ItemNeighbours | jquery.encapsulating.js:452-465 | an item's `.prev()` and `.next()`: the draft when it is adjacent, nothing at the ends, otherwise the adjacent item |
| Widget.PushDraftKeepsNeighbours | jquery.encapsulating.js:236-260 | pushing the draft keeps the items before it and after it, with the new item between them |
| Widget.RemoveDeletesOneChild | jquery.encapsulating.js:494-498 | removing an item deletes exactly its child and no other |
| Widget.ChildrenAt | jquery.encapsulating.js:255-260 | the area has one child more than it has items, namely the draft |
| Widget.RemoveOnlyItem | jquery.encapsulating.js:494-499 | removing the only item leaves only the draft and an empty textarea |
| Widget.PushDraftState | jquery.encapsulating.js:394-403 | the blur push: the items are the old ones with the trimmed value inserted at the draft, the draft is last and empty, the textarea lists the items, and `$next` is at the index the push moved it to |
| Widget.PushDraftIdle | jquery.encapsulating.js:394-403 | pushing an empty draft that is already last changes nothing |
| Widget.PushDraftKeepsWellFormed | jquery.encapsulating.js:394-403 | the blur push keeps the area well formed |
| Widget.Area.constructor | jquery.encapsulating.js:503-505 | a new area is the textarea's value read in by `syncFromTextarea` |
| Widget.Area.SyncToTextarea | jquery.encapsulating.js:181-188 | writes the newline join of the item texts into the textarea (the same as jquery-encapsulating.js lines 57-65) |
| Widget.Area.SyncFromTextarea | jquery.encapsulating.js:190-194 | removes every item and pushes the split pieces of the textarea |
| Widget.Area.PushValue | jquery.encapsulating.js:232-268 | trims, inserts before the draft when non-empty, moves the draft last, and syncs |
| Widget.Area.PushElement | jquery.encapsulating.js:228-229 | reads and clears the element, then pushes its value |
| Widget.Area.Push | jquery.encapsulating.js:202-269 | the push event on any argument |
| Widget.Area.PushArray | jquery.encapsulating.js:206-211 | the loop over an array's elements |
| Widget.Area.PushSet | jquery.encapsulating.js:214-226 | the switch on a set's length |
| Widget.Area.PushEach | jquery.encapsulating.js:222-224 | the loop over a set's members |
| Widget.Area.EditItem | jquery.encapsulating.js:432-441 | detaches the draft, gives it the item's text, puts it after the item, and removes the item |
| Widget.Area.RemoveItem | jquery.encapsulating.js:498 | removes one item without syncing |
| Widget.Area.RelocateDraft | jquery.encapsulating.js:338-340 | moves the draft before a given item |
| Widget.Area.SetValue | jquery.encapsulating.js:321 | sets the draft input's value |
| DotPlugin.Decimal | jquery.encapsulating.js:60 | a key code is written as a non-empty string of digits |
| DotPlugin.DecimalRoundTrip | jquery.encapsulating.js:60 | the digits of a key code read back as that code |
| DotPlugin.TransEventKey | jquery.encapsulating.js:55-63 | the loop builds `type:`, then each held modifier's name and `+` in the order alt, shift, ctrl, meta, then the key code |
| DotPlugin.HeldPrefixLayout | jquery.encapsulating.js:57-59 | the modifier loop appends alt+, shift+, ctrl+, meta+ for the held ones, in that order |
| DotPlugin.EventKey | jquery.encapsulating.js:55-63 | the key string `transEventKey` builds; `TransEventKey` computes it with the loop, `EventKeyLayout` and `EventKeyInjective` state its shape and that it tells events apart |
| DotPlugin.EventKeyLayout | jquery.encapsulating.js:55-63 | the key string is the type, a colon, the held modifiers and the decimal key code |
| DotPlugin.PlainEventKey | jquery.encapsulating.js:55-63 | with no modifier held, the key string is just the type, a colon and the code |
| DotPlugin.PrefixThenTail | jquery.encapsulating.js:57-60 | what the loop has appended, followed by what is still to come, is the whole suffix after the colon |
| DotPlugin.KeyTailLayout | jquery.encapsulating.js:55-63 | the key string is the type, a colon and the suffix |
| DotPlugin.KeyTailStart | jquery.encapsulating.js:57-60 | the suffix starts with a digit exactly when no further modifier is held, and otherwise with that modifier's initial |
| DotPlugin.KeyTailInjective | jquery.encapsulating.js:57-60 | two events with the same suffix hold the same modifiers and have the same key code |
| DotPlugin.KeyTailStep | jquery.encapsulating.js:57-60 | equal suffixes agree on the next modifier, and what follows it is equal as well |
| DotPlugin.EventKeyInjective | jquery.encapsulating.js:55-63 | different events have different key strings, so a `switch` case names exactly one event |
| DotPlugin.PlainKey | jquery.encapsulating.js:55-63 | the key string of an unmodified event |
| DotPlugin.ShiftedKey | jquery.encapsulating.js:55-63 | the key string of an event with only shift held is `type:shift+code` |
| DotPlugin.SpaceKey | jquery.encapsulating.js:294 | a space keypress is the input's space case |
| DotPlugin.CommaKey | jquery.encapsulating.js:300 | a comma keydown is the input's comma case |
| DotPlugin.RightKey | jquery.encapsulating.js:302 | a right-arrow keydown is the input's right case and the item's next case |
| DotPlugin.TabKey | jquery.encapsulating.js:305 | a tab keydown is the input's tab case |
| DotPlugin.EnterKey | jquery.encapsulating.js:306 | an enter keypress is the input's enter case |
| DotPlugin.EscKey | jquery.encapsulating.js:307 | an Esc keydown is the input's Esc case |
| DotPlugin.LeftKey | jquery.encapsulating.js:349 | a left-arrow keydown is the input's left case and the item's previous case |
| DotPlugin.ShiftTabKey | jquery.encapsulating.js:352 | a shift+tab keydown is the input's shift+tab case |
| DotPlugin.BackspaceKey | jquery.encapsulating.js:361 | a backspace keydown is the input's backspace case and the item's delete case |
| DotPlugin.ShiftTabPressKey | jquery.encapsulating.js:449 | a shift+tab keypress is the item's previous case |
| DotPlugin.TabPressKey | jquery.encapsulating.js:458 | a tab keypress is the item's next case |
| DotPlugin.F2Key | jquery.encapsulating.js:467 | an F2 keydown is the item's F2 case |
| DotPlugin.DeleteKey | jquery.encapsulating.js:472 | a delete keydown is the item's delete case |
| DotPlugin.SelectionPosition | jquery.encapsulating.js:72-111 | start, end and length come from the selection; atStart and atEnd are set only for an empty selection, and then exactly when the caret is at 0 or at the value's end |
| DotPlugin.JsToNumber | jquery.encapsulating.js:336 | JavaScript's conversion of a string to a number, for blank and decimal text; `KeyStringIsNotANumber` proves a key string converts to NaN |
| DotPlugin.CaretAtBothEnds | jquery.encapsulating.js:102-108 | the caret is at both ends exactly when the input is empty and the caret is at 0 |
| DotPlugin.LooseEqualsNumber | jquery.encapsulating.js:336 | comparing a string with a number converts the string: decimal digits compare as their value, and other text is NaN |
| DotPlugin.NumberStringEqualsNumber | jquery.encapsulating.js:336 | the decimal string of a number compares equal to it |
| DotPlugin.KeyStringIsNotANumber | jquery.encapsulating.js:284 | no key string compares equal to any number: its colon makes it NaN |
| DotPlugin.CommaRelocationIsDead | jquery.encapsulating.js:336-341 | the guard `key == 188` is false for every event, so the draft is never relocated |
| DotPlugin.InputFocus | jquery.encapsulating.js:383-391 | the input's focus handler saves the value; `EscCommitsValueAtFocus` proves Esc returns to what it saved |
| DotPlugin.ItemEdit | jquery.encapsulating.js:429-442 | the state after an item click; `EditTakesTheSlot` and `ItemClickEdits` state where the draft goes and what it holds |
| DotPlugin.ItemClick | jquery.encapsulating.js:429-442 | the item click handler: prevented, and the focus in the input; `ItemClickEdits` states it |
| DotPlugin.RemoveClick | jquery.encapsulating.js:494-501 | the remove control; `RemoveControlSyncs` proves it deletes the item and rewrites the textarea |
| DotPlugin.Commit | jquery.encapsulating.js:305-345 | the shared tail of comma, right, tab, enter and Esc; `CommaAtEndCommits`, `RightAtEndFocusesFollower`, `EscRestoresSavedValue` and `CommitSound` state it |
| DotPlugin.PushAndFocus | jquery.encapsulating.js:326-343 | the push, then the focus on `$next` or the input; `CommaRelocationIsDead` proves the relocation branch never runs |
| DotPlugin.MovePrev | jquery.encapsulating.js:349-359 | left at the start and shift+tab; `FrontOfAreaKeepsFocus` and `MovePrevSound` state it |
| DotPlugin.EditPrev | jquery.encapsulating.js:361-373 | backspace at the start; `BackspaceAtStartEditsPrevious`, `EditPreviousState`, `FrontOfAreaKeepsFocus` and `EditPrevSound` state it |
| DotPlugin.InputKey | jquery.encapsulating.js:283-377 | the input's key handler with its fallthroughs; the input-key lemmas here and `InputKeySound` state its cases |
| DotPlugin.FocusSibling | jquery.encapsulating.js:452-465 | an item's focus on its neighbour; `ItemLeftFocusesPrevChild` and `ItemRightFocusesNextChild` state it |
| DotPlugin.DeleteItem | jquery.encapsulating.js:471-478 | backspace and delete on an item; `ItemDeleteLeavesTextarea` states it |
| DotPlugin.ItemKey | jquery.encapsulating.js:444-480 | the item's key handler; `F2ClicksItem`, `ItemDeleteLeavesTextarea`, the focus lemmas and `ItemKeySound` state its cases |
| DotPlugin.FrontOfAreaKeepsFocus | jquery.encapsulating.js:349-373 | left or backspace at the start of a draft with no child before it commits the draft, and no handler moves the focus |
| DotPlugin.CommaAlwaysPrevented | jquery.encapsulating.js:300-301 | a comma keydown always calls `preventDefault` |
| DotPlugin.CommaMidTextKeepsDraft | jquery.encapsulating.js:300-304 | a comma with the caret not at the end changes nothing |
| DotPlugin.CommaAtEndCommits | jquery.encapsulating.js:300-342 | a comma at the end of a non-empty draft inserts the trimmed value, leaves the draft last and empty with an empty `prevVal`, syncs, and keeps the focus in the input |
| DotPlugin.RightAtEndFocusesFollower | jquery.encapsulating.js:302-332 | right at the end of a non-empty draft with an item after it commits the draft and focuses that same item |
| DotPlugin.TabIgnoredOutsideIe | jquery.encapsulating.js:308-309 | outside IE and Opera, tab and shift+tab in the input change nothing and are not prevented |
| DotPlugin.SpaceOnEmptySuppressed | jquery.encapsulating.js:294-297 | a space is prevented exactly when the input is empty, and changes nothing |
| DotPlugin.EscRestoresSavedValue | jquery.encapsulating.js:318-342 | Esc restores the value saved on focus: if that is empty it only empties the input, otherwise it commits that value |
| DotPlugin.EscCommitsValueAtFocus | jquery.encapsulating.js:320-326 | whatever was typed after the focus, Esc commits the value the input held when it got the focus |
| DotPlugin.BackspaceAtStartEditsPrevious | jquery.encapsulating.js:361-372 | backspace at the start commits the draft, then edits the item before it; the textarea still lists that item |
| DotPlugin.EditPreviousState | jquery.encapsulating.js:365-371 | the state after the blur push and the click on `$prev`: the items, the draft's index, its value and saved value, and the textarea |
| DotPlugin.ItemClickEdits | jquery.encapsulating.js:429-442 | a click puts the draft where the item stood, with the item's text, saved as `prevVal`; the textarea is not written |
| DotPlugin.F2ClicksItem | jquery.encapsulating.js:467-470 | F2 on an item is a click on it |
| DotPlugin.ItemDeleteLeavesTextarea | jquery.encapsulating.js:471-478 | backspace or delete removes exactly that item, leaves the textarea, and focuses the next item if there is one |
| DotPlugin.RemoveControlSyncs | jquery.encapsulating.js:494-501 | the remove control deletes its item and rewrites the textarea |
| DotPlugin.ItemLeftFocusesPrevChild | jquery.encapsulating.js:449-457 | left or shift+tab on an item focuses the child before it: nothing at the first child, the input when the draft is there, otherwise that item |
| DotPlugin.ItemRightFocusesNextChild | jquery.encapsulating.js:458-466 | right or tab on an item focuses the child after it, in the same way |
| DotPlugin.CommitSound | jquery.encapsulating.js:305-345 | the commit keeps the area well formed and focuses an existing item |
| DotPlugin.MovePrevSound | jquery.encapsulating.js:352-359 | moving to the previous item keeps the area well formed |
| DotPlugin.EditPrevSound | jquery.encapsulating.js:361-373 | editing the previous item keeps the area well formed |
| DotPlugin.InputKeySound | jquery.encapsulating.js:283-377 | every input key keeps the area well formed and focuses only an existing item |
| DotPlugin.ItemKeySound | jquery.encapsulating.js:444-480 | every item key keeps the area well formed and focuses only an existing item |
| DotPlugin.OnInputFocus | jquery.encapsulating.js:383-391 | the focus handler saves the value as `prevVal` |
| DotPlugin.OnInputBlur | jquery.encapsulating.js:394-403 | the blur handler pushes the input |
| DotPlugin.OnItemClick | jquery.encapsulating.js:429-442 | the item click handler |
| DotPlugin.OnRemoveClick | jquery.encapsulating.js:494-501 | the remove control's click handler |
| DotPlugin.OnCommit | jquery.encapsulating.js:305-345 | the shared commit of comma, right, tab, enter and Esc |
| DotPlugin.OnPushAndFocus | jquery.encapsulating.js:326-343 | pushes the input, then focuses `$next` or the input |
| DotPlugin.OnMovePrev | jquery.encapsulating.js:352-359 | left at the start and shift+tab |
| DotPlugin.OnEditPrev | jquery.encapsulating.js:361-373 | backspace at the start: blur, then click on `$prev` |
| DotPlugin.OnInputKey | jquery.encapsulating.js:283-377 | the input's key handler: builds the key string and runs the switch with its fallthroughs |
| DotPlugin.OnFocusSibling | jquery.encapsulating.js:452-465 | focuses an item's neighbour, running the input's focus handler when that is the input |
| DotPlugin.OnItemKey | jquery.encapsulating.js:444-480 | the item's key handler |
| DashPlugin.IsAtStart | jquery-encapsulating.js:240-254 | `isAtStart` tests `selectionStart` against 0; `CaretTestsAgreeWhenCollapsed` relates it to the other revision |
| DashPlugin.IsAtEnd | jquery-encapsulating.js:257-269 | `isAtEnd` compares the value's length with `selectionEnd` |
| DashPlugin.CaretTestsAgreeWhenCollapsed | jquery-encapsulating.js:240-269 | `isAtStart` and `isAtEnd` agree with the other revision's flags exactly when the selection is empty |
| DashPlugin.ModifiedKeysIgnored | jquery-encapsulating.js:147-148 | any key with alt, shift, ctrl or meta held is ignored by the input and by every item |
| DashPlugin.CommaAlwaysPrevented | jquery-encapsulating.js:161-162 | a comma keydown always calls `preventDefault` |
| DashPlugin.CommaAtEndRelocates | jquery-encapsulating.js:161-190 | a comma at the end of a non-empty input commits it and puts the input back just before the item that followed it |
| DashPlugin.TabEnterOnEmptyIgnored | jquery-encapsulating.js:166-169 | tab or enter in an empty input changes nothing and is not prevented |
| DashPlugin.SpaceOnEmptySuppressed | jquery-encapsulating.js:154-158 | a space is prevented exactly when the input is empty, and changes nothing |
| DashPlugin.TabFocusesFollower | jquery-encapsulating.js:166-179 | tab, or right at the end, commits a non-empty input and focuses the item that followed it |
| DashPlugin.LeftAtStartFocusesPrevious | jquery-encapsulating.js:197-206 | left at the start commits the input and focuses the item before it; with no item before it the input keeps the focus |
| DashPlugin.BackspaceAtStartEditsPrevious | jquery-encapsulating.js:208-221 | backspace at the start commits the input, then edits the item before it, without saving a value |
| DashPlugin.ItemClickEdits | jquery-encapsulating.js:285-296 | a click puts the input where the item stood, with its text; the textarea is not written |
| DashPlugin.ItemDeleteLeavesTextarea | jquery-encapsulating.js:313-319 | backspace or delete removes that item, leaves the textarea and the default, and focuses the next child |
| DashPlugin.ItemArrowsFocusNeighbour | jquery-encapsulating.js:303-308 | left and right on an item focus the neighbouring child without preventing the default |
| DashPlugin.Commit | jquery-encapsulating.js:166-192 | the shared tail of comma, right, tab and enter; `CommaAtEndRelocates`, `TabFocusesFollower`, `TabEnterOnEmptyIgnored` and `CommitSound` state it |
| DashPlugin.MovePrev | jquery-encapsulating.js:197-206 | left at the start; `LeftAtStartFocusesPrevious` and `MovePrevSound` state it |
| DashPlugin.EditPrev | jquery-encapsulating.js:208-221 | backspace at the start; `BackspaceAtStartEditsPrevious` and `EditPrevSound` state it |
| DashPlugin.InputKeydown | jquery-encapsulating.js:146-229 | the input's keydown handler; the input-key lemmas here and `InputKeydownSound` state its cases |
| DashPlugin.ItemClick | jquery-encapsulating.js:285-296 | the item click handler; `ItemClickEdits` states it |
| DashPlugin.FocusSibling | jquery-encapsulating.js:303-308 | an item's arrow keys focus a neighbour; `ItemArrowsFocusNeighbour` states it |
| DashPlugin.DeleteItem | jquery-encapsulating.js:313-319 | backspace and delete on an item; `ItemDeleteLeavesTextarea` states it |
| DashPlugin.ItemKeydown | jquery-encapsulating.js:298-321 | the item's keydown handler; `ModifiedKeysIgnored`, the item lemmas and `ItemKeydownSound` state its cases |
| DashPlugin.CommitSound | jquery-encapsulating.js:166-192 | the commit keeps the area well formed and focuses an existing item |
| DashPlugin.MovePrevSound | jquery-encapsulating.js:197-206 | left at the start keeps the area well formed |
| DashPlugin.InputKeydownSound | jquery-encapsulating.js:146-229 | every input keydown keeps the area well formed |
| DashPlugin.ItemKeydownSound | jquery-encapsulating.js:298-321 | every item keydown keeps the area well formed |
| DashPlugin.OnInputBlur | jquery-encapsulating.js:232-238 | the blur handler pushes the input |
| DashPlugin.OnItemClick | jquery-encapsulating.js:285-296 | the item click handler |
| DashPlugin.OnCommit | jquery-encapsulating.js:166-192 | the shared commit of comma, right, tab and enter |
| DashPlugin.OnMovePrev | jquery-encapsulating.js:197-206 | left at the start |
| DashPlugin.OnEditPrev | jquery-encapsulating.js:208-221 | backspace at the start |
| DashPlugin.OnInputKeydown | jquery-encapsulating.js:146-229 | the input's keydown handler |
| DashPlugin.OnItemKeydown | jquery-encapsulating.js:298-321 | the item's keydown handler |

## Left out

- Sizes, CSS classes, the input sizer and scrolling: these are presentation only.
- The IE `TextRange` branches of `selectionPosition`, `isAtStart` and
  `isAtEnd`: the model reads `selectionStart` and `selectionEnd`, as every
  other browser does.
- Which browser is running: `$.browser.msie` or `opera` is the parameter
  `ie`. The IE-only second `$input.focus()` of the item click is not
  modelled, because it repeats a focus that is already there.
- Native browser focus and blur: the model follows only the focus changes
  the handlers cause themselves. A mouse click that blurs the input first,
  and the blur an element gets when it is detached, are not modelled.
- The area's focus indicator and its 100 ms timer: presentation only.
- The `setTimeout` inside `toolbox.focus` (jquery.encapsulating.js lines
  118-132): the model applies the deferred focus at once, inside the handler.
- `console.log` debugging, and the `.live` and `.bind` wiring: handlers are
  called directly.
- Settings (`editLabel`, `removeText`, `removeLabel`, `debug`, the
  `data-encapsulating` merge): they affect only labels and logging.
- The textarea's `change` binding (jquery.encapsulating.js line 410): it
  calls `syncFromTextarea`, which is modelled.
- The `keyup` handler: it only resizes the input.
- Focus lost by detaching: the blur handler's push detaches the input and
  appends it again. A browser drops the focus of a detached element. The
  model's `Keep` after left or backspace at the front, and the input's
  focus after a push in general, follow only what the handlers do.
- UTF-16: strings are sequences of Unicode scalar values. `value.length`,
  `selectionStart` and `selectionEnd` are counted in those units, not in
  the UTF-16 code units JavaScript counts. A character outside the Basic
  Multilingual Plane therefore counts once, not twice, and lone surrogates
  cannot be represented.
- DotPlugin.JsToNumber: converts only blank text and plain decimal digits.
  Hexadecimal, exponent and sign forms also convert in JavaScript, but no
  key string can take those forms: it always holds a colon.
- Widget.FieldValue: a form field that a push reads but the model's map
  does not name holds the empty value.
- DotPlugin.Held: reads the flag for the i-th modifier name by index. This
  stands for the property lookup `e[modifiers[i] + 'Key']`.
- The `for (var idx in el)` loops visit array indices in order: properties
  added to `Array.prototype` are not modelled.
