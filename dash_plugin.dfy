/** The handlers of jquery-encapsulating.js: the input's keydown state
    machine (switching on `e.keyCode` after ignoring any modified key), the
    caret tests `isAtStart` and `isAtEnd`, the input's blur handler, and the
    item's click and keydown handlers. */
module DashPlugin {
  import opened Tokens
  import opened Widget
  import DotPlugin

  // ---------------------------------------------------------------------
  // input.isAtStart and input.isAtEnd
  // ---------------------------------------------------------------------

  /** `isAtStart` where the input has `selectionStart`. */
  predicate IsAtStart(sel: Selection) {
    sel.start == 0
  }

  /** `isAtEnd` where the input has `selectionEnd`. */
  predicate IsAtEnd(sel: Selection, value: string) {
    |value| == sel.end
  }

  /** The two revisions read the caret alike for a collapsed selection; for
      a selection with extent the other revision sets neither flag, while
      this one looks at the selection's start or end alone. */
  lemma CaretTestsAgreeWhenCollapsed(sel: Selection, value: string)
    ensures var p := DotPlugin.SelectionPosition(sel, value);
      && (p.atStart <==> IsAtStart(sel) && sel.start == sel.end)
      && (p.atEnd <==> IsAtEnd(sel, value) && sel.start == sel.end)
  {
  }

  // ---------------------------------------------------------------------
  // The handlers, as functions of the area's state
  // ---------------------------------------------------------------------

  /** Comma, right, tab and enter once the caret test has passed: an empty
      input is left alone; otherwise it is pushed, and the focus goes to the
      item that followed it (tab and right), or stays in the input, which a
      comma puts back just before that item. */
  function Commit(st: AreaState, code: nat, prevented: bool): Outcome
    requires DraftInRange(st)
  {
    if st.value == "" then Outcome(st, prevented, Keep)
    else
      var next := DraftNext(st);
      var st2 := AfterPushDraft(st);
      var k := FollowerIndex(st);
      if next != NoSibling && (code == 9 || code == 39) then
        // $next.focus() runs no handler of the input: the push already
        // detached and re-appended it
        Outcome(st2, true, Item(k))
      else
        var st3 := if next != NoSibling && code == 188 then st2.(draft := k) else st2;
        Outcome(st3, true, Input)
  }

  /** Left at the start: blur the input (which pushes it) and focus the item
      before it. With no child before it no handler moves the focus: the
      blur handler prevents the default, so triggering blur runs the push
      but not the browser's own blur. */
  function MovePrev(st: AreaState): Outcome
    requires DraftInRange(st)
  {
    var focus := match DraftPrev(st) case ItemSibling(j) => Item(j) case _ => Keep;
    Outcome(AfterPushDraft(st), true, focus)
  }

  /** An item's click (or edit) handler: the input takes the item's text and
      goes in just after it, and the item is removed. */
  function ItemClick(st: AreaState, i: nat): Outcome
    requires i < |st.items|
  {
    Outcome(AfterEdit(st, i), true, Input)
  }

  /** Backspace at the start: blur the input (which pushes it), then click
      the item before it; with no child before it no handler moves the focus. */
  function EditPrev(st: AreaState): Outcome
    requires DraftInRange(st)
  {
    var st2 := AfterPushDraft(st);
    match DraftPrev(st)
    case ItemSibling(j) =>
      DraftNeighbours(st);
      PushDraftKeepsNeighbours(st);
      ItemClick(st2, j)
    case _ => Outcome(st2, true, Keep)
  }

  /** The input's keydown handler. */
  function InputKeydown(st: AreaState, ev: KeyEvent, sel: Selection): Outcome
    requires DraftInRange(st)
  {
    var code := ev.keyCode;
    if AnyModifier(ev) then Outcome(st, false, Keep)
    else if code == 32 then Outcome(st, st.value == "", Keep)
    else if code == 188 || code == 39 then
      var prevented := code == 188;
      if !IsAtEnd(sel, st.value) then Outcome(st, prevented, Keep)
      else Commit(st, code, prevented)
    else if code == 9 || code == 13 then Commit(st, code, false)
    else if code == 37 && IsAtStart(sel) then MovePrev(st)
    else if code == 8 && IsAtStart(sel) then EditPrev(st)
    else Outcome(st, false, Keep)
  }

  /** `.focus()` on an item's neighbour; the default is not prevented. */
  function FocusSibling(st: AreaState, sib: Sibling): Outcome {
    match sib
    case NoSibling => Outcome(st, false, Keep)
    case DraftSibling => Outcome(st, false, Input)
    case ItemSibling(j) => Outcome(st, false, Item(j))
  }

  /** Backspace or delete on item i: focus the next child, then remove the
      item; the textarea is not written and the default is not prevented. */
  function DeleteItem(st: AreaState, i: nat): Outcome
    requires DraftInRange(st) && i < |st.items|
  {
    ItemNeighbours(st, i);
    var focus := match ItemNext(st, i)
      case ItemSibling(j) => Item(j - 1)
      case DraftSibling => Input
      case NoSibling => Lost;
    Outcome(AfterRemove(st, i), false, focus)
  }

  /** An item's keydown handler. */
  function ItemKeydown(st: AreaState, i: nat, ev: KeyEvent): Outcome
    requires DraftInRange(st) && i < |st.items|
  {
    var code := ev.keyCode;
    if AnyModifier(ev) then Outcome(st, false, Keep)
    else if code == 37 then FocusSibling(st, ItemPrev(st, i))
    else if code == 39 then FocusSibling(st, ItemNext(st, i))
    else if code == 113 then ItemClick(st, i)
    else if code == 8 || code == 46 then DeleteItem(st, i)
    else Outcome(st, false, Keep)
  }

  // ---------------------------------------------------------------------
  // Properties of the handlers
  // ---------------------------------------------------------------------

  /** A key held with alt, shift, ctrl or meta is ignored by the input and
      by every item. */
  lemma ModifiedKeysIgnored(st: AreaState, ev: KeyEvent, sel: Selection, i: nat)
    requires DraftInRange(st) && i < |st.items| && AnyModifier(ev)
    ensures InputKeydown(st, ev, sel) == Outcome(st, false, Keep)
    ensures ItemKeydown(st, i, ev) == Outcome(st, false, Keep)
  {
  }

  /** A comma keydown always has its default prevented. */
  lemma CommaAlwaysPrevented(st: AreaState, sel: Selection)
    requires DraftInRange(st)
    ensures InputKeydown(st, DotPlugin.Plain(Keydown, 188), sel).prevented
  {
  }

  /** A comma at the end of a non-empty input commits it and puts the input
      back just before the item that followed it: the items before the input
      are the old ones plus the new item, the items after it are the old ones. */
  lemma CommaAtEndRelocates(st: AreaState, sel: Selection)
    requires DraftInRange(st) && IsAtEnd(sel, st.value) && st.value != ""
    ensures var o := InputKeydown(st, DotPlugin.Plain(Keydown, 188), sel);
      var added := if Trim(st.value) == "" then [] else [Trim(st.value)];
      && o.st.draft <= |o.st.items|
      && o.st.items[..o.st.draft] == st.items[..st.draft] + added
      && o.st.items[o.st.draft..] == st.items[st.draft..]
      && o.st.value == ""
      && o.st.textarea == Serialize(o.st.items)
      && o.prevented && o.focus == Input
  {
    PushDraftState(st);
    var r := AfterPushDraft(st);
    var k := FollowerIndex(st);
    if Trim(st.value) != "" {
      assert r.items[..k] == st.items[..st.draft] + [Trim(st.value)];
    }
  }

  /** Tab or enter in an empty input neither pushes nor prevents the default. */
  lemma TabEnterOnEmptyIgnored(st: AreaState, sel: Selection, code: nat)
    requires DraftInRange(st) && st.value == "" && (code == 9 || code == 13)
    ensures InputKeydown(st, DotPlugin.Plain(Keydown, code), sel) == Outcome(st, false, Keep)
  {
  }

  /** A space typed into an empty input is suppressed; the state is kept. */
  lemma SpaceOnEmptySuppressed(st: AreaState, sel: Selection)
    requires DraftInRange(st)
    ensures var o := InputKeydown(st, DotPlugin.Plain(Keydown, 32), sel);
      o.st == st && o.focus == Keep && (o.prevented <==> st.value == "")
  {
  }

  /** Tab (or right at the end) in a non-empty input with an item after it
      commits the input and focuses that item. */
  lemma TabFocusesFollower(st: AreaState, sel: Selection, code: nat)
    requires DraftInRange(st) && st.value != "" && st.draft < |st.items|
    requires code == 9 || (code == 39 && IsAtEnd(sel, st.value))
    ensures var o := InputKeydown(st, DotPlugin.Plain(Keydown, code), sel);
      && o.st.items == PushedItems(st.items, st.draft, st.value)
      && o.st.draft == |o.st.items| && o.st.value == ""
      && o.prevented
      && o.focus.Item? && o.focus.index < |o.st.items|
      && o.st.items[o.focus.index] == st.items[st.draft]
  {
    PushDraftState(st);
    var st2 := AfterPushDraft(st);
    assert st2.items[FollowerIndex(st)] == st.items[st.draft] by {
      assert st2.items[FollowerIndex(st)..][0] == st.items[st.draft..][0];
    }
  }

  /** Left at the start commits the input and focuses the item that stood
      before it, which keeps its index. */
  lemma LeftAtStartFocusesPrevious(st: AreaState, sel: Selection)
    requires DraftInRange(st) && IsAtStart(sel)
    ensures var o := InputKeydown(st, DotPlugin.Plain(Keydown, 37), sel);
      && o.st.items == PushedItems(st.items, st.draft, st.value)
      && o.st.draft == |o.st.items| && o.st.value == ""
      && o.prevented
      && (if st.draft == 0 then o.focus == Keep
          else o.focus == Item(st.draft - 1) && o.st.items[st.draft - 1] == st.items[st.draft - 1])
  {
    PushDraftState(st);
    if st.draft > 0 {
      var r := AfterPushDraft(st);
      assert r.items[..st.draft][st.draft - 1] == st.items[..st.draft][st.draft - 1];
    }
  }

  /** Backspace at the start commits the input, then edits the item before
      it: the input takes that item's slot and text, the saved value is not
      touched, and the textarea still lists the item. */
  lemma BackspaceAtStartEditsPrevious(st: AreaState, sel: Selection)
    requires DraftInRange(st) && IsAtStart(sel) && st.draft > 0
    ensures var o := InputKeydown(st, DotPlugin.Plain(Keydown, 8), sel);
      && o.st.items == st.items[..st.draft - 1]
           + (if Trim(st.value) == "" then [] else [Trim(st.value)]) + st.items[st.draft..]
      && o.st.draft == st.draft - 1
      && o.st.value == st.items[st.draft - 1] && o.st.prevVal == st.prevVal
      && o.st.textarea == Serialize(PushedItems(st.items, st.draft, st.value))
      && o.prevented && o.focus == Input
  {
    var d := st.draft;
    var st2 := AfterPushDraft(st);
    DotPlugin.EditPreviousState(st);
    assert InputKeydown(st, DotPlugin.Plain(Keydown, 8), sel) == ItemClick(st2, d - 1) by {
      DraftNeighbours(st);
    }
    assert AfterEdit(st2, d - 1) == DotPlugin.ItemEdit(st2, d - 1).(prevVal := st2.prevVal);
    PushDraftState(st);
  }

  /** A click on item i: the input stands where the item stood among the
      children, holding its text; the other items are unchanged and the
      textarea still lists the item. */
  lemma ItemClickEdits(st: AreaState, i: nat)
    requires DraftInRange(st) && i < |st.items|
    ensures var o := ItemClick(st, i);
      && Children(o.st) == AsChildren(st.items[..i]) + [DraftChild] + AsChildren(st.items[i + 1..])
      && o.st.items == st.items[..i] + st.items[i + 1..]
      && o.st.value == st.items[i] && o.st.prevVal == st.prevVal
      && o.st.textarea == st.textarea
      && o.prevented && o.focus == Input
  {
    EditTakesTheSlot(st, i);
  }

  /** Backspace or delete on an item removes just that item, leaves the
      textarea and the default alone, and focuses the child that followed. */
  lemma ItemDeleteLeavesTextarea(st: AreaState, i: nat, code: nat)
    requires DraftInRange(st) && i < |st.items| && (code == 8 || code == 46)
    ensures var o := ItemKeydown(st, i, DotPlugin.Plain(Keydown, code));
      && o.st.items == st.items[..i] + st.items[i + 1..]
      && o.st.textarea == st.textarea
      && !o.prevented
      && (if i + 1 == st.draft then o.focus == Input
          else if i + 1 == |st.items| then o.focus == Lost
          else o.focus == Item(i) && o.st.items[i] == st.items[i + 1])
  {
    var ev := DotPlugin.Plain(Keydown, code);
    assert ItemKeydown(st, i, ev) == DeleteItem(st, i);
    ItemNeighbours(st, i);
    var rest := st.items[..i] + st.items[i + 1..];
    assert AfterRemove(st, i).items == rest;
    if i + 1 < |st.items| {
      assert rest[i] == st.items[i + 1];
    }
  }

  /** Left and right on an item move the focus to the neighbouring child
      without preventing the default. */
  lemma ItemArrowsFocusNeighbour(st: AreaState, i: nat)
    requires DraftInRange(st) && i < |st.items|
    ensures var o := ItemKeydown(st, i, DotPlugin.Plain(Keydown, 37));
      && o.st == st && !o.prevented
      && o.focus == (if i == st.draft then Input else if i == 0 then Keep else Item(i - 1))
    ensures var o := ItemKeydown(st, i, DotPlugin.Plain(Keydown, 39));
      && o.st == st && !o.prevented
      && o.focus == (if i + 1 == st.draft then Input else if i + 1 == |st.items| then Keep else Item(i + 1))
  {
    ItemNeighbours(st, i);
  }

  // ---------------------------------------------------------------------
  // Every handler keeps the area well formed
  // ---------------------------------------------------------------------

  lemma CommitSound(st: AreaState, code: nat, prevented: bool)
    requires WellFormed(st)
    ensures SoundOutcome(Commit(st, code, prevented))
  {
    PushDraftKeepsWellFormed(st);
    PushDraftState(st);
    var st2 := AfterPushDraft(st);
    if DraftNext(st) != NoSibling {
      DraftNeighbours(st);
      assert FollowerIndex(st) < |st2.items|;
    }
  }

  lemma MovePrevSound(st: AreaState)
    requires WellFormed(st)
    ensures SoundOutcome(MovePrev(st))
  {
    PushDraftKeepsWellFormed(st);
    PushDraftState(st);
    DraftNeighbours(st);
  }

  lemma EditPrevSound(st: AreaState)
    requires WellFormed(st)
    ensures SoundOutcome(EditPrev(st))
  {
    PushDraftKeepsWellFormed(st);
    PushDraftState(st);
    DraftNeighbours(st);
  }

  lemma InputKeydownSound(st: AreaState, ev: KeyEvent, sel: Selection)
    requires WellFormed(st)
    ensures SoundOutcome(InputKeydown(st, ev, sel))
  {
    var code := ev.keyCode;
    if AnyModifier(ev) || code == 32 {
    } else if code == 188 || code == 39 {
      CommitSound(st, code, code == 188);
    } else if code == 9 || code == 13 {
      CommitSound(st, code, false);
    } else if code == 37 && IsAtStart(sel) {
      MovePrevSound(st);
    } else if code == 8 && IsAtStart(sel) {
      EditPrevSound(st);
    }
  }

  lemma ItemKeydownSound(st: AreaState, i: nat, ev: KeyEvent)
    requires WellFormed(st) && i < |st.items|
    ensures SoundOutcome(ItemKeydown(st, i, ev))
  {
    ItemNeighbours(st, i);
  }

  // ---------------------------------------------------------------------
  // The handlers, as methods on the area
  // ---------------------------------------------------------------------

  /** The input's blur handler: the area pushes the input. */
  method OnInputBlur(a: Area)
    requires a.Valid()
    modifies a
    ensures a.Valid() && a.State() == AfterPushDraft(old(a.State()))
  {
    a.Push(Elements([DraftInput]));
  }

  /** An item's click (or edit) handler. */
  method OnItemClick(a: Area, i: nat) returns (prevented: bool, focus: Focus)
    requires a.Valid() && i < |a.items|
    modifies a
    ensures a.Valid() && Outcome(a.State(), prevented, focus) == ItemClick(old(a.State()), i)
  {
    a.EditItem(i);
    prevented, focus := true, Input;
  }

  method OnCommit(a: Area, code: nat, prevented0: bool) returns (prevented: bool, focus: Focus)
    requires a.Valid()
    modifies a
    ensures a.Valid() && Outcome(a.State(), prevented, focus) == Commit(old(a.State()), code, prevented0)
  {
    if a.value == "" {
      return prevented0, Keep;
    }
    prevented := true;
    var next := DraftNext(a.State());
    ghost var st := a.State();
    var after := |a.items| - a.draft;
    a.Push(Elements([DraftInput]));
    PushDraftState(st);
    var k: nat := |a.items| - after;
    if next != NoSibling && (code == 9 || code == 39) {
      focus := Item(k);
    } else {
      if next != NoSibling && code == 188 {
        a.RelocateDraft(k);
      }
      focus := Input;
    }
  }

  method OnMovePrev(a: Area) returns (prevented: bool, focus: Focus)
    requires a.Valid()
    modifies a
    ensures a.Valid() && Outcome(a.State(), prevented, focus) == MovePrev(old(a.State()))
  {
    var prev := DraftPrev(a.State());
    OnInputBlur(a);
    prevented := true;
    focus := if prev.ItemSibling? then Item(prev.index) else Keep;
  }

  method OnEditPrev(a: Area) returns (prevented: bool, focus: Focus)
    requires a.Valid()
    modifies a
    ensures a.Valid() && Outcome(a.State(), prevented, focus) == EditPrev(old(a.State()))
  {
    ghost var st := a.State();
    var prev := DraftPrev(a.State());
    OnInputBlur(a);
    if prev.ItemSibling? {
      DraftNeighbours(st);
      PushDraftState(st);
      prevented, focus := OnItemClick(a, prev.index);
    } else {
      prevented, focus := true, Keep;
    }
  }

  /** The input's keydown handler. */
  method OnInputKeydown(a: Area, ev: KeyEvent, sel: Selection) returns (prevented: bool, focus: Focus)
    requires a.Valid()
    modifies a
    ensures a.Valid() && Outcome(a.State(), prevented, focus) == InputKeydown(old(a.State()), ev, sel)
  {
    prevented, focus := false, Keep;
    if ev.alt || ev.shift || ev.ctrl || ev.meta {
      return;
    }
    var code := ev.keyCode;
    if code == 32 {
      prevented := a.value == "";
    } else if code == 188 || code == 39 {
      prevented := code == 188;
      if IsAtEnd(sel, a.value) {
        prevented, focus := OnCommit(a, code, prevented);
      }
    } else if code == 9 || code == 13 {
      prevented, focus := OnCommit(a, code, false);
    } else if code == 37 {
      if IsAtStart(sel) {
        prevented, focus := OnMovePrev(a);
      }
    } else if code == 8 {
      if IsAtStart(sel) {
        prevented, focus := OnEditPrev(a);
      }
    }
  }

  /** An item's keydown handler. */
  method OnItemKeydown(a: Area, i: nat, ev: KeyEvent) returns (prevented: bool, focus: Focus)
    requires a.Valid() && i < |a.items|
    modifies a
    ensures a.Valid() && Outcome(a.State(), prevented, focus) == ItemKeydown(old(a.State()), i, ev)
  {
    prevented, focus := false, Keep;
    if ev.alt || ev.shift || ev.ctrl || ev.meta {
      return;
    }
    ItemNeighbours(a.State(), i);
    var code := ev.keyCode;
    if code == 37 || code == 39 {
      var sib := if code == 37 then ItemPrev(a.State(), i) else ItemNext(a.State(), i);
      focus := match sib case NoSibling => Keep case DraftSibling => Input case ItemSibling(j) => Item(j);
    } else if code == 113 {
      prevented, focus := OnItemClick(a, i);
    } else if code == 8 || code == 46 {
      var next := ItemNext(a.State(), i);
      a.RemoveItem(i);
      focus := match next case ItemSibling(j) => Item(j - 1) case DraftSibling => Input case NoSibling => Lost;
    }
  }
}
