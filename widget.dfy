/** The area that replaces the textarea, as both revisions of the plugin keep
    it: its children are the items, in order, with the draft input (or the
    wrapper around it) standing between items[..draft] and items[draft..].
    This module holds the operations the two revisions share: the push
    event, the two syncs with the hidden textarea, the start of an item edit
    and the removal of an item. The revision-specific event handlers are in
    DotPlugin (jquery.encapsulating.js) and DashPlugin (jquery-encapsulating.js). */
module Widget {
  import opened Tokens

  /** An input element a push can read: the draft input itself, or another
      form field of the page, named by a key of the area's `fields` (a field
      missing from the map holds the empty value). */
  datatype Element = DraftInput | Field(id: nat)

  /** The argument of the push event: a string, an array of arguments, or a
      jQuery set of input elements. */
  datatype PushArg = Str(s: string) | Arr(elems: seq<PushArg>) | Elements(els: seq<Element>)

  /** Everything the handlers read or change: the item texts, the draft's
      position among them, the draft input's value, the value saved when it
      last took the focus, the hidden textarea's value, and the values of the
      other form fields a push may read and clear. */
  datatype AreaState = AreaState(
    items: seq<string>,
    draft: nat,
    value: string,
    prevVal: string,
    textarea: string,
    fields: map<nat, string>)

  /** One child of the area. */
  datatype Child = ItemChild(text: string) | DraftChild

  /** Where a handler sends the keyboard focus: nowhere new, into the draft
      input, onto the item at an index of the resulting item list, or away
      from every child of the area (the focused item was removed and no item
      follows it). */
  datatype Focus = Keep | Input | Item(index: nat) | Lost

  /** What an event handler leaves behind: the new state, whether it called
      `preventDefault`, and where it sent the focus. */
  datatype Outcome = Outcome(st: AreaState, prevented: bool, focus: Focus)

  datatype EventType = Keydown | Keypress

  /** The parts of a jQuery key event the handlers read. */
  datatype KeyEvent = KeyEvent(kind: EventType, alt: bool, shift: bool, ctrl: bool, meta: bool, keyCode: nat)

  predicate AnyModifier(ev: KeyEvent) {
    ev.alt || ev.shift || ev.ctrl || ev.meta
  }

  /** `selectionStart` and `selectionEnd` of the draft input. */
  datatype Selection = Selection(start: nat, end: nat)

  /** A jQuery `.prev()` or `.next()` of one child: empty, the draft, or an item. */
  datatype Sibling = NoSibling | DraftSibling | ItemSibling(index: nat)

  predicate DraftInRange(st: AreaState) {
    st.draft <= |st.items|
  }

  /** The invariant every operation keeps: the draft stands somewhere in the
      list and every item holds non-empty trimmed text. */
  predicate WellFormed(st: AreaState) {
    && st.draft <= |st.items|
    && forall i :: 0 <= i < |st.items| ==> IsItemText(st.items[i])
  }

  /** The area's children in document order. */
  function Children(st: AreaState): seq<Child>
    requires DraftInRange(st)
  {
    AsChildren(st.items[..st.draft]) + [DraftChild] + AsChildren(st.items[st.draft..])
  }

  function AsChildren(texts: seq<string>): (cs: seq<Child>)
    ensures |cs| == |texts|
    ensures forall i :: 0 <= i < |texts| ==> cs[i] == ItemChild(texts[i])
  {
    seq(|texts|, i requires 0 <= i < |texts| => ItemChild(texts[i]))
  }

  /** `$(field).val()`. */
  function FieldValue(st: AreaState, id: nat): string {
    if id in st.fields then st.fields[id] else ""
  }

  /** The item list after a push of `s` with the draft at `draft`: the
      trimmed text goes in just before the draft unless it is empty. */
  function PushedItems(items: seq<string>, draft: nat, s: string): seq<string>
    requires draft <= |items|
  {
    var t := Trim(s);
    if t != "" then items[..draft] + [t] + items[draft..] else items
  }

  /** The push handler once it holds a string: insert the trimmed text, move
      the draft to the end of the area, and sync the textarea. */
  function AfterPushText(st: AreaState, s: string): (r: AreaState)
    requires DraftInRange(st)
    ensures r.draft == |r.items|
  {
    var items := PushedItems(st.items, st.draft, s);
    st.(items := items, draft := |items|, textarea := Serialize(items))
  }

  /** A push keeps every item non-empty trimmed text. */
  lemma PushedItemsClean(items: seq<string>, draft: nat, s: string)
    requires draft <= |items|
    requires forall i :: 0 <= i < |items| ==> IsItemText(items[i])
    ensures var r := PushedItems(items, draft, s);
      forall i :: 0 <= i < |r| ==> IsItemText(r[i])
  {
    var t := Trim(s);
    if t != "" {
      var r := items[..draft] + [t] + items[draft..];
      forall i | 0 <= i < |r| ensures IsItemText(r[i]) {
        if i < draft {
          assert r[i] == items[i];
        } else if i > draft {
          assert r[i] == items[i - 1];
        }
      }
    }
  }

  lemma PushKeepsWellFormed(st: AreaState, s: string)
    requires WellFormed(st)
    ensures WellFormed(AfterPushText(st, s))
  {
    PushedItemsClean(st.items, st.draft, s);
  }

  /** Pushing a set of one input: read its value, clear it, push the value. */
  function AfterPushElement(st: AreaState, el: Element): (r: AreaState)
    requires DraftInRange(st)
    ensures DraftInRange(r)
  {
    match el
    case DraftInput => AfterPushText(st.(value := ""), st.value)
    case Field(id) => AfterPushText(st.(fields := st.fields[id := ""]), FieldValue(st, id))
  }

  /** Pushing the members of a set one at a time, in order. */
  function AfterPushElements(st: AreaState, els: seq<Element>): (r: AreaState)
    requires DraftInRange(st)
    ensures DraftInRange(r)
  {
    if els == [] then st
    else AfterPushElement(AfterPushElements(st, els[..|els| - 1]), els[|els| - 1])
  }

  /** The push event, for any argument. */
  function AfterPush(st: AreaState, arg: PushArg): (r: AreaState)
    requires DraftInRange(st)
    ensures DraftInRange(r)
    decreases arg, 1
  {
    match arg
    case Str(s) => AfterPushText(st, s)
    case Arr(elems) => AfterPushAll(st, elems)
    case Elements(els) => AfterPushElements(st, els)
  }

  /** Pushing the elements of an array, in index order. */
  function AfterPushAll(st: AreaState, elems: seq<PushArg>): (r: AreaState)
    requires DraftInRange(st)
    ensures DraftInRange(r)
    decreases elems, 0
  {
    if elems == [] then st
    else AfterPush(AfterPushAll(st, elems[..|elems| - 1]), elems[|elems| - 1])
  }

  /** `syncToTextarea`: the textarea receives the serialized items. */
  function AfterSyncTo(st: AreaState): AreaState {
    st.(textarea := Serialize(st.items))
  }

  function Strs(pieces: seq<string>): (args: seq<PushArg>)
    ensures |args| == |pieces|
    ensures forall i :: 0 <= i < |pieces| ==> args[i] == Str(pieces[i])
  {
    seq(|pieces|, i requires 0 <= i < |pieces| => Str(pieces[i]))
  }

  /** `syncFromTextarea`: remove every item, then push the textarea's split pieces as an array. */
  function AfterSyncFrom(st: AreaState): AreaState {
    AfterPush(st.(items := [], draft := 0), Arr(Strs(Split(st.textarea))))
  }

  /** The shared part of an item click: the draft input takes the item's
      text and its place, and the item goes. The textarea is not touched. */
  function AfterEdit(st: AreaState, i: nat): (r: AreaState)
    requires i < |st.items|
    ensures DraftInRange(r)
    ensures WellFormed(st) ==> WellFormed(r)
  {
    st.(items := st.items[..i] + st.items[i + 1..], draft := i, value := st.items[i])
  }

  /** Removing item i; the draft keeps its neighbours. The textarea is not touched. */
  function AfterRemove(st: AreaState, i: nat): (r: AreaState)
    requires DraftInRange(st) && i < |st.items|
    ensures DraftInRange(r)
    ensures WellFormed(st) ==> WellFormed(r)
  {
    st.(items := st.items[..i] + st.items[i + 1..],
        draft := if st.draft > i then st.draft - 1 else st.draft)
  }

  /** Pushing a string that trims to nothing adds no item, yet still moves the
      draft to the end and syncs the textarea. */
  lemma PushBlankAddsNothing(st: AreaState, s: string)
    requires DraftInRange(st) && AllSpace(s)
    ensures var r := AfterPushText(st, s);
      && r.items == st.items
      && r.draft == |st.items|
      && r.textarea == Serialize(st.items)
      && r.value == st.value
  {
    TrimEmptyIff(s);
  }

  /** Pushing a string with visible text inserts exactly one item, its trimmed
      text, directly before the draft; every other item keeps its place and
      order, and the draft ends as the last child. */
  lemma PushInsertsBeforeDraft(st: AreaState, s: string)
    requires DraftInRange(st) && !AllSpace(s)
    ensures var r := AfterPushText(st, s);
      && |r.items| == |st.items| + 1
      && r.items[st.draft] == Trim(s)
      && r.items[..st.draft] == st.items[..st.draft]
      && r.items[st.draft + 1..] == st.items[st.draft..]
      && Children(r)[|Children(r)| - 1] == DraftChild
      && r.textarea == Serialize(r.items)
  {
    TrimEmptyIff(s);
    var r := AfterPushText(st, s);
    assert r.items[st.draft + 1..] == st.items[st.draft..];
  }

  /** Pushing the draft a second time changes nothing: its value is empty by then. */
  lemma PushDraftTwice(st: AreaState)
    requires DraftInRange(st)
    ensures AfterPushElement(AfterPushElement(st, DraftInput), DraftInput)
         == AfterPushElement(st, DraftInput)
  {
    var r := AfterPushElement(st, DraftInput);
    assert Trim("") == "";
    assert r.(value := "") == r;
  }

  /** An array's elements are pushed in index order: pushing a + b is pushing a, then b. */
  lemma {:induction false} PushArrayConcat(st: AreaState, a: seq<PushArg>, b: seq<PushArg>)
    requires DraftInRange(st)
    ensures AfterPush(st, Arr(a + b)) == AfterPush(AfterPush(st, Arr(a)), Arr(b))
    decreases |b|
  {
    if b == [] {
      assert a + b == a;
    } else {
      var n := |b| - 1;
      assert (a + b)[..|a + b| - 1] == a + b[..n];
      assert (a + b)[|a + b| - 1] == b[n];
      PushArrayConcat(st, a, b[..n]);
    }
  }

  /** So the first element of an array is pushed before the rest. */
  lemma PushArrayFirstElementFirst(st: AreaState, x: PushArg, rest: seq<PushArg>)
    requires DraftInRange(st)
    ensures AfterPush(st, Arr([x] + rest)) == AfterPush(AfterPush(st, x), Arr(rest))
  {
    PushArrayConcat(st, [x], rest);
    assert [x][..0] == [];
    assert AfterPushAll(st, []) == st;
    assert AfterPushAll(st, [x]) == AfterPush(st, x);
  }

  /** A set with no members pushes nothing. */
  lemma PushEmptySet(st: AreaState)
    requires DraftInRange(st)
    ensures AfterPush(st, Elements([])) == st
  {
  }

  /** A set holding just the draft input: its value is read, the input is
      cleared, and the value is pushed as a string. */
  lemma PushDraftInput(st: AreaState)
    requires DraftInRange(st)
    ensures AfterPush(st, Elements([DraftInput])) == AfterPushText(st.(value := ""), st.value)
  {
    assert [DraftInput][..0] == [];
    assert AfterPushElements(st, []) == st;
  }

  function Singletons(els: seq<Element>): (args: seq<PushArg>)
    ensures |args| == |els|
    ensures forall i :: 0 <= i < |els| ==> args[i] == Elements([els[i]])
  {
    seq(|els|, i requires 0 <= i < |els| => Elements([els[i]]))
  }

  lemma PushSetOfOne(st: AreaState, els: seq<Element>)
    requires DraftInRange(st) && |els| == 1
    ensures AfterPushElements(st, els) == AfterPushElement(st, els[0])
  {
    assert els[..0] == [];
    assert AfterPushElements(st, []) == st;
  }

  /** A set of several inputs is pushed member by member, each as a set of one. */
  lemma {:induction false} PushSetMemberByMember(st: AreaState, els: seq<Element>)
    requires DraftInRange(st)
    ensures AfterPush(st, Elements(els)) == AfterPush(st, Arr(Singletons(els)))
  {
    if els != [] {
      var n := |els| - 1;
      var mid := AfterPushElements(st, els[..n]);
      assert mid == AfterPushAll(st, Singletons(els)[..n]) by {
        PushSetMemberByMember(st, els[..n]);
        assert Singletons(els)[..n] == Singletons(els[..n]);
      }
      assert AfterPush(mid, Elements([els[n]])) == AfterPushElement(mid, els[n]) by {
        assert [els[n]][..0] == [];
        assert AfterPushElements(mid, []) == mid;
      }
      assert AfterPushAll(st, Singletons(els)) == AfterPush(mid, Singletons(els)[n]);
    }
  }

  /** Pushing strings one by one with the draft at the end appends their
      trimmed non-empty texts, in order. */
  lemma {:induction false} PushStringsAppends(st: AreaState, pieces: seq<string>)
    requires st.draft == |st.items|
    ensures var r := AfterPushAll(st, Strs(pieces));
      && r.items == st.items + TrimmedNonEmpty(pieces)
      && r.draft == |r.items|
      && (pieces != [] ==> r.textarea == Serialize(r.items))
      && (pieces == [] ==> r.textarea == st.textarea)
      && r.value == st.value && r.prevVal == st.prevVal && r.fields == st.fields
  {
    if pieces == [] {
      assert Strs(pieces) == [];
    } else {
      var n := |pieces| - 1;
      var init := pieces[..n];
      var mid := AfterPushAll(st, Strs(init));
      PushStringsStep(st, pieces);
      PushStringsAppends(st, init);
      var tail := if Trim(pieces[n]) == "" then [] else [Trim(pieces[n])];
      assert TrimmedNonEmpty(pieces) == TrimmedNonEmpty(init) + tail;
      assert AfterPushText(mid, pieces[n]).items == mid.items + tail by {
        PushTextAppends(mid, pieces[n]);
      }
      assert (st.items + TrimmedNonEmpty(init)) + tail == st.items + (TrimmedNonEmpty(init) + tail);
    }
  }

  lemma PushStringsStep(st: AreaState, pieces: seq<string>)
    requires DraftInRange(st) && pieces != []
    ensures AfterPushAll(st, Strs(pieces))
         == AfterPushText(AfterPushAll(st, Strs(pieces[..|pieces| - 1])), pieces[|pieces| - 1])
  {
    assert Strs(pieces)[..|pieces| - 1] == Strs(pieces[..|pieces| - 1]);
  }

  /** With the draft at the end, a push appends. */
  lemma PushTextAppends(st: AreaState, s: string)
    requires st.draft == |st.items|
    ensures AfterPushText(st, s).items == st.items + (if Trim(s) == "" then [] else [Trim(s)])
  {
    assert st.items[..st.draft] == st.items && st.items[st.draft..] == [];
  }

  /** After `syncFromTextarea` the items are the parse of the textarea's old
      value, each non-empty, trimmed and free of delimiters; the draft is the
      last child, the textarea holds the normalised text, and the draft's
      value is untouched. */
  lemma SyncFromParses(st: AreaState)
    ensures var r := AfterSyncFrom(st);
      && r.items == Parse(st.textarea)
      && r.draft == |r.items|
      && r.textarea == Serialize(r.items)
      && r.value == st.value && r.prevVal == st.prevVal
      && forall i :: 0 <= i < |r.items| ==> IsItemText(r.items[i]) && DelimiterFree(r.items[i])
  {
    var empty := st.(items := [], draft := 0);
    assert AfterSyncFrom(st) == AfterPushAll(empty, Strs(Split(st.textarea)));
    PushStringsAppends(empty, Split(st.textarea));
    assert [] + Parse(st.textarea) == Parse(st.textarea);
    ParsedItemsAreClean(st.textarea);
  }

  /** Writing the items to the textarea and reading them back reproduces them
      when every item is free of delimiters. */
  lemma SyncRoundTrip(st: AreaState)
    requires WellFormed(st)
    requires forall i :: 0 <= i < |st.items| ==> DelimiterFree(st.items[i])
    ensures AfterSyncFrom(AfterSyncTo(st)).items == st.items
  {
    SyncFromParses(AfterSyncTo(st));
    ParseSerializeRoundTrip(st.items);
  }

  /** Editing item i puts the draft into the item's slot of the children,
      holding the item's text; the textarea still lists the item. */
  lemma EditTakesTheSlot(st: AreaState, i: nat)
    requires DraftInRange(st) && i < |st.items|
    ensures var r := AfterEdit(st, i);
      && Children(r) == AsChildren(st.items[..i]) + [DraftChild] + AsChildren(st.items[i + 1..])
      && r.value == st.items[i]
      && r.textarea == st.textarea
  {
    var r := AfterEdit(st, i);
    assert r.items[..i] == st.items[..i];
    assert r.items[i..] == st.items[i + 1..];
  }

  /** Committing the draft right after an edit restores the item list exactly. */
  lemma EditThenCommitRestores(st: AreaState, i: nat)
    requires WellFormed(st) && i < |st.items|
    ensures var r := AfterPush(AfterEdit(st, i), Elements([DraftInput]));
      && r.items == st.items
      && r.value == ""
      && r.textarea == Serialize(st.items)
  {
    var e := AfterEdit(st, i);
    PushDraftInput(e);
    assert PushedItems(e.items, i, st.items[i]) == st.items by {
      TrimOfTrimmed(st.items[i]);
      assert e.items[..i] == st.items[..i];
      assert e.items[i..] == st.items[i + 1..];
      assert st.items[..i] + [st.items[i]] + st.items[i + 1..] == st.items;
    }
  }

  /** The position of item i among the children. */
  function ChildIndex(st: AreaState, i: nat): nat
    requires DraftInRange(st) && i < |st.items|
  {
    if i < st.draft then i else i + 1
  }

  /** The child at position p, as a sibling; nothing outside the children. */
  function SiblingAt(st: AreaState, p: int): Sibling
    requires DraftInRange(st)
  {
    if p < 0 || p > |st.items| then NoSibling
    else if p < st.draft then ItemSibling(p)
    else if p == st.draft then DraftSibling
    else ItemSibling(p - 1)
  }

  /** `$input_wrapper.prev()` and `$input_wrapper.next()`. */
  function DraftPrev(st: AreaState): Sibling
    requires DraftInRange(st)
  {
    SiblingAt(st, st.draft - 1)
  }

  function DraftNext(st: AreaState): Sibling
    requires DraftInRange(st)
  {
    SiblingAt(st, st.draft + 1)
  }

  /** `$(item).prev()` and `$(item).next()`. */
  function ItemPrev(st: AreaState, i: nat): Sibling
    requires DraftInRange(st) && i < |st.items|
  {
    SiblingAt(st, ChildIndex(st, i) - 1)
  }

  function ItemNext(st: AreaState, i: nat): Sibling
    requires DraftInRange(st) && i < |st.items|
  {
    SiblingAt(st, ChildIndex(st, i) + 1)
  }

  /** SiblingAt reads the children: at a position inside them it names the child there. */
  lemma SiblingAtNamesChild(st: AreaState, p: nat)
    requires DraftInRange(st) && p <= |st.items|
    ensures ChildAt(st, p) == DraftChild <==> SiblingAt(st, p) == DraftSibling
    ensures SiblingAt(st, p).ItemSibling? ==>
      Children(st)[p] == ItemChild(st.items[SiblingAt(st, p).index])
  {
    ChildrenAt(st);
  }

  /** The draft's neighbours are the items on either side of it. */
  lemma DraftNeighbours(st: AreaState)
    requires DraftInRange(st)
    ensures DraftPrev(st) == if st.draft > 0 then ItemSibling(st.draft - 1) else NoSibling
    ensures DraftNext(st) == if st.draft < |st.items| then ItemSibling(st.draft) else NoSibling
  {
  }

  /** An item's neighbours: the draft when it stands next to the item,
      otherwise the adjacent item, or nothing at either end. */
  lemma ItemNeighbours(st: AreaState, i: nat)
    requires DraftInRange(st) && i < |st.items|
    ensures ItemPrev(st, i) ==
      if i == st.draft then DraftSibling else if i == 0 then NoSibling else ItemSibling(i - 1)
    ensures ItemNext(st, i) ==
      if i + 1 == st.draft then DraftSibling
      else if i + 1 == |st.items| then NoSibling
      else ItemSibling(i + 1)
    ensures Children(st)[ChildIndex(st, i)] == ItemChild(st.items[i])
  {
    ChildrenAt(st);
  }

  /** `$area.trigger('push', [$input])`: commit the draft's value. */
  function AfterPushDraft(st: AreaState): (r: AreaState)
    requires DraftInRange(st)
    ensures DraftInRange(r)
  {
    AfterPush(st, Elements([DraftInput]))
  }

  /** A push leaves the items before the draft where they were, keeps the
      items after it in order at the end of the list, and clears the draft. */
  lemma PushDraftKeepsNeighbours(st: AreaState)
    requires DraftInRange(st)
    ensures var r := AfterPushDraft(st);
      && |st.items| <= |r.items|
      && r.items[..st.draft] == st.items[..st.draft]
      && r.items[|r.items| - (|st.items| - st.draft)..] == st.items[st.draft..]
      && r.items == PushedItems(st.items, st.draft, st.value)
      && r.value == ""
      && r.prevVal == st.prevVal
  {
    PushDraftInput(st);
    var r := AfterPushDraft(st);
    if Trim(st.value) != "" {
      assert r.items[|r.items| - (|st.items| - st.draft)..] == st.items[st.draft..];
    }
  }

  /** Removing an item deletes exactly its child; every other child, the
      draft included, keeps its order. */
  lemma RemoveDeletesOneChild(st: AreaState, i: nat)
    requires DraftInRange(st) && i < |st.items|
    ensures var c := if i < st.draft then i else i + 1;
      && Children(st)[c] == ItemChild(st.items[i])
      && Children(AfterRemove(st, i)) == Children(st)[..c] + Children(st)[c + 1..]
  {
    var r := AfterRemove(st, i);
    var c := if i < st.draft then i else i + 1;
    var before, after := Children(st), Children(r);
    ChildrenAt(st);
    ChildrenAt(r);
    var expected := before[..c] + before[c + 1..];
    forall k | 0 <= k < |after| ensures after[k] == expected[k] {
      if k < c {
        assert expected[k] == before[k];
      } else {
        assert expected[k] == before[k + 1];
      }
    }
  }

  /** The child at position k: an item before the draft, the draft, an item after it. */
  function ChildAt(st: AreaState, k: nat): Child
    requires DraftInRange(st) && k <= |st.items|
  {
    if k < st.draft then ItemChild(st.items[k])
    else if k == st.draft then DraftChild
    else ItemChild(st.items[k - 1])
  }

  lemma ChildrenAt(st: AreaState)
    requires DraftInRange(st)
    ensures |Children(st)| == |st.items| + 1
    ensures forall k :: 0 <= k < |Children(st)| ==> Children(st)[k] == ChildAt(st, k)
  {
    var front, back := AsChildren(st.items[..st.draft]), AsChildren(st.items[st.draft..]);
    forall k | 0 <= k < |Children(st)| ensures Children(st)[k] == ChildAt(st, k) {
      if k > st.draft {
        assert Children(st)[k] == back[k - st.draft - 1];
      }
    }
  }

  /** Removing the only item leaves the draft as the sole child, and the sync
      that follows empties the textarea. */
  lemma RemoveOnlyItem(st: AreaState)
    requires DraftInRange(st) && |st.items| == 1
    ensures var r := AfterSyncTo(AfterRemove(st, 0));
      && Children(r) == [DraftChild]
      && r.textarea == ""
  {
  }

  /** Where the item that followed the draft stands once a push has moved
      the draft to the end: the items after the draft keep their distance
      from the end. */
  function FollowerIndex(st: AreaState): nat
    requires DraftInRange(st)
  {
    PushDraftKeepsNeighbours(st);
    |AfterPushDraft(st).items| - (|st.items| - st.draft)
  }

  /** A push of the draft, spelled out. */
  lemma PushDraftState(st: AreaState)
    requires DraftInRange(st)
    ensures var r := AfterPushDraft(st);
      && r.items == PushedItems(st.items, st.draft, st.value)
      && r.draft == |r.items| && r.value == "" && r.prevVal == st.prevVal
      && r.textarea == Serialize(r.items) && r.fields == st.fields
      && |st.items| <= |r.items|
      && r.items[..st.draft] == st.items[..st.draft]
      && r.items[FollowerIndex(st)..] == st.items[st.draft..]
  {
    PushDraftInput(st);
    PushDraftKeepsNeighbours(st);
  }

  /** Pushing an empty draft that already stands last, over a synced
      textarea, changes nothing. */
  lemma PushDraftIdle(st: AreaState)
    requires st.value == "" && st.draft == |st.items| && st.textarea == Serialize(st.items)
    ensures AfterPushDraft(st) == st
  {
    PushDraftState(st);
    assert Trim("") == "";
  }

  lemma PushDraftKeepsWellFormed(st: AreaState)
    requires WellFormed(st)
    ensures WellFormed(AfterPushDraft(st))
  {
    PushDraftInput(st);
    PushKeepsWellFormed(st.(value := ""), st.value);
  }

  /** The area stays well formed and an item the focus goes to exists. */
  predicate SoundOutcome(o: Outcome) {
    WellFormed(o.st) && (o.focus.Item? ==> o.focus.index < |o.st.items|)
  }

  class Area {
    var items: seq<string>
    var draft: nat
    var value: string
    var prevVal: string
    var textarea: string
    var fields: map<nat, string>

    function State(): AreaState
      reads this
    {
      AreaState(items, draft, value, prevVal, textarea, fields)
    }

    predicate Valid()
      reads this
    {
      WellFormed(State())
    }

    /** The area over a textarea holding `initial`, with the draft as its only
        child, then filled by `syncFromTextarea`. */
    constructor (initial: string, otherFields: map<nat, string>)
      ensures Valid()
      ensures State() == AfterSyncFrom(AreaState([], 0, "", "", initial, otherFields))
    {
      items, draft, value, prevVal := [], 0, "", "";
      textarea, fields := initial, otherFields;
      new;
      SyncFromTextarea();
    }

    /** `syncToTextarea`: collect the item texts in child order, then write
        them joined by newlines. */
    method SyncToTextarea()
      modifies this
      ensures State() == AfterSyncTo(old(State()))
    {
      var newVal: seq<string> := [];
      var i := 0;
      while i < |items|
        invariant 0 <= i <= |items|
        invariant newVal == items[..i]
      {
        newVal := newVal + [items[i]];
        i := i + 1;
      }
      assert newVal == items;
      textarea := Join(newVal, "\n");
    }

    /** `syncFromTextarea`: remove every item, then push the split value. */
    method SyncFromTextarea()
      requires Valid()
      modifies this
      ensures Valid() && State() == AfterSyncFrom(old(State()))
    {
      items := [];
      draft := 0;
      var pieces := Strs(Split(textarea));
      Push(Arr(pieces));
    }

    /** The push handler from the trim on. */
    method PushValue(s: string)
      requires Valid()
      modifies this
      ensures Valid() && State() == AfterPushText(old(State()), s)
    {
      var t := Trim(s);
      if t != "" {
        // the new item goes in just before the draft
        items := items[..draft] + [t] + items[draft..];
        draft := draft + 1;
      }
      // detach the draft and append it to the area
      draft := |items|;
      SyncToTextarea();
      PushKeepsWellFormed(old(State()), s);
    }

    /** Push of a set of one input: read the value, clear the input, push the value. */
    method PushElement(el: Element)
      requires Valid()
      modifies this
      ensures Valid() && State() == AfterPushElement(old(State()), el)
    {
      var v: string;
      match el {
        case DraftInput =>
          v := value;
          value := "";
        case Field(id) =>
          v := FieldValue(State(), id);
          fields := fields[id := ""];
      }
      PushValue(v);
    }

    /** The push event. */
    method Push(arg: PushArg)
      requires Valid()
      modifies this
      ensures Valid() && State() == AfterPush(old(State()), arg)
      decreases arg, 1
    {
      match arg {
        case Str(s) => PushValue(s);
        case Arr(elems) => PushArray(elems);
        case Elements(els) => PushSet(els);
      }
    }

    /** An array argument: each element is pushed in turn. */
    method PushArray(elems: seq<PushArg>)
      requires Valid()
      modifies this
      ensures Valid() && State() == AfterPushAll(old(State()), elems)
      decreases elems, 0
    {
      var i := 0;
      while i < |elems|
        invariant 0 <= i <= |elems|
        invariant Valid()
        invariant State() == AfterPushAll(old(State()), elems[..i])
      {
        assert elems[..i + 1][..i] == elems[..i];
        Push(elems[i]);
        i := i + 1;
      }
      assert elems[..|elems|] == elems;
    }

    /** A set argument: nothing for an empty set, the input's value for a set
        of one, and each member on its own for a larger set. */
    method PushSet(els: seq<Element>)
      requires Valid()
      modifies this
      ensures Valid() && State() == AfterPushElements(old(State()), els)
    {
      if |els| == 0 {
        assert els == [];
      } else if |els| == 1 {
        PushSetOfOne(State(), els);
        PushElement(els[0]);
      } else {
        PushEach(els);
      }
    }

    /** `value.each(...)`: each member of the set pushed on its own. */
    method PushEach(els: seq<Element>)
      requires Valid()
      modifies this
      ensures Valid() && State() == AfterPushElements(old(State()), els)
    {
      var i := 0;
      while i < |els|
        invariant 0 <= i <= |els|
        invariant Valid()
        invariant State() == AfterPushElements(old(State()), els[..i])
      {
        assert els[..i + 1][..i] == els[..i];
        PushElement(els[i]);
        i := i + 1;
      }
      assert els[..|els|] == els;
    }

    /** The shared part of an item click: the draft leaves its place, takes
        the item's text, goes in just after the item, and the item is removed. */
    method EditItem(i: nat)
      requires Valid() && i < |items|
      modifies this
      ensures Valid() && State() == AfterEdit(old(State()), i)
    {
      value := items[i];
      draft := i + 1;
      items := items[..i] + items[i + 1..];
      draft := i;
    }

    /** Removing item i from the area. */
    method RemoveItem(i: nat)
      requires Valid() && i < |items|
      modifies this
      ensures Valid() && State() == AfterRemove(old(State()), i)
    {
      items := items[..i] + items[i + 1..];
      if draft > i {
        draft := draft - 1;
      }
    }

    /** Detaching the draft and inserting it before item k (or at the end when k is the item count). */
    method RelocateDraft(k: nat)
      requires Valid() && k <= |items|
      modifies this
      ensures Valid() && State() == old(State()).(draft := k)
    {
      draft := k;
    }

    /** The draft input's value is set. */
    method SetValue(v: string)
      requires Valid()
      modifies this
      ensures Valid() && State() == old(State()).(value := v)
    {
      value := v;
    }
  }
}
