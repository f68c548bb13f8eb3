/** The handlers of jquery.encapsulating.js: the key-string dispatch built by
    `toolbox.transEventKey`, the caret flags of `toolbox.selectionPosition`,
    the draft input's key, focus and blur handlers, and the item's click, key
    and remove-control handlers. Browser checks (`$.browser.msie` or `opera`)
    are the parameter `ie`. */
module DotPlugin {
  import opened Tokens
  import opened Widget

  datatype Option<T> = None | Some(value: T)

  // ---------------------------------------------------------------------
  // toolbox.transEventKey
  // ---------------------------------------------------------------------

  /** `e.type`. */
  function TypeName(kind: EventType): string {
    match kind
    case Keydown => "keydown"
    case Keypress => "keypress"
  }

  /** The modifier names, in the order the key string lists them. */
  const ModifierNames: seq<string> := ["alt", "shift", "ctrl", "meta"]

  /** `e[modifiers[i] + 'Key']`: the flag the i-th modifier name selects
      (`altKey`, `shiftKey`, `ctrlKey`, `metaKey`). */
  function Held(ev: KeyEvent, i: nat): bool
    requires i < |ModifierNames|
  {
    if i == 0 then ev.alt
    else if i == 1 then ev.shift
    else if i == 2 then ev.ctrl
    else ev.meta
  }

  /** What the modifier loop has appended after looking at the first i names. */
  function HeldPrefix(ev: KeyEvent, i: nat): string
    requires i <= |ModifierNames|
  {
    if i == 0 then ""
    else
      var name := ModifierNames[i - 1];
      HeldPrefix(ev, i - 1) + ModifierPart(Held(ev, i - 1), name)
  }

  function DigitChar(d: nat): char
    requires d < 10
  {
    ('0' as int + d) as char
  }

  predicate IsDigit(c: char) {
    '0' as int <= c as int <= '9' as int
  }

  /** A key code as JavaScript writes a non-negative integer. */
  function Decimal(n: nat): (s: string)
    ensures s != [] && forall k :: 0 <= k < |s| ==> IsDigit(s[k])
  {
    if n < 10 then [DigitChar(n)] else Decimal(n / 10) + [DigitChar(n % 10)]
  }

  /** The value of a string of decimal digits. */
  function DecimalValue(s: string): nat
    requires forall k :: 0 <= k < |s| ==> IsDigit(s[k])
  {
    if s == [] then 0
    else DecimalValue(s[..|s| - 1]) * 10 + DigitValue(s[|s| - 1])
  }

  function DigitValue(c: char): nat
    requires IsDigit(c)
  {
    c as int - '0' as int
  }

  lemma {:induction false} DecimalRoundTrip(n: nat)
    ensures DecimalValue(Decimal(n)) == n
  {
    if n >= 10 {
      DecimalRoundTrip(n / 10);
      var s := Decimal(n);
      assert s[..|s| - 1] == Decimal(n / 10);
    }
  }

  /** The key string of an event: `type:`, each held modifier's name and a
      `+` in the order alt, shift, ctrl, meta, then the key code. */
  function EventKey(ev: KeyEvent): string {
    TypeName(ev.kind) + ":" + HeldPrefix(ev, |ModifierNames|) + Decimal(ev.keyCode)
  }

  /** `toolbox.transEventKey`. */
  method TransEventKey(ev: KeyEvent) returns (key: string)
    ensures key == EventKey(ev)
  {
    key := TypeName(ev.kind) + ":";
    var modifiers := ModifierNames;
    var i := 0;
    while i < |modifiers|
      invariant 0 <= i <= |modifiers| && modifiers == ModifierNames
      invariant key == TypeName(ev.kind) + ":" + HeldPrefix(ev, i)
    {
      if Held(ev, i) {
        Regroup(TypeName(ev.kind) + ":", HeldPrefix(ev, i), modifiers[i] + "+");
        key := key + (modifiers[i] + "+");
      }
      i := i + 1;
    }
    key := key + Decimal(ev.keyCode);
  }

  function ModifierPart(held: bool, name: string): string {
    if held then name + "+" else ""
  }

  /** What the modifier loop appends, written out. */
  lemma HeldPrefixLayout(ev: KeyEvent)
    ensures HeldPrefix(ev, 4) == ModifierPart(ev.alt, "alt") + ModifierPart(ev.shift, "shift")
      + ModifierPart(ev.ctrl, "ctrl") + ModifierPart(ev.meta, "meta")
  {
    EmptyThen(ModifierPart(ev.alt, "alt"));
    assert HeldPrefix(ev, 1) == ModifierPart(ev.alt, "alt");
    assert HeldPrefix(ev, 2) == HeldPrefix(ev, 1) + ModifierPart(ev.shift, "shift");
    assert HeldPrefix(ev, 3) == HeldPrefix(ev, 2) + ModifierPart(ev.ctrl, "ctrl");
    assert HeldPrefix(ev, 4) == HeldPrefix(ev, 3) + ModifierPart(ev.meta, "meta");
  }

  lemma EmptyThen(a: string)
    ensures "" + a == a
  {
  }

  /** The layout of a key string, written out. */
  lemma EventKeyLayout(ev: KeyEvent)
    ensures EventKey(ev) == TypeName(ev.kind) + ":"
      + (ModifierPart(ev.alt, "alt") + ModifierPart(ev.shift, "shift")
         + ModifierPart(ev.ctrl, "ctrl") + ModifierPart(ev.meta, "meta"))
      + Decimal(ev.keyCode)
  {
    HeldPrefixLayout(ev);
  }

  /** With no modifier held the key string is exactly `type:code`. */
  lemma PlainEventKey(ev: KeyEvent)
    requires !AnyModifier(ev)
    ensures EventKey(ev) == TypeName(ev.kind) + ":" + Decimal(ev.keyCode)
  {
    HeldPrefixLayout(ev);
    assert HeldPrefix(ev, 4) == "";
    ThenEmpty(TypeName(ev.kind) + ":");
  }

  lemma ThenEmpty(a: string)
    ensures a + "" == a
  {
  }

  /** The key string after `type:`, from modifier i on. */
  function KeyTail(ev: KeyEvent, i: nat): string
    requires i <= |ModifierNames|
    decreases |ModifierNames| - i
  {
    if i == |ModifierNames| then Decimal(ev.keyCode)
    else
      var name := ModifierNames[i];
      ModifierPart(Held(ev, i), name) + KeyTail(ev, i + 1)
  }

  const Initials: string := "ascm"

  lemma {:induction false} PrefixThenTail(ev: KeyEvent, i: nat)
    requires i <= |ModifierNames|
    ensures HeldPrefix(ev, i) + KeyTail(ev, i) == HeldPrefix(ev, |ModifierNames|) + Decimal(ev.keyCode)
    decreases |ModifierNames| - i
  {
    if i < |ModifierNames| {
      PrefixThenTail(ev, i + 1);
      var part := ModifierPart(Held(ev, i), ModifierNames[i]);
      var h, t := HeldPrefix(ev, i), KeyTail(ev, i + 1);
      assert HeldPrefix(ev, i + 1) == h + part;
      assert KeyTail(ev, i) == part + t;
      Regroup(h, part, t);
    }
  }

  lemma Regroup(a: string, b: string, c: string)
    ensures a + (b + c) == (a + b) + c
  {
  }

  lemma KeyTailLayout(ev: KeyEvent)
    ensures EventKey(ev) == TypeName(ev.kind) + ":" + KeyTail(ev, 0)
  {
    PrefixThenTail(ev, 0);
    EmptyThen(KeyTail(ev, 0));
    Regroup(TypeName(ev.kind) + ":", HeldPrefix(ev, |ModifierNames|), Decimal(ev.keyCode));
  }

  /** The first character of a tail is the initial of its first held
      modifier, or a digit when none is held. */
  lemma {:induction false} KeyTailStart(ev: KeyEvent, i: nat)
    requires i <= 4
    ensures KeyTail(ev, i) != []
    ensures KeyTail(ev, i)[0] in Initials[i..] || IsDigit(KeyTail(ev, i)[0])
    ensures i < 4 ==> (Held(ev, i) <==> KeyTail(ev, i)[0] == Initials[i])
    decreases 4 - i
  {
    if i < 4 {
      KeyTailStart(ev, i + 1);
      var rest := KeyTail(ev, i + 1);
      if Held(ev, i) {
        assert KeyTail(ev, i)[0] == ModifierNames[i][0] == Initials[i];
      } else {
        assert KeyTail(ev, i) == rest;
        assert Initials[i..] == [Initials[i]] + Initials[i + 1..];
        assert Initials[i] !in Initials[i + 1..];
      }
    }
  }

  /** Equal tails from modifier i on hold the same modifiers and key code. */
  lemma {:induction false} KeyTailInjective(a: KeyEvent, b: KeyEvent, i: nat)
    requires i <= 4 && KeyTail(a, i) == KeyTail(b, i)
    ensures forall j :: i <= j < 4 ==> Held(a, j) == Held(b, j)
    ensures a.keyCode == b.keyCode
    decreases 4 - i
  {
    if i == 4 {
      DecimalRoundTrip(a.keyCode);
      DecimalRoundTrip(b.keyCode);
    } else {
      KeyTailStep(a, b, i);
      KeyTailInjective(a, b, i + 1);
    }
  }

  /** Equal tails agree on modifier i, and so on the rest. */
  lemma KeyTailStep(a: KeyEvent, b: KeyEvent, i: nat)
    requires i < 4 && KeyTail(a, i) == KeyTail(b, i)
    ensures Held(a, i) == Held(b, i)
    ensures KeyTail(a, i + 1) == KeyTail(b, i + 1)
  {
    KeyTailStart(a, i);
    KeyTailStart(b, i);
    var w := ModifierPart(Held(a, i), ModifierNames[i]);
    assert KeyTail(a, i + 1) == KeyTail(a, i)[|w|..];
    assert KeyTail(b, i + 1) == KeyTail(b, i)[|w|..];
  }

  /** Different events give different key strings, so the dispatch on the
      string is a dispatch on the event. */
  lemma EventKeyInjective(a: KeyEvent, b: KeyEvent)
    requires EventKey(a) == EventKey(b)
    ensures a == b
  {
    KeyTailLayout(a);
    KeyTailLayout(b);
    var ka, kb := EventKey(a), EventKey(b);
    assert ka[3] == TypeName(a.kind)[3];
    assert kb[3] == TypeName(b.kind)[3];
    assert a.kind == b.kind;
    var p := TypeName(a.kind) + ":";
    assert KeyTail(a, 0) == ka[|p|..];
    assert KeyTail(b, 0) == kb[|p|..];
    KeyTailInjective(a, b, 0);
    assert Held(a, 0) == Held(b, 0) && Held(a, 1) == Held(b, 1);
    assert Held(a, 2) == Held(b, 2) && Held(a, 3) == Held(b, 3);
  }

  function Plain(kind: EventType, code: nat): KeyEvent {
    KeyEvent(kind, false, false, false, false, code)
  }

  function ShiftKey(kind: EventType, code: nat): KeyEvent {
    KeyEvent(kind, false, true, false, false, code)
  }

  lemma PlainKey(kind: EventType, code: nat)
    ensures EventKey(Plain(kind, code)) == TypeName(kind) + ":" + Decimal(code)
  {
    PlainEventKey(Plain(kind, code));
  }

  lemma ShiftedKey(kind: EventType, code: nat)
    ensures EventKey(ShiftKey(kind, code)) == TypeName(kind) + ":shift+" + Decimal(code)
  {
    var ev := ShiftKey(kind, code);
    HeldPrefixLayout(ev);
    assert HeldPrefix(ev, 4) == "shift+";
    assert ":" + "shift+" == ":shift+";
    Regroup(TypeName(kind), ":", "shift+");
  }

  // The key strings of the events the handlers switch on, and their labels.

  /** A space keypress. */
  lemma SpaceKey()
    ensures EventKey(Plain(Keypress, 32)) == "keypress:32"
    ensures InputLabelOf("keypress:32") == SpaceLabel
  {
    assert EventKey(Plain(Keypress, 32)) == "keypress:32" by {
      PlainKey(Keypress, 32);
      assert Decimal(32) == "32";
    }
  }

  /** A comma keydown. */
  lemma CommaKey()
    ensures EventKey(Plain(Keydown, 188)) == "keydown:188"
    ensures InputLabelOf("keydown:188") == CommaLabel
  {
    assert EventKey(Plain(Keydown, 188)) == "keydown:188" by {
      PlainKey(Keydown, 188);
      assert Decimal(188) == "188";
    }
    assert "keydown:188"[3] != "keypress:32"[3];
  }

  /** A right-arrow keydown. */
  lemma RightKey()
    ensures EventKey(Plain(Keydown, 39)) == "keydown:39"
    ensures InputLabelOf("keydown:39") == RightLabel
    ensures ItemLabelOf("keydown:39") == NextLabel
  {
    assert EventKey(Plain(Keydown, 39)) == "keydown:39" by {
      PlainKey(Keydown, 39);
      assert Decimal(39) == "39";
    }
    assert "keydown:39"[9] != "keydown:37"[9];
    assert "keydown:39"[3] != "keypress:9"[3];
  }

  /** A tab keydown. */
  lemma TabKey()
    ensures EventKey(Plain(Keydown, 9)) == "keydown:9"
    ensures InputLabelOf("keydown:9") == TabLabel
  {
    assert EventKey(Plain(Keydown, 9)) == "keydown:9" by {
      PlainKey(Keydown, 9);
      assert Decimal(9) == "9";
    }
  }

  /** An enter keypress. */
  lemma EnterKey()
    ensures EventKey(Plain(Keypress, 13)) == "keypress:13"
    ensures InputLabelOf("keypress:13") == EnterLabel
  {
    assert EventKey(Plain(Keypress, 13)) == "keypress:13" by {
      PlainKey(Keypress, 13);
      assert Decimal(13) == "13";
    }
    assert "keypress:13"[9] != "keypress:32"[9];
    assert "keypress:13"[3] != "keydown:188"[3];
  }

  /** An Esc keydown. */
  lemma EscKey()
    ensures EventKey(Plain(Keydown, 27)) == "keydown:27"
    ensures InputLabelOf("keydown:27") == EscLabel
  {
    assert EventKey(Plain(Keydown, 27)) == "keydown:27" by {
      PlainKey(Keydown, 27);
      assert Decimal(27) == "27";
    }
    assert "keydown:27"[8] != "keydown:39"[8];
  }

  /** A left-arrow keydown. */
  lemma LeftKey()
    ensures EventKey(Plain(Keydown, 37)) == "keydown:37"
    ensures InputLabelOf("keydown:37") == LeftLabel
    ensures ItemLabelOf("keydown:37") == PrevLabel
  {
    assert EventKey(Plain(Keydown, 37)) == "keydown:37" by {
      PlainKey(Keydown, 37);
      assert Decimal(37) == "37";
    }
    assert "keydown:37"[9] != "keydown:39"[9];
    assert "keydown:37"[8] != "keydown:27"[8];
  }

  /** A shift+tab keydown. */
  lemma ShiftTabKey()
    ensures EventKey(ShiftKey(Keydown, 9)) == "keydown:shift+9"
    ensures InputLabelOf("keydown:shift+9") == ShiftTabLabel
  {
    assert EventKey(ShiftKey(Keydown, 9)) == "keydown:shift+9" by {
      ShiftedKey(Keydown, 9);
      assert Decimal(9) == "9";
    }
  }

  /** A backspace keydown. */
  lemma BackspaceKey()
    ensures EventKey(Plain(Keydown, 8)) == "keydown:8"
    ensures InputLabelOf("keydown:8") == BackspaceLabel
    ensures ItemLabelOf("keydown:8") == DeleteLabel
  {
    assert EventKey(Plain(Keydown, 8)) == "keydown:8" by {
      PlainKey(Keydown, 8);
      assert Decimal(8) == "8";
    }
    assert "keydown:8"[8] != "keydown:9"[8];
  }

  /** A shift+tab keypress. */
  lemma ShiftTabPressKey()
    ensures EventKey(ShiftKey(Keypress, 9)) == "keypress:shift+9"
    ensures ItemLabelOf("keypress:shift+9") == PrevLabel
  {
    assert EventKey(ShiftKey(Keypress, 9)) == "keypress:shift+9" by {
      ShiftedKey(Keypress, 9);
      assert Decimal(9) == "9";
    }
  }

  /** A tab keypress. */
  lemma TabPressKey()
    ensures EventKey(Plain(Keypress, 9)) == "keypress:9"
    ensures ItemLabelOf("keypress:9") == NextLabel
  {
    assert EventKey(Plain(Keypress, 9)) == "keypress:9" by {
      PlainKey(Keypress, 9);
      assert Decimal(9) == "9";
    }
    assert "keypress:9"[3] != "keydown:37"[3];
  }

  /** An F2 keydown. */
  lemma F2Key()
    ensures EventKey(Plain(Keydown, 113)) == "keydown:113"
    ensures ItemLabelOf("keydown:113") == F2Label
  {
    assert EventKey(Plain(Keydown, 113)) == "keydown:113" by {
      PlainKey(Keydown, 113);
      assert Decimal(113) == "113";
    }
  }

  /** A delete keydown. */
  lemma DeleteKey()
    ensures EventKey(Plain(Keydown, 46)) == "keydown:46"
    ensures ItemLabelOf("keydown:46") == DeleteLabel
  {
    assert EventKey(Plain(Keydown, 46)) == "keydown:46" by {
      PlainKey(Keydown, 46);
      assert Decimal(46) == "46";
    }
    assert "keydown:46"[8] != "keydown:37"[8];
    assert "keydown:46"[3] != "keypress:9"[3];
    assert "keydown:46"[8] != "keydown:39"[8];
  }

  // ---------------------------------------------------------------------
  // toolbox.selectionPosition
  // ---------------------------------------------------------------------

  /** The object `toolbox.selectionPosition` returns. */
  datatype Position = Position(start: int, end: int, length: int, atStart: bool, atEnd: bool)

  /** `toolbox.selectionPosition` where the input has `selectionStart` and
      `selectionEnd`: the caret flags are set only for a collapsed selection. */
  function SelectionPosition(sel: Selection, value: string): (p: Position)
    ensures p.start == sel.start && p.end == sel.end && p.length == sel.end - sel.start
    ensures p.atStart ==> p.length == 0
    ensures p.atEnd ==> p.length == 0
    ensures p.length == 0 ==> (p.atStart <==> sel.start == 0) && (p.atEnd <==> sel.end == |value|)
  {
    var length := sel.end - sel.start;
    var atStart := if length == 0 then sel.start == 0 else false;
    var atEnd := if length == 0 then |value| == sel.end else false;
    Position(sel.start, sel.end, length, atStart, atEnd)
  }

  /** The caret is at both ends at once exactly when the input is empty
      and the caret stands at 0. */
  lemma CaretAtBothEnds(sel: Selection, value: string)
    ensures var p := SelectionPosition(sel, value);
      p.atStart && p.atEnd <==> value == "" && sel == Selection(0, 0)
  {
    var p := SelectionPosition(sel, value);
    if p.atStart && p.atEnd {
      assert sel.start == 0 && sel.end == 0;
    }
  }

  // ---------------------------------------------------------------------
  // Comparing a key string with a number
  // ---------------------------------------------------------------------

  /** JavaScript's conversion of a string to a number, for the strings a
      key comparison can meet: blank text is 0, decimal digits (white space
      around them allowed) are their value, anything else is NaN (None). */
  function JsToNumber(s: string): Option<nat> {
    var t := Trim(s);
    if t == [] then Some(0)
    else if forall k :: 0 <= k < |t| ==> IsDigit(t[k]) then Some(DecimalValue(t))
    else None
  }

  /** `s == n` for a string s and a number n: JavaScript converts the
      string; NaN equals nothing. */
  predicate LooseEqualsNumber(s: string, n: nat) {
    JsToNumber(s) == Some(n)
  }

  /** The string of a number compares equal to it. */
  lemma NumberStringEqualsNumber(n: nat)
    ensures LooseEqualsNumber(Decimal(n), n)
  {
    var d := Decimal(n);
    assert Trimmed(d) by {
      assert IsDigit(d[0]) && IsDigit(d[|d| - 1]);
    }
    TrimOfTrimmed(d);
    DecimalRoundTrip(n);
  }

  /** A key string never compares equal to a number: its `:` is neither
      white space nor a digit, so it converts to NaN. */
  lemma KeyStringIsNotANumber(ev: KeyEvent, n: nat)
    ensures !LooseEqualsNumber(EventKey(ev), n)
  {
    var s := EventKey(ev);
    var k := |TypeName(ev.kind)|;
    assert s[k] == ':';
    TrimKeeps(s, k);
    var t := Trim(s);
    var j :| 0 <= j < |t| && t[j] == ':';
    assert !IsDigit(t[j]);
  }

  /** The comma relocation under `key == 188` can never run. */
  lemma CommaRelocationIsDead(ev: KeyEvent)
    ensures !LooseEqualsNumber(EventKey(ev), 188)
  {
    KeyStringIsNotANumber(ev, 188);
  }

  // ---------------------------------------------------------------------
  // The handlers, as functions of the area's state
  // ---------------------------------------------------------------------

  /** The input's focus handler: the value is saved as `prevVal`. */
  function InputFocus(st: AreaState): AreaState {
    st.(prevVal := st.value)
  }

  /** Editing item i (the item's click handler): the draft takes the item's
      slot and text, the item goes, and the focus handler saves the text as
      `prevVal`. The textarea is not written. */
  function ItemEdit(st: AreaState, i: nat): AreaState
    requires i < |st.items|
  {
    InputFocus(AfterEdit(st, i))
  }

  function ItemClick(st: AreaState, i: nat): Outcome
    requires i < |st.items|
  {
    Outcome(ItemEdit(st, i), true, Input)
  }

  /** The remove control's click handler: the item goes and the textarea is
      written. */
  function RemoveClick(st: AreaState, i: nat): Outcome
    requires DraftInRange(st) && i < |st.items|
  {
    Outcome(AfterSyncTo(AfterRemove(st, i)), true, Keep)
  }

  /** The shared tail of comma, right, tab, enter and Esc in the input. */
  function Commit(st: AreaState, ev: KeyEvent, key: string, ie: bool, prevented: bool): Outcome
    requires DraftInRange(st)
  {
    if ev.keyCode == 9 && !ie then Outcome(st, prevented, Keep)
    else
      var next := DraftNext(st);
      if ev.keyCode == 9 && next == NoSibling then Outcome(st, prevented, Keep)
      else
        var st1 := if ev.keyCode == 27 then st.(value := st.prevVal) else st;
        if st1.value == "" then Outcome(st1, true, Keep)
        else PushAndFocus(st1, next != NoSibling, ev.keyCode, key)
  }

  /** Push the input, then focus the item that followed it (tab and right)
      or the input, which is put back before that item when the key
      compares equal to 188. */
  function PushAndFocus(st: AreaState, hasNext: bool, code: nat, key: string): Outcome
    requires DraftInRange(st)
  {
    var st2 := AfterPushDraft(st);
    var k := FollowerIndex(st);
    if hasNext && (code == 9 || code == 39) then
      // toolbox.focus($next, $input): the input's blur handler pushes again
      Outcome(AfterPushDraft(st2), true, Item(k))
    else
      var st3 := if hasNext && LooseEqualsNumber(key, 188) then st2.(draft := k) else st2;
      Outcome(InputFocus(st3), true, Input)
  }

  /** Left at the start and shift+tab: blur the input (which pushes it) and
      focus the item before it. With no child before it no handler moves the
      focus: the blur handler prevents the default, so triggering blur runs
      the push but not the browser's own blur. */
  function MovePrev(st: AreaState, ev: KeyEvent, ie: bool): Outcome
    requires DraftInRange(st)
  {
    if ev.keyCode == 9 && !ie then Outcome(st, false, Keep)
    else
      var focus := match DraftPrev(st) case ItemSibling(j) => Item(j) case _ => Keep;
      Outcome(AfterPushDraft(st), true, focus)
  }

  /** Backspace at the start: blur the input (which pushes it), then click
      the item before it; with no child before it no handler moves the focus. */
  function EditPrev(st: AreaState): Outcome
    requires DraftInRange(st)
  {
    var st2 := AfterPushDraft(st);
    match DraftPrev(st)
    case ItemSibling(j) =>
      DraftNeighbours(st);
      PushDraftKeepsNeighbours(st);
      Outcome(ItemEdit(st2, j), true, Input)
    case _ => Outcome(st2, true, Keep)
  }

  /** The labels of the input handler's `switch (key)`. */
  datatype InputLabel = SpaceLabel | CommaLabel | RightLabel | TabLabel | EnterLabel | EscLabel
                      | LeftLabel | ShiftTabLabel | BackspaceLabel | NoInputLabel

  function InputLabelOf(key: string): InputLabel {
    if key == "keypress:32" then SpaceLabel
    else if key == "keydown:188" then CommaLabel
    else if key == "keydown:39" then RightLabel
    else if key == "keydown:9" then TabLabel
    else if key == "keypress:13" then EnterLabel
    else if key == "keydown:27" then EscLabel
    else if key == "keydown:37" then LeftLabel
    else if key == "keydown:shift+9" then ShiftTabLabel
    else if key == "keydown:8" then BackspaceLabel
    else NoInputLabel
  }

  /** The input's keypress and keydown handler. A comma falls through to
      the right arrow's caret test, which falls through to the commit. */
  function InputKey(st: AreaState, ev: KeyEvent, sel: Selection, ie: bool): Outcome
    requires DraftInRange(st)
  {
    var key := EventKey(ev);
    var pos := SelectionPosition(sel, st.value);
    match InputLabelOf(key)
    case SpaceLabel => Outcome(st, st.value == "", Keep)
    case CommaLabel => if !pos.atEnd then Outcome(st, true, Keep) else Commit(st, ev, key, ie, true)
    case RightLabel => if !pos.atEnd then Outcome(st, false, Keep) else Commit(st, ev, key, ie, false)
    case TabLabel => Commit(st, ev, key, ie, false)
    case EnterLabel => Commit(st, ev, key, ie, false)
    case EscLabel => Commit(st, ev, key, ie, false)
    case LeftLabel => if !pos.atStart then Outcome(st, false, Keep) else MovePrev(st, ev, ie)
    case ShiftTabLabel => MovePrev(st, ev, ie)
    case BackspaceLabel => if pos.atStart then EditPrev(st) else Outcome(st, false, Keep)
    case NoInputLabel => Outcome(st, false, Keep)
  }

  /** Focusing an item's neighbour: the input (whose focus handler saves its
      value), another item, or nothing. */
  function FocusSibling(st: AreaState, sib: Sibling): Outcome {
    match sib
    case NoSibling => Outcome(st, true, Keep)
    case DraftSibling => Outcome(InputFocus(st), true, Input)
    case ItemSibling(j) => Outcome(st, true, Item(j))
  }

  /** Backspace or delete on item i: focus the next child, then remove the
      item; the textarea is not written. */
  function DeleteItem(st: AreaState, i: nat): Outcome
    requires DraftInRange(st) && i < |st.items|
  {
    ItemNeighbours(st, i);
    var focus := match ItemNext(st, i) case ItemSibling(j) => Item(j - 1) case _ => Lost;
    Outcome(AfterRemove(st, i), true, focus)
  }

  /** The labels of an item handler's `switch (key)`. */
  datatype ItemLabel = PrevLabel | NextLabel | F2Label | DeleteLabel | NoItemLabel

  function ItemLabelOf(key: string): ItemLabel {
    if key == "keypress:shift+9" || key == "keydown:37" then PrevLabel
    else if key == "keypress:9" || key == "keydown:39" then NextLabel
    else if key == "keydown:113" then F2Label
    else if key == "keydown:8" || key == "keydown:46" then DeleteLabel
    else NoItemLabel
  }

  /** An item's keypress and keydown handler. */
  function ItemKey(st: AreaState, i: nat, ev: KeyEvent): Outcome
    requires DraftInRange(st) && i < |st.items|
  {
    match ItemLabelOf(EventKey(ev))
    case PrevLabel => FocusSibling(st, ItemPrev(st, i))
    case NextLabel => FocusSibling(st, ItemNext(st, i))
    case F2Label => ItemClick(st, i)
    case DeleteLabel => DeleteItem(st, i)
    case NoItemLabel => Outcome(st, false, Keep)
  }

  // ---------------------------------------------------------------------
  // Properties of the handlers
  // ---------------------------------------------------------------------

  /** A comma keydown always has its default prevented. */
  lemma CommaAlwaysPrevented(st: AreaState, sel: Selection, ie: bool)
    requires DraftInRange(st)
    ensures InputKey(st, Plain(Keydown, 188), sel, ie).prevented
  {
    CommaKey();
  }

  /** A comma with the caret elsewhere than at the end changes nothing. */
  lemma CommaMidTextKeepsDraft(st: AreaState, sel: Selection, ie: bool)
    requires DraftInRange(st) && !SelectionPosition(sel, st.value).atEnd
    ensures InputKey(st, Plain(Keydown, 188), sel, ie) == Outcome(st, true, Keep)
  {
    CommaKey();
  }

  /** A comma at the end of a non-empty draft commits it; since the
      relocation never runs, the draft ends last even when an item followed
      it, and focuses the input again. */
  lemma CommaAtEndCommits(st: AreaState, sel: Selection, ie: bool)
    requires DraftInRange(st) && SelectionPosition(sel, st.value).atEnd && st.value != ""
    ensures var o := InputKey(st, Plain(Keydown, 188), sel, ie);
      && o.st.items == PushedItems(st.items, st.draft, st.value)
      && o.st.draft == |o.st.items|
      && o.st.value == "" && o.st.prevVal == ""
      && o.st.textarea == Serialize(o.st.items)
      && o.prevented && o.focus == Input
  {
    CommaKey();
    CommaRelocationIsDead(Plain(Keydown, 188));
    PushDraftState(st);
  }

  /** Right at the end of a non-empty draft with an item after it commits the
      draft and focuses that item, which now stands just before the draft. */
  lemma RightAtEndFocusesFollower(st: AreaState, sel: Selection, ie: bool)
    requires DraftInRange(st) && SelectionPosition(sel, st.value).atEnd && st.value != ""
    requires st.draft < |st.items|
    ensures var o := InputKey(st, Plain(Keydown, 39), sel, ie);
      && o.st.items == PushedItems(st.items, st.draft, st.value)
      && o.st.draft == |o.st.items| && o.st.value == ""
      && o.prevented
      && o.focus.Item? && o.focus.index < |o.st.items|
      && o.st.items[o.focus.index] == st.items[st.draft]
  {
    RightKey();
    PushDraftState(st);
    var st2 := AfterPushDraft(st);
    PushDraftIdle(st2);
    assert st2.items[FollowerIndex(st)] == st.items[st.draft] by {
      assert st2.items[FollowerIndex(st)..][0] == st.items[st.draft..][0];
    }
  }

  /** Tab is left to the browser outside IE and Opera. */
  lemma TabIgnoredOutsideIe(st: AreaState, sel: Selection)
    requires DraftInRange(st)
    ensures InputKey(st, Plain(Keydown, 9), sel, false) == Outcome(st, false, Keep)
    ensures InputKey(st, ShiftKey(Keydown, 9), sel, false) == Outcome(st, false, Keep)
  {
    TabKey();
    ShiftTabKey();
  }

  /** A space typed into an empty draft is suppressed; the state is kept. */
  lemma SpaceOnEmptySuppressed(st: AreaState, sel: Selection, ie: bool)
    requires DraftInRange(st)
    ensures var o := InputKey(st, Plain(Keypress, 32), sel, ie);
      o.st == st && o.focus == Keep && (o.prevented <==> st.value == "")
  {
    SpaceKey();
  }

  /** Esc first restores the value saved on focus; when that is empty
      nothing is pushed, otherwise it is committed. */
  lemma EscRestoresSavedValue(st: AreaState, sel: Selection, ie: bool)
    requires DraftInRange(st)
    ensures var o := InputKey(st, Plain(Keydown, 27), sel, ie);
      && o.prevented
      && (st.prevVal == "" ==> o == Outcome(st.(value := ""), true, Keep))
      && (st.prevVal != "" ==>
            && o.st.items == PushedItems(st.items, st.draft, st.prevVal)
            && o.st.draft == |o.st.items| && o.st.value == ""
            && o.focus == Input)
  {
    var ev := Plain(Keydown, 27);
    var st1 := st.(value := st.prevVal);
    assert InputKey(st, ev, sel, ie) == Commit(st, ev, "keydown:27", ie, false) by {
      EscKey();
    }
    if st.prevVal != "" {
      CommaRelocationIsDead(ev);
      EscKey();
      assert Commit(st, ev, "keydown:27", ie, false)
          == Outcome(InputFocus(AfterPushDraft(st1)), true, Input);
      PushDraftState(st1);
    }
  }

  /** Whatever is typed after the input gains focus, Esc commits exactly the
      value it held then. */
  lemma EscCommitsValueAtFocus(st: AreaState, typed: string, sel: Selection, ie: bool)
    requires DraftInRange(st)
    ensures var o := InputKey(InputFocus(st).(value := typed), Plain(Keydown, 27), sel, ie);
      && o.st.items == PushedItems(st.items, st.draft, st.value)
      && o.st.value == ""
  {
    var f := InputFocus(st).(value := typed);
    EscRestoresSavedValue(f, sel, ie);
  }

  /** Backspace with the caret at the start of the draft commits the draft,
      then edits the item before it: the draft takes that item's slot and
      text, and the textarea still lists the item. */
  lemma BackspaceAtStartEditsPrevious(st: AreaState, sel: Selection, ie: bool)
    requires DraftInRange(st) && SelectionPosition(sel, st.value).atStart && st.draft > 0
    ensures var o := InputKey(st, Plain(Keydown, 8), sel, ie);
      && o.st.items == st.items[..st.draft - 1]
           + (if Trim(st.value) == "" then [] else [Trim(st.value)]) + st.items[st.draft..]
      && o.st.draft == st.draft - 1
      && o.st.value == st.items[st.draft - 1] && o.st.prevVal == o.st.value
      && o.st.textarea == Serialize(PushedItems(st.items, st.draft, st.value))
      && o.prevented && o.focus == Input
  {
    var d := st.draft;
    var st2 := AfterPushDraft(st);
    EditPreviousState(st);
    assert InputKey(st, Plain(Keydown, 8), sel, ie) == EditPrev(st) by {
      BackspaceKey();
    }
    assert EditPrev(st) == Outcome(ItemEdit(st2, d - 1), true, Input) by {
      DraftNeighbours(st);
    }
  }

  /** Left or backspace with the caret at the start of a draft that comes
      first: the draft is committed and no handler moves the focus. */
  lemma FrontOfAreaKeepsFocus(st: AreaState, sel: Selection, ie: bool)
    requires DraftInRange(st) && SelectionPosition(sel, st.value).atStart && st.draft == 0
    ensures InputKey(st, Plain(Keydown, 37), sel, ie) == Outcome(AfterPushDraft(st), true, Keep)
    ensures InputKey(st, Plain(Keydown, 8), sel, ie) == Outcome(AfterPushDraft(st), true, Keep)
  {
    assert InputKey(st, Plain(Keydown, 37), sel, ie) == MovePrev(st, Plain(Keydown, 37), ie) by {
      LeftKey();
    }
    assert InputKey(st, Plain(Keydown, 8), sel, ie) == EditPrev(st) by {
      BackspaceKey();
    }
  }

  lemma EditPreviousState(st: AreaState)
    requires DraftInRange(st) && st.draft > 0
    ensures var d := st.draft;
      var st2 := AfterPushDraft(st);
      && d - 1 < |st2.items|
      && var r := ItemEdit(st2, d - 1);
      && r.items == st.items[..d - 1]
           + (if Trim(st.value) == "" then [] else [Trim(st.value)]) + st.items[d..]
      && r.draft == d - 1
      && r.value == st.items[d - 1] && r.prevVal == r.value
      && r.textarea == Serialize(PushedItems(st.items, d, st.value))
  {
    PushDraftState(st);
    var st2 := AfterPushDraft(st);
    var d := st.draft;
    assert st2.items[d - 1] == st.items[d - 1] by {
      assert st2.items[..d][d - 1] == st.items[..d][d - 1];
    }
    if Trim(st.value) != "" {
      assert st2.items[..d - 1] == st.items[..d - 1];
      assert st2.items[d..] == [Trim(st.value)] + st.items[d..];
    } else {
      assert st2.items == st.items;
    }
  }

  /** A click on item i: the draft takes the item's slot among the children
      and its text, which is also saved as `prevVal`; the textarea still
      lists the item. */
  lemma ItemClickEdits(st: AreaState, i: nat)
    requires DraftInRange(st) && i < |st.items|
    ensures var o := ItemClick(st, i);
      && Children(o.st) == AsChildren(st.items[..i]) + [DraftChild] + AsChildren(st.items[i + 1..])
      && o.st.value == st.items[i] && o.st.prevVal == st.items[i]
      && o.st.textarea == st.textarea
      && o.prevented && o.focus == Input
  {
    EditTakesTheSlot(st, i);
  }

  /** F2 on an item is a click on it. */
  lemma F2ClicksItem(st: AreaState, i: nat)
    requires DraftInRange(st) && i < |st.items|
    ensures ItemKey(st, i, Plain(Keydown, 113)) == ItemClick(st, i)
  {
    F2Key();
  }

  /** Backspace or delete on an item removes just that item and leaves the
      textarea as it was; the focus goes to the item that followed, if an
      item followed. */
  lemma ItemDeleteLeavesTextarea(st: AreaState, i: nat, code: nat)
    requires DraftInRange(st) && i < |st.items| && (code == 8 || code == 46)
    ensures var o := ItemKey(st, i, Plain(Keydown, code));
      && o.st.items == st.items[..i] + st.items[i + 1..]
      && o.st.textarea == st.textarea
      && o.prevented
      && (if i + 1 < |st.items| && i + 1 != st.draft
          then o.focus == Item(i) && o.st.items[i] == st.items[i + 1]
          else o.focus == Lost)
  {
    assert ItemKey(st, i, Plain(Keydown, code)) == DeleteItem(st, i) by {
      if code == 8 {
        BackspaceKey();
      } else {
        DeleteKey();
      }
    }
    ItemNeighbours(st, i);
    var rest := st.items[..i] + st.items[i + 1..];
    assert AfterRemove(st, i).items == rest;
    if i + 1 < |st.items| {
      assert rest[i] == st.items[i + 1];
    }
  }

  /** The remove control deletes its item and writes the textarea. */
  lemma RemoveControlSyncs(st: AreaState, i: nat)
    requires DraftInRange(st) && i < |st.items|
    ensures var o := RemoveClick(st, i);
      && o.st.items == st.items[..i] + st.items[i + 1..]
      && o.st.textarea == Serialize(o.st.items)
      && o.prevented
  {
  }

  /** Left (or shift+tab) on an item moves the focus to the child before it:
      nothing at the first child, the input (saving its value) when the draft
      stands there, otherwise that item. */
  lemma ItemLeftFocusesPrevChild(st: AreaState, i: nat, ev: KeyEvent)
    requires DraftInRange(st) && i < |st.items|
    requires ev == Plain(Keydown, 37) || ev == ShiftKey(Keypress, 9)
    ensures var o := ItemKey(st, i, ev);
      var c := ChildIndex(st, i);
      && o.prevented
      && (c == 0 ==> o == Outcome(st, true, Keep))
      && (c > 0 && ChildAt(st, c - 1) == DraftChild ==> o == Outcome(InputFocus(st), true, Input))
      && (o.focus.Item? ==>
            && o.st == st && c > 0 && o.focus.index < |st.items|
            && ChildAt(st, c - 1) == ItemChild(st.items[o.focus.index]))
  {
    LeftKey();
    ShiftTabPressKey();
    var c := ChildIndex(st, i);
    if c > 0 {
      SiblingAtNamesChild(st, c - 1);
      ChildrenAt(st);
    }
  }

  /** Right (or tab) on an item moves the focus to the child after it. */
  lemma ItemRightFocusesNextChild(st: AreaState, i: nat, ev: KeyEvent)
    requires DraftInRange(st) && i < |st.items|
    requires ev == Plain(Keydown, 39) || ev == Plain(Keypress, 9)
    ensures var o := ItemKey(st, i, ev);
      var c := ChildIndex(st, i);
      && o.prevented
      && (c == |st.items| ==> o == Outcome(st, true, Keep))
      && (c < |st.items| && ChildAt(st, c + 1) == DraftChild ==> o == Outcome(InputFocus(st), true, Input))
      && (o.focus.Item? ==>
            && o.st == st && c < |st.items| && o.focus.index < |st.items|
            && ChildAt(st, c + 1) == ItemChild(st.items[o.focus.index]))
  {
    RightKey();
    TabPressKey();
    var c := ChildIndex(st, i);
    if c < |st.items| {
      SiblingAtNamesChild(st, c + 1);
      ChildrenAt(st);
    }
  }

  // ---------------------------------------------------------------------
  // Every handler keeps the area well formed
  // ---------------------------------------------------------------------

  lemma CommitSound(st: AreaState, ev: KeyEvent, key: string, ie: bool, prevented: bool)
    requires WellFormed(st)
    ensures SoundOutcome(Commit(st, ev, key, ie, prevented))
  {
    var st1 := if ev.keyCode == 27 then st.(value := st.prevVal) else st;
    PushDraftKeepsWellFormed(st1);
    PushDraftState(st1);
    var st2 := AfterPushDraft(st1);
    PushDraftIdle(st2);
    if DraftNext(st) != NoSibling {
      DraftNeighbours(st);
      assert FollowerIndex(st1) < |st2.items|;
    }
  }

  lemma MovePrevSound(st: AreaState, ev: KeyEvent, ie: bool)
    requires WellFormed(st)
    ensures SoundOutcome(MovePrev(st, ev, ie))
  {
    PushDraftKeepsWellFormed(st);
    PushDraftState(st);
    DraftNeighbours(st);
  }

  lemma EditPrevSound(st: AreaState)
    requires WellFormed(st)
    ensures SoundOutcome(EditPrev(st))
  {
    PushDraftKeepsWellFormed(st);
    PushDraftState(st);
    DraftNeighbours(st);
  }

  lemma InputKeySound(st: AreaState, ev: KeyEvent, sel: Selection, ie: bool)
    requires WellFormed(st)
    ensures SoundOutcome(InputKey(st, ev, sel, ie))
  {
    var key := EventKey(ev);
    match InputLabelOf(key) {
      case CommaLabel => CommitSound(st, ev, key, ie, true);
      case RightLabel => CommitSound(st, ev, key, ie, false);
      case TabLabel => CommitSound(st, ev, key, ie, false);
      case EnterLabel => CommitSound(st, ev, key, ie, false);
      case EscLabel => CommitSound(st, ev, key, ie, false);
      case LeftLabel => MovePrevSound(st, ev, ie);
      case ShiftTabLabel => MovePrevSound(st, ev, ie);
      case BackspaceLabel => EditPrevSound(st);
      case _ =>
    }
  }

  lemma ItemKeySound(st: AreaState, i: nat, ev: KeyEvent)
    requires WellFormed(st) && i < |st.items|
    ensures SoundOutcome(ItemKey(st, i, ev))
  {
    ItemNeighbours(st, i);
  }

  // ---------------------------------------------------------------------
  // The handlers, as methods on the area
  // ---------------------------------------------------------------------

  /** The input's focus handler. */
  method OnInputFocus(a: Area)
    requires a.Valid()
    modifies a
    ensures a.Valid() && a.State() == InputFocus(old(a.State()))
  {
    a.prevVal := a.value;
  }

  /** The input's blur handler: the area pushes the input. */
  method OnInputBlur(a: Area)
    requires a.Valid()
    modifies a
    ensures a.Valid() && a.State() == AfterPushDraft(old(a.State()))
  {
    a.Push(Elements([DraftInput]));
  }

  /** An item's click (or edit) handler. */
  method OnItemClick(a: Area, i: nat) returns (prevented: bool, focus: Focus)
    requires a.Valid() && i < |a.items|
    modifies a
    ensures a.Valid() && Outcome(a.State(), prevented, focus) == ItemClick(old(a.State()), i)
  {
    a.EditItem(i);
    OnInputFocus(a);
    prevented, focus := true, Input;
  }

  /** The remove control's click handler. */
  method OnRemoveClick(a: Area, i: nat) returns (prevented: bool, focus: Focus)
    requires a.Valid() && i < |a.items|
    modifies a
    ensures a.Valid() && Outcome(a.State(), prevented, focus) == RemoveClick(old(a.State()), i)
  {
    a.RemoveItem(i);
    a.SyncToTextarea();
    prevented, focus := true, Keep;
  }

  method OnCommit(a: Area, ev: KeyEvent, key: string, ie: bool, prevented0: bool)
    returns (prevented: bool, focus: Focus)
    requires a.Valid()
    modifies a
    ensures a.Valid()
    ensures Outcome(a.State(), prevented, focus) == Commit(old(a.State()), ev, key, ie, prevented0)
  {
    prevented, focus := prevented0, Keep;
    if ev.keyCode == 9 && !ie {
      return;
    }
    var next := DraftNext(a.State());
    if ev.keyCode == 9 && next == NoSibling {
      return;
    }
    prevented := true;
    if ev.keyCode == 27 {
      a.SetValue(a.prevVal);
    }
    if a.value == "" {
      return;
    }
    prevented, focus := OnPushAndFocus(a, next != NoSibling, ev.keyCode, key);
  }

  method OnPushAndFocus(a: Area, hasNext: bool, code: nat, key: string) returns (prevented: bool, focus: Focus)
    requires a.Valid()
    modifies a
    ensures a.Valid()
    ensures Outcome(a.State(), prevented, focus) == PushAndFocus(old(a.State()), hasNext, code, key)
  {
    ghost var st := a.State();
    var after := |a.items| - a.draft;
    a.Push(Elements([DraftInput]));
    PushDraftState(st);
    var k: nat := |a.items| - after;
    prevented := true;
    if hasNext && (code == 9 || code == 39) {
      // toolbox.focus($next, $input) blurs the input before focusing $next
      OnInputBlur(a);
      focus := Item(k);
    } else {
      if hasNext && LooseEqualsNumber(key, 188) {
        a.RelocateDraft(k);
      }
      OnInputFocus(a);
      focus := Input;
    }
  }

  method OnMovePrev(a: Area, ev: KeyEvent, ie: bool) returns (prevented: bool, focus: Focus)
    requires a.Valid()
    modifies a
    ensures a.Valid() && Outcome(a.State(), prevented, focus) == MovePrev(old(a.State()), ev, ie)
  {
    if ev.keyCode == 9 && !ie {
      return false, Keep;
    }
    var prev := DraftPrev(a.State());
    OnInputBlur(a);
    prevented := true;
    focus := if prev.ItemSibling? then Item(prev.index) else Keep;
  }

  method OnEditPrev(a: Area) returns (prevented: bool, focus: Focus)
    requires a.Valid()
    modifies a
    ensures a.Valid() && Outcome(a.State(), prevented, focus) == EditPrev(old(a.State()))
  {
    ghost var st := a.State();
    var prev := DraftPrev(a.State());
    OnInputBlur(a);
    if prev.ItemSibling? {
      DraftNeighbours(st);
      PushDraftState(st);
      prevented, focus := OnItemClick(a, prev.index);
    } else {
      prevented, focus := true, Keep;
    }
  }

  /** The input's keypress and keydown handler. */
  method OnInputKey(a: Area, ev: KeyEvent, sel: Selection, ie: bool) returns (prevented: bool, focus: Focus)
    requires a.Valid()
    modifies a
    ensures a.Valid() && Outcome(a.State(), prevented, focus) == InputKey(old(a.State()), ev, sel, ie)
  {
    var key := TransEventKey(ev);
    var pos := SelectionPosition(sel, a.value);
    prevented, focus := false, Keep;
    match InputLabelOf(key) {
      case SpaceLabel =>
        prevented := a.value == "";
      case CommaLabel =>
        // falls through to the right arrow's caret test
        prevented := true;
        if pos.atEnd {
          prevented, focus := OnCommit(a, ev, key, ie, true);
        }
      case RightLabel =>
        if pos.atEnd {
          prevented, focus := OnCommit(a, ev, key, ie, false);
        }
      case TabLabel =>
        prevented, focus := OnCommit(a, ev, key, ie, false);
      case EnterLabel =>
        prevented, focus := OnCommit(a, ev, key, ie, false);
      case EscLabel =>
        prevented, focus := OnCommit(a, ev, key, ie, false);
      case LeftLabel =>
        // falls through to shift+tab when the caret is at the start
        if pos.atStart {
          prevented, focus := OnMovePrev(a, ev, ie);
        }
      case ShiftTabLabel =>
        prevented, focus := OnMovePrev(a, ev, ie);
      case BackspaceLabel =>
        if pos.atStart {
          prevented, focus := OnEditPrev(a);
        }
      case NoInputLabel =>
    }
  }

  method OnFocusSibling(a: Area, sib: Sibling) returns (prevented: bool, focus: Focus)
    requires a.Valid()
    modifies a
    ensures a.Valid() && Outcome(a.State(), prevented, focus) == FocusSibling(old(a.State()), sib)
  {
    prevented := true;
    match sib {
      case NoSibling =>
        focus := Keep;
      case DraftSibling =>
        OnInputFocus(a);
        focus := Input;
      case ItemSibling(j) =>
        focus := Item(j);
    }
  }

  /** An item's keypress and keydown handler. */
  method OnItemKey(a: Area, i: nat, ev: KeyEvent) returns (prevented: bool, focus: Focus)
    requires a.Valid() && i < |a.items|
    modifies a
    ensures a.Valid() && Outcome(a.State(), prevented, focus) == ItemKey(old(a.State()), i, ev)
  {
    var key := TransEventKey(ev);
    match ItemLabelOf(key) {
      case PrevLabel =>
        prevented, focus := OnFocusSibling(a, ItemPrev(a.State(), i));
      case NextLabel =>
        prevented, focus := OnFocusSibling(a, ItemNext(a.State(), i));
      case F2Label =>
        prevented, focus := OnItemClick(a, i);
      case DeleteLabel =>
        ItemNeighbours(a.State(), i);
        var next := ItemNext(a.State(), i);
        a.RemoveItem(i);
        prevented := true;
        focus := if next.ItemSibling? then Item(next.index - 1) else Lost;
      case NoItemLabel =>
        prevented, focus := false, Keep;
    }
  }
}
