/**
 * `EditableCell`: a table cell that shows a value and turns into an input on
 * click. Its state is two variables, `isEditing` and the local `value`, next to
 * the `value` prop it was rendered with. Blur saves a changed value through
 * `onSave`, Escape reverts, Enter commits except in a textarea, typing only
 * replaces the local value, and a new prop value is copied into the local one.
 *
 * `Step` is the reaction of the component to one event, on values; the class
 * `Cell` holds the same state in fields and its methods are the handlers.
 * An event whose handler is not attached in the current render (a key, blur or
 * change while the display is shown, a click while the input is shown) does
 * nothing.
 */
module EditableCell {
  import opened JsBuiltins

  /** A value of type `string | number`. */
  datatype CellValue = Str(s: string) | Num(n: int)

  /** The `type` prop; it defaults to `TextInput`. */
  datatype CellType = TextInput | NumberInput | DateInput | SelectInput | TextArea

  /** JavaScript truthiness of a cell value: `""` and `0` are falsy. */
  predicate Truthy(v: CellValue)
  {
    match v
    case Str(s) => s != ""
    case Num(n) => n != 0
  }

  /** `isEditing`, the local `value` and the `value` prop (`initialValue`). */
  datatype Snapshot = Snapshot(isEditing: bool, value: CellValue, prop: CellValue)

  /** The first render: not editing, local value equal to the prop. */
  function Mount(p: CellValue): (s: Snapshot)
    ensures !s.isEditing && s.value == s.prop == p
  {
    Snapshot(false, p, p)
  }

  datatype Event = Click | Change(text: string) | Blur | KeyDown(key: string) | PropChange(p: CellValue)

  /** The state after an event and the values passed to `onSave`, in call order. */
  datatype Reaction = Reaction(next: Snapshot, saves: seq<CellValue>)

  /** The events that run `handleBlur`: a blur, or Enter outside a textarea. */
  predicate IsCommit(kind: CellType, e: Event)
  {
    e.Blur? || (e.KeyDown? && e.key == "Enter" && kind != TextArea)
  }

  /** `handleBlur`. */
  function HandleBlur(s: Snapshot): (r: Reaction)
    ensures !r.next.isEditing && r.next.value == s.value && r.next.prop == s.prop
    ensures r.saves == [s.value] <==> s.value != s.prop
    ensures r.saves == [] <==> s.value == s.prop
  {
    Reaction(s.(isEditing := false), if s.value != s.prop then [s.value] else [])
  }

  /** The component's reaction to one event. */
  function Step(s: Snapshot, kind: CellType, e: Event): (r: Reaction)
    ensures |r.saves| <= 1
    ensures r.saves != [] ==> s.isEditing && IsCommit(kind, e) && r.saves == [s.value] && s.value != s.prop
    ensures r.next.prop == if e.PropChange? then e.p else s.prop
    ensures !e.Change? && !e.PropChange? && !(e.KeyDown? && e.key == "Escape") ==> r.next.value == s.value
  {
    match e
    case Click =>
      Reaction(if s.isEditing then s else s.(isEditing := true), [])
    case Change(t) =>
      Reaction(if s.isEditing then s.(value := Str(t)) else s, [])
    case Blur =>
      if s.isEditing then HandleBlur(s) else Reaction(s, [])
    case KeyDown(k) =>
      if !s.isEditing then Reaction(s, [])
      else if k == "Enter" && kind != TextArea then HandleBlur(s)
      else if k == "Escape" then Reaction(s.(value := s.prop, isEditing := false), [])
      else Reaction(s, [])
    case PropChange(p) =>
      Reaction(if p != s.prop then s.(prop := p, value := p) else s, [])
  }

  /** Clicking the display enters editing and keeps the value. */
  lemma ClickEntersEditing(s: Snapshot, kind: CellType)
    ensures Step(s, kind, Click) == Reaction(s.(isEditing := true), [])
  {
  }

  /** Blur while editing leaves editing and saves the local value exactly
      when it differs from the prop. */
  lemma BlurSavesIffChanged(s: Snapshot, kind: CellType)
    requires s.isEditing
    ensures var r := Step(s, kind, Blur);
      && !r.next.isEditing && r.next.value == s.value
      && (r.saves == [s.value] <==> s.value != s.prop)
      && (r.saves == [] <==> s.value == s.prop)
  {
  }

  /** Escape while editing restores the prop value, leaves editing and saves nothing. */
  lemma EscapeReverts(s: Snapshot, kind: CellType)
    requires s.isEditing
    ensures Step(s, kind, KeyDown("Escape")) == Reaction(Mount(s.prop), [])
  {
  }

  /** Enter acts as a blur, except in a textarea, where it changes nothing. */
  lemma EnterCommitsUnlessTextarea(s: Snapshot, kind: CellType)
    ensures kind != TextArea ==> Step(s, kind, KeyDown("Enter")) == Step(s, kind, Blur)
    ensures kind == TextArea ==> Step(s, kind, KeyDown("Enter")) == Reaction(s, [])
  {
  }

  /** Typing replaces the local value with the typed string and never saves. */
  lemma ChangeNeverSaves(s: Snapshot, kind: CellType, text: string)
    requires s.isEditing
    ensures Step(s, kind, Change(text)) == Reaction(s.(value := Str(text)), [])
  {
  }

  /** A new prop value is copied into the local value; editing mode is kept. */
  lemma PropChangeResyncs(s: Snapshot, kind: CellType, p: CellValue)
    ensures var r := Step(s, kind, PropChange(p));
      r.saves == [] && r.next.prop == p && r.next.value == (if p != s.prop then p else s.value)
      && r.next.isEditing == s.isEditing
  {
  }

  // ---------------------------------------------------------------------------
  // Event sequences

  /** The reaction to a sequence of events, first event first. */
  function Run(s: Snapshot, kind: CellType, events: seq<Event>): Reaction
    decreases |events|
  {
    if events == [] then Reaction(s, [])
    else
      var r := Step(s, kind, events[0]);
      var rest := Run(r.next, kind, events[1..]);
      Reaction(rest.next, r.saves + rest.saves)
  }

  /** Without a blur and without Enter outside a textarea, `onSave` is never called. */
  lemma {:induction false} NoCommitNoSave(s: Snapshot, kind: CellType, events: seq<Event>)
    requires forall k :: 0 <= k < |events| ==> !IsCommit(kind, events[k])
    ensures Run(s, kind, events).saves == []
    decreases |events|
  {
    if events != [] {
      NoCommitNoSave(Step(s, kind, events[0]).next, kind, events[1..]);
    }
  }

  /** `onSave` is called at most once per committing event. */
  function CountCommits(kind: CellType, events: seq<Event>): nat
    decreases |events|
  {
    if events == [] then 0
    else (if IsCommit(kind, events[0]) then 1 else 0) + CountCommits(kind, events[1..])
  }

  lemma {:induction false} SavesBoundedByCommits(s: Snapshot, kind: CellType, events: seq<Event>)
    ensures |Run(s, kind, events).saves| <= CountCommits(kind, events)
    decreases |events|
  {
    if events != [] {
      SavesBoundedByCommits(Step(s, kind, events[0]).next, kind, events[1..]);
    }
  }

  function Typing(texts: seq<string>): (events: seq<Event>)
    ensures |events| == |texts|
    ensures forall k :: 0 <= k < |texts| ==> events[k] == Change(texts[k])
  {
    seq(|texts|, k requires 0 <= k < |texts| => Change(texts[k]))
  }

  /** Typing while editing keeps editing, saves nothing, and leaves the last typed string. */
  lemma {:induction false} TypingOnlyReplacesValue(s: Snapshot, kind: CellType, texts: seq<string>)
    requires s.isEditing
    ensures Run(s, kind, Typing(texts)) ==
      Reaction(if texts == [] then s else s.(value := Str(texts[|texts| - 1])), [])
    decreases |texts|
  {
    if texts != [] {
      var s' := s.(value := Str(texts[0]));
      assert Typing(texts)[1..] == Typing(texts[1..]);
      TypingOnlyReplacesValue(s', kind, texts[1..]);
      if |texts| > 1 {
        assert texts[1..][|texts[1..]| - 1] == texts[|texts| - 1];
      }
    }
  }

  /** Any typing followed by Escape returns the cell to its resting state, with no save. */
  lemma {:induction false} EscapeDiscardsTyping(p: CellValue, kind: CellType, texts: seq<string>)
    ensures Run(Mount(p), kind, [Click] + Typing(texts) + [KeyDown("Escape")]) == Reaction(Mount(p), [])
  {
    var editing := Mount(p).(isEditing := true);
    RunAppend(editing, kind, Typing(texts), [KeyDown("Escape")]);
    TypingOnlyReplacesValue(editing, kind, texts);
    assert ([Click] + Typing(texts) + [KeyDown("Escape")])[1..] == Typing(texts) + [KeyDown("Escape")];
  }

  /** Running two sequences one after the other. */
  lemma {:induction false} RunAppend(s: Snapshot, kind: CellType, a: seq<Event>, b: seq<Event>)
    ensures var ra := Run(s, kind, a); var rb := Run(ra.next, kind, b);
      Run(s, kind, a + b) == Reaction(rb.next, ra.saves + rb.saves)
    decreases |a|
  {
    if a == [] {
      assert a + b == b;
    } else {
      assert (a + b)[1..] == a[1..] + b;
      RunAppend(Step(s, kind, a[0]).next, kind, a[1..], b);
    }
  }

  /** An edit session: click, type, blur. The typed string is saved exactly when
      it differs from the prop, and once the parent passes it back as the new
      prop the cell is at rest again, showing it. */
  lemma EditSession(p: CellValue, kind: CellType, text: string)
    ensures Run(Mount(p), kind, [Click, Change(text), Blur]) ==
      Reaction(Snapshot(false, Str(text), p), if Str(text) != p then [Str(text)] else [])
    ensures Run(Mount(p), kind, [Click, Change(text), Blur, PropChange(Str(text))]).next == Mount(Str(text))
  {
    var s0 := Mount(p);
    var s1 := s0.(isEditing := true);
    var s2 := s1.(value := Str(text));
    var s3 := s2.(isEditing := false);
    var saved := if Str(text) != p then [Str(text)] else [];
    var evs: seq<Event> := [Click, Change(text), Blur, PropChange(Str(text))];
    assert Run(s3, kind, evs[3..]) == Reaction(Mount(Str(text)), []) by {
      assert evs[3..][1..] == [];
    }
    assert Run(s3, kind, []) == Reaction(s3, []);
    assert Run(s2, kind, evs[2..]).next == Mount(Str(text)) by {
      assert evs[2..][1..] == evs[3..];
    }
    assert Run(s2, kind, [Blur]) == Reaction(s3, saved) by {
      assert [Blur][1..] == [];
    }
    assert Run(s1, kind, evs[1..]).next == Mount(Str(text)) by {
      assert evs[1..][1..] == evs[2..];
    }
    assert Run(s1, kind, [Change(text), Blur]) == Reaction(s3, saved) by {
      assert [Change(text), Blur][1..] == [Blur];
    }
    assert [Click, Change(text), Blur][1..] == [Change(text), Blur];
  }

  /** `onChange` always yields a string, so on a cell whose prop is a number any
      typing followed by blur saves, even when the digits are the same. */
  lemma NumberPropAlwaysSavesTypedText(n: int, kind: CellType, text: string)
    ensures Run(Mount(Num(n)), kind, [Click, Change(text), Blur]).saves == [Str(text)]
  {
    EditSession(Num(n), kind, text);
  }

  // ---------------------------------------------------------------------------
  // Display

  /** `displayValue || placeholder || "—"`, where `displayValue` is
      `formatter(value)` when a formatter is given and `value` otherwise. */
  function DisplayContent(value: CellValue, formatter: Option<CellValue -> string>, placeholder: Option<string>): (shown: CellValue)
    ensures Truthy(shown)
    ensures formatter.None? && Truthy(value) ==> shown == value
    ensures formatter.Some? && formatter.value(value) != "" ==> shown == Str(formatter.value(value))
    ensures var d := if formatter.Some? then Str(formatter.value(value)) else value;
      !Truthy(d) ==> shown == Str(if placeholder.Some? && placeholder.value != "" then placeholder.value else "—")
  {
    var displayValue := if formatter.Some? then Str(formatter.value(value)) else value;
    if Truthy(displayValue) then displayValue
    else if placeholder.Some? && placeholder.value != "" then Str(placeholder.value)
    else Str("—")
  }

  // ---------------------------------------------------------------------------
  // The component state

  class Cell {
    var isEditing: bool
    var value: CellValue
    var initialValue: CellValue
    const kind: CellType

    function State(): Snapshot
      reads this
    {
      Snapshot(isEditing, value, initialValue)
    }

    constructor (initial: CellValue, kind: CellType)
      ensures State() == Mount(initial)
      ensures this.kind == kind
    {
      isEditing := false;
      value := initial;
      initialValue := initial;
      this.kind := kind;
    }

    /** The display's `onClick`. */
    method Click()
      modifies this
      ensures isEditing
      ensures value == old(value) && initialValue == old(initialValue)
      ensures State() == Step(old(State()), kind, Event.Click).next
    {
      if !isEditing {
        isEditing := true;
      }
    }

    /** The input's `onChange`, with `e.target.value`. */
    method Change(text: string)
      modifies this
      ensures isEditing == old(isEditing) && initialValue == old(initialValue)
      ensures value == if old(isEditing) then Str(text) else old(value)
      ensures State() == Step(old(State()), kind, Event.Change(text)).next
    {
      if isEditing {
        value := Str(text);
      }
    }

    /** The input's `onBlur`, i.e. `handleBlur`; `saves` are the `onSave` calls made. */
    method Blur() returns (saves: seq<CellValue>)
      modifies this
      ensures !isEditing
      ensures value == old(value) && initialValue == old(initialValue)
      ensures saves == if old(isEditing) && old(value) != old(initialValue) then [old(value)] else []
      ensures Reaction(State(), saves) == Step(old(State()), kind, Event.Blur)
    {
      saves := [];
      if isEditing {
        isEditing := false;
        if value != initialValue {
          saves := [value];
        }
      }
    }

    /** The input's `onKeyDown`, i.e. `handleKeyDown`. */
    method KeyDown(key: string) returns (saves: seq<CellValue>)
      modifies this
      ensures initialValue == old(initialValue)
      ensures Reaction(State(), saves) == Step(old(State()), kind, Event.KeyDown(key))
    {
      saves := [];
      if isEditing {
        if key == "Enter" && kind != TextArea {
          saves := Blur();
        }
        if key == "Escape" {
          value := initialValue;
          isEditing := false;
        }
      }
    }

    /** The effect on `[initialValue]`: a new prop value is copied into the local value. */
    method PropChange(p: CellValue)
      modifies this
      ensures initialValue == p
      ensures isEditing == old(isEditing)
      ensures value == if p != old(initialValue) then p else old(value)
      ensures State() == Step(old(State()), kind, Event.PropChange(p)).next
    {
      if p != initialValue {
        initialValue := p;
        value := p;
      }
    }
  }
}
