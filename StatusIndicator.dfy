/**
 * The five action statuses and the two click handlers that cycle through them:
 * `StatusIndicator` (guarded by `readonly` and an optional `onChange`) and
 * `StatusToggle` (guarded by `readonly` only). Each component carries its own
 * lookup table; both are modelled, and shown to be the same function.
 */
module StatusIndicator {
  import opened JsBuiltins

  datatype Status = NotStarted | InProgress | NearlyDone | Completed | Cancelled

  /** The `StatusType` string literal of a status. */
  function Name(s: Status): (n: string)
    ensures n != []
    ensures '_' in n <==> s in {NotStarted, InProgress, NearlyDone}
  {
    match s
    case NotStarted => "not_started"
    case InProgress => "in_progress"
    case NearlyDone => "nearly_done"
    case Completed => "completed"
    case Cancelled => "cancelled"
  }

  /** Different statuses have different literals. */
  lemma NameInjective(a: Status, b: Status)
    ensures Name(a) == Name(b) <==> a == b
  {
  }

  /** Position of a status in the declared order of `StatusType`. */
  function Position(s: Status): (p: nat)
    ensures p < 5
  {
    match s
    case NotStarted => 0
    case InProgress => 1
    case NearlyDone => 2
    case Completed => 3
    case Cancelled => 4
  }

  /** The `cycle` record in `StatusIndicator.handleClick`. */
  const CycleTable: map<Status, Status> := map[
    NotStarted := InProgress,
    InProgress := NearlyDone,
    NearlyDone := Completed,
    Completed := Cancelled,
    Cancelled := NotStarted
  ]

  /** The `nextStatus` record in `StatusToggle`. */
  const NextStatusTable: map<Status, Status> := map[
    NotStarted := InProgress,
    InProgress := NearlyDone,
    NearlyDone := Completed,
    Completed := Cancelled,
    Cancelled := NotStarted
  ]

  /** Both tables are total on the five statuses. */
  lemma TablesTotal(s: Status)
    ensures s in CycleTable && s in NextStatusTable
  {
  }

  /** The two tables are the same function. */
  lemma TablesAgree()
    ensures CycleTable == NextStatusTable
  {
  }

  /** `cycle[status]`: the successor in the declared order, wrapping from the last to the first. */
  function Cycle(s: Status): (r: Status)
    ensures Position(r) == (Position(s) + 1) % 5
    ensures r != s
  {
    TablesTotal(s);
    CycleTable[s]
  }

  /** `nextStatus[status]`. */
  function NextStatus(s: Status): (r: Status)
    ensures r == Cycle(s)
    ensures Position(r) == (Position(s) + 1) % 5
  {
    TablesTotal(s);
    NextStatusTable[s]
  }

  /** The status reached after `n` clicks. */
  function Iterate(s: Status, n: nat): Status
    decreases n
  {
    if n == 0 then s else Iterate(Cycle(s), n - 1)
  }

  /** `n` clicks advance the position by `n`, modulo 5. */
  lemma {:induction false} IterateShifts(s: Status, n: nat)
    ensures Position(Iterate(s, n)) == (Position(s) + n) % 5
    decreases n
  {
    if n > 0 {
      IterateShifts(Cycle(s), n - 1);
    }
  }

  lemma PositionInjective(a: Status, b: Status)
    ensures Position(a) == Position(b) ==> a == b
  {
  }

  /** The cycle has period exactly 5: five clicks return every status to itself
      and no smaller positive number of clicks does. */
  lemma {:induction false} CyclePeriodFive(s: Status, k: nat)
    ensures Iterate(s, 5) == s
    ensures 0 < k < 5 ==> Iterate(s, k) != s
  {
    IterateShifts(s, 5);
    PositionInjective(Iterate(s, 5), s);
    IterateShifts(s, k);
  }

  /** `StatusIndicator.handleClick`: the `onChange` calls it makes.
      `hasOnChange` says whether the optional callback was supplied;
      `readonly` defaults to false in the component. */
  function IndicatorClick(status: Status, readonly: bool, hasOnChange: bool): (calls: seq<Status>)
    ensures |calls| <= 1
    ensures calls == [] <==> readonly || !hasOnChange
    ensures forall k :: 0 <= k < |calls| ==> calls[k] == NextStatus(status)
  {
    if readonly || !hasOnChange then [] else [Cycle(status)]
  }

  /** `StatusToggle`'s click: `!readonly && onToggle(nextStatus[status])`;
      an omitted `readonly` is undefined, i.e. false. */
  function ToggleClick(status: Status, readonly: bool): (calls: seq<Status>)
    ensures |calls| <= 1
    ensures calls != [] <==> !readonly
    ensures forall k :: 0 <= k < |calls| ==> calls[k] == Cycle(status)
  {
    if !readonly then [NextStatus(status)] else []
  }

  /** With the same flags, both components emit the same status. */
  lemma {:induction false} ClicksAgree(status: Status, readonly: bool)
    ensures IndicatorClick(status, readonly, true) == ToggleClick(status, readonly)
  {
    assert NextStatus(status) == Cycle(status);
  }

  /** The indicator's `title`: the status literal with its first `_` replaced by a space. */
  function IndicatorTitle(s: Status): (title: string)
    ensures |title| == |Name(s)|
    ensures '_' !in Name(s) ==> title == Name(s)
  {
    ReplaceFirst(Name(s), '_', ' ')
  }

  /** The titles the indicator shows: every status literal has at most one
      underscore, so each title reads as words separated by a space. */
  lemma IndicatorTitles(s: Status)
    ensures IndicatorTitle(s) == match s
      case NotStarted => "not started"
      case InProgress => "in progress"
      case NearlyDone => "nearly done"
      case Completed => "completed"
      case Cancelled => "cancelled"
  {
    var n := Name(s);
    match s
    case NotStarted =>
      IndexOfAt(n, '_', 3);
      assert n[3 := ' '] == "not started";
    case InProgress =>
      IndexOfAt(n, '_', 2);
      assert n[2 := ' '] == "in progress";
    case NearlyDone =>
      IndexOfAt(n, '_', 6);
      assert n[6 := ' '] == "nearly done";
    case Completed =>
      assert forall i :: 0 <= i < |n| ==> n[i] != '_';
    case Cancelled =>
      assert forall i :: 0 <= i < |n| ==> n[i] != '_';
  }

  /** The toggle's `title`. */
  function ToggleTitle(s: Status): (title: string)
    ensures title == "Cancelled" <==> s == Cancelled
    ensures s != Cancelled ==> title == "Click to change status"
  {
    if s == Cancelled then "Cancelled" else "Click to change status"
  }
}
