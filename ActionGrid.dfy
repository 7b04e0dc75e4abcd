/**
 * The action-plan table (`ActionPlanGrid`): an in-memory list of action rows
 * with a search box and two dropdown filters, fixed-size pagination, edits by
 * row id, a "new action" button that prepends a row, and a save step that
 * clears the `isNew` marks and the unsaved-changes flag.
 *
 * The filter, the page window and the row transformations are functions on
 * values; the component's state (`data`, `hasUnsavedChanges`, the search term,
 * the two filters and `currentPage`) lives in the class `ActionPlanGrid`,
 * whose methods are the event handlers.
 */
module ActionGrid {
  import opened JsBuiltins
  import opened StatusIndicator

  /** One action row. `plannerLevel` and `isNew` are optional properties:
      `None` stands for a property the object does not have. */
  datatype Row = Row(
    id: string,
    process: string,
    teamLeader: string,
    planner: string,
    plannerLevel: Option<string>,
    supplier: string,
    pnOrReason: string,
    currentIndex: string,
    history: string,
    finalIndex: string,
    startDate: string,
    endDate: string,
    status: Status,
    observation: string,
    isNew: Option<bool>)

  datatype TextField =
    | Id | Process | TeamLeader | Planner | PlannerLevel | Supplier | PnOrReason
    | CurrentIndex | History | FinalIndex | StartDate | EndDate | Observation

  /** A key of `ActionRow`. */
  datatype Field = Text(name: TextField) | StatusField | IsNewField

  /** The value a row holds under a key; `Missing` for an absent optional property. */
  datatype Value = TextValue(text: string) | StatusValue(status: Status) | FlagValue(flag: bool) | Missing

  function Get(r: Row, f: Field): Value
  {
    match f
    case StatusField => StatusValue(r.status)
    case IsNewField => if r.isNew.Some? then FlagValue(r.isNew.value) else Missing
    case Text(t) =>
      match t
      case Id => TextValue(r.id)
      case Process => TextValue(r.process)
      case TeamLeader => TextValue(r.teamLeader)
      case Planner => TextValue(r.planner)
      case PlannerLevel => if r.plannerLevel.Some? then TextValue(r.plannerLevel.value) else Missing
      case Supplier => TextValue(r.supplier)
      case PnOrReason => TextValue(r.pnOrReason)
      case CurrentIndex => TextValue(r.currentIndex)
      case History => TextValue(r.history)
      case FinalIndex => TextValue(r.finalIndex)
      case StartDate => TextValue(r.startDate)
      case EndDate => TextValue(r.endDate)
      case Observation => TextValue(r.observation)
  }

  /** The `(field, value)` pair given to `handleUpdate`, typed by the field it sets. */
  datatype Edit = SetText(field: TextField, text: string) | SetStatus(status: Status) | SetIsNew(flag: bool)

  function EditedField(e: Edit): Field
  {
    match e
    case SetText(t, _) => Text(t)
    case SetStatus(_) => StatusField
    case SetIsNew(_) => IsNewField
  }

  function EditedValue(e: Edit): Value
  {
    match e
    case SetText(_, s) => TextValue(s)
    case SetStatus(s) => StatusValue(s)
    case SetIsNew(b) => FlagValue(b)
  }

  /** `{ ...row, [field]: value }`: the edited key takes the new value, every other key keeps its own. */
  function SetField(r: Row, e: Edit): (r': Row)
    ensures Get(r', EditedField(e)) == EditedValue(e)
    ensures forall f :: f != EditedField(e) ==> Get(r', f) == Get(r, f)
  {
    match e
    case SetStatus(s) => r.(status := s)
    case SetIsNew(b) => r.(isNew := Some(b))
    case SetText(t, s) =>
      match t
      case Id => r.(id := s)
      case Process => r.(process := s)
      case TeamLeader => r.(teamLeader := s)
      case Planner => r.(planner := s)
      case PlannerLevel => r.(plannerLevel := Some(s))
      case Supplier => r.(supplier := s)
      case PnOrReason => r.(pnOrReason := s)
      case CurrentIndex => r.(currentIndex := s)
      case History => r.(history := s)
      case FinalIndex => r.(finalIndex := s)
      case StartDate => r.(startDate := s)
      case EndDate => r.(endDate := s)
      case Observation => r.(observation := s)
  }

  // ---------------------------------------------------------------------------
  // Search and filters

  /** The keys `Object.values` visits: every key of the row in declaration
      order, the optional `plannerLevel` and `isNew` only when present. */
  function PresentFields(r: Row): (fs: seq<Field>)
    ensures forall i :: 0 <= i < |fs| ==> Get(r, fs[i]) != Missing
    ensures forall f :: f in fs <==> Get(r, f) != Missing
  {
    [Text(Id), Text(Process), Text(TeamLeader), Text(Planner)]
    + (if r.plannerLevel.Some? then [Text(PlannerLevel)] else [])
    + [Text(Supplier), Text(PnOrReason), Text(CurrentIndex), Text(History), Text(FinalIndex),
       Text(StartDate), Text(EndDate), StatusField, Text(Observation)]
    + (if r.isNew.Some? then [IsNewField] else [])
  }

  /** `String(val)` of a property value. */
  function ValueString(v: Value): string
  {
    match v
    case TextValue(t) => t
    case StatusValue(st) => Name(st)
    case FlagValue(b) => if b then "true" else "false"
    case Missing => "undefined"
  }

  /** `Object.values(row).map(String)`: the string of each property the row
      has, key by key. */
  function SearchValues(r: Row): (vs: seq<string>)
    ensures 13 <= |vs| <= 15
    ensures forall f :: Get(r, f).TextValue? ==> Get(r, f).text in vs
    ensures Name(r.status) in vs
    ensures r.isNew.Some? ==> (if r.isNew.value then "true" else "false") in vs
  {
    var fs := PresentFields(r);
    var vs := seq(|fs|, i requires 0 <= i < |fs| => ValueString(Get(r, fs[i])));
    assert forall f :: f in fs ==> ValueString(Get(r, f)) in vs by {
      forall f | f in fs
        ensures ValueString(Get(r, f)) in vs
      {
        var i :| 0 <= i < |fs| && fs[i] == f;
        assert vs[i] == ValueString(Get(r, f));
      }
    }
    assert StatusField in fs;
    assert r.isNew.Some? ==> IsNewField in fs;
    vs
  }

  /** The searched strings are the strings of the row's present properties and
      nothing else: `id` and a present `isNew` included, an absent key excluded. */
  lemma SearchValuesExactly(r: Row)
    ensures forall v :: v in SearchValues(r) <==> exists f :: Get(r, f) != Missing && v == ValueString(Get(r, f))
  {
    var fs, vs := PresentFields(r), SearchValues(r);
    forall f | Get(r, f) != Missing
      ensures ValueString(Get(r, f)) in vs
    {
      var i :| 0 <= i < |fs| && fs[i] == f;
      assert vs[i] == ValueString(Get(r, f));
    }
    forall v | v in vs
      ensures exists f :: Get(r, f) != Missing && v == ValueString(Get(r, f))
    {
      var i :| 0 <= i < |vs| && vs[i] == v;
      assert Get(r, fs[i]) != Missing;
    }
  }

  /** The search and dropdown state that `filteredData` depends on. */
  datatype Query = Query(searchTerm: string, filterProcess: string, filterTL: string)

  const AllRows := Query("", "All", "All")

  /** `values.some(val => val.toLowerCase().includes(term))`, scanning from the front. */
  predicate SomeIncludes(values: seq<string>, term: string)
  {
    values != [] && (Includes(ToLowerCase(values[0]), term) || SomeIncludes(values[1..], term))
  }

  /** `some` holds exactly when one of the values, lower-cased, includes the term. */
  lemma {:induction false} SomeIncludesIff(values: seq<string>, term: string)
    ensures SomeIncludes(values, term) <==> exists v :: v in values && Includes(ToLowerCase(v), term)
  {
    if values != [] {
      SomeIncludesIff(values[1..], term);
      assert forall v :: v in values <==> v == values[0] || v in values[1..];
    }
  }

  /** `matchesSearch`: some property value, lower-cased, includes the lower-cased term. */
  function MatchesSearch(r: Row, term: string): (b: bool)
    ensures b <==> exists v :: v in SearchValues(r) && Includes(ToLowerCase(v), ToLowerCase(term))
  {
    SomeIncludesIff(SearchValues(r), ToLowerCase(term));
    SomeIncludes(SearchValues(r), ToLowerCase(term))
  }

  /** The predicate given to `data.filter`. */
  function Matches(r: Row, q: Query): (b: bool)
    ensures q.searchTerm == "" ==>
      (b <==> (q.filterProcess == "All" || r.process == q.filterProcess) && (q.filterTL == "All" || r.teamLeader == q.filterTL))
    ensures q.filterProcess == "All" && q.filterTL == "All" ==> (b <==> MatchesSearch(r, q.searchTerm))
  {
    EmptySearchMatches(r);
    && MatchesSearch(r, q.searchTerm)
    && (q.filterProcess == "All" || r.process == q.filterProcess)
    && (q.filterTL == "All" || r.teamLeader == q.filterTL)
  }

  /** An empty search term matches every row. */
  lemma {:induction false} EmptySearchMatches(r: Row)
    ensures MatchesSearch(r, "")
  {
    assert ToLowerCase("") == "";
    IncludesEmpty(ToLowerCase(r.id));
  }

  /** The search ignores the case of the term. */
  lemma {:induction false} SearchIgnoresCase(r: Row, term: string)
    ensures MatchesSearch(r, term) <==> MatchesSearch(r, ToLowerCase(term))
  {
    ToLowerCaseIdempotent(term);
  }

  /** Every property is searched, `id` and a present `isNew` included: a term
      found in any of them finds the row. */
  lemma {:induction false} SearchFindsEveryValue(r: Row, v: string, term: string)
    requires v in SearchValues(r)
    requires Includes(ToLowerCase(v), ToLowerCase(term))
    ensures MatchesSearch(r, term)
  {
    SomeIncludesIff(SearchValues(r), ToLowerCase(term));
  }

  /** `data.filter(...)`, element by element from the front. */
  function FilterRows(rows: seq<Row>, q: Query): (r: seq<Row>)
    ensures |r| <= |rows|
    ensures forall k :: 0 <= k < |r| ==> Matches(r[k], q)
    ensures forall x :: x in r <==> x in rows && Matches(x, q)
  {
    if rows == [] then []
    else (if Matches(rows[0], q) then [rows[0]] else []) + FilterRows(rows[1..], q)
  }

  /** `idx` lists, in increasing order, positions of `b` whose elements spell out `a`. */
  ghost predicate Embedding(a: seq<Row>, b: seq<Row>, idx: seq<nat>)
  {
    && |idx| == |a|
    && (forall k :: 0 <= k < |idx| ==> idx[k] < |b| && a[k] == b[idx[k]])
    && (forall k, l :: 0 <= k < l < |idx| ==> idx[k] < idx[l])
  }

  ghost predicate IsSubsequence(a: seq<Row>, b: seq<Row>)
  {
    exists idx :: Embedding(a, b, idx)
  }

  function Shift(t: seq<nat>): (u: seq<nat>)
    ensures |u| == |t|
    ensures forall k :: 0 <= k < |t| ==> u[k] == t[k] + 1
  {
    seq(|t|, k requires 0 <= k < |t| => t[k] + 1)
  }

  /** An embedding into the tail of `b` is an embedding into `b`, one position further. */
  lemma ShiftEmbedding(a: seq<Row>, b: seq<Row>, t: seq<nat>)
    requires b != [] && Embedding(a, b[1..], t)
    ensures Embedding(a, b, Shift(t))
    ensures Embedding([b[0]] + a, b, [0] + Shift(t))
  {
    var u := Shift(t);
    assert forall k :: 0 <= k < |u| ==> b[u[k]] == b[1..][t[k]];
    var a', u' := [b[0]] + a, [0] + u;
    forall k | 0 <= k < |u'|
      ensures u'[k] < |b| && a'[k] == b[u'[k]]
    {
      if k > 0 {
        assert u'[k] == u[k - 1] && a'[k] == a[k - 1];
      }
    }
  }

  lemma ShiftMembers(t: seq<nat>)
    ensures 0 !in Shift(t)
    ensures forall i :: i in Shift(t) <==> i >= 1 && i - 1 in t
  {
    forall i | i >= 1 && i - 1 in t
      ensures i in Shift(t)
    {
      var k :| 0 <= k < |t| && t[k] == i - 1;
      assert Shift(t)[k] == i;
    }
  }

  /** The positions kept by the filter: exactly the matching ones, in order. */
  lemma {:induction false} FilterPositions(rows: seq<Row>, q: Query) returns (idx: seq<nat>)
    ensures Embedding(FilterRows(rows, q), rows, idx)
    ensures forall i :: 0 <= i < |rows| ==> (i in idx <==> Matches(rows[i], q))
  {
    if rows == [] {
      idx := [];
    } else {
      var t := FilterPositions(rows[1..], q);
      var rest := FilterRows(rows[1..], q);
      ShiftEmbedding(rest, rows, t);
      ShiftMembers(t);
      var shifted := Shift(t);
      if Matches(rows[0], q) {
        assert FilterRows(rows, q) == [rows[0]] + rest;
        idx := [0] + shifted;
      } else {
        assert FilterRows(rows, q) == rest;
        idx := shifted;
      }
      forall i | 1 <= i < |rows|
        ensures i in idx <==> Matches(rows[i], q)
      {
        assert rows[1..][i - 1] == rows[i];
      }
    }
  }

  /** The filtered list is a subsequence of `data`: same relative order. */
  lemma {:induction false} FilterIsSubsequence(rows: seq<Row>, q: Query)
    ensures IsSubsequence(FilterRows(rows, q), rows)
  {
    var idx := FilterPositions(rows, q);
  }

  /** When every row matches, the filter returns `data` itself. */
  lemma {:induction false} FilterKeepsAllWhenAllMatch(rows: seq<Row>, q: Query)
    requires forall i :: 0 <= i < |rows| ==> Matches(rows[i], q)
    ensures FilterRows(rows, q) == rows
  {
    if rows != [] {
      FilterKeepsAllWhenAllMatch(rows[1..], q);
    }
  }

  /** With an empty search and both dropdowns on "All", the filtered list equals `data`. */
  lemma {:induction false} EmptyQueryKeepsAll(rows: seq<Row>)
    ensures FilterRows(rows, AllRows) == rows
  {
    forall i | 0 <= i < |rows|
      ensures Matches(rows[i], AllRows)
    {
      EmptySearchMatches(rows[i]);
    }
    FilterKeepsAllWhenAllMatch(rows, AllRows);
  }

  /** Filtering distributes over concatenation. */
  lemma {:induction false} FilterAppend(a: seq<Row>, b: seq<Row>, q: Query)
    ensures FilterRows(a + b, q) == FilterRows(a, q) + FilterRows(b, q)
  {
    if a == [] {
      assert a + b == b;
    } else {
      assert (a + b)[1..] == a[1..] + b;
      FilterAppend(a[1..], b, q);
    }
  }

  // ---------------------------------------------------------------------------
  // Pagination

  const ItemsPerPage: nat := 15

  /** `filteredData.slice((currentPage - 1) * itemsPerPage, currentPage * itemsPerPage)`. */
  function PageRows(filtered: seq<Row>, page: int): (r: seq<Row>)
    ensures |r| <= ItemsPerPage
  {
    Slice(filtered, (page - 1) * ItemsPerPage, page * ItemsPerPage)
  }

  /** For a page number of at least 1 the page is exactly the window
      [(page-1)*15, page*15) of the filtered list, cut at its end. */
  lemma PageIsWindow(filtered: seq<Row>, page: int)
    requires page >= 1
    ensures |PageRows(filtered, page)| == Min(page * ItemsPerPage, |filtered|) - Min((page - 1) * ItemsPerPage, |filtered|)
    ensures forall k :: 0 <= k < |PageRows(filtered, page)| ==>
      PageRows(filtered, page)[k] == filtered[(page - 1) * ItemsPerPage + k]
  {
  }

  /** The lower bound of "Showing x–y of n". */
  function ShowingFrom(page: int): (from: int)
    ensures page >= 1 ==> from >= 1 && (from - 1) % ItemsPerPage == 0
  {
    (page - 1) * ItemsPerPage + 1
  }

  /** The upper bound of "Showing x–y of n". */
  function ShowingTo(page: int, n: nat): (to: int)
    ensures to <= n
    ensures page >= 1 ==> to - ShowingFrom(page) < ItemsPerPage
  {
    Min(page * ItemsPerPage, n)
  }

  /** The label counts the rows on the page: x..y are their 1-based positions in
      the filtered list when the page has rows; otherwise x > y (so an empty
      result reads "Showing 1–0 of 0"). */
  lemma ShowingCountsPage(filtered: seq<Row>, page: int)
    requires page >= 1
    ensures var from, to := ShowingFrom(page), ShowingTo(page, |filtered|);
      |PageRows(filtered, page)| == if from <= to then to - from + 1 else 0
  {
  }

  /** "Previous" is disabled on page 1. */
  function PreviousDisabled(page: int): (b: bool)
    ensures page >= 1 ==> (b <==> ShowingFrom(page) == 1)
  {
    page == 1
  }

  /** "Next" is disabled once this page reaches the end of the filtered list. */
  function NextDisabled(page: int, n: nat): (b: bool)
    ensures b <==> ShowingTo(page, n) == n
  {
    page * ItemsPerPage >= n
  }

  /** "Next" is enabled exactly when the following page has rows. */
  lemma NextEnabledIffNextPageHasRows(filtered: seq<Row>, page: int)
    requires page >= 1
    ensures !NextDisabled(page, |filtered|) <==> |PageRows(filtered, page + 1)| > 0
  {
  }

  /** The page is within range: page 1, or a page that has rows. */
  predicate PageInRange(page: int, n: nat)
  {
    page == 1 || (page - 1) * ItemsPerPage < n
  }

  // ---------------------------------------------------------------------------
  // Row transformations

  /** `prev.map(row => row.id === id ? { ...row, [field]: value } : row)`. */
  function UpdateRows(rows: seq<Row>, id: string, e: Edit): (r: seq<Row>)
    ensures |r| == |rows|
    ensures forall i :: 0 <= i < |rows| && rows[i].id != id ==> r[i] == rows[i]
    ensures forall i :: 0 <= i < |rows| && rows[i].id == id ==> Get(r[i], EditedField(e)) == EditedValue(e)
    ensures forall i, f :: 0 <= i < |rows| && f != EditedField(e) ==> Get(r[i], f) == Get(rows[i], f)
  {
    if rows == [] then []
    else [if rows[0].id == id then SetField(rows[0], e) else rows[0]] + UpdateRows(rows[1..], id, e)
  }

  /** `prev.map(r => ({ ...r, isNew: false }))`. */
  function SaveRows(rows: seq<Row>): (r: seq<Row>)
    ensures |r| == |rows|
    ensures forall i :: 0 <= i < |r| ==> r[i].isNew == Some(false)
    ensures forall i, f :: 0 <= i < |rows| && f != IsNewField ==> Get(r[i], f) == Get(rows[i], f)
  {
    if rows == [] then []
    else [rows[0].(isNew := Some(false))] + SaveRows(rows[1..])
  }

  /** Saving twice is saving once. */
  lemma {:induction false} SaveIdempotent(rows: seq<Row>)
    ensures SaveRows(SaveRows(rows)) == SaveRows(rows)
  {
    if rows != [] {
      SaveIdempotent(rows[1..]);
      assert SaveRows(rows)[1..] == SaveRows(rows[1..]);
    }
  }

  /** After a save every row carries `isNew: false`, so the search term "false"
      finds every row. */
  lemma {:induction false} SavedRowsMatchFalse(rows: seq<Row>)
    ensures forall r :: r in SaveRows(rows) ==> MatchesSearch(r, "false")
  {
    var saved := SaveRows(rows);
    forall r | r in saved
      ensures MatchesSearch(r, "false")
    {
      var i :| 0 <= i < |saved| && saved[i] == r;
      SavedRowMatchesFalse(r);
    }
  }

  /** A row whose `isNew` is false is found by the term "false". */
  lemma SavedRowMatchesFalse(r: Row)
    requires r.isNew == Some(false)
    ensures MatchesSearch(r, "false")
  {
    var v := "false";
    assert v in SearchValues(r);
    assert ToLowerCase(v) == v;
    assert Includes(v, v);
    SearchFindsEveryValue(r, v, v);
  }

  /** The row `handleAddRow` builds, with the random id and today's date as parameters. */
  function NewRow(id: string, today: string): (r: Row)
    ensures r.id == id && r.startDate == today
    ensures r.status == NotStarted && r.isNew == Some(true)
    ensures Matches(r, AllRows)
  {
    Row(id, "OTIF", "-", "-", Some("JUNIOR"), "", "", "-", "", "", today, "", NotStarted, "", Some(true))
  }

  /** A prepended row that passes the filter heads the filtered list;
      one that does not pass it leaves the filtered list as it was. */
  lemma {:induction false} PrependedRowFilter(n: Row, rows: seq<Row>, q: Query)
    ensures FilterRows([n] + rows, q) == (if Matches(n, q) then [n] else []) + FilterRows(rows, q)
  {
    assert ([n] + rows)[1..] == rows;
  }

  /** With the default query the new row is the first row of page 1. */
  lemma {:induction false} NewRowLeadsFirstPage(id: string, today: string, rows: seq<Row>)
    ensures var p := PageRows(FilterRows([NewRow(id, today)] + rows, AllRows), 1);
      |p| > 0 && p[0] == NewRow(id, today)
  {
    EmptyQueryKeepsAll([NewRow(id, today)] + rows);
  }

  /** `INITIAL_DATA`. */
  const InitialData: seq<Row> := [
    Row("1", "OTIF", "Wilson Silva", "Henrique Fernando", Some("PLENO"), "Romi", "-", "R$ 2M",
        "Descrever ações", "1.3M", "2026-01-15", "", NotStarted, "Adicionar nota...", None),
    Row("2", "OTIF", "Carlos Mendes", "Thales Fazzini", Some("SENIOR"), "Tech", "Late", "92%",
        "Meeting scheduled", "", "2026-01-10", "2026-01-20", InProgress, "", None),
    Row("3", "Inconsistências NF", "Leopoldo Garcez", "Priscilla de Padilla", Some("PLENO"), "LogiTrans",
        "Doc Error", "15", "Correção solicitada", "0", "2026-01-05", "2026-01-08", Completed, "Resolvido", None),
    Row("4", "Inventário S&OP", "Lucas Cerqueira", "Marcio Donizeti", Some("JUNIOR"), "-", "Review", "98%",
        "Analysis pending", "", "", "", NearlyDone, "", None),
    Row("5", "Atrasos", "Wilson Silva", "Michel Robson", Some("SENIOR"), "Bolt Co.", "Production", "5 days",
        "Expediting", "2 days", "2026-01-12", "", InProgress, "Urgent", None)
  ]

  /** The initial rows carry the ids "1" to "5" in order, each with a planner
      level, and none is flagged new. */
  lemma InitialDataRows()
    ensures |InitialData| == 5
    ensures forall i :: 0 <= i < 5 ==> InitialData[i].id == [('1' as int + i) as char]
    ensures forall i :: 0 <= i < 5 ==> InitialData[i].isNew.None? && InitialData[i].plannerLevel.Some?
  {
  }

  // ---------------------------------------------------------------------------
  // The component state

  class ActionPlanGrid {
    var data: seq<Row>
    var hasUnsavedChanges: bool
    var searchTerm: string
    var filterProcess: string
    var filterTL: string
    var currentPage: int

    ghost predicate Valid()
      reads this
    {
      currentPage >= 1
    }

    function CurrentQuery(): Query
      reads this
    {
      Query(searchTerm, filterProcess, filterTL)
    }

    /** `filteredData`. */
    function FilteredData(): (r: seq<Row>)
      reads this
      ensures |r| <= |data|
      ensures forall x :: x in r <==> x in data && Matches(x, CurrentQuery())
      ensures searchTerm == "" && filterProcess == "All" && filterTL == "All" ==> r == data
    {
      EmptyQueryKeepsAll(data);
      FilterRows(data, CurrentQuery())
    }

    /** `paginatedData`. */
    function PaginatedData(): (r: seq<Row>)
      reads this
      ensures |r| <= ItemsPerPage
      ensures currentPage >= 1 ==> forall k :: 0 <= k < |r| ==>
        var i := (currentPage - 1) * ItemsPerPage + k;
        i < |FilteredData()| && r[k] == FilteredData()[i]
    {
      PageRows(FilteredData(), currentPage)
    }

    constructor ()
      ensures Valid()
      ensures data == InitialData && !hasUnsavedChanges
      ensures searchTerm == "" && filterProcess == "All" && filterTL == "All"
      ensures currentPage == 1
    {
      data := InitialData;
      hasUnsavedChanges := false;
      searchTerm := "";
      filterProcess := "All";
      filterTL := "All";
      currentPage := 1;
    }

    /** Typing in the search box; the page number is left as it is. */
    method SetSearchTerm(term: string)
      requires Valid()
      modifies this
      ensures Valid()
      ensures searchTerm == term
      ensures data == old(data) && hasUnsavedChanges == old(hasUnsavedChanges)
      ensures filterProcess == old(filterProcess) && filterTL == old(filterTL)
      ensures currentPage == old(currentPage)
    {
      searchTerm := term;
    }

    /** Choosing a process in the dropdown; the page number is left as it is. */
    method SetFilterProcess(process: string)
      requires Valid()
      modifies this
      ensures Valid()
      ensures filterProcess == process
      ensures data == old(data) && hasUnsavedChanges == old(hasUnsavedChanges)
      ensures searchTerm == old(searchTerm) && filterTL == old(filterTL)
      ensures currentPage == old(currentPage)
    {
      filterProcess := process;
    }

    /** Choosing a team leader in the dropdown; the page number is left as it is. */
    method SetFilterTL(teamLeader: string)
      requires Valid()
      modifies this
      ensures Valid()
      ensures filterTL == teamLeader
      ensures data == old(data) && hasUnsavedChanges == old(hasUnsavedChanges)
      ensures searchTerm == old(searchTerm) && filterProcess == old(filterProcess)
      ensures currentPage == old(currentPage)
    {
      filterTL := teamLeader;
    }

    /** `handleUpdate(id, field, value)`. */
    method HandleUpdate(id: string, e: Edit)
      requires Valid()
      modifies this
      ensures Valid()
      ensures data == UpdateRows(old(data), id, e)
      ensures |data| == |old(data)|
      ensures hasUnsavedChanges
      ensures searchTerm == old(searchTerm) && filterProcess == old(filterProcess) && filterTL == old(filterTL)
      ensures currentPage == old(currentPage)
    {
      data := UpdateRows(data, id, e);
      hasUnsavedChanges := true;
    }

    /** `handleAddRow`, with the generated id and today's date as parameters. */
    method HandleAddRow(newId: string, today: string)
      requires Valid()
      modifies this
      ensures Valid()
      ensures |data| == |old(data)| + 1
      ensures data[0] == NewRow(newId, today) && data[1..] == old(data)
      ensures data[0].id == newId && data[0].startDate == today
      ensures data[0].status == NotStarted && data[0].process == "OTIF"
      ensures data[0].plannerLevel == Some("JUNIOR") && data[0].isNew == Some(true)
      ensures hasUnsavedChanges
      ensures searchTerm == old(searchTerm) && filterProcess == old(filterProcess) && filterTL == old(filterTL)
      ensures currentPage == old(currentPage)
    {
      data := [NewRow(newId, today)] + data;
      hasUnsavedChanges := true;
    }

    /** `handleSave`, taken as the one atomic step its timer runs. */
    method HandleSave()
      requires Valid()
      modifies this
      ensures Valid()
      ensures data == SaveRows(old(data))
      ensures !hasUnsavedChanges
      ensures searchTerm == old(searchTerm) && filterProcess == old(filterProcess) && filterTL == old(filterTL)
      ensures currentPage == old(currentPage)
    {
      hasUnsavedChanges := false;
      data := SaveRows(data);
    }

    /** The "Previous" button: its click only reaches the handler when it is enabled. */
    method PreviousPage()
      requires Valid()
      modifies this
      ensures Valid()
      ensures currentPage == if PreviousDisabled(old(currentPage)) then old(currentPage) else old(currentPage) - 1
      ensures data == old(data) && hasUnsavedChanges == old(hasUnsavedChanges)
      ensures searchTerm == old(searchTerm) && filterProcess == old(filterProcess) && filterTL == old(filterTL)
      ensures old(PageInRange(currentPage, |FilteredData()|)) ==> PageInRange(currentPage, |FilteredData()|)
    {
      if !PreviousDisabled(currentPage) {
        currentPage := currentPage - 1;
      }
    }

    /** The "Next" button: its click only reaches the handler when it is enabled,
        and then the new page has rows. */
    method NextPage()
      requires Valid()
      modifies this
      ensures Valid()
      ensures currentPage == if NextDisabled(old(currentPage), |FilteredData()|) then old(currentPage) else old(currentPage) + 1
      ensures data == old(data) && hasUnsavedChanges == old(hasUnsavedChanges)
      ensures searchTerm == old(searchTerm) && filterProcess == old(filterProcess) && filterTL == old(filterTL)
      ensures currentPage != old(currentPage) ==> |PaginatedData()| > 0
      ensures old(PageInRange(currentPage, |FilteredData()|)) ==> PageInRange(currentPage, |FilteredData()|)
    {
      if !NextDisabled(currentPage, |FilteredData()|) {
        NextEnabledIffNextPageHasRows(FilteredData(), currentPage);
        currentPage := currentPage + 1;
      }
    }
  }
}
