/**
 * The planner status grid: a table of planners that sorts on the column whose
 * header was clicked (ascending first, descending on a second click), shows
 * each planner's initials, highlights three thresholds, and sums two columns
 * in its footer.
 *
 * `[...data].sort(comparator)` is modelled by an insertion sort on the copy;
 * `SortBy` is proved to return a permutation of the rows in comparator order.
 */
module PlannerGrid {
  import opened JsBuiltins

  datatype Level = Senior | Pleno | Junior

  /** `PlannerStatusData`. */
  datatype Planner = Planner(
    id: string,
    plannerName: string,
    plannerAvatar: Option<string>,
    plannerLevel: Level,
    teamLeader: string,
    qtySuppliers: int,
    suppliersOtifLow: int,
    inconsistencies: int,
    shortages: int,
    linesDelayed: int,
    leftoversValue: int,
    opportunityValue: int
  )

  /** The nine sortable column headers. */
  datatype SortKey =
    | PlannerName | TeamLeader | QtySuppliers | SuppliersOtifLow | Inconsistencies
    | Shortages | LinesDelayed | LeftoversValue | OpportunityValue

  datatype Direction = Asc | Desc

  datatype SortConfig = SortConfig(key: SortKey, direction: Direction)

  datatype KeyValue = TextKey(s: string) | NumberKey(n: int)

  predicate IsTextKey(k: SortKey)
  {
    k == PlannerName || k == TeamLeader
  }

  /** `row[key]`. */
  function KeyOf(p: Planner, k: SortKey): (v: KeyValue)
    ensures v.TextKey? <==> IsTextKey(k)
  {
    match k
    case PlannerName => TextKey(p.plannerName)
    case TeamLeader => TextKey(p.teamLeader)
    case QtySuppliers => NumberKey(p.qtySuppliers)
    case SuppliersOtifLow => NumberKey(p.suppliersOtifLow)
    case Inconsistencies => NumberKey(p.inconsistencies)
    case Shortages => NumberKey(p.shortages)
    case LinesDelayed => NumberKey(p.linesDelayed)
    case LeftoversValue => NumberKey(p.leftoversValue)
    case OpportunityValue => NumberKey(p.opportunityValue)
  }

  // ---------------------------------------------------------------------------
  // The relational operator `<`

  /** `<` on two strings: lexicographic on character codes, a proper prefix first. */
  predicate StrLess(a: string, b: string)
    decreases |a|
  {
    if a == [] then b != []
    else if b == [] then false
    else if a[0] != b[0] then a[0] < b[0]
    else StrLess(a[1..], b[1..])
  }

  lemma {:induction false} StrLessIrreflexive(a: string)
    ensures !StrLess(a, a)
    decreases |a|
  {
    if a != [] {
      StrLessIrreflexive(a[1..]);
    }
  }

  lemma {:induction false} StrLessAsymmetric(a: string, b: string)
    ensures StrLess(a, b) ==> !StrLess(b, a)
    decreases |a|
  {
    if a != [] && b != [] && a[0] == b[0] {
      StrLessAsymmetric(a[1..], b[1..]);
    }
  }

  lemma {:induction false} StrLessTransitive(a: string, b: string, c: string)
    ensures StrLess(a, b) && StrLess(b, c) ==> StrLess(a, c)
    decreases |a|
  {
    if a != [] && b != [] && c != [] && a[0] == b[0] && b[0] == c[0] {
      StrLessTransitive(a[1..], b[1..], c[1..]);
    }
  }

  lemma {:induction false} StrLessTotal(a: string, b: string)
    ensures a == b || StrLess(a, b) || StrLess(b, a)
    decreases |a|
  {
    if a != [] && b != [] && a[0] == b[0] {
      StrLessTotal(a[1..], b[1..]);
      if a[1..] == b[1..] {
        assert a == [a[0]] + a[1..] && b == [b[0]] + b[1..];
      }
    }
  }

  /** `<` between two values of the same column. */
  predicate KeyLess(x: KeyValue, y: KeyValue)
  {
    match (x, y)
    case (TextKey(a), TextKey(b)) => StrLess(a, b)
    case (NumberKey(a), NumberKey(b)) => a < b
    case _ => false
  }

  /** On the values of one column `<` is a strict total order. */
  lemma KeyLessOrder(x: KeyValue, y: KeyValue, z: KeyValue)
    requires x.TextKey? == y.TextKey? == z.TextKey?
    ensures !KeyLess(x, x)
    ensures KeyLess(x, y) ==> !KeyLess(y, x)
    ensures KeyLess(x, y) && KeyLess(y, z) ==> KeyLess(x, z)
    ensures x == y || KeyLess(x, y) || KeyLess(y, x)
  {
    if x.TextKey? {
      StrLessIrreflexive(x.s);
      StrLessAsymmetric(x.s, y.s);
      StrLessTransitive(x.s, y.s, z.s);
      StrLessTotal(x.s, y.s);
    }
  }

  // ---------------------------------------------------------------------------
  // The comparator

  /** The comparator passed to `sort`. */
  function Compare(a: Planner, b: Planner, cfg: Option<SortConfig>): (r: int)
    ensures -1 <= r <= 1
    ensures cfg.None? ==> r == 0
  {
    if cfg.None? then 0
    else
      var x := KeyOf(a, cfg.value.key);
      var y := KeyOf(b, cfg.value.key);
      if KeyLess(x, y) then (if cfg.value.direction == Asc then -1 else 1)
      else if KeyLess(y, x) then (if cfg.value.direction == Asc then 1 else -1)
      else 0
  }

  /** The descending comparator is the negated ascending one. */
  lemma DescNegatesAsc(a: Planner, b: Planner, k: SortKey)
    ensures Compare(a, b, Some(SortConfig(k, Desc))) == -Compare(a, b, Some(SortConfig(k, Asc)))
  {
  }

  /** Swapping the arguments negates the result, and equal keys compare as 0. */
  lemma CompareAntisymmetric(a: Planner, b: Planner, cfg: Option<SortConfig>)
    ensures Compare(a, b, cfg) == -Compare(b, a, cfg)
    ensures cfg.Some? && KeyOf(a, cfg.value.key) == KeyOf(b, cfg.value.key) ==> Compare(a, b, cfg) == 0
  {
    if cfg.Some? {
      var k := cfg.value.key;
      KeyLessOrder(KeyOf(a, k), KeyOf(b, k), KeyOf(a, k));
    }
  }

  /** `a` may stay before `b`. */
  predicate Le(a: Planner, b: Planner, cfg: Option<SortConfig>)
  {
    Compare(a, b, cfg) <= 0
  }

  /** `Le` is a total preorder, which makes the comparator consistent. */
  lemma LeTotalPreorder(a: Planner, b: Planner, c: Planner, cfg: Option<SortConfig>)
    ensures Le(a, b, cfg) || Le(b, a, cfg)
    ensures Le(a, b, cfg) && Le(b, c, cfg) ==> Le(a, c, cfg)
  {
    if cfg.Some? {
      var k := cfg.value.key;
      var x, y, z := KeyOf(a, k), KeyOf(b, k), KeyOf(c, k);
      KeyLessOrder(x, y, z);
      KeyLessOrder(y, z, x);
      KeyLessOrder(z, x, y);
      KeyLessOrder(x, z, y);
      KeyLessOrder(y, x, z);
      KeyLessOrder(z, y, x);
    }
  }

  // ---------------------------------------------------------------------------
  // Sorting

  predicate Sorted(s: seq<Planner>, cfg: Option<SortConfig>)
  {
    forall i, j :: 0 <= i < j < |s| ==> Le(s[i], s[j], cfg)
  }

  /** Puts `x`, which came before every element of `t`, in front of the first
      element it does not compare greater than. */
  function Insert(x: Planner, t: seq<Planner>, cfg: Option<SortConfig>): (r: seq<Planner>)
    ensures multiset(r) == multiset(t) + multiset{x}
    ensures |r| == |t| + 1
  {
    if t == [] || Compare(x, t[0], cfg) <= 0 then [x] + t
    else
      assert t == [t[0]] + t[1..];
      [t[0]] + Insert(x, t[1..], cfg)
  }

  /** `[...data].sort(comparator)`, as an insertion sort. */
  function SortBy(data: seq<Planner>, cfg: Option<SortConfig>): (r: seq<Planner>)
    ensures multiset(r) == multiset(data)
    ensures |r| == |data|
  {
    if data == [] then []
    else
      assert data == [data[0]] + data[1..];
      Insert(data[0], SortBy(data[1..], cfg), cfg)
  }

  lemma {:induction false} InsertSorted(x: Planner, t: seq<Planner>, cfg: Option<SortConfig>)
    requires Sorted(t, cfg)
    ensures Sorted(Insert(x, t, cfg), cfg)
    decreases |t|
  {
    var r := Insert(x, t, cfg);
    if t == [] {
    } else if Compare(x, t[0], cfg) <= 0 {
      forall j | 0 <= j < |t|
        ensures Le(x, t[j], cfg)
      {
        LeTotalPreorder(x, t[0], t[j], cfg);
      }
      assert forall j :: 0 < j < |r| ==> r[j] == t[j - 1];
    } else {
      var u := Insert(x, t[1..], cfg);
      InsertSorted(x, t[1..], cfg);
      LeTotalPreorder(x, t[0], x, cfg);
      forall j | 0 <= j < |u|
        ensures Le(t[0], u[j], cfg)
      {
        assert u[j] in multiset(u);
        if u[j] != x {
          assert u[j] in multiset(t[1..]);
          var m :| 0 <= m < |t[1..]| && t[1..][m] == u[j];
          assert t[m + 1] == u[j];
        }
      }
      assert r == [t[0]] + u;
      assert forall j :: 0 < j < |r| ==> r[j] == u[j - 1];
    }
  }

  /** The sorted rows are ordered by the comparator. */
  lemma {:induction false} SortBySorted(data: seq<Planner>, cfg: Option<SortConfig>)
    ensures Sorted(SortBy(data, cfg), cfg)
    decreases |data|
  {
    if data != [] {
      SortBySorted(data[1..], cfg);
      InsertSorted(data[0], SortBy(data[1..], cfg), cfg);
    }
  }

  /** Ascending: the key never decreases along the rows. Descending: it never increases. */
  lemma SortedByKey(data: seq<Planner>, k: SortKey, d: Direction)
    ensures var r := SortBy(data, Some(SortConfig(k, d)));
      forall i, j :: 0 <= i < j < |r| ==>
        if d == Asc then !KeyLess(KeyOf(r[j], k), KeyOf(r[i], k))
        else !KeyLess(KeyOf(r[i], k), KeyOf(r[j], k))
  {
    var cfg := Some(SortConfig(k, d));
    var r := SortBy(data, cfg);
    SortBySorted(data, cfg);
    forall i, j | 0 <= i < j < |r|
      ensures if d == Asc then !KeyLess(KeyOf(r[j], k), KeyOf(r[i], k))
              else !KeyLess(KeyOf(r[i], k), KeyOf(r[j], k))
    {
      assert Le(r[i], r[j], cfg);
      KeyLessOrder(KeyOf(r[i], k), KeyOf(r[j], k), KeyOf(r[i], k));
    }
  }

  /** Without a sort configuration the rows keep their order. */
  lemma {:induction false} NoConfigKeepsOrder(data: seq<Planner>)
    ensures SortBy(data, None) == data
    decreases |data|
  {
    if data != [] {
      NoConfigKeepsOrder(data[1..]);
      assert data == [data[0]] + data[1..];
    }
  }

  // ---------------------------------------------------------------------------
  // Clicking a header

  /** `handleSort(key)`: descending exactly when the same column is currently ascending. */
  function NextSortConfig(cfg: Option<SortConfig>, k: SortKey): (r: SortConfig)
    ensures r.key == k
    ensures r.direction == Desc <==> cfg == Some(SortConfig(k, Asc))
  {
    if cfg.Some? && cfg.value.key == k && cfg.value.direction == Asc then SortConfig(k, Desc)
    else SortConfig(k, Asc)
  }

  /** Two clicks on the same header in a row always show both directions,
      and a click on another column always starts ascending. */
  lemma SortToggles(cfg: Option<SortConfig>, k: SortKey)
    ensures NextSortConfig(Some(NextSortConfig(cfg, k)), k).direction != NextSortConfig(cfg, k).direction
    ensures cfg.Some? && cfg.value.key != k ==> NextSortConfig(cfg, k) == SortConfig(k, Asc)
  {
  }

  // ---------------------------------------------------------------------------
  // Footer

  /** `data.reduce((acc, curr) => acc + f(curr), acc)`. */
  function Reduce(s: seq<Planner>, f: Planner -> int, acc: int): (r: int)
    ensures (forall i :: 0 <= i < |s| ==> f(s[i]) >= 0) ==> r >= acc
    ensures (forall i :: 0 <= i < |s| ==> f(s[i]) == 0) ==> r == acc
    decreases |s|
  {
    if s == [] then acc else Reduce(s[1..], f, acc + f(s[0]))
  }

  /** The mathematical sum, as a reference for `Reduce`. */
  function Sum(s: seq<Planner>, f: Planner -> int): int
    decreases |s|
  {
    if s == [] then 0 else f(s[0]) + Sum(s[1..], f)
  }

  lemma {:induction false} ReduceIsSum(s: seq<Planner>, f: Planner -> int, acc: int)
    ensures Reduce(s, f, acc) == acc + Sum(s, f)
    decreases |s|
  {
    if s != [] {
      ReduceIsSum(s[1..], f, acc + f(s[0]));
    }
  }

  lemma {:induction false} SumAppend(a: seq<Planner>, b: seq<Planner>, f: Planner -> int)
    ensures Sum(a + b, f) == Sum(a, f) + Sum(b, f)
    decreases |a|
  {
    if a == [] {
      assert a + b == b;
    } else {
      assert (a + b)[1..] == a[1..] + b;
      SumAppend(a[1..], b, f);
    }
  }

  /** Taking out the element at `i` removes its value from the sum and one copy from the multiset. */
  lemma {:induction false} SumRemoveAt(b: seq<Planner>, i: int, f: Planner -> int)
    requires 0 <= i < |b|
    ensures Sum(b, f) == f(b[i]) + Sum(b[..i] + b[i + 1..], f)
    ensures multiset(b[..i] + b[i + 1..]) == multiset(b) - multiset{b[i]}
  {
    var x := b[i];
    assert b == b[..i] + ([x] + b[i + 1..]);
    assert multiset(b) == multiset(b[..i]) + multiset{x} + multiset(b[i + 1..]);
    SumAppend(b[..i], [x] + b[i + 1..], f);
    SumAppend(b[..i], b[i + 1..], f);
    assert ([x] + b[i + 1..])[1..] == b[i + 1..];
  }

  /** A sum does not depend on the order of the rows. */
  lemma {:induction false} SumPermutation(a: seq<Planner>, b: seq<Planner>, f: Planner -> int)
    requires multiset(a) == multiset(b)
    ensures Sum(a, f) == Sum(b, f)
    decreases |a|
  {
    if a == [] {
      assert |b| == |multiset(b)| == 0;
    } else {
      var x := a[0];
      assert x in multiset(b);
      var i :| 0 <= i < |b| && b[i] == x;
      SumRemoveAt(b, i, f);
      assert a == [x] + a[1..];
      assert multiset(a[1..]) == multiset(a) - multiset{x};
      SumPermutation(a[1..], b[..i] + b[i + 1..], f);
    }
  }

  function OtifLowOf(p: Planner): int { p.suppliersOtifLow }

  function OpportunityOf(p: Planner): int { p.opportunityValue }

  datatype Footer = Footer(totalPlanners: nat, criticalOtif: int, totalOpportunity: int)

  /** The footer line: number of planners, `suppliersOtifLow` total and `opportunityValue` total. */
  function FooterOf(data: seq<Planner>): (footer: Footer)
    ensures footer.totalPlanners == |data|
    ensures (forall i :: 0 <= i < |data| ==> data[i].suppliersOtifLow >= 0) ==> footer.criticalOtif >= 0
    ensures (forall i :: 0 <= i < |data| ==> data[i].opportunityValue >= 0) ==> footer.totalOpportunity >= 0
  {
    Footer(|data|, Reduce(data, OtifLowOf, 0), Reduce(data, OpportunityOf, 0))
  }

  /** The footer is the count and the two column sums, so it does not depend on the row order:
      the sorted rows have the same footer as the data. */
  lemma FooterIsCountAndSums(data: seq<Planner>, cfg: Option<SortConfig>)
    ensures FooterOf(data) == Footer(|data|, Sum(data, OtifLowOf), Sum(data, OpportunityOf))
    ensures FooterOf(SortBy(data, cfg)) == FooterOf(data)
  {
    var sorted := SortBy(data, cfg);
    ReduceIsSum(data, OtifLowOf, 0);
    ReduceIsSum(data, OpportunityOf, 0);
    ReduceIsSum(sorted, OtifLowOf, 0);
    ReduceIsSum(sorted, OpportunityOf, 0);
    SumPermutation(sorted, data, OtifLowOf);
    SumPermutation(sorted, data, OpportunityOf);
  }

  // ---------------------------------------------------------------------------
  // Highlights

  /** The OTIF badge is critical. */
  function OtifCritical(p: Planner): (b: bool)
    ensures b <==> KeyLess(NumberKey(0), KeyOf(p, SuppliersOtifLow))
  {
    p.suppliersOtifLow > 0
  }

  /** The shortage count is shown in red. */
  function ShortageAlert(p: Planner): (b: bool)
    ensures b <==> KeyLess(NumberKey(5), KeyOf(p, Shortages))
  {
    p.shortages > 5
  }

  /** The "High Opportunity" dot is shown. */
  function HighOpportunity(p: Planner): (b: bool)
    ensures b <==> KeyLess(NumberKey(1000000), KeyOf(p, OpportunityValue))
  {
    p.opportunityValue > 1000000
  }

  /** With no negative counts, the "Critical OTIF" total is positive exactly when some badge is critical. */
  lemma {:induction false} CriticalTotalPositiveIff(data: seq<Planner>)
    requires forall i :: 0 <= i < |data| ==> data[i].suppliersOtifLow >= 0
    ensures Sum(data, OtifLowOf) > 0 <==> exists i :: 0 <= i < |data| && OtifCritical(data[i])
    ensures Sum(data, OtifLowOf) >= 0
    decreases |data|
  {
    if data != [] {
      CriticalTotalPositiveIff(data[1..]);
      if exists i :: 0 <= i < |data[1..]| && OtifCritical(data[1..][i]) {
        var i :| 0 <= i < |data[1..]| && OtifCritical(data[1..][i]);
        assert OtifCritical(data[i + 1]);
      }
      if exists i :: 0 <= i < |data| && OtifCritical(data[i]) {
        var i :| 0 <= i < |data| && OtifCritical(data[i]);
        if i > 0 {
          assert OtifCritical(data[1..][i - 1]);
        }
      }
    }
  }

  /** Sorting descending on a numeric column puts every row above a threshold
      before every row at or below it. */
  lemma AboveThresholdLeads(data: seq<Planner>, k: SortKey, threshold: int)
    requires !IsTextKey(k)
    ensures var r := SortBy(data, Some(SortConfig(k, Desc)));
      forall i, j :: 0 <= i < j < |r| && KeyOf(r[j], k).n > threshold ==> KeyOf(r[i], k).n > threshold
  {
    SortedByKey(data, k, Desc);
  }

  /** Sorted descending by "OTIF < 95%", the critical badges come first. */
  lemma CriticalOtifLeads(data: seq<Planner>)
    ensures var r := SortBy(data, Some(SortConfig(SuppliersOtifLow, Desc)));
      forall i, j :: 0 <= i < j < |r| && OtifCritical(r[j]) ==> OtifCritical(r[i])
  {
    var r := SortBy(data, Some(SortConfig(SuppliersOtifLow, Desc)));
    SortedByKey(data, SuppliersOtifLow, Desc);
    forall i, j | 0 <= i < j < |r| && OtifCritical(r[j])
      ensures OtifCritical(r[i])
    {
      assert !KeyLess(KeyOf(r[i], SuppliersOtifLow), KeyOf(r[j], SuppliersOtifLow));
    }
  }

  /** Sorted descending by "Shortages", the red counts come first. */
  lemma ShortageAlertsLead(data: seq<Planner>)
    ensures var r := SortBy(data, Some(SortConfig(Shortages, Desc)));
      forall i, j :: 0 <= i < j < |r| && ShortageAlert(r[j]) ==> ShortageAlert(r[i])
  {
    var r := SortBy(data, Some(SortConfig(Shortages, Desc)));
    SortedByKey(data, Shortages, Desc);
    forall i, j | 0 <= i < j < |r| && ShortageAlert(r[j])
      ensures ShortageAlert(r[i])
    {
      assert !KeyLess(KeyOf(r[i], Shortages), KeyOf(r[j], Shortages));
    }
  }

  /** Sorted descending by "Opportunity", the rows with the "High Opportunity" dot come first. */
  lemma HighOpportunitiesLead(data: seq<Planner>)
    ensures var r := SortBy(data, Some(SortConfig(OpportunityValue, Desc)));
      forall i, j :: 0 <= i < j < |r| && HighOpportunity(r[j]) ==> HighOpportunity(r[i])
  {
    var r := SortBy(data, Some(SortConfig(OpportunityValue, Desc)));
    SortedByKey(data, OpportunityValue, Desc);
    forall i, j | 0 <= i < j < |r| && HighOpportunity(r[j])
      ensures HighOpportunity(r[i])
    {
      assert !KeyLess(KeyOf(r[i], OpportunityValue), KeyOf(r[j], OpportunityValue));
    }
  }

  // ---------------------------------------------------------------------------
  // Initials

  /** `pieces.map(n => n[0])`, where `n[0]` of an empty piece is `undefined`,
      which `join` renders as the empty string. */
  function Heads(pieces: seq<string>): (r: seq<string>)
    ensures |r| == |pieces|
    ensures forall i :: 0 <= i < |pieces| ==> r[i] == (if pieces[i] == [] then [] else [pieces[i][0]])
  {
    seq(|pieces|, i requires 0 <= i < |pieces| => if pieces[i] == [] then [] else [pieces[i][0]])
  }

  /** `name.split(' ').map(n => n[0]).join('').substring(0, 2)`. */
  function Initials(name: string): (r: string)
    ensures |r| <= 2
  {
    Take(Join(Heads(Split(name, ' ')), ""), 2)
  }

  /** The characters of `s` that start a word: not a space, and first or after a space. */
  function WordStarts(s: string, afterSpace: bool): (r: string)
    ensures forall i :: 0 <= i < |r| ==> r[i] != ' ' && r[i] in s
    decreases |s|
  {
    if s == [] then []
    else (if s[0] != ' ' && afterSpace then [s[0]] else []) + WordStarts(s[1..], s[0] == ' ')
  }

  lemma JoinEmptyCons(pieces: seq<string>)
    requires pieces != []
    ensures Join(pieces, "") == pieces[0] + Join(pieces[1..], "")
  {
  }

  /** `Heads` of a split, joined: exactly the word starts. */
  lemma {:induction false} HeadsOfSplit(s: string)
    ensures Join(Heads(Split(s, ' ')), "") == WordStarts(s, true)
    decreases |s|, 1
  {
    var pieces := Split(s, ' ');
    var heads := Heads(pieces);
    JoinEmptyCons(heads);
    assert heads[1..] == Heads(pieces[1..]);
    HeadsOfSplitTail(s);
    // Join(heads, "") == heads[0] + WordStarts(s, false)
    if s == [] {
      assert pieces == [[]];
    } else if s[0] == ' ' {
      assert pieces[0] == [];
      assert heads[0] == [];
      assert WordStarts(s, false) == WordStarts(s[1..], true);
      assert WordStarts(s, true) == WordStarts(s[1..], true);
    } else {
      assert pieces[0][0] == s[0];
      assert heads[0] == [s[0]];
      assert WordStarts(s, false) == WordStarts(s[1..], false);
      assert WordStarts(s, true) == [s[0]] + WordStarts(s[1..], false);
    }
  }

  /** The word starts after the first piece of a split. */
  lemma {:induction false} HeadsOfSplitTail(s: string)
    ensures Join(Heads(Split(s, ' ')[1..]), "") == WordStarts(s, false)
    decreases |s|, 0
  {
    if s != [] {
      var t := Split(s[1..], ' ');
      if s[0] == ' ' {
        assert Split(s, ' ')[1..] == t;
        HeadsOfSplit(s[1..]);
      } else {
        assert Split(s, ' ')[1..] == t[1..];
        HeadsOfSplitTail(s[1..]);
      }
    }
  }

  /** The initials are the first two word-starting characters of the name. */
  lemma InitialsAreFirstTwoWordStarts(name: string)
    ensures Initials(name) == Take(WordStarts(name, true), 2)
    ensures forall i :: 0 <= i < |Initials(name)| ==> Initials(name)[i] != ' '
  {
    HeadsOfSplit(name);
  }

  // ---------------------------------------------------------------------------
  // The component state

  class PlannerGridView {
    const data: seq<Planner>
    var sortConfig: Option<SortConfig>

    /** The rows as displayed. */
    function SortedData(): (r: seq<Planner>)
      reads this
      ensures multiset(r) == multiset(data)
      ensures Sorted(r, sortConfig)
    {
      SortBySorted(data, sortConfig);
      SortBy(data, sortConfig)
    }

    constructor (data: seq<Planner>)
      ensures this.data == data && sortConfig == None
      ensures SortedData() == data
    {
      this.data := data;
      sortConfig := None;
      new;
      NoConfigKeepsOrder(data);
    }

    /** `handleSort(key)`. */
    method HandleSort(k: SortKey)
      modifies this
      ensures sortConfig == Some(NextSortConfig(old(sortConfig), k))
      ensures Sorted(SortedData(), sortConfig) && multiset(SortedData()) == multiset(data)
    {
      var direction := Asc;
      if sortConfig.Some? && sortConfig.value.key == k && sortConfig.value.direction == Asc {
        direction := Desc;
      }
      sortConfig := Some(SortConfig(k, direction));
    }
  }
}
