/**
 * The KPI card: a title and a value, a coloured left border chosen by a status
 * (neutral by default), and an optional trend row with an arrow or dash, the
 * trend's magnitude and a percent sign, coloured by the trend's sign.
 *
 * The optional `trend` number is an `Option<real>`; NaN is not modelled.
 * JavaScript truthiness of a number is "defined and non-zero".
 */
module KpiCard {
  import opened JsBuiltins

  // ---------------------------------------------------------------------------
  // Sign classification

  /** `trend` used as a condition. */
  predicate Truthy(trend: Option<real>)
  {
    trend.Some? && trend.value != 0.0
  }

  /** `isPositive = trend && trend > 0`, as a condition. */
  function IsPositive(trend: Option<real>): (b: bool)
    ensures b <==> trend.Some? && trend.value > 0.0
  {
    Truthy(trend) && trend.value > 0.0
  }

  /** `isNegative = trend && trend < 0`, as a condition. */
  function IsNegative(trend: Option<real>): (b: bool)
    ensures b <==> trend.Some? && trend.value < 0.0
  {
    Truthy(trend) && trend.value < 0.0
  }

  /** `isNeutral = !trend || trend === 0`. */
  function IsNeutral(trend: Option<real>): (b: bool)
    ensures b <==> trend.None? || trend.value == 0.0
  {
    !Truthy(trend) || trend.value == 0.0
  }

  /** Exactly one of the three flags holds. */
  lemma ExactlyOneSign(trend: Option<real>)
    ensures IsPositive(trend) ==> !IsNegative(trend) && !IsNeutral(trend)
    ensures IsNegative(trend) ==> !IsPositive(trend) && !IsNeutral(trend)
    ensures IsPositive(trend) || IsNegative(trend) || IsNeutral(trend)
  {
  }

  /** `trendColor`. */
  function TrendColor(trend: Option<real>): (c: string)
    ensures c == "text-emerald-600" <==> IsPositive(trend)
    ensures c == "text-rose-600" <==> IsNegative(trend)
    ensures c == "text-slate-500" <==> IsNeutral(trend)
  {
    if IsPositive(trend) then "text-emerald-600"
    else if IsNegative(trend) then "text-rose-600"
    else "text-slate-500"
  }

  /** `Math.abs`. */
  function Abs(x: real): (r: real)
    ensures r >= 0.0
    ensures r == x || r == -x
  {
    if x < 0.0 then -x else x
  }

  /** The displayed magnitude and the sign flags together determine the trend. */
  lemma SignAndMagnitudeDetermineTrend(t: real)
    ensures t == if IsNegative(Some(t)) then -Abs(t) else Abs(t)
    ensures Abs(-t) == Abs(t)
  {
  }

  // ---------------------------------------------------------------------------
  // The trend row

  datatype Icon = ArrowUp | ArrowDown | Minus

  /** What the trend row renders in front of the label, in order. */
  datatype Piece = IconPiece(icon: Icon) | NumberPiece(n: real) | TextPiece(s: string)

  /** A JavaScript value as produced by `&&`/`||` on a number and a comparison. */
  datatype JsValue = JsNumber(n: real) | JsBool(b: bool)

  predicate JsTruthy(v: JsValue)
  {
    match v
    case JsNumber(n) => n != 0.0
    case JsBool(b) => b
  }

  /** `{flag && <icon />}` as a child: the icon when `flag` is truthy; otherwise
      the falsy value itself, of which a number is rendered as text and a boolean
      not at all. */
  function Guarded(flag: JsValue, icon: Icon): (r: seq<Piece>)
    ensures JsTruthy(flag) ==> r == [IconPiece(icon)]
    ensures flag.JsBool? && !flag.b ==> r == []
  {
    if JsTruthy(flag) then [IconPiece(icon)]
    else match flag
      case JsNumber(n) => [NumberPiece(n)]
      case JsBool(_) => []
  }

  /** The values of `isPositive`, `isNegative`, `isNeutral` for a defined trend:
      `t && c` is `t` when `t` is falsy (0) and `c` otherwise. */
  function PositiveValue(t: real): JsValue { if t != 0.0 then JsBool(t > 0.0) else JsNumber(t) }
  function NegativeValue(t: real): JsValue { if t != 0.0 then JsBool(t < 0.0) else JsNumber(t) }
  function NeutralValue(t: real): JsValue { JsBool(t == 0.0) }

  /** The trend row as the component writes it: rendered iff `trend !== undefined`. */
  function TrendRowAsWritten(trend: Option<real>): (row: Option<seq<Piece>>)
    ensures row.Some? <==> trend.Some?
  {
    match trend
    case None => None
    case Some(t) =>
      Some(Guarded(PositiveValue(t), ArrowUp) + Guarded(NegativeValue(t), ArrowDown)
        + Guarded(NeutralValue(t), Minus) + [NumberPiece(Abs(t)), TextPiece("%")])
  }

  /** For a zero trend, `isPositive` and `isNegative` are the number 0, which is
      rendered: the row reads "0", "0", the dash, then "0%". */
  lemma ZeroTrendShowsStrayZeros()
    ensures TrendRowAsWritten(Some(0.0)) ==
      Some([NumberPiece(0.0), NumberPiece(0.0), IconPiece(Minus), NumberPiece(0.0), TextPiece("%")])
  {
    assert Guarded(PositiveValue(0.0), ArrowUp) == [NumberPiece(0.0)];
    assert Guarded(NegativeValue(0.0), ArrowDown) == [NumberPiece(0.0)];
    assert Guarded(NeutralValue(0.0), Minus) == [IconPiece(Minus)];
    assert Abs(0.0) == 0.0;
    assert [NumberPiece(0.0)] + [NumberPiece(0.0)] + [IconPiece(Minus)] + [NumberPiece(0.0), TextPiece("%")]
      == [NumberPiece(0.0), NumberPiece(0.0), IconPiece(Minus), NumberPiece(0.0), TextPiece("%")];
  }

  /** The icon of the trend's sign. */
  function TrendIcon(trend: Option<real>): (icon: Icon)
    ensures icon == ArrowUp <==> IsPositive(trend)
    ensures icon == ArrowDown <==> IsNegative(trend)
    ensures icon == Minus <==> IsNeutral(trend)
  {
    if IsPositive(trend) then ArrowUp else if IsNegative(trend) then ArrowDown else Minus
  }

  /** The trend row as intended: exactly one icon, then `|trend|` and "%". */
  function TrendRow(trend: Option<real>): (row: Option<seq<Piece>>)
    ensures row.Some? <==> trend.Some?
    ensures row.Some? ==> |row.value| == 3 && row.value[0] == IconPiece(TrendIcon(trend)) && row.value[1..] == [NumberPiece(Abs(trend.value)), TextPiece("%")]
    ensures row.Some? ==> forall i :: 0 <= i < |row.value| && row.value[i].IconPiece? ==> i == 0
  {
    match trend
    case None => None
    case Some(t) => Some([IconPiece(TrendIcon(trend)), NumberPiece(Abs(t)), TextPiece("%")])
  }

  /** As intended, a zero trend shows only the dash and "0%". */
  lemma ZeroTrendShowsDash()
    ensures TrendRow(Some(0.0)) == Some([IconPiece(Minus), NumberPiece(0.0), TextPiece("%")])
  {
  }

  /** Off zero the written row and the intended row are the same; at zero they differ. */
  lemma TrendRowAgreesOffZero(trend: Option<real>)
    ensures trend != Some(0.0) ==> TrendRowAsWritten(trend) == TrendRow(trend)
    ensures TrendRowAsWritten(Some(0.0)) != TrendRow(Some(0.0))
  {
    ZeroTrendShowsStrayZeros();
    if trend.Some? && trend.value != 0.0 {
      var t := trend.value;
      assert Guarded(NeutralValue(t), Minus) == [];
      if t > 0.0 {
        assert Guarded(PositiveValue(t), ArrowUp) == [IconPiece(ArrowUp)];
        assert Guarded(NegativeValue(t), ArrowDown) == [];
        assert [IconPiece(ArrowUp)] + [] + [] + [NumberPiece(Abs(t)), TextPiece("%")]
          == [IconPiece(ArrowUp), NumberPiece(Abs(t)), TextPiece("%")];
      } else {
        assert Guarded(PositiveValue(t), ArrowUp) == [];
        assert Guarded(NegativeValue(t), ArrowDown) == [IconPiece(ArrowDown)];
        assert [] + [IconPiece(ArrowDown)] + [] + [NumberPiece(Abs(t)), TextPiece("%")]
          == [IconPiece(ArrowDown), NumberPiece(Abs(t)), TextPiece("%")];
      }
    }
  }

  // ---------------------------------------------------------------------------
  // Border

  datatype KpiStatus = Success | Warning | Danger | Neutral

  /** `statusStyles`. */
  const StatusStyles: map<KpiStatus, string> := map[
    Success := "border-l-emerald-500",
    Warning := "border-l-amber-500",
    Danger := "border-l-rose-500",
    Neutral := "border-l-slate-500"
  ]

  lemma StylesTotal(s: KpiStatus)
    ensures s in StatusStyles
  {
  }

  /** `statusStyles[status]` with `status` defaulting to "neutral". */
  function BorderClass(status: Option<KpiStatus>): (c: string)
    ensures c in StatusStyles.Values
    ensures c == "border-l-slate-500" <==> status.None? || status == Some(Neutral)
  {
    var s := if status.Some? then status.value else Neutral;
    StylesTotal(s);
    StatusStyles[s]
  }

  /** Without a status the border is the neutral one, and the four statuses
      have four different borders. */
  lemma BorderClassDistinct(a: KpiStatus, b: KpiStatus)
    ensures BorderClass(None) == BorderClass(Some(Neutral)) == "border-l-slate-500"
    ensures BorderClass(Some(a)) == BorderClass(Some(b)) <==> a == b
  {
  }
}
