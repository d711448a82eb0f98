/** The budget summary (internal/finance/summary.go): one pass over the domains' renewal costs, each
    priced, rounded and converted, then accumulated overall and per expiry window. */
module Budget {
  import opened Text
  import opened Arithmetic
  import opened Decimals
  import opened Costs
  import opened Selection

  /** An exchange rate into the reporting currency. */
  datatype Quote = Quote(rate: string, observedAt: Option<int>)

  /** One domain with its current renewal cost, if it has one. */
  datatype Item = Item(
    domain: nat, expiresAt: Option<int>, amount: Option<string>, currency: Option<string>,
    taxRate: Option<string>, taxMode: Option<string>, months: Option<int>)

  datatype Purchase = Purchase(amount: string, currency: string)

  /** The clock in milliseconds, the calendar year it lies in, and the quotes. */
  datatype Context = Context(
    now: int, yearStart: int, yearEnd: int, reporting: string, rates: map<string, Quote>, maxAge: int, scale: nat)

  /** The context a summary works in. */
  function Normalized(base: Context): Context {
    base.(reporting := NormalizeCurrency(base.reporting))
  }

  // ---- Conversion ------------------------------------------------------------------

  function Positive(d: Option<real>): Option<real> {
    if d.None? || d.value <= 0.0 then None else d
  }

  function Product(a: Option<real>, b: Option<real>): Option<real> {
    if a.None? || b.None? then None else Some(Times(a.value, b.value))
  }

  /** The factor into the reporting currency: one, or a present, fresh and positive quote. */
  function AppliedRate(c: Context, currency: string): Option<real> {
    var from := NormalizeCurrency(currency);
    if from == c.reporting then Some(1.0)
    else if from !in c.rates || !FreshQuote(c.rates[from].observedAt, c.now, c.maxAge) then None
    else Positive(ParseDecimal(c.rates[from].rate, RATE_SCALE))
  }

  /** `convertForSummary`. */
  function ConvertForSummary(c: Context, amount: string, currency: string): Option<real> {
    Product(ParseDecimal(amount, c.scale), AppliedRate(c, currency))
  }

  lemma RatePositive(c: Context, currency: string)
    ensures AppliedRate(c, currency).Some? ==> AppliedRate(c, currency).value > 0.0
  {
  }

  /** The rate a summary ought to apply: one for the reporting currency itself, otherwise that of a recent quote that
      reads as a positive decimal. */
  function QuotedRate(c: Context, currency: string): Option<real> {
    var from := ToUpper(TrimSpace(currency));
    if from == c.reporting then Some(1.0)
    else if from in c.rates && Recent(c.rates[from].observedAt, c.now, c.maxAge) then
      var r := ParseDecimal(c.rates[from].rate, RATE_SCALE);
      if r.Some? && r.value > 0.0 then r else None
    else None
  }

  lemma AppliedIsQuoted(c: Context, currency: string)
    ensures AppliedRate(c, currency) == QuotedRate(c, currency)
  {
  }

  /** When a summary converts, and to what. */
  lemma ConvertsByQuote(c: Context, amount: string, currency: string)
    ensures var v, rate := ParseDecimal(amount, c.scale), QuotedRate(c, currency);
      var r := ConvertForSummary(c, amount, currency);
      (r.Some? <==> v.Some? && rate.Some?) && (r.Some? ==> r.value == v.value * rate.value)
  {
    AppliedIsQuoted(c, currency);
  }

  /** A printed amount converts exactly when the currency has a rate, and to the rounded amount times it:
      once the cycle total of a cost converts, so do its tax and its yearly estimate. */
  lemma ConvertPrinted(c: Context, v: real, currency: string)
    ensures ConvertForSummary(c, Print(v, c.scale), currency) ==
              Product(Some(Rounded(v, c.scale)), AppliedRate(c, currency))
  {
    PrintParses(v, c.scale, c.scale);
  }

  // ---- Windows ---------------------------------------------------------------------

  const DAY := 86400000

  datatype Period = Next30 | Next60 | Next90 | ThisYear

  const PERIODS := [Next30, Next60, Next90, ThisYear]

  lemma EveryPeriod(n: Period)
    ensures n in PERIODS
  {
    assert PERIODS[0] == Next30 && PERIODS[1] == Next60 && PERIODS[2] == Next90 && PERIODS[3] == ThisYear;
  }

  function WindowsOf(c: Context, expiresAt: Option<int>): seq<Period> {
    if expiresAt.None? || expiresAt.value < c.now then []
    else
      var date := expiresAt.value;
      (if date <= c.now + 30 * DAY then [Next30] else [])
      + (if date <= c.now + 60 * DAY then [Next60] else [])
      + (if date <= c.now + 90 * DAY then [Next90] else [])
      + (if c.yearStart <= date < c.yearEnd then [ThisYear] else [])
  }

  predicate Distinct(names: seq<Period>) {
    forall i, j :: 0 <= i < j < |names| ==> names[i] != names[j]
  }

  /** No window twice, and the day windows are nested. */
  lemma WindowsNested(c: Context, expiresAt: Option<int>)
    ensures var names := WindowsOf(c, expiresAt);
            && Distinct(names)
            && (Next30 in names ==> Next60 in names)
            && (Next60 in names ==> Next90 in names)
  {
  }

  /** A domain is counted in a day window exactly when it expires between now and that many days from now, and in the
      year exactly when it expires from now on and within the calendar year. */
  lemma WindowsByDate(c: Context, expiresAt: Option<int>)
    ensures var names := WindowsOf(c, expiresAt);
            && (expiresAt.None? ==> names == [])
            && (expiresAt.Some? ==>
                  var ahead := expiresAt.value - c.now;
                  && (Next30 in names <==> 0 <= ahead <= 30 * 24 * 60 * 60 * 1000)
                  && (Next60 in names <==> 0 <= ahead <= 60 * 24 * 60 * 60 * 1000)
                  && (Next90 in names <==> 0 <= ahead <= 90 * 24 * 60 * 60 * 1000)
                  && (ThisYear in names <==> 0 <= ahead && c.yearStart <= expiresAt.value < c.yearEnd))
  {
  }

  // ---- Judging one domain -------------------------------------------------------------

  datatype Kind = MissingCost | InvalidCost | UnknownTax | FxIncomplete | Included

  datatype Measure = Renewal | Tax | Yearly

  /** A domain as the summary sees it: whether and why it is left out, and if not, its exact charge and
      the rate applied; and the windows it expires in. */
  datatype Line = Line(kind: Kind, charge: Charge, rate: real, windows: seq<Period>) {
    predicate Valid() {
      && charge.tax >= 0.0 && charge.total >= 0.0 && charge.annual >= 0.0 && rate >= 0.0
      && Distinct(windows)
      && (Next30 in windows ==> Next60 in windows)
      && (Next60 in windows ==> Next90 in windows)
    }
  }

  const NO_CHARGE := Charge(0.0, 0.0, 0.0)

  predicate HasCost(i: Item) {
    i.amount.Some? && i.currency.Some? && i.taxMode.Some? && i.months.Some?
  }

  function InputOf(i: Item): CostInput
    requires HasCost(i)
  {
    CostInput(i.amount.value, i.currency.value, i.taxRate, i.taxMode.value, i.months.value)
  }

  function LineOf(c: Context, i: Item): Line {
    var line := Line(MissingCost, NO_CHARGE, 0.0, WindowsOf(c, i.expiresAt));
    if !HasCost(i) then line
    else
      match Read(InputOf(i), c.scale)
      case Refused(_) => line.(kind := InvalidCost)
      case Accepted(t) =>
        ReadIsValid(InputOf(i), c.scale);
        if t.mode.TaxUnknown? then line.(kind := UnknownTax)
        else
          match AppliedRate(c, t.currency)
          case None => line.(kind := FxIncomplete)
          case Some(rate) => line.(kind := Included, charge := ChargeOf(t), rate := rate)
  }

  lemma LineValid(c: Context, i: Item)
    ensures LineOf(c, i).Valid()
  {
    WindowsNested(c, i.expiresAt);
    if HasCost(i) && Read(InputOf(i), c.scale).Accepted? {
      ReadIsValid(InputOf(i), c.scale);
      var t := Read(InputOf(i), c.scale).terms;
      RatePositive(c, t.currency);
      if !t.mode.TaxUnknown? { ChargeIsFair(t, c.scale); }
    }
  }

  /** Why a domain is left out, or what it is charged, from its texts alone. */
  lemma LineMeans(c: Context, i: Item)
    ensures var l := LineOf(c, i);
      && l.windows == WindowsOf(c, i.expiresAt)
      && (l.kind.MissingCost? <==> i.amount.None? || i.currency.None? || i.taxMode.None? || i.months.None?)
      && (!l.kind.MissingCost? ==>
            var r := Calculate(InputOf(i), c.scale);
            && (l.kind.InvalidCost? <==> r.Rejected?)
            && (l.kind.UnknownTax? <==> r.Priced? && Named(i.taxMode.value) == Some(TaxUnknown))
            && (l.kind.Included? || l.kind.FxIncomplete? ==> Named(i.taxMode.value).Some?)
            && (l.kind.Included? <==>
                  && r.Priced? && Named(i.taxMode.value) != Some(TaxUnknown)
                  && QuotedRate(c, i.currency.value).Some?)
            && (l.kind.Included? ==>
                  && QuotedRate(c, i.currency.value) == Some(l.rate)
                  && Calculated(i, c.scale, l.charge)))
  {
    if HasCost(i) { PricedMeans(c, i); }
  }

  /** The charge is the fair one for the mode, amount, rate and cycle the texts state. */
  ghost predicate Calculated(i: Item, scale: nat, charge: Charge)
    requires HasCost(i) && Named(i.taxMode.value).Some?
  {
    var months, mode := if i.months.value == 0 then 12 else i.months.value, Named(i.taxMode.value).value;
    months >= 1 && Fair(mode, Value(i.amount.value, scale), Stated(mode, i.taxRate), months, charge)
  }

  lemma PricedMeans(c: Context, i: Item)
    requires HasCost(i)
    ensures var l, r := LineOf(c, i), Calculate(InputOf(i), c.scale);
      && (l.kind.InvalidCost? <==> r.Rejected?) && !l.kind.MissingCost?
      && (r.Priced? ==>
            && Named(i.taxMode.value).Some?
            && (l.kind.UnknownTax? <==> Named(i.taxMode.value) == Some(TaxUnknown))
            && (l.kind.Included? <==>
                  Named(i.taxMode.value) != Some(TaxUnknown) && QuotedRate(c, i.currency.value).Some?)
            && (l.kind.Included? ==>
                  QuotedRate(c, i.currency.value) == Some(l.rate) && Calculated(i, c.scale, l.charge)))
  {
    var input := InputOf(i);
    if Read(input, c.scale).Accepted? {
      ReadIsValid(input, c.scale);
      ReadMeans(input, c.scale);
      NormalizeTwice(i.currency.value);
      AppliedIsQuoted(c, i.currency.value);
      var t := Read(input, c.scale).terms;
      if !t.mode.TaxUnknown? { ChargeIsFair(t, c.scale); }
    }
  }

  function Lines(c: Context, items: seq<Item>): (ls: seq<Line>)
    ensures |ls| == |items| && forall k :: 0 <= k < |items| ==> ls[k] == LineOf(c, items[k])
  {
    seq(|items|, k requires 0 <= k < |items| => LineOf(c, items[k]))
  }

  // ---- Contributions ---------------------------------------------------------------------

  function Measured(ch: Charge, m: Measure): real {
    match m case Renewal => ch.total case Tax => ch.tax case Yearly => ch.annual
  }

  /** The amount is rounded to the money scale before it is converted. */
  function Contribution(v: real, p: nat, rate: real): real
    requires p >= 1
  {
    Times(RoundedBy(v, p), rate)
  }

  lemma ContributionNonNegative(v: real, p: nat, rate: real)
    requires p >= 1 && v >= 0.0 && rate >= 0.0
    ensures Contribution(v, p, rate) >= 0.0
  {
    RoundedNonNegative(v, p);
    ProductNonNegative(RoundedBy(v, p), rate);
  }

  lemma ProductNonNegative(x: real, r: real)
    requires x >= 0.0 && r >= 0.0
    ensures x * r >= 0.0
  {
  }

  /** Rounding before conversion costs at most half a unit times the rate. */
  lemma ContributionNear(v: real, p: nat, rate: real)
    requires p >= 1 && rate >= 0.0
    ensures Abs(Contribution(v, p, rate) - v * rate) * p as real <= 0.5 * rate
  {
    RoundedNear(v, p);
    ScaledNear(RoundedBy(v, p), v, rate, p);
  }

  lemma ScaledNear(a: real, v: real, r: real, p: nat)
    requires p >= 1 && r >= 0.0 && WithinHalf(a, v, p)
    ensures Abs(a * r - v * r) * p as real <= 0.5 * r
  {
    Distribute(a, v, r);
    var d := Abs(a - v);
    assert Abs(a * r - v * r) == d * r by { AbsProduct(a - v, r); }
    Reorder(d, r, p as real);
    ScaleLeft(d * p as real, 0.5, r);
  }

  lemma AbsProduct(x: real, r: real)
    requires r >= 0.0
    ensures Abs(x * r) == Abs(x) * r
  {
    if r > 0.0 { ScaleSign(x, r); }
  }

  lemma Reorder(d: real, r: real, p: real)
    ensures d * r * p == d * p * r
  {
  }

  lemma ScaleLeft(x: real, y: real, r: real)
    requires x <= y && r >= 0.0
    ensures x * r <= y * r
  {
    if r > 0.0 { ScaleLess(x, y, r); }
  }

  // ---- Totals over all lines, or over those in a window ----------------------------------------

  function Share(l: Line, m: Measure, p: nat): real
    requires p >= 1
  {
    if l.kind.Included? then Contribution(Measured(l.charge, m), p, l.rate) else 0.0
  }

  function ExactShare(l: Line, m: Measure): real {
    if l.kind.Included? then Measured(l.charge, m) * l.rate else 0.0
  }

  predicate Within(l: Line, w: Option<Period>) {
    w.None? || w.value in l.windows
  }

  predicate Matches(l: Line, k: Option<Kind>, w: Option<Period>) {
    Within(l, w) && (k.None? || l.kind == k.value)
  }

  function CountOf(ls: seq<Line>, k: Option<Kind>, w: Option<Period>): nat {
    if ls == [] then 0
    else CountOf(ls[..|ls| - 1], k, w) + if Matches(ls[|ls| - 1], k, w) then 1 else 0
  }

  function SumOf(ls: seq<Line>, m: Measure, w: Option<Period>, p: nat): real
    requires p >= 1
  {
    if ls == [] then 0.0
    else SumOf(ls[..|ls| - 1], m, w, p) + if Within(ls[|ls| - 1], w) then Share(ls[|ls| - 1], m, p) else 0.0
  }

  /** The totals in exact rational arithmetic, and the rates applied. */
  function ExactSum(ls: seq<Line>, m: Measure, w: Option<Period>): real {
    if ls == [] then 0.0
    else ExactSum(ls[..|ls| - 1], m, w) + if Within(ls[|ls| - 1], w) then ExactShare(ls[|ls| - 1], m) else 0.0
  }

  function RateSum(ls: seq<Line>, w: Option<Period>): real {
    if ls == [] then 0.0
    else
      var l := ls[|ls| - 1];
      RateSum(ls[..|ls| - 1], w) + if Within(l, w) && l.kind.Included? then l.rate else 0.0
  }

  predicate AllValid(ls: seq<Line>) {
    forall k :: 0 <= k < |ls| ==> ls[k].Valid()
  }

  /** Every domain of a window is counted once: included, or left out for exactly one reason. */
  lemma {:induction false} CountedOnce(ls: seq<Line>, w: Option<Period>)
    ensures CountOf(ls, None, w) == CountOf(ls, Some(MissingCost), w) + CountOf(ls, Some(InvalidCost), w)
                                  + CountOf(ls, Some(UnknownTax), w) + CountOf(ls, Some(FxIncomplete), w)
                                  + CountOf(ls, Some(Included), w)
    ensures w.None? ==> CountOf(ls, None, w) == |ls|
  {
    if ls != [] { CountedOnce(ls[..|ls| - 1], w); }
  }

  lemma ShareNonNegative(l: Line, m: Measure, p: nat)
    requires p >= 1 && l.Valid()
    ensures Share(l, m, p) >= 0.0
  {
    if l.kind.Included? { ContributionNonNegative(Measured(l.charge, m), p, l.rate); }
  }

  /** A window contained in another has no more domains of any kind and no larger total. */
  lemma {:induction false} Contained(ls: seq<Line>, k: Option<Kind>, m: Measure, v: Option<Period>, w: Option<Period>,
                                     p: nat)
    requires p >= 1 && AllValid(ls) && forall i :: 0 <= i < |ls| && Within(ls[i], v) ==> Within(ls[i], w)
    ensures CountOf(ls, k, v) <= CountOf(ls, k, w)
    ensures 0.0 <= SumOf(ls, m, v, p) <= SumOf(ls, m, w, p)
  {
    if ls != [] {
      var rest := ls[..|ls| - 1];
      assert forall i :: 0 <= i < |rest| ==> rest[i] == ls[i];
      Contained(rest, k, m, v, w, p);
      ShareNonNegative(ls[|ls| - 1], m, p);
    }
  }

  /** The day windows are nested: counts and totals grow with the window and stay within the overall ones. */
  lemma NestedWindows(ls: seq<Line>, k: Option<Kind>, m: Measure, p: nat)
    requires p >= 1 && AllValid(ls)
    ensures CountOf(ls, k, Some(Next30)) <= CountOf(ls, k, Some(Next60))
         <= CountOf(ls, k, Some(Next90)) <= CountOf(ls, k, None)
    ensures 0.0 <= SumOf(ls, m, Some(Next30), p) <= SumOf(ls, m, Some(Next60), p)
         <= SumOf(ls, m, Some(Next90), p) <= SumOf(ls, m, None, p)
    ensures CountOf(ls, k, Some(ThisYear)) <= CountOf(ls, k, None)
    ensures 0.0 <= SumOf(ls, m, Some(ThisYear), p) <= SumOf(ls, m, None, p)
  {
    Contained(ls, k, m, Some(Next30), Some(Next60), p);
    Contained(ls, k, m, Some(Next60), Some(Next90), p);
    Contained(ls, k, m, Some(Next90), None, p);
    Contained(ls, k, m, Some(ThisYear), None, p);
  }

  // ---- The rounding error -----------------------------------------------------------------------

  /** |a - b| is at most half of 1/p times `rates`. */
  ghost predicate Near(a: real, b: real, p: nat, rates: real) {
    Abs(a - b) * p as real <= 0.5 * rates
  }

  lemma NearSum(a: real, b: real, x: real, y: real, p: nat, r: real, s: real)
    requires Near(a, b, p, r) && Near(x, y, p, s)
    ensures Near(a + x, b + y, p, r + s)
  {
    var d, e := Abs(a - b), Abs(x - y);
    Distribute(d, e, p as real);
    ScaleLeft(Abs(a + x - (b + y)), d + e, p as real);
  }

  lemma ShareNear(l: Line, m: Measure, p: nat)
    requires p >= 1 && l.Valid() && l.kind.Included?
    ensures Near(Share(l, m, p), ExactShare(l, m), p, l.rate)
  {
    ContributionNear(Measured(l.charge, m), p, l.rate);
  }

  lemma {:induction false} SumNear(ls: seq<Line>, m: Measure, w: Option<Period>, p: nat)
    requires p >= 1 && AllValid(ls)
    ensures Near(SumOf(ls, m, w, p), ExactSum(ls, m, w), p, RateSum(ls, w))
  {
    if ls != [] {
      var rest, l := ls[..|ls| - 1], ls[|ls| - 1];
      SumNear(rest, m, w, p);
      if Within(l, w) && l.kind.Included? {
        ShareNear(l, m, p);
        NearSum(SumOf(rest, m, w, p), ExactSum(rest, m, w), Share(l, m, p), ExactShare(l, m), p, RateSum(rest, w),
                l.rate);
      }
    }
  }

  /** The reported total is off the exact one by at most half a unit times (1 + the rates applied),
      although every amount is rounded before it is converted. */
  lemma ReportedNear(ls: seq<Line>, m: Measure, w: Option<Period>, scale: nat)
    requires AllValid(ls)
    ensures Near(Value(Print(SumOf(ls, m, w, Pow10(scale)), scale), scale), ExactSum(ls, m, w), Pow10(scale),
                 1.0 + RateSum(ls, w))
  {
    var p := Pow10(scale);
    SumNear(ls, m, w, p);
    PrintedNear(SumOf(ls, m, w, p), ExactSum(ls, m, w), RateSum(ls, w), scale);
  }

  lemma PrintedNear(v: real, exact: real, rates: real, scale: nat)
    requires Near(v, exact, Pow10(scale), rates)
    ensures Near(Value(Print(v, scale), scale), exact, Pow10(scale), 1.0 + rates)
  {
    ValuePrint(v, scale);
    RoundedNear(v, Pow10(scale));
    NearTriangle(Rounded(v, scale), v, exact, Pow10(scale), rates);
  }

  lemma NearTriangle(a: real, v: real, exact: real, p: nat, rates: real)
    requires WithinHalf(a, v, p) && Near(v, exact, p, rates)
    ensures Near(a, exact, p, 1.0 + rates)
  {
    Distribute(Abs(a - v), Abs(v - exact), p as real);
    ScaleLeft(Abs(a - exact), Abs(a - v) + Abs(v - exact), p as real);
  }

  /** The printed window totals are ordered like the exact ones. */
  lemma PrintedNested(ls: seq<Line>, m: Measure, v: Option<Period>, w: Option<Period>, scale: nat)
    requires AllValid(ls) && forall i :: 0 <= i < |ls| && Within(ls[i], v) ==> Within(ls[i], w)
    ensures Value(Print(SumOf(ls, m, v, Pow10(scale)), scale), scale) <=
              Value(Print(SumOf(ls, m, w, Pow10(scale)), scale), scale)
  {
    var p := Pow10(scale);
    Contained(ls, None, m, v, w, p);
    PrintedOrder(SumOf(ls, m, v, p), SumOf(ls, m, w, p), scale);
  }

  // ---- The summary loop ---------------------------------------------------------------------------

  datatype Window = Window(domainCount: nat, knownRenewals: nat, unknownCosts: nat, renewalTotal: string)

  datatype Code = TaxPolicyUnknown | FxRateMissingOrStale | InvalidCostRecord | PurchaseTotalIncomplete

  datatype Summary = Summary(
    reporting: string, unknownCosts: nat, unknownTaxes: nat, fxIncomplete: nat,
    currentTotal: string, renewalTotal: string, estimatedTax: string, annualBudget: string,
    windows: map<Period, Window>, warnings: seq<Code>, complete: bool)

  /** The variables of the loop. */
  datatype Tally = Tally(
    unknownCosts: nat, unknownTaxes: nat, fxIncomplete: nat, renewal: real, tax: real, yearly: real,
    windows: map<Period, Window>, totals: map<Period, real>, warned: set<Code>)

  ghost predicate IsWindowMap<V>(m: map<Period, V>) {
    forall n: Period :: n in m
  }

  ghost predicate WindowTallied(ls: seq<Line>, n: Period, w: Window) {
    && w.domainCount == CountOf(ls, None, Some(n))
    && w.knownRenewals == CountOf(ls, Some(Included), Some(n))
    && w.unknownCosts == CountOf(ls, Some(MissingCost), Some(n))
  }

  ghost predicate CountsTallied(ls: seq<Line>, t: Tally) {
    && t.unknownCosts == CountOf(ls, Some(MissingCost), None) + CountOf(ls, Some(InvalidCost), None)
    && t.unknownTaxes == CountOf(ls, Some(UnknownTax), None)
    && t.fxIncomplete == CountOf(ls, Some(FxIncomplete), None)
    && (InvalidCostRecord in t.warned <==> CountOf(ls, Some(InvalidCost), None) > 0)
    && (TaxPolicyUnknown in t.warned <==> t.unknownTaxes > 0)
    && (FxRateMissingOrStale in t.warned <==> t.fxIncomplete > 0)
    && PurchaseTotalIncomplete !in t.warned
  }

  ghost predicate SumsTallied(ls: seq<Line>, t: Tally, p: nat)
    requires p >= 1
  {
    && t.renewal == SumOf(ls, Renewal, None, p) && t.tax == SumOf(ls, Tax, None, p)
    && t.yearly == SumOf(ls, Yearly, None, p)
  }

  ghost predicate WindowsTallied(ls: seq<Line>, t: Tally, p: nat)
    requires p >= 1
  {
    && IsWindowMap(t.windows) && IsWindowMap(t.totals)
    && (forall n: Period :: WindowTallied(ls, n, t.windows[n]))
    && (forall n: Period :: t.totals[n] == SumOf(ls, Renewal, Some(n), p))
  }

  ghost predicate Tallied(ls: seq<Line>, t: Tally, p: nat)
    requires p >= 1
  {
    CountsTallied(ls, t) && SumsTallied(ls, t, p) && WindowsTallied(ls, t, p)
  }

  function Raised(w: Window, domains: nat, known: nat, unknown: nat): Window {
    w.(domainCount := w.domainCount + domains, knownRenewals := w.knownRenewals + known,
       unknownCosts := w.unknownCosts + unknown)
  }

  /** The three inner loops that count a domain in each of its windows. */
  method RaiseWindows(windows: map<Period, Window>, names: seq<Period>, domains: nat, known: nat, unknown: nat)
      returns (r: map<Period, Window>)
    requires Distinct(names) && IsWindowMap(windows)
    ensures IsWindowMap(r)
    ensures forall n: Period :: r[n] == if n in names then Raised(windows[n], domains, known, unknown) else windows[n]
  {
    r := windows;
    for i := 0 to |names|
      invariant IsWindowMap(r)
      invariant forall n: Period ::
                  r[n] == if n in names[..i] then Raised(windows[n], domains, known, unknown) else windows[n]
    {
      assert names[i] !in names[..i];
      var window := r[names[i]];
      r := r[names[i] := Raised(window, domains, known, unknown)];
      assert names[..i + 1] == names[..i] + [names[i]];
    }
    assert names[..|names|] == names;
  }

  method AddToWindows(totals: map<Period, real>, names: seq<Period>, x: real) returns (r: map<Period, real>)
    requires Distinct(names) && IsWindowMap(totals)
    ensures IsWindowMap(r)
    ensures forall n: Period :: r[n] == if n in names then totals[n] + x else totals[n]
  {
    r := totals;
    for i := 0 to |names|
      invariant IsWindowMap(r)
      invariant forall n: Period :: r[n] == if n in names[..i] then totals[n] + x else totals[n]
    {
      assert names[i] !in names[..i];
      r := r[names[i] := r[names[i]] + x];
      assert names[..i + 1] == names[..i] + [names[i]];
    }
    assert names[..|names|] == names;
  }

  /** What one line adds to the counters. */
  ghost predicate Counted(l: Line, t: Tally, t': Tally) {
    && t'.unknownCosts == t.unknownCosts + (if l.kind.MissingCost? || l.kind.InvalidCost? then 1 else 0)
    && t'.unknownTaxes == t.unknownTaxes + (if l.kind.UnknownTax? then 1 else 0)
    && t'.fxIncomplete == t.fxIncomplete + (if l.kind.FxIncomplete? then 1 else 0)
    && t'.warned == t.warned + (match l.kind
                                case InvalidCost => {InvalidCostRecord}
                                case UnknownTax => {TaxPolicyUnknown}
                                case FxIncomplete => {FxRateMissingOrStale}
                                case _ => {})
  }

  ghost predicate Added(l: Line, t: Tally, t': Tally, p: nat)
    requires p >= 1
  {
    && t'.renewal == t.renewal + Share(l, Renewal, p) && t'.tax == t.tax + Share(l, Tax, p)
    && t'.yearly == t.yearly + Share(l, Yearly, p)
  }

  ghost predicate Windowed(l: Line, t: Tally, t': Tally, p: nat)
    requires p >= 1 && IsWindowMap(t.windows) && IsWindowMap(t.totals)
  {
    && IsWindowMap(t'.windows) && IsWindowMap(t'.totals)
    && (forall n: Period ::
          t'.windows[n] == if n in l.windows
                           then Raised(t.windows[n], 1, if l.kind.Included? then 1 else 0,
                                       if l.kind.MissingCost? then 1 else 0)
                           else t.windows[n])
    && (forall n: Period :: t'.totals[n] == t.totals[n] + if n in l.windows then Share(l, Renewal, p) else 0.0)
  }

  lemma Snoc(ls: seq<Line>, l: Line)
    ensures (ls + [l])[..|ls|] == ls && (ls + [l])[|ls|] == l
  {
  }

  lemma CountSnoc(ls: seq<Line>, l: Line, k: Option<Kind>, w: Option<Period>)
    ensures CountOf(ls + [l], k, w) == CountOf(ls, k, w) + if Matches(l, k, w) then 1 else 0
  {
    Snoc(ls, l);
  }

  lemma SumSnoc(ls: seq<Line>, l: Line, m: Measure, w: Option<Period>, p: nat)
    requires p >= 1
    ensures SumOf(ls + [l], m, w, p) == SumOf(ls, m, w, p) + if Within(l, w) then Share(l, m, p) else 0.0
  {
    Snoc(ls, l);
  }

  lemma CountsStep(ls: seq<Line>, l: Line, t: Tally, t': Tally)
    requires CountsTallied(ls, t) && Counted(l, t, t')
    ensures CountsTallied(ls + [l], t')
  {
    CountSnoc(ls, l, Some(MissingCost), None);
    CountSnoc(ls, l, Some(InvalidCost), None);
    CountSnoc(ls, l, Some(UnknownTax), None);
    CountSnoc(ls, l, Some(FxIncomplete), None);
  }

  lemma SumsStep(ls: seq<Line>, l: Line, t: Tally, t': Tally, p: nat)
    requires p >= 1 && SumsTallied(ls, t, p) && Added(l, t, t', p)
    ensures SumsTallied(ls + [l], t', p)
  {
    SumSnoc(ls, l, Renewal, None, p);
    SumSnoc(ls, l, Tax, None, p);
    SumSnoc(ls, l, Yearly, None, p);
  }

  lemma WindowsStep(ls: seq<Line>, l: Line, t: Tally, t': Tally, p: nat)
    requires p >= 1 && WindowsTallied(ls, t, p) && Windowed(l, t, t', p)
    ensures WindowsTallied(ls + [l], t', p)
  {
    forall n: Period
      ensures WindowTallied(ls + [l], n, t'.windows[n]) && t'.totals[n] == SumOf(ls + [l], Renewal, Some(n), p)
    {
      CountSnoc(ls, l, None, Some(n));
      CountSnoc(ls, l, Some(Included), Some(n));
      CountSnoc(ls, l, Some(MissingCost), Some(n));
      SumSnoc(ls, l, Renewal, Some(n), p);
    }
  }

  /** A domain's converted amounts, or the branch that left it out. */
  datatype Verdict = Amounts(cycle: real, tax: real, yearly: real) | LeftOut(kind: Kind)

  ghost predicate Agrees(v: Verdict, l: Line, p: nat)
    requires p >= 1
  {
    match v
    case LeftOut(k) => l.kind == k && !k.Included?
    case Amounts(cycle, tax, yearly) =>
      l.kind.Included? && cycle == Share(l, Renewal, p) && tax == Share(l, Tax, p) && yearly == Share(l, Yearly, p)
  }

  function Contributed(v: real, p: nat, rate: Option<real>): Option<real>
    requires p >= 1
  {
    match rate case None => None case Some(r) => Some(Contribution(v, p, r))
  }

  lemma ProductContributed(v: real, p: nat, rate: Option<real>)
    requires p >= 1
    ensures Product(Some(RoundedBy(v, p)), rate) == Contributed(v, p, rate)
  {
  }

  lemma ConvertShare(c: Context, v: real, currency: string)
    ensures ConvertForSummary(c, Print(v, c.scale), currency) ==
              Contributed(v, Pow10(c.scale), AppliedRate(c, currency))
  {
    ConvertPrinted(c, v, currency);
    ProductContributed(v, Pow10(c.scale), AppliedRate(c, currency));
  }

  lemma ResultConverts(c: Context, t: Terms)
    requires t.Valid(c.scale) && !t.mode.TaxUnknown?
    ensures var r := ResultOf(t, c.scale); var ch := ChargeOf(t); var rate := AppliedRate(c, t.currency);
            && r.complete && r.currency == t.currency && r.cycleTotal.Some? && r.taxAmount.Some?
            && r.annualEstimate.Some?
            && (rate.None? ==> ConvertForSummary(c, r.cycleTotal.value, t.currency).None?)
            && (rate.Some? ==>
                  && ConvertForSummary(c, r.cycleTotal.value, t.currency) ==
                       Some(Contribution(ch.total, Pow10(c.scale), rate.value))
                  && ConvertForSummary(c, r.taxAmount.value, t.currency) ==
                       Some(Contribution(ch.tax, Pow10(c.scale), rate.value))
                  && ConvertForSummary(c, r.annualEstimate.value, t.currency) ==
                       Some(Contribution(ch.annual, Pow10(c.scale), rate.value)))
  {
    var ch := ChargeOf(t);
    PrintedFields(t, ch, c.scale);
    ConvertShare(c, ch.total, t.currency);
    ConvertShare(c, ch.tax, t.currency);
    ConvertShare(c, ch.annual, t.currency);
  }

  ghost predicate PricedAs(c: Context, t: Terms, v: Verdict)
    requires t.Valid(c.scale)
  {
    match v
    case LeftOut(k) => if t.mode.TaxUnknown? then k.UnknownTax? else k.FxIncomplete? && AppliedRate(c, t.currency).None?
    case Amounts(cycle, tax, yearly) =>
      && !t.mode.TaxUnknown? && AppliedRate(c, t.currency).Some?
      && var rate := AppliedRate(c, t.currency).value; var p := Pow10(c.scale); var ch := ChargeOf(t);
         && cycle == Contribution(ch.total, p, rate) && tax == Contribution(ch.tax, p, rate)
         && yearly == Contribution(ch.annual, p, rate)
  }

  lemma PricedAgrees(c: Context, i: Item, t: Terms, v: Verdict)
    requires HasCost(i) && Read(InputOf(i), c.scale) == Accepted(t) && t.Valid(c.scale) && PricedAs(c, t, v)
    ensures Agrees(v, LineOf(c, i), Pow10(c.scale))
  {
  }

  /** Price a cost and convert its three printed amounts; the source does not check the conversions of tax
      and yearly estimate, and need not. */
  method Price(c: Context, result: CostResult, ghost t: Terms) returns (r: Verdict)
    requires t.Valid(c.scale) && result == ResultOf(t, c.scale)
    ensures PricedAs(c, t, r)
  {
    if !result.complete { return LeftOut(UnknownTax); }
    ResultConverts(c, t);
    var cycle := ConvertForSummary(c, result.cycleTotal.value, result.currency);
    if cycle.None? { return LeftOut(FxIncomplete); }
    var tax := ConvertForSummary(c, result.taxAmount.value, result.currency);
    var yearly := ConvertForSummary(c, result.annualEstimate.value, result.currency);
    return Amounts(cycle.value, tax.value, yearly.value);
  }

  /** The loop's branches, in the source's order. */
  method Judge(c: Context, i: Item) returns (r: Verdict)
    ensures Agrees(r, LineOf(c, i), Pow10(c.scale))
  {
    if i.amount.None? || i.currency.None? || i.taxMode.None? || i.months.None? { return LeftOut(MissingCost); }
    var calculation := Calculate(InputOf(i), c.scale);
    if calculation.Rejected? { return LeftOut(InvalidCost); }
    ReadIsValid(InputOf(i), c.scale);
    ghost var t := Read(InputOf(i), c.scale).terms;
    r := Price(c, calculation.result, t);
    PricedAgrees(c, i, t, r);
  }

  method Account(names: seq<Period>, v: Verdict, t: Tally, ghost l: Line, ghost p: nat) returns (r: Tally)
    requires IsWindowMap(t.windows) && IsWindowMap(t.totals)
    requires p >= 1 && l.Valid() && names == l.windows && Agrees(v, l, p)
    ensures Counted(l, t, r) && Added(l, t, r, p) && Windowed(l, t, r, p)
  {
    var windows := RaiseWindows(t.windows, names, 1, 0, 0);
    r := t.(windows := windows);
    match v
    case Amounts(cycle, tax, yearly) =>
      var totals := AddToWindows(t.totals, names, cycle);
      windows := RaiseWindows(windows, names, 0, 1, 0);
      r := r.(renewal := t.renewal + cycle, tax := t.tax + tax, yearly := t.yearly + yearly, windows := windows,
              totals := totals);
    case LeftOut(kind) =>
      if kind == MissingCost {
        windows := RaiseWindows(windows, names, 0, 0, 1);
        r := r.(unknownCosts := t.unknownCosts + 1, windows := windows);
      } else if kind == InvalidCost {
        r := r.(unknownCosts := t.unknownCosts + 1, warned := t.warned + {InvalidCostRecord});
      } else if kind == UnknownTax {
        r := r.(unknownTaxes := t.unknownTaxes + 1, warned := t.warned + {TaxPolicyUnknown});
      } else {
        r := r.(fxIncomplete := t.fxIncomplete + 1, warned := t.warned + {FxRateMissingOrStale});
      }
  }

  // ---- Purchases ---------------------------------------------------------------------------------

  /** What a purchase is worth in the reporting currency, if its amount reads and its currency has a rate. */
  function PurchaseValue(c: Context, x: Purchase): Option<real> {
    Product(ParseDecimal(x.amount, c.scale), QuotedRate(c, x.currency))
  }

  lemma ConvertIsValue(c: Context, x: Purchase)
    ensures ConvertForSummary(c, x.amount, x.currency) == PurchaseValue(c, x)
  {
    AppliedIsQuoted(c, x.currency);
  }

  function PurchaseSum(c: Context, ps: seq<Purchase>): real {
    if ps == [] then 0.0
    else
      var x := PurchaseValue(c, ps[|ps| - 1]);
      PurchaseSum(c, ps[..|ps| - 1]) + if x.Some? then x.value else 0.0
  }

  function PurchasesIncomplete(c: Context, ps: seq<Purchase>): nat {
    if ps == [] then 0
    else PurchasesIncomplete(c, ps[..|ps| - 1]) + if PurchaseValue(c, ps[|ps| - 1]).None? then 1 else 0
  }

  method CurrentPurchaseTotal(c: Context, ps: seq<Purchase>) returns (total: real, incomplete: nat)
    ensures total == PurchaseSum(c, ps) && incomplete == PurchasesIncomplete(c, ps)
  {
    total, incomplete := 0.0, 0;
    for i := 0 to |ps|
      invariant total == PurchaseSum(c, ps[..i]) && incomplete == PurchasesIncomplete(c, ps[..i])
    {
      assert ps[..i + 1][..i] == ps[..i];
      var converted := ConvertForSummary(c, ps[i].amount, ps[i].currency);
      ConvertIsValue(c, ps[i]);
      if converted.None? {
        incomplete := incomplete + 1;
      } else {
        total := total + converted.value;
      }
    }
    assert ps[..|ps|] == ps;
  }

  // ---- BudgetSummary -------------------------------------------------------------------------------

  const CODES := [TaxPolicyUnknown, FxRateMissingOrStale, InvalidCostRecord, PurchaseTotalIncomplete]

  method ChooseWarnings(warned: set<Code>) returns (r: seq<Code>)
    ensures FirstOf(CODES, warned, r, |CODES|)
  {
    r := [];
    FirstOfNone(CODES, warned, |CODES|);
    for i := 0 to |CODES|
      invariant FirstOf(CODES[..i], warned, r, |CODES|) && |r| <= i && forall x :: x in r ==> x in CODES[..i]
    {
      FirstOfNext(CODES, warned, r, |CODES|, i);
      CodeIsNew(i, r);
      if CODES[i] in warned { r := r + [CODES[i]]; }
      assert CODES[..i + 1] == CODES[..i] + [CODES[i]];
    }
    assert CODES[..|CODES|] == CODES;
  }

  lemma CodeIsNew(i: nat, r: seq<Code>)
    requires i < |CODES| && (forall x :: x in r ==> x in CODES[..i])
    requires |r| <= i
    ensures CODES[i] !in r && |r| < |CODES|
  {
    assert forall k :: 0 <= k < i ==> CODES[k] != CODES[i];
  }

  /** The accumulation loop. */
  method Accumulate(c: Context, items: seq<Item>) returns (t: Tally)
    ensures Tallied(Lines(c, items), t, Pow10(c.scale))
  {
    ghost var p := Pow10(c.scale);
    var zero := Window(0, 0, 0, "");
    var windows := map[Next30 := zero, Next60 := zero, Next90 := zero, ThisYear := zero];
    var totals := map[Next30 := 0.0, Next60 := 0.0, Next90 := 0.0, ThisYear := 0.0];
    t := Tally(0, 0, 0, 0.0, 0.0, 0.0, windows, totals, {});
    ghost var ls := Lines(c, items);
    forall n: Period ensures n in windows && n in totals && windows[n] == zero && totals[n] == 0.0 { EveryPeriod(n); }
    NothingTallied(t, p);
    assert ls[..0] == [];
    for k := 0 to |items|
      invariant Tallied(ls[..k], t, p)
    {
      var names := WindowsOf(c, items[k].expiresAt);
      var verdict := Judge(c, items[k]);
      LineValid(c, items[k]);
      ghost var l := LineOf(c, items[k]);
      LineWindows(c, items[k]);
      t := Record(names, verdict, t, l, ls[..k], p);
      assert ls[..k + 1] == ls[..k] + [l];
    }
    assert ls[..|items|] == ls;
  }

  method Record(names: seq<Period>, v: Verdict, t: Tally, ghost l: Line, ghost ls: seq<Line>, ghost p: nat)
      returns (r: Tally)
    requires p >= 1 && l.Valid() && names == l.windows && Agrees(v, l, p) && Tallied(ls, t, p)
    ensures Tallied(ls + [l], r, p)
  {
    r := Account(names, v, t, l, p);
    TallyStep(ls, l, t, r, p);
  }

  lemma NothingTallied(t: Tally, p: nat)
    requires p >= 1 && t.unknownCosts == t.unknownTaxes == t.fxIncomplete == 0 && t.renewal == t.tax == t.yearly == 0.0
    requires t.warned == {}
    requires IsWindowMap(t.windows) && IsWindowMap(t.totals)
    requires forall n: Period :: t.windows[n] == Window(0, 0, 0, "") && t.totals[n] == 0.0
    ensures Tallied([], t, p)
  {
  }

  lemma LineWindows(c: Context, i: Item)
    ensures LineOf(c, i).windows == WindowsOf(c, i.expiresAt)
  {
  }

  lemma TallyStep(ls: seq<Line>, l: Line, t: Tally, t': Tally, p: nat)
    requires p >= 1 && Tallied(ls, t, p) && Counted(l, t, t') && Added(l, t, t', p) && Windowed(l, t, t', p)
    ensures Tallied(ls + [l], t', p)
  {
    CountsStep(ls, l, t, t');
    SumsStep(ls, l, t, t', p);
    WindowsStep(ls, l, t, t', p);
  }

  ghost predicate ReportsCounts(c: Context, ls: seq<Line>, ps: seq<Purchase>, s: Summary) {
    && s.reporting == c.reporting
    && s.unknownCosts == CountOf(ls, Some(MissingCost), None) + CountOf(ls, Some(InvalidCost), None)
    && s.unknownTaxes == CountOf(ls, Some(UnknownTax), None)
    && s.fxIncomplete == CountOf(ls, Some(FxIncomplete), None) + PurchasesIncomplete(c, ps)
  }

  ghost predicate ReportsTotals(c: Context, ls: seq<Line>, ps: seq<Purchase>, s: Summary) {
    var p := Pow10(c.scale);
    && s.currentTotal == Print(PurchaseSum(c, ps), c.scale)
    && s.renewalTotal == Print(SumOf(ls, Renewal, None, p), c.scale)
    && s.estimatedTax == Print(SumOf(ls, Tax, None, p), c.scale)
    && s.annualBudget == Print(SumOf(ls, Yearly, None, p), c.scale)
  }

  ghost predicate ReportsWindows(ls: seq<Line>, windows: map<Period, Window>, scale: nat) {
    && IsWindowMap(windows)
    && (forall n: Period :: WindowTallied(ls, n, windows[n]))
    && (forall n: Period :: windows[n].renewalTotal == Print(SumOf(ls, Renewal, Some(n), Pow10(scale)), scale))
  }

  /** What a summary reports of the lines: every field. */
  ghost predicate Reports(c: Context, ls: seq<Line>, ps: seq<Purchase>, s: Summary) {
    ReportsCounts(c, ls, ps, s) && ReportsTotals(c, ls, ps, s) && ReportsWindows(ls, s.windows, c.scale)
  }

  /** The warnings that are due. */
  ghost function WarningsDue(c: Context, ls: seq<Line>, ps: seq<Purchase>): set<Code> {
    (if CountOf(ls, Some(UnknownTax), None) > 0 then {TaxPolicyUnknown} else {})
    + (if CountOf(ls, Some(FxIncomplete), None) > 0 then {FxRateMissingOrStale} else {})
    + (if CountOf(ls, Some(InvalidCost), None) > 0 then {InvalidCostRecord} else {})
    + (if PurchasesIncomplete(c, ps) > 0 then {PurchaseTotalIncomplete} else {})
  }

  /** Exactly those, once each and in the fixed order. */
  ghost predicate Warns(c: Context, ls: seq<Line>, ps: seq<Purchase>, warnings: seq<Code>) {
    FirstOf([TaxPolicyUnknown, FxRateMissingOrStale, InvalidCostRecord, PurchaseTotalIncomplete],
            WarningsDue(c, ls, ps), warnings, 4)
  }

  /** The summary in a context whose reporting currency is accepted. */
  method Summarize(c: Context, items: seq<Item>, ps: seq<Purchase>) returns (s: Summary)
    ensures Reports(c, Lines(c, items), ps, s) && Warns(c, Lines(c, items), ps, s.warnings)
    ensures s.complete <==> s.unknownCosts + s.unknownTaxes + s.fxIncomplete == 0
  {
    var t := Accumulate(c, items);
    var current, currentIncomplete := CurrentPurchaseTotal(c, ps);
    var warned, fxIncomplete := t.warned, t.fxIncomplete;
    if currentIncomplete > 0 {
      fxIncomplete := fxIncomplete + currentIncomplete;
      warned := warned + {PurchaseTotalIncomplete};
    }
    var windows := PrintWindows(t, c.scale, Lines(c, items));
    var warnings := ChooseWarnings(warned);
    WarningsMatch(c, Lines(c, items), ps, t, warned, warnings);
    var complete := t.unknownCosts == 0 && t.unknownTaxes == 0 && fxIncomplete == 0;
    var texts := PrintSums(c, t, current, Lines(c, items), ps);
    s := texts.(reporting := c.reporting, unknownCosts := t.unknownCosts, unknownTaxes := t.unknownTaxes,
                fxIncomplete := fxIncomplete, windows := windows, warnings := warnings, complete := complete);
  }

  /** The four printed totals, in an otherwise empty summary. */
  method PrintSums(c: Context, t: Tally, current: real, ghost ls: seq<Line>, ghost ps: seq<Purchase>)
      returns (s: Summary)
    requires SumsTallied(ls, t, Pow10(c.scale)) && current == PurchaseSum(c, ps)
    ensures ReportsTotals(c, ls, ps, s)
  {
    s := Summary("", 0, 0, 0, Print(current, c.scale), Print(t.renewal, c.scale), Print(t.tax, c.scale),
                 Print(t.yearly, c.scale), map[], [], false);
  }

  method PrintWindows(t: Tally, scale: nat, ghost ls: seq<Line>) returns (windows: map<Period, Window>)
    requires WindowsTallied(ls, t, Pow10(scale))
    ensures ReportsWindows(ls, windows, scale)
  {
    windows := PrintTotals(t.windows, t.totals, scale);
  }

  /** `BudgetSummary`: None for a reporting currency that is not a three-letter code. */
  method BudgetSummary(base: Context, items: seq<Item>, ps: seq<Purchase>) returns (r: Option<Summary>)
    ensures r.None? <==> ByteLength(NormalizeCurrency(base.reporting)) != 3
    ensures var c := Normalized(base);
            r.Some? ==> Reports(c, Lines(c, items), ps, r.value) && Warns(c, Lines(c, items), ps, r.value.warnings)
    ensures r.Some? ==> (r.value.complete <==> r.value.unknownCosts + r.value.unknownTaxes + r.value.fxIncomplete == 0)
  {
    var c := Normalized(base);
    if ByteLength(c.reporting) != 3 { return None; }
    var s := Summarize(c, items, ps);
    return Some(s);
  }

  /** The loop over the window totals. */
  method PrintTotals(windows: map<Period, Window>, totals: map<Period, real>, scale: nat)
      returns (r: map<Period, Window>)
    requires IsWindowMap(windows) && IsWindowMap(totals)
    ensures IsWindowMap(r)
    ensures forall n: Period :: r[n] == windows[n].(renewalTotal := Print(totals[n], scale))
  {
    ghost var texts := map n | n in totals :: Print(totals[n], scale);
    r := windows;
    for i := 0 to |PERIODS|
      invariant IsWindowMap(r)
      invariant forall n: Period ::
                  r[n] == if n in PERIODS[..i] then windows[n].(renewalTotal := texts[n]) else windows[n]
    {
      var n := PERIODS[i];
      r := r[n := r[n].(renewalTotal := Print(totals[n], scale))];
      assert PERIODS[..i + 1] == PERIODS[..i] + [n];
    }
    forall n: Period ensures r[n] == windows[n].(renewalTotal := texts[n]) {
      EveryPeriod(n);
      assert PERIODS[..|PERIODS|] == PERIODS;
    }
  }

  lemma WarningsMatch(c: Context, ls: seq<Line>, ps: seq<Purchase>, t: Tally, warned: set<Code>, warnings: seq<Code>)
    requires CountsTallied(ls, t) && FirstOf(CODES, warned, warnings, |CODES|)
    requires warned == if PurchasesIncomplete(c, ps) > 0 then t.warned + {PurchaseTotalIncomplete} else t.warned
    ensures Warns(c, ls, ps, warnings)
  {
    var due := WarningsDue(c, ls, ps);
    forall x ensures x in warned <==> x in due {
      match x
      case TaxPolicyUnknown =>
      case FxRateMissingOrStale =>
      case InvalidCostRecord =>
      case PurchaseTotalIncomplete =>
    }
    assert warned == due;
  }

  // ---- What every summary satisfies -------------------------------------------------------------

  /** The lines of any items are valid, so that the laws below hold of every summary. */
  lemma LinesValid(c: Context, items: seq<Item>)
    ensures AllValid(Lines(c, items))
  {
    forall k | 0 <= k < |items| ensures Lines(c, items)[k].Valid() { LineValid(c, items[k]); }
  }

  /** Every domain is counted once, and in every window known and unknown costs stay within its domains. */
  lemma SummaryCounts(c: Context, ls: seq<Line>, ps: seq<Purchase>, s: Summary)
    requires AllValid(ls) && Reports(c, ls, ps, s)
    ensures CountOf(ls, Some(Included), None) + s.unknownCosts + s.unknownTaxes + s.fxIncomplete
         == |ls| + PurchasesIncomplete(c, ps)
    ensures forall n: Period ::
              s.windows[n].knownRenewals + s.windows[n].unknownCosts <= s.windows[n].domainCount <= |ls|
    ensures s.windows[Next30].domainCount <= s.windows[Next60].domainCount <= s.windows[Next90].domainCount
  {
    CountedOnce(ls, None);
    NestedWindows(ls, None, Renewal, 1);
    forall n: Period
      ensures s.windows[n].knownRenewals + s.windows[n].unknownCosts <= s.windows[n].domainCount <= |ls|
    {
      CountedOnce(ls, Some(n));
      Contained(ls, None, Renewal, Some(n), None, 1);
    }
  }

  /** The printed totals of the nested windows are ordered and stay within the overall total. */
  lemma SummaryNested(c: Context, ls: seq<Line>, ps: seq<Purchase>, s: Summary)
    requires AllValid(ls) && Reports(c, ls, ps, s)
    ensures Value(s.windows[Next30].renewalTotal, c.scale) <= Value(s.windows[Next60].renewalTotal, c.scale)
         <= Value(s.windows[Next90].renewalTotal, c.scale) <= Value(s.renewalTotal, c.scale)
    ensures Value(s.windows[ThisYear].renewalTotal, c.scale) <= Value(s.renewalTotal, c.scale)
  {
    PrintedNested(ls, Renewal, Some(Next30), Some(Next60), c.scale);
    PrintedNested(ls, Renewal, Some(Next60), Some(Next90), c.scale);
    PrintedNested(ls, Renewal, Some(Next90), None, c.scale);
    PrintedNested(ls, Renewal, Some(ThisYear), None, c.scale);
  }

  lemma TextNear(text: string, ls: seq<Line>, m: Measure, w: Option<Period>, scale: nat)
    requires AllValid(ls) && text == Print(SumOf(ls, m, w, Pow10(scale)), scale)
    ensures Near(Value(text, scale), ExactSum(ls, m, w), Pow10(scale), 1.0 + RateSum(ls, w))
  {
    ReportedNear(ls, m, w, scale);
  }

  function TotalText(s: Summary, m: Measure): string {
    match m case Renewal => s.renewalTotal case Tax => s.estimatedTax case Yearly => s.annualBudget
  }

  /** Each of the three totals is within half a unit times (1 + the rates applied) of exact arithmetic. */
  lemma SummaryNear(c: Context, ls: seq<Line>, ps: seq<Purchase>, s: Summary, m: Measure)
    requires AllValid(ls) && Reports(c, ls, ps, s)
    ensures Near(Value(TotalText(s, m), c.scale), ExactSum(ls, m, None), Pow10(c.scale), 1.0 + RateSum(ls, None))
  {
    TextNear(TotalText(s, m), ls, m, None, c.scale);
  }

  /** Purchases are summed without rounding: the printed total is within half a unit. */
  lemma PurchasesNear(c: Context, ls: seq<Line>, ps: seq<Purchase>, s: Summary)
    requires Reports(c, ls, ps, s)
    ensures WithinHalf(Value(s.currentTotal, c.scale), PurchaseSum(c, ps), Pow10(c.scale))
  {
    PrintNear(PurchaseSum(c, ps), c.scale);
  }

  /** The total of every window obeys the bound of the overall totals, with the rates applied in it. */
  lemma WindowNear(c: Context, ls: seq<Line>, ps: seq<Purchase>, s: Summary, n: Period)
    requires AllValid(ls) && Reports(c, ls, ps, s)
    ensures Near(Value(s.windows[n].renewalTotal, c.scale), ExactSum(ls, Renewal, Some(n)), Pow10(c.scale),
                 1.0 + RateSum(ls, Some(n)))
  {
    TextNear(s.windows[n].renewalTotal, ls, Renewal, Some(n), c.scale);
  }

  // ---- The conversion endpoint and the summary agree ------------------------------------------------

  function ConverterInput(c: Context, amount: string, currency: string): FxInput {
    var from := NormalizeCurrency(currency);
    var q := if from in c.rates then c.rates[from] else Quote("", None);
    FxInput(amount, q.rate, currency, c.reporting, q.observedAt, c.now, c.maxAge)
  }

  lemma BlankIsNoDecimal(scale: nat)
    ensures ParseDecimal("", scale).None?
  {
    assert TrimSpace("") == "" && Whole("") == "";
  }

  /** For every amount, currency and table of quotes: `Convert` accepts exactly the non-negative amounts the summary
      parses, completes exactly when the summary converts and no conversion is asked of a maximum age that is not
      positive, and then prints the same amount. */
  lemma ConvertersAgree(base: Context, amount: string, currency: string)
    ensures var c := Normalized(base);
            var r := Convert(ConverterInput(c, amount, currency), c.scale);
            var x := ConvertForSummary(c, amount, currency);
            && (r.Converted? <==> ParseDecimal(amount, c.scale).Some? && ParseDecimal(amount, c.scale).value >= 0.0)
            && (r.Converted? ==>
                  && (r.result.complete <==> x.Some? && (NormalizeCurrency(currency) == c.reporting || c.maxAge > 0))
                  && (r.result.complete ==> r.result.converted == Some(Print(x.value, c.scale))))
  {
    NormalizeTwice(base.reporting);
    BlankIsNoDecimal(RATE_SCALE);
    if ParseDecimal(amount, base.scale).Some? {
      TimesOne(ParseDecimal(amount, base.scale).value);
    }
  }
}
