/** Renewal costs: tax modes, billing cycles and currency conversion (internal/finance/engine.go).
    The source prints and reads money at scale 6 and rates at scale 10. Here the money scale is a
    parameter, so that the laws hold at any scale. */
module Costs {
  import opened Text
  import opened Arithmetic
  import opened Decimals

  const RATE_SCALE := 10

  datatype CostInput = CostInput(amount: string, currency: string, taxRate: Option<string>, taxMode: string,
                                 months: int)

  datatype CostResult = CostResult(
    currency: string, cycleAmount: string, taxAmount: Option<string>, cycleTotal: Option<string>,
    annualEstimate: Option<string>, months: int, formula: string, complete: bool, warnings: seq<string>)

  datatype Calculation = Priced(result: CostResult) | Rejected(reason: string)

  function NormalizeCurrency(s: string): string {
    ToUpper(TrimSpace(s))
  }

  /** Normalizing a currency again changes nothing. */
  lemma {:induction false} NormalizeTwice(s: string)
    ensures NormalizeCurrency(NormalizeCurrency(s)) == NormalizeCurrency(s)
  {
    var t := TrimSpace(s);
    var u := ToUpper(t);
    TrimSpaceTrims(s);
    ToUpperAt(t);
    ToUpperAt(u);
    if t == "" {
      assert u == "" && TrimSpace(u) == "";
    } else {
      TrimSpaceIdle(u);
      assert forall i :: 0 <= i < |t| ==> ToUpper(u)[i] == UpperChar(UpperChar(t[i])) == u[i];
      assert ToUpper(u) == u;
    }
  }

  // ---- Reading a record -----------------------------------------------------------------

  datatype TaxMode = TaxUnknown | TaxExempt | TaxExclusive | TaxInclusive

  /** An accepted record; the rate is zero when none applies. */
  datatype Terms = Terms(amount: real, currency: string, months: int, mode: TaxMode, rate: real) {
    predicate Valid(scale: nat) {
      && amount >= 0.0 && OnGrid(amount, scale) && ByteLength(currency) == 3 && 1 <= months <= 120 && 0.0 <= rate <= 1.0
      && (rate > 0.0 ==> mode.TaxExclusive? || mode.TaxInclusive?)
    }
  }

  datatype Reading = Accepted(terms: Terms) | Refused(reason: string)

  function Months(months: int): int {
    if months == 0 then 12 else months
  }

  function ModeName(s: string): string {
    var mode := ToLower(TrimSpace(s));
    if mode == "" then "unknown" else mode
  }

  function ReadTax(t: Terms, mode: string, rate: Option<string>): Reading {
    if mode == "unknown" then
      if rate.Some? then Refused("tax_rate must be null when tax_mode is unknown") else Accepted(t)
    else if mode == "exempt" then
      if rate.Some? && ParseDecimal(rate.value, RATE_SCALE) != Some(0.0)
        then Refused("tax_rate must be null or zero when tax_mode is exempt")
      else Accepted(t.(mode := TaxExempt))
    else if mode != "exclusive" && mode != "inclusive"
      then Refused("tax_mode must be exclusive, inclusive, exempt, or unknown")
    else if rate.None? then Refused("tax_rate is required for inclusive or exclusive tax")
    else
      var r := ParseDecimal(rate.value, RATE_SCALE);
      if r.None? || r.value < 0.0 || r.value > 1.0
        then Refused("tax_rate must be between 0 and 1 with at most 10 decimal places")
      else Accepted(t.(mode := if mode == "exclusive" then TaxExclusive else TaxInclusive, rate := r.value))
  }

  function Read(i: CostInput, scale: nat): Reading {
    var amount := ParseDecimal(i.amount, scale);
    if amount.None? || amount.value < 0.0
      then Refused("amount must be a non-negative decimal string with at most 6 decimal places")
    else if ByteLength(NormalizeCurrency(i.currency)) != 3 then Refused("currency must be a three-letter code")
    else if Months(i.months) < 1 || Months(i.months) > 120
      then Refused("billing cycle must be between 1 and 120 months")
    else ReadTax(Terms(amount.value, NormalizeCurrency(i.currency), Months(i.months), TaxUnknown, 0.0),
                 ModeName(i.taxMode), i.taxRate)
  }

  // ---- Pricing ------------------------------------------------------------------------

  /** The exact tax, cycle total and yearly amount behind the printed ones. */
  datatype Charge = Charge(tax: real, total: real, annual: real)

  function Annual(total: real, months: int): real
    requires months >= 1
  {
    total * 12.0 / months as real
  }

  function Exempt(amount: real, months: int): Charge
    requires months >= 1
  {
    Charge(0.0, amount, Annual(amount, months))
  }

  function Exclusive(amount: real, rate: real, months: int): Charge
    requires months >= 1
  {
    var tax := amount * rate;
    Charge(tax, amount + tax, Annual(amount + tax, months))
  }

  function Inclusive(amount: real, rate: real, months: int): Charge
    requires months >= 1 && rate >= 0.0
  {
    var base := amount / (1.0 + rate);
    Charge(amount - base, amount, Annual(amount, months))
  }

  /** The charge of a record whose tax is known. */
  function ChargeOf(t: Terms): Charge
    requires t.months >= 1 && t.rate >= 0.0 && !t.mode.TaxUnknown?
  {
    match t.mode
    case TaxExempt => Exempt(t.amount, t.months)
    case TaxExclusive => Exclusive(t.amount, t.rate, t.months)
    case TaxInclusive => Inclusive(t.amount, t.rate, t.months)
  }

  function ResultOf(t: Terms, scale: nat): CostResult
    requires t.Valid(scale)
  {
    var header := CostResult(t.currency, Print(t.amount, scale), None, None, None, t.months,
                             "cycle_total * (12 / " + Digits(t.months) + ")", false, []);
    if t.mode.TaxUnknown? then header.(warnings := ["TAX_POLICY_UNKNOWN"])
    else
      var c := ChargeOf(t);
      header.(taxAmount := Some(Print(c.tax, scale)), cycleTotal := Some(Print(c.total, scale)),
              annualEstimate := Some(Print(c.annual, scale)), complete := true)
  }

  function Calculate(i: CostInput, scale: nat): Calculation {
    match Read(i, scale)
    case Refused(reason) => Rejected(reason)
    case Accepted(t) => ReadIsValid(i, scale); Priced(ResultOf(t, scale))
  }

  lemma ReadIsValid(i: CostInput, scale: nat)
    requires Read(i, scale).Accepted?
    ensures Read(i, scale).terms.Valid(scale)
  {
    ParsedOnGrid(i.amount, scale);
    ReadTaxKeeps(Terms(ParseDecimal(i.amount, scale).value, NormalizeCurrency(i.currency), Months(i.months),
                       TaxUnknown, 0.0),
                 ModeName(i.taxMode), i.taxRate, scale);
  }

  lemma ReadTaxKeeps(t: Terms, mode: string, rate: Option<string>, scale: nat)
    requires t.Valid(scale) && t.mode.TaxUnknown? && t.rate == 0.0 && ReadTax(t, mode, rate).Accepted?
    ensures ReadTax(t, mode, rate).terms.Valid(scale)
  {
  }

  predicate TaxAccepted(mode: string, rate: Option<string>) {
    || (mode == "unknown" && rate.None?)
    || (mode == "exempt" && (rate.None? || ParseDecimal(rate.value, RATE_SCALE) == Some(0.0)))
    || (mode in ["exclusive", "inclusive"] && rate.Some? && InRange(ParseDecimal(rate.value, RATE_SCALE), 0.0, 1.0))
  }

  predicate InRange(d: Option<real>, low: real, high: real) {
    d.Some? && low <= d.value <= high
  }

  /** Exactly the records that are priced, and exactly those priced completely. */
  lemma CalculateAccepts(i: CostInput, scale: nat)
    ensures Calculate(i, scale).Priced? <==>
              && ParseDecimal(i.amount, scale).Some? && ParseDecimal(i.amount, scale).value >= 0.0
              && ByteLength(NormalizeCurrency(i.currency)) == 3
              && 0 <= i.months <= 120 && TaxAccepted(ModeName(i.taxMode), i.taxRate)
    ensures Calculate(i, scale).Priced? ==>
              && Read(i, scale).Accepted? && Read(i, scale).terms.Valid(scale)
              && Calculate(i, scale).result == ResultOf(Read(i, scale).terms, scale)
              && (Calculate(i, scale).result.complete <==> ModeName(i.taxMode) != "unknown")
  {
    var (mode, rate) := (ModeName(i.taxMode), i.taxRate);
    if ParseDecimal(i.amount, scale).Some? {
      ReadTaxAccepts(Terms(ParseDecimal(i.amount, scale).value, NormalizeCurrency(i.currency), Months(i.months),
                           TaxUnknown, 0.0), mode, rate);
    }
    if Read(i, scale).Accepted? { ReadIsValid(i, scale); }
  }

  lemma ReadTaxAccepts(t: Terms, mode: string, rate: Option<string>)
    requires t.mode.TaxUnknown?
    ensures ReadTax(t, mode, rate).Accepted? <==> TaxAccepted(mode, rate)
    ensures ReadTax(t, mode, rate).Accepted? ==> (ReadTax(t, mode, rate).terms.mode.TaxUnknown? <==> mode == "unknown")
  {
  }

  // ---- Laws of the exact amounts ---------------------------------------------------------

  /** What a charge must satisfy in each tax mode, stated without computing it. */
  ghost predicate Fair(mode: TaxMode, amount: real, rate: real, months: int, c: Charge)
    requires months >= 1
  {
    && 0.0 <= c.tax <= c.total
    && c.annual * months as real == c.total * 12.0
    && (mode.TaxExempt? ==> c.tax == 0.0 && c.total == amount)
    && (mode.TaxExclusive? ==> c.tax == amount * rate && c.total - c.tax == amount && c.tax <= amount)
    && (mode.TaxInclusive? ==> c.total == amount && (c.total - c.tax) * rate == c.tax && 2.0 * c.tax <= amount)
  }

  lemma AnnualScaled(total: real, months: int)
    requires months >= 1
    ensures Annual(total, months) * months as real == total * 12.0
    ensures total >= 0.0 ==> Annual(total, months) >= 0.0
  {
    Quotient(total * 12.0, months as real);
    ScaleSign(Annual(total, months), months as real);
  }

  lemma RateBounds(amount: real, rate: real)
    requires amount >= 0.0 && 0.0 <= rate <= 1.0
    ensures 0.0 <= amount * rate <= amount
  {
    assert amount * (1.0 - rate) >= 0.0;
    Distribute(1.0, rate, amount);
  }

  lemma ExclusiveFair(amount: real, rate: real, months: int)
    requires months >= 1 && amount >= 0.0 && 0.0 <= rate <= 1.0
    ensures Fair(TaxExclusive, amount, rate, months, Exclusive(amount, rate, months))
  {
    RateBounds(amount, rate);
    AnnualScaled(amount + amount * rate, months);
  }

  lemma BaseOf(amount: real, rate: real, base: real)
    requires amount >= 0.0 && 0.0 <= rate <= 1.0 && base * (1.0 + rate) == amount
    ensures base * rate == amount - base && 0.0 <= base * rate <= base
  {
    assert base * (1.0 + rate) == base + base * rate;
    ScaleSign(base, 1.0 + rate);
    RateBounds(base, rate);
  }

  lemma InclusiveFair(amount: real, rate: real, months: int)
    requires months >= 1 && amount >= 0.0 && 0.0 <= rate <= 1.0
    ensures Fair(TaxInclusive, amount, rate, months, Inclusive(amount, rate, months))
  {
    var base := amount / (1.0 + rate);
    Quotient(amount, 1.0 + rate);
    BaseOf(amount, rate, base);
    AnnualScaled(amount, months);
    assert amount - (amount - base) == base;
  }

  /** The definition leaves no choice. */
  lemma FairIsUnique(mode: TaxMode, amount: real, rate: real, months: int, c: Charge, d: Charge)
    requires months >= 1 && 0.0 <= rate && !mode.TaxUnknown?
    requires Fair(mode, amount, rate, months, c) && Fair(mode, amount, rate, months, d)
    ensures c == d
  {
    if mode.TaxInclusive? { InclusiveTaxUnique(amount, rate, c.tax, d.tax); }
    assert c.total == d.total;
    CancelEqual(c.annual, d.annual, months as real);
  }

  lemma InclusiveTaxUnique(amount: real, rate: real, t: real, u: real)
    requires 0.0 <= rate && (amount - t) * rate == t && (amount - u) * rate == u
    ensures t == u
  {
    Distribute(amount, t, rate);
    Distribute(amount, u, rate);
    Distribute(1.0, rate, t);
    Distribute(1.0, rate, u);
    CancelEqual(t, u, 1.0 + rate);
  }

  lemma ChargeIsFair(t: Terms, scale: nat)
    requires t.Valid(scale) && !t.mode.TaxUnknown?
    ensures Fair(t.mode, t.amount, t.rate, t.months, ChargeOf(t))
    ensures ChargeOf(t).annual >= 0.0
  {
    match t.mode
    case TaxExempt => AnnualScaled(t.amount, t.months);
    case TaxExclusive => ExclusiveFair(t.amount, t.rate, t.months);
    case TaxInclusive => InclusiveFair(t.amount, t.rate, t.months);
  }

  /** The tax mode a text names, in any case and padding; nothing names none but the four. */
  function Named(text: string): Option<TaxMode> {
    match ToLower(TrimSpace(text))
    case "" => Some(TaxUnknown)
    case "unknown" => Some(TaxUnknown)
    case "exempt" => Some(TaxExempt)
    case "exclusive" => Some(TaxExclusive)
    case "inclusive" => Some(TaxInclusive)
    case _ => None
  }

  /** The rate a record states: none when it is exempt. */
  function Stated(mode: TaxMode, rate: Option<string>): real {
    if mode.TaxExempt? || rate.None? then 0.0 else Value(rate.value, RATE_SCALE)
  }

  /** What a priced record reports, from its texts alone: amount, currency and cycle as stated; for a known tax mode
      the prints of the charge that is fair for the mode the text names; for an unknown one nothing but a warning. */
  lemma CalculateCharges(i: CostInput, scale: nat) returns (c: Charge)
    requires Calculate(i, scale).Priced?
    ensures var r, months := Calculate(i, scale).result, if i.months == 0 then 12 else i.months;
      && Named(i.taxMode).Some? && ParseDecimal(i.amount, scale).Some?
      && r.currency == ToUpper(TrimSpace(i.currency)) && r.months == months
      && r.cycleAmount == Print(Value(i.amount, scale), scale)
      && r.formula == "cycle_total * (12 / " + Digits(months) + ")"
      && if Named(i.taxMode) == Some(TaxUnknown) then
           && r.taxAmount.None? && r.cycleTotal.None? && r.annualEstimate.None? && !r.complete
           && r.warnings == ["TAX_POLICY_UNKNOWN"]
         else
           var mode := Named(i.taxMode).value;
           && Fair(mode, Value(i.amount, scale), Stated(mode, i.taxRate), months, c)
           && r.taxAmount == Some(Print(c.tax, scale)) && r.cycleTotal == Some(Print(c.total, scale))
           && r.annualEstimate == Some(Print(c.annual, scale)) && r.complete && r.warnings == []
  {
    CalculateAccepts(i, scale);
    var t := Read(i, scale).terms;
    c := if t.mode.TaxUnknown? then Charge(0.0, 0.0, 0.0) else ChargeOf(t);
    ReadMeans(i, scale);
    if !t.mode.TaxUnknown? {
      ChargeIsFair(t, scale);
      PrintedFields(t, c, scale);
    }
  }

  lemma ReadMeans(i: CostInput, scale: nat)
    requires Read(i, scale).Accepted?
    ensures var t := Read(i, scale).terms;
      && ParseDecimal(i.amount, scale) == Some(t.amount) && t.currency == ToUpper(TrimSpace(i.currency))
      && t.months == (if i.months == 0 then 12 else i.months) && Named(i.taxMode) == Some(t.mode)
      && t.rate == Stated(t.mode, i.taxRate)
  {
    ReadTaxMeans(Terms(ParseDecimal(i.amount, scale).value, NormalizeCurrency(i.currency), Months(i.months),
                       TaxUnknown, 0.0), i.taxMode, i.taxRate);
  }

  lemma ReadTaxMeans(t: Terms, text: string, rate: Option<string>)
    requires t.mode.TaxUnknown? && t.rate == 0.0 && ReadTax(t, ModeName(text), rate).Accepted?
    ensures var u := ReadTax(t, ModeName(text), rate).terms;
      && u == t.(mode := u.mode, rate := u.rate) && Named(text) == Some(u.mode) && u.rate == Stated(u.mode, rate)
  {
  }

  // ---- Laws of the printed amounts ----------------------------------------------------------

  /** The value a printed amount denotes. */
  function Value(s: string, scale: nat): real {
    match ParseDecimal(s, scale) case Some(v) => v case None => 0.0
  }

  lemma ValuePrint(v: real, scale: nat)
    ensures ParseDecimal(Print(v, scale), scale) == Some(Rounded(v, scale))
    ensures Value(Print(v, scale), scale) == Rounded(v, scale)
  {
    PrintParses(v, scale, scale);
  }

  lemma NearestShift(n: int, y: real)
    requires n >= 0 && y >= 0.0
    ensures Nearest(n as real + y) == n + Nearest(y)
  {
  }

  /** Rounding commutes with adding a multiple of the unit. */
  lemma RoundedSum(a: real, t: real, p: nat)
    requires p >= 1 && a >= 0.0 && t >= 0.0 && MultipleBy(a, p)
    ensures RoundedBy(a + t, p) == a + RoundedBy(t, p)
  {
    RoundedNonNegative(a, p);
    ScaleSign(t, p as real);
    Distribute(a, t, p as real);
    NearestShift(UnitsBy(a, p), t * p as real);
    assert UnitsBy(a + t, p) == UnitsBy(a, p) + UnitsBy(t, p);
    SumFromScaled(a, t, p);
  }

  lemma SumFromScaled(a: real, t: real, p: nat)
    requires p >= 1 && MultipleBy(a, p) && UnitsBy(a + t, p) == UnitsBy(a, p) + UnitsBy(t, p)
    ensures RoundedBy(a + t, p) == a + RoundedBy(t, p)
  {
    RoundedScaled(a + t, p);
    RoundedScaled(t, p);
    Distribute(a, RoundedBy(t, p), p as real);
    CancelEqual(RoundedBy(a + t, p), a + RoundedBy(t, p), p as real);
  }

  /** Exclusive tax: the printed total is the printed amount plus the printed tax, with no residue. */
  lemma ExclusivePrintsAdd(t: Terms, scale: nat)
    requires t.Valid(scale) && t.mode.TaxExclusive?
    ensures var r := ResultOf(t, scale);
            && Value(r.cycleTotal.value, scale) == Value(r.cycleAmount, scale) + Value(r.taxAmount.value, scale)
            && Value(r.cycleAmount, scale) == t.amount
  {
    var c := ChargeOf(t);
    ExclusiveFair(t.amount, t.rate, t.months);
    PrintedSum(t.amount, c.tax, scale);
    PrintedFields(t, c, scale);
    assert c.total == t.amount + c.tax;
  }

  lemma PrintedFields(t: Terms, c: Charge, scale: nat)
    requires t.Valid(scale) && !t.mode.TaxUnknown? && c == ChargeOf(t)
    ensures var r := ResultOf(t, scale);
            r.taxAmount == Some(Print(c.tax, scale)) && r.cycleTotal == Some(Print(c.total, scale))
            && r.annualEstimate == Some(Print(c.annual, scale)) && r.cycleAmount == Print(t.amount, scale)
  {
  }

  lemma PrintedSum(a: real, b: real, scale: nat)
    requires a >= 0.0 && b >= 0.0 && OnGrid(a, scale)
    ensures Value(Print(a + b, scale), scale) == Value(Print(a, scale), scale) + Value(Print(b, scale), scale)
    ensures Value(Print(a, scale), scale) == a
  {
    ValuePrint(a, scale);
    ValuePrint(b, scale);
    ValuePrint(a + b, scale);
    RoundedMultiple(a, Pow10(scale));
    RoundedSum(a, b, Pow10(scale));
  }

  lemma PrintedOrder(v: real, w: real, scale: nat)
    requires v <= w
    ensures Value(Print(v, scale), scale) <= Value(Print(w, scale), scale)
  {
    ValuePrint(v, scale);
    ValuePrint(w, scale);
    RoundedMonotone(v, w, Pow10(scale));
  }

  /** Inclusive tax: taxing the exact base gives the amount back, and the tax is at most half of it. */
  lemma InclusiveRecovers(t: Terms, scale: nat)
    requires t.Valid(scale) && t.mode.TaxInclusive?
    ensures var base := t.amount - ChargeOf(t).tax; base + base * t.rate == t.amount
    ensures 2.0 * ChargeOf(t).tax <= t.amount
  {
    InclusiveFair(t.amount, t.rate, t.months);
  }

  /** The printed inclusive total is the printed amount. */
  lemma InclusivePrintsAmount(t: Terms, scale: nat)
    requires t.Valid(scale) && t.mode.TaxInclusive?
    ensures ResultOf(t, scale).cycleTotal == Some(ResultOf(t, scale).cycleAmount)
  {
    PrintedFields(t, ChargeOf(t), scale);
  }

  /** The printed inclusive tax is at most half the amount, rounded. */
  lemma InclusivePrintsHalf(t: Terms, half: real, scale: nat)
    requires t.Valid(scale) && t.mode.TaxInclusive? && t.amount == 2.0 * half
    ensures Value(ResultOf(t, scale).taxAmount.value, scale) <= Value(Print(half, scale), scale)
  {
    var c := ChargeOf(t);
    InclusiveRecovers(t, scale);
    PrintedFields(t, c, scale);
    PrintedOrder(c.tax, half, scale);
  }

  lemma AnnualOfTwelve(total: real)
    ensures Annual(total, 12) == total
  {
  }

  /** A twelve-month cycle prints its own total as the yearly estimate. */
  lemma TwelveMonths(t: Terms, scale: nat)
    requires t.Valid(scale) && !t.mode.TaxUnknown? && t.months == 12
    ensures ResultOf(t, scale).annualEstimate == ResultOf(t, scale).cycleTotal
  {
    AnnualOfTwelve(ChargeOf(t).total);
  }

  /** Any cycle's estimate is within half a unit of total * 12 / months. */
  lemma AnnualNear(t: Terms, scale: nat)
    requires t.Valid(scale) && !t.mode.TaxUnknown?
    ensures ChargeOf(t).annual * t.months as real == ChargeOf(t).total * 12.0
    ensures WithinHalf(Value(ResultOf(t, scale).annualEstimate.value, scale), ChargeOf(t).annual, Pow10(scale))
  {
    ChargeIsFair(t, scale);
    PrintNear(ChargeOf(t).annual, scale);
  }

  lemma PrintNear(v: real, scale: nat)
    ensures WithinHalf(Value(Print(v, scale), scale), v, Pow10(scale))
  {
    ValuePrint(v, scale);
    RoundedNear(v, Pow10(scale));
  }

  // ---- Conversion -----------------------------------------------------------------------------

  datatype FxInput = FxInput(amount: string, rate: string, from: string, to: string, observedAt: Option<int>, now: int,
                             maxAge: int)

  datatype FxResult = FxResult(
    originalAmount: string, originalCurrency: string, converted: Option<string>, reportingCurrency: string,
    rate: Option<string>, observedAt: Option<int>, complete: bool, warnings: seq<string>)

  datatype Conversion = Converted(result: FxResult) | BadAmount

  const FIVE_MINUTES := 300000

  /** A zero timestamp is no observation. */
  predicate FreshQuote(observedAt: Option<int>, now: int, maxAge: int) {
    observedAt.Some? && now - observedAt.value <= maxAge && observedAt.value <= now + FIVE_MINUTES
  }

  function RateText(rate: real): string {
    Print(rate, RATE_SCALE)
  }

  function Convert(i: FxInput, scale: nat): Conversion {
    var amount := ParseDecimal(i.amount, scale);
    if amount.None? || amount.value < 0.0 then BadAmount
    else
      var from, to := NormalizeCurrency(i.from), NormalizeCurrency(i.to);
      var header := FxResult(Print(amount.value, scale), from, None, to, None, None, false, []);
      if from == to then Converted(header.(converted := Some(Print(amount.value, scale)), complete := true))
      else
        var rate := ParseDecimal(i.rate, RATE_SCALE);
        if rate.None? || rate.value <= 0.0 then Converted(header.(warnings := ["FX_RATE_MISSING"]))
        else if i.maxAge <= 0 || !FreshQuote(i.observedAt, i.now, i.maxAge)
          then Converted(header.(warnings := ["FX_RATE_STALE"]))
        else Converted(header.(converted := Some(Print(Times(amount.value, rate.value), scale)),
                               rate := Some(RateText(rate.value)),
                               observedAt := i.observedAt, complete := true))
  }

  /** A quote observed at most `maxAge` ago and not more than five minutes ahead. */
  predicate Recent(observedAt: Option<int>, now: int, maxAge: int) {
    observedAt.Some? && now - maxAge <= observedAt.value <= now + 5 * 60 * 1000
  }

  /** What a conversion reports, for every input: whether it is complete, and if not, what is wanting. */
  lemma ConvertReports(i: FxInput, scale: nat)
    ensures var amount := ParseDecimal(i.amount, scale);
      && (Convert(i, scale).BadAmount? <==> amount.None? || amount.value < 0.0)
      && (Convert(i, scale).Converted? ==>
            FxComplete(i, ParseDecimal(i.rate, RATE_SCALE), Convert(i, scale).result))
  {
  }

  /** Complete in the same currency, or with a positive rate of a recent quote. */
  ghost predicate FxComplete(i: FxInput, rate: Option<real>, r: FxResult) {
    var same := ToUpper(TrimSpace(i.from)) == ToUpper(TrimSpace(i.to));
    var usable := rate.Some? && rate.value > 0.0;
    && (r.complete <==> same || (usable && i.maxAge > 0 && Recent(i.observedAt, i.now, i.maxAge)))
    && (r.complete <==> r.converted.Some?)
    && r.warnings == (if r.complete then [] else if usable then ["FX_RATE_STALE"] else ["FX_RATE_MISSING"])
  }

  /** It names the currencies it was given, normalized. */
  lemma ConvertNames(i: FxInput, scale: nat)
    requires Convert(i, scale).Converted?
    ensures var r := Convert(i, scale).result;
      r.originalCurrency == ToUpper(TrimSpace(i.from)) && r.reportingCurrency == ToUpper(TrimSpace(i.to))
  {
  }

  /** It repeats the amount as it read it. */
  lemma ConvertEchoes(i: FxInput, scale: nat)
    requires Convert(i, scale).Converted?
    ensures Convert(i, scale).result.originalAmount == Print(ParseDecimal(i.amount, scale).value, scale)
  {
  }

  /** The rate is reported exactly when it was used, with the time it was observed. */
  lemma ConvertQuotes(i: FxInput, scale: nat)
    requires Convert(i, scale).Converted?
    ensures var r := Convert(i, scale).result;
      if r.converted.Some? && r.originalCurrency != r.reportingCurrency
      then r.rate == Some(RateText(ParseDecimal(i.rate, RATE_SCALE).value)) && r.observedAt == i.observedAt
      else r.rate.None? && r.observedAt.None?
  {
  }
}
