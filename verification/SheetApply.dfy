/** Applying a previewed import to the inventory (internal/sheets/apply.go): all valid rows or none, once. */
module SheetApply {
  import opened Text
  import opened Decimals
  import opened SheetPreview

  datatype Lifecycle = Active | Inactive | Archived

  /** The registrar is known by its lower-case name, because it is looked up without regard to case: the row points to
      some registrar of that name, whatever the spelling it was first stored with. */
  datatype Domain = Domain(
    name: string, registrar: Option<string>, purchaseDate: Option<string>, expiration: Option<string>,
    priority: string, notes: string,
    lifecycle: Lifecycle, monitoring: bool, sourceType: string, sourceStatus: string, version: nat)

  datatype CostKind = Purchase | Renewal

  /** A price taken from a sheet, with its tax, its billing cycle and the days it is in effect. */
  datatype Cost = Cost(
    kind: CostKind, amount: string, currency: string, taxRate: Option<string>, taxMode: string, months: int,
    from: int, to: Option<int>)

  /** The domains, for those with a schedule whether it is enabled, and their sheet prices in the order of insertion. */
  datatype Tables = Tables(domains: map<nat, Domain>, schedules: map<nat, bool>, costs: map<nat, seq<Cost>>)

  /** What an import finds besides these: the fields under manual override, the known currencies and the date. */
  datatype Setting = Setting(overrides: map<nat, set<string>>, currencies: set<string>, today: int)

  datatype Scope = Scope(kind: string, at: Setting)

  predicate Overridden(c: Scope, id: nat, field: string) {
    id in c.at.overrides && field in c.at.overrides[id]
  }

  /** `inventorySourceType`. */
  function SourceType(kind: string): string {
    if kind == "excel" then "import" else "google_sheet"
  }

  /** `ensureRegistrar`: none for a blank name, otherwise the registrar of that name, created if need be. */
  function RegistrarOf(name: string): Option<string> {
    var t := TrimSpace(name);
    if t == "" then None else Some(ToLower(t))
  }

  // ---- Prices ---------------------------------------------------------------------------

  function CostsOf(t: Tables, id: nat): seq<Cost> {
    if id in t.costs then t.costs[id] else []
  }

  /** `numeric(20,6)`: up to fourteen digits before the point. */
  predicate AmountFits(amount: string) {
    match ParseDecimal(amount, 6) case None => false case Some(v) => 0.0 <= v < 100000000000000.0
  }

  predicate RateFits(rate: Option<string>) {
    rate.Some? ==> match ParseDecimal(rate.value, 10) case None => false case Some(v) => 0.0 <= v <= 1.0
  }

  predicate Open(x: Cost, kind: CostKind) {
    x.kind == kind && x.to.None?
  }

  /** A price is stored when its currency is known, its numbers fit their columns, and the price it replaces does not
      start after today: ending that one today would put its end before its start, which the table forbids. */
  predicate PriceStorable(kind: CostKind, amount: string, v: Values, cs: seq<Cost>, at: Setting) {
    && v.currency in at.currencies && AmountFits(amount) && RateFits(v.taxRate)
    && forall i :: 0 <= i < |cs| && Open(cs[i], kind) ==> cs[i].from <= at.today
  }

  /** What the schema asks of a row that adds or modifies a domain with prices `cs`. */
  predicate Storable(v: Values, cs: seq<Cost>, at: Setting) {
    && |TrimSpace(v.registrar)| <= 200
    && (v.purchasePrice.Some? ==> PriceStorable(Purchase, v.purchasePrice.value, v, cs, at))
    && (v.renewalPrice.Some? ==> PriceStorable(Renewal, v.renewalPrice.value, v, cs, at))
  }

  /** The price in effect ends yesterday, or today if it started today. */
  function Ended(x: Cost, kind: CostKind, today: int): Cost {
    if Open(x, kind) then x.(to := Some(if x.from < today then today - 1 else today)) else x
  }

  /** Sheet prices are yearly; a tax rate makes the tax exclusive, and without one it is unknown. */
  function NewCost(kind: CostKind, amount: string, v: Values, today: int): Cost {
    Cost(kind, amount, v.currency, v.taxRate, if v.taxRate.Some? then "exclusive" else "unknown", 12, today, None)
  }

  /** `upsertSheetCost`. */
  function Upserted(cs: seq<Cost>, kind: CostKind, amount: string, v: Values, today: int): (r: seq<Cost>)
    ensures |r| == |cs| + 1
  {
    seq(|cs|, i requires 0 <= i < |cs| => Ended(cs[i], kind, today))
    + [NewCost(kind, amount, v, today)]
  }

  function Repriced(cs: seq<Cost>, v: Values, today: int): seq<Cost> {
    var purchased := if v.purchasePrice.Some? then Upserted(cs, Purchase, v.purchasePrice.value, v, today) else cs;
    if v.renewalPrice.Some? then Upserted(purchased, Renewal, v.renewalPrice.value, v, today) else purchased
  }

  /** At most one price of a kind is in effect, and none ends before it starts. */
  ghost predicate CostsSound(cs: seq<Cost>) {
    && (forall i, j, k :: 0 <= i < j < |cs| && Open(cs[i], k) ==> !Open(cs[j], k))
    && (forall i :: 0 <= i < |cs| && cs[i].to.Some? ==> cs[i].from <= cs[i].to.value)
  }

  /** No price is lost or altered; one in effect may be ended. */
  ghost predicate CostsKept(cs: seq<Cost>, cs': seq<Cost>) {
    && |cs| <= |cs'|
    && forall i :: 0 <= i < |cs| ==> cs'[i] == cs[i] || (cs[i].to.None? && cs'[i] == cs[i].(to := cs'[i].to))
  }

  /** No price in effect starts after `today`. */
  ghost predicate Dated(cs: seq<Cost>, today: int) {
    forall i :: 0 <= i < |cs| && cs[i].to.None? ==> cs[i].from <= today
  }

  lemma UpsertKeeps(cs: seq<Cost>, kind: CostKind, amount: string, v: Values, at: Setting)
    requires PriceStorable(kind, amount, v, cs, at)
    ensures var r := Upserted(cs, kind, amount, v, at.today);
      && CostsKept(cs, r) && (CostsSound(cs) ==> CostsSound(r)) && (Dated(cs, at.today) ==> Dated(r, at.today))
  {
  }

  /** Replacing the price of one kind leaves the other kind storable exactly as it was. */
  lemma UpsertAside(cs: seq<Cost>, kind: CostKind, amount: string, v: Values, at: Setting, other: CostKind,
                    price: string)
    requires kind != other
    ensures PriceStorable(other, price, v, Upserted(cs, kind, amount, v, at.today), at) <==>
              PriceStorable(other, price, v, cs, at)
  {
    var r := Upserted(cs, kind, amount, v, at.today);
    assert forall i :: 0 <= i < |cs| ==> r[i].from == cs[i].from && (Open(r[i], other) <==> Open(cs[i], other));
  }

  /** New prices keep the old ones, and the soundness and dating of the list. */
  lemma RepriceKeeps(cs: seq<Cost>, v: Values, at: Setting)
    requires Storable(v, cs, at)
    ensures var r := Repriced(cs, v, at.today);
      && CostsKept(cs, r) && (CostsSound(cs) ==> CostsSound(r)) && (Dated(cs, at.today) ==> Dated(r, at.today))
  {
    if v.purchasePrice.Some? {
      UpsertKeeps(cs, Purchase, v.purchasePrice.value, v, at);
      if v.renewalPrice.Some? {
        UpsertAside(cs, Purchase, v.purchasePrice.value, v, at, Renewal, v.renewalPrice.value);
      }
    }
    if v.renewalPrice.Some? {
      var mid := if v.purchasePrice.Some? then Upserted(cs, Purchase, v.purchasePrice.value, v, at.today) else cs;
      UpsertKeeps(mid, Renewal, v.renewalPrice.value, v, at);
    }
  }

  // ---- What the new prices are -------------------------------------------------------------

  /** The row states a price of this kind. */
  function PriceOf(v: Values, kind: CostKind): Option<string> {
    match kind case Purchase => v.purchasePrice case Renewal => v.renewalPrice
  }

  /** The one price of this kind in effect is the row's: its amount, currency and tax, for a year, from today. */
  ghost predicate InEffect(cs: seq<Cost>, kind: CostKind, amount: string, v: Values, today: int) {
    exists k ::
      && 0 <= k < |cs| && cs[k].kind == kind && cs[k].amount == amount && cs[k].currency == v.currency
      && cs[k].taxRate == v.taxRate && cs[k].taxMode == (if v.taxRate == None then "unknown" else "exclusive")
      && cs[k].months == 12 && cs[k].from == today && cs[k].to == None
      && forall j :: 0 <= j < |cs| && j != k ==> !(cs[j].kind == kind && cs[j].to == None)
  }

  /** Prices after a row: each it states is the one in effect; a price it replaces ended yesterday, or today if it began
      today; every other price is as it was. */
  ghost predicate PricesWritten(cs: seq<Cost>, cs': seq<Cost>, v: Values, today: int) {
    && |cs'| == |cs| + (if v.purchasePrice.Some? then 1 else 0) + (if v.renewalPrice.Some? then 1 else 0)
    && (forall kind: CostKind :: PriceOf(v, kind).Some? ==> InEffect(cs', kind, PriceOf(v, kind).value, v, today))
    && (forall i :: 0 <= i < |cs| ==>
          if cs[i].to == None && PriceOf(v, cs[i].kind).Some?
          then cs'[i] == cs[i].(to := Some(if cs[i].from < today then today - 1 else today))
          else cs'[i] == cs[i])
  }

  lemma UpsertWrites(cs: seq<Cost>, kind: CostKind, amount: string, v: Values, today: int)
    ensures InEffect(Upserted(cs, kind, amount, v, today), kind, amount, v, today)
  {
    var r := Upserted(cs, kind, amount, v, today);
    assert r[|cs|] == NewCost(kind, amount, v, today);
    assert forall j :: 0 <= j < |cs| ==> r[j] == Ended(cs[j], kind, today);
  }

  /** Replacing the price of the other kind does not disturb the one in effect. */
  lemma UpsertLeaves(cs: seq<Cost>, kind: CostKind, amount: string, v: Values, today: int, other: CostKind,
                     price: string)
    requires kind != other && InEffect(cs, kind, amount, v, today)
    ensures InEffect(Upserted(cs, other, price, v, today), kind, amount, v, today)
  {
    var r := Upserted(cs, other, price, v, today);
    var k :|
      && 0 <= k < |cs| && cs[k].kind == kind && cs[k].amount == amount && cs[k].currency == v.currency
      && cs[k].taxRate == v.taxRate && cs[k].taxMode == (if v.taxRate == None then "unknown" else "exclusive")
      && cs[k].months == 12 && cs[k].from == today && cs[k].to == None
      && forall j :: 0 <= j < |cs| && j != k ==> !(cs[j].kind == kind && cs[j].to == None);
    assert forall j :: 0 <= j < |cs| ==> r[j] == Ended(cs[j], other, today);
    assert r[k] == cs[k] && r[|cs|].kind == other;
  }

  lemma RepriceWrites(cs: seq<Cost>, v: Values, today: int)
    ensures PricesWritten(cs, Repriced(cs, v, today), v, today)
  {
    var mid := if v.purchasePrice.Some? then Upserted(cs, Purchase, v.purchasePrice.value, v, today) else cs;
    if v.purchasePrice.Some? { UpsertWrites(cs, Purchase, v.purchasePrice.value, v, today); }
    if v.renewalPrice.Some? {
      UpsertWrites(mid, Renewal, v.renewalPrice.value, v, today);
      if v.purchasePrice.Some? {
        UpsertLeaves(mid, Purchase, v.purchasePrice.value, v, today, Renewal, v.renewalPrice.value);
      }
    }
    RepriceAt(cs, v, today);
  }

  lemma RepriceAt(cs: seq<Cost>, v: Values, today: int)
    ensures var r := Repriced(cs, v, today);
      && |r| == |cs| + (if v.purchasePrice.Some? then 1 else 0) + (if v.renewalPrice.Some? then 1 else 0)
      && forall i :: 0 <= i < |cs| ==>
           r[i] == if cs[i].to == None && PriceOf(v, cs[i].kind).Some?
                   then cs[i].(to := Some(if cs[i].from < today then today - 1 else today)) else cs[i]
  {
  }

  // ---- One row --------------------------------------------------------------------------

  function Inserted(v: Values, kind: string): Domain {
    Domain(v.domain, RegistrarOf(v.registrar), v.purchaseDate, v.expirationDate, v.priority, v.notes,
           if v.active then Active else Inactive, v.active, SourceType(kind), "present", 1)
  }

  function Updated(d: Domain, v: Values, c: Scope, id: nat): Domain {
    d.(registrar := RegistrarOf(v.registrar), purchaseDate := v.purchaseDate,
       expiration := if Overridden(c, id, "expiration_date") then d.expiration else v.expirationDate,
       priority := if Overridden(c, id, "business_priority") then d.priority else v.priority,
       notes := v.notes,
       lifecycle := if d.lifecycle.Archived? then Archived else if v.active then Active else Inactive,
       monitoring := if d.lifecycle.Archived? then false else v.active,
       sourceType := SourceType(c.kind), sourceStatus := "present", version := d.version + 1)
  }

  function Disappeared(d: Domain, kind: string): Domain {
    if d.sourceType == SourceType(kind)
      then d.(sourceStatus := "missing_from_source", monitoring := false, version := d.version + 1) else d
  }

  function Confirmed(d: Domain): Domain {
    if d.sourceStatus == "present" then d else d.(sourceStatus := "present", version := d.version + 1)
  }

  predicate Named(t: Tables, name: string, id: nat) {
    id in t.domains && t.domains[id].name == name
  }

  ghost predicate Exists(t: Tables, name: string) {
    exists id :: Named(t, name, id)
  }

  ghost function IdOf(t: Tables, name: string): (id: nat)
    requires Exists(t, name)
    ensures Named(t, name, id)
  {
    var id :| Named(t, name, id);
    id
  }

  function Put(t: Tables, id: nat, d: Domain, enabled: bool): Tables {
    t.(domains := t.domains[id := d], schedules := t.schedules[id := enabled])
  }

  /** The domain row with its schedule, then its prices. */
  function Write(t: Tables, id: nat, d: Domain, enabled: bool, v: Values, today: int): Tables {
    Put(t, id, d, enabled).(costs := t.costs[id := Repriced(CostsOf(t, id), v, today)])
  }

  function ModifyDomain(t: Tables, id: nat, v: Values, c: Scope): Option<Tables> {
    if id !in t.domains || !Storable(v, CostsOf(t, id), c.at) then None
    else
      var d := Updated(t.domains[id], v, c, id);
      Some(Write(t, id, d, d.monitoring && d.lifecycle.Active?, v, c.at.today))
  }

  /** An added domain that meanwhile exists is modified instead; an identifier in use fails the insert. */
  ghost function AddDomain(t: Tables, v: Values, drawn: nat, c: Scope): Option<Tables> {
    if Exists(t, v.domain) then ModifyDomain(t, IdOf(t, v.domain), v, c)
    else if drawn in t.domains || !Storable(v, CostsOf(t, drawn), c.at) then None
    else Some(Write(t, drawn, Inserted(v, c.kind), v.active, v, c.at.today))
  }

  /** The schedule of a missing domain is disabled even when the domain row no longer matches the source. */
  function MissDomain(t: Tables, id: nat, c: Scope): Option<Tables> {
    if id !in t.domains then None else Some(Put(t, id, Disappeared(t.domains[id], c.kind), false))
  }

  function ConfirmDomain(t: Tables, id: nat): Tables {
    if id !in t.domains then t else t.(domains := t.domains[id := Confirmed(t.domains[id])])
  }

  predicate Applies(r: Row) {
    r.valid && !r.action.Invalid?
  }

  /** The effect of one row; None abandons the whole import. */
  ghost function Step(t: Tables, r: Row, drawn: nat, c: Scope): Option<Tables> {
    if !Applies(r) then Some(t)
    else
      match r.action
      case Add => if r.values.None? then None else AddDomain(t, r.values.value, drawn, c)
      case Modify =>
        if r.values.None? || r.matched.None? then None else ModifyDomain(t, r.matched.value, r.values.value, c)
      case Missing => if r.matched.None? then None else MissDomain(t, r.matched.value, c)
      case Unchanged => if r.matched.None? then Some(t) else Some(ConfirmDomain(t, r.matched.value))
      case Invalid => None
  }

  ghost function ApplyRows(t: Tables, rows: seq<Row>, drawn: seq<nat>, c: Scope): Option<Tables>
    requires |drawn| == |rows|
  {
    if rows == [] then Some(t)
    else
      match ApplyRows(t, rows[..|rows| - 1], drawn[..|rows| - 1], c)
      case None => None
      case Some(u) => Step(u, rows[|rows| - 1], drawn[|rows| - 1], c)
  }

  function AppliedCount(rows: seq<Row>): nat {
    if rows == [] then 0 else AppliedCount(rows[..|rows| - 1]) + if Applies(rows[|rows| - 1]) then 1 else 0
  }

  // ---- What no import does -----------------------------------------------------------------

  /** Nothing is removed, renamed or un-archived, overridden fields keep their values, and no price is lost. */
  ghost predicate Respects(t: Tables, u: Tables, c: Scope) {
    && (forall id :: id in t.domains ==> id in u.domains && Kept(t.domains[id], u.domains[id], c, id))
    && (forall id :: id in t.schedules ==> id in u.schedules)
    && (forall id :: CostsKept(CostsOf(t, id), CostsOf(u, id)))
  }

  ghost predicate Kept(d: Domain, e: Domain, c: Scope, id: nat) {
    && e.name == d.name
    && (d.lifecycle.Archived? ==> e.lifecycle.Archived?)
    && (Overridden(c, id, "expiration_date") ==> e.expiration == d.expiration)
    && (Overridden(c, id, "business_priority") ==> e.priority == d.priority)
    && e.version >= d.version
  }

  /** The row writes a domain from its values. */
  predicate Writes(r: Row) {
    Applies(r) && (r.action.Add? || r.action.Modify?)
  }

  /** The domain the row touches. */
  ghost function Touched(t: Tables, r: Row, drawn: nat): nat {
    if r.action.Add? then
      if r.values.Some? && Exists(t, r.values.value.domain) then IdOf(t, r.values.value.domain) else drawn
    else if r.matched.Some? then r.matched.value else drawn
  }

  /** Every domain's prices are sound and none in effect starts after `today`. */
  ghost predicate PricesSound(t: Tables, today: int) {
    forall id :: id in t.costs ==> CostsSound(t.costs[id]) && Dated(t.costs[id], today)
  }

  /** Nothing differs at `id`: domain, schedule and prices. */
  ghost predicate SameAt(t: Tables, u: Tables, id: nat) {
    && (id in t.domains <==> id in u.domains) && (id in t.domains ==> t.domains[id] == u.domains[id])
    && (id in t.schedules <==> id in u.schedules) && (id in t.schedules ==> t.schedules[id] == u.schedules[id])
    && CostsOf(t, id) == CostsOf(u, id)
  }

  /** Only the domain `id` changed, and that respectfully. */
  ghost predicate Confined(t: Tables, u: Tables, c: Scope, id: nat) {
    && Respects(t, u, c) && (forall i :: i != id ==> SameAt(t, u, i))
    && (PricesSound(t, c.at.today) ==> PricesSound(u, c.at.today))
  }

  lemma WriteConfined(t: Tables, id: nat, d: Domain, enabled: bool, v: Values, c: Scope)
    requires Storable(v, CostsOf(t, id), c.at) && (id in t.domains ==> Kept(t.domains[id], d, c, id))
    ensures Confined(t, Write(t, id, d, enabled, v, c.at.today), c, id)
  {
    RepriceKeeps(CostsOf(t, id), v, c.at);
    RecordConfined(t, id, d, enabled, Repriced(CostsOf(t, id), v, c.at.today), c);
  }

  lemma RecordConfined(t: Tables, id: nat, d: Domain, enabled: bool, cs: seq<Cost>, c: Scope)
    requires id in t.domains ==> Kept(t.domains[id], d, c, id)
    requires CostsKept(CostsOf(t, id), cs)
    requires CostsSound(CostsOf(t, id)) ==> CostsSound(cs)
    requires Dated(CostsOf(t, id), c.at.today) ==> Dated(cs, c.at.today)
    ensures Confined(t, Put(t, id, d, enabled).(costs := t.costs[id := cs]), c, id)
  {
    var u := Put(t, id, d, enabled).(costs := t.costs[id := cs]);
    assert forall i :: CostsOf(u, i) == if i == id then cs else CostsOf(t, i);
  }

  lemma PutConfined(t: Tables, id: nat, d: Domain, enabled: bool, c: Scope)
    requires id in t.domains && Kept(t.domains[id], d, c, id)
    ensures Confined(t, Put(t, id, d, enabled), c, id)
  {
    assert forall i :: CostsOf(Put(t, id, d, enabled), i) == CostsOf(t, i);
  }

  lemma ModifyConfined(t: Tables, id: nat, v: Values, c: Scope)
    requires ModifyDomain(t, id, v, c).Some?
    ensures Confined(t, ModifyDomain(t, id, v, c).value, c, id)
  {
    var d := Updated(t.domains[id], v, c, id);
    WriteConfined(t, id, d, d.monitoring && d.lifecycle.Active?, v, c);
  }

  lemma ConfirmConfined(t: Tables, id: nat, c: Scope)
    ensures Confined(t, ConfirmDomain(t, id), c, id)
  {
    assert forall i :: CostsOf(ConfirmDomain(t, id), i) == CostsOf(t, i);
  }

  lemma StepConfined(t: Tables, r: Row, drawn: nat, c: Scope)
    requires Step(t, r, drawn, c).Some?
    ensures Confined(t, Step(t, r, drawn, c).value, c, Touched(t, r, drawn))
  {
    if Applies(r) {
      match r.action
      case Add =>
        var v := r.values.value;
        if Exists(t, v.domain) {
          ModifyConfined(t, IdOf(t, v.domain), v, c);
        } else {
          WriteConfined(t, drawn, Inserted(v, c.kind), v.active, v, c);
        }
      case Modify => ModifyConfined(t, r.matched.value, r.values.value, c);
      case Missing => PutConfined(t, r.matched.value, Disappeared(t.domains[r.matched.value], c.kind), false, c);
      case Unchanged => if r.matched.Some? { ConfirmConfined(t, r.matched.value, c); }
    }
  }

  lemma StepRespects(t: Tables, r: Row, drawn: nat, c: Scope)
    requires Step(t, r, drawn, c).Some?
    ensures Respects(t, Step(t, r, drawn, c).value, c)
  {
    StepConfined(t, r, drawn, c);
  }

  /** Whatever the rows say. */
  lemma {:induction false} ApplyRespects(t: Tables, rows: seq<Row>, drawn: seq<nat>, c: Scope)
    requires |drawn| == |rows| && ApplyRows(t, rows, drawn, c).Some?
    ensures Respects(t, ApplyRows(t, rows, drawn, c).value, c)
  {
    if rows != [] {
      var n := |rows| - 1;
      var u := ApplyRows(t, rows[..n], drawn[..n], c).value;
      ApplyRespects(t, rows[..n], drawn[..n], c);
      StepRespects(u, rows[n], drawn[n], c);
    }
  }

  /** Only active, monitored domains have an enabled schedule. */
  ghost predicate SchedulesSound(t: Tables) {
    forall id :: id in t.schedules && t.schedules[id] ==>
        id in t.domains && t.domains[id].lifecycle.Active? && t.domains[id].monitoring
  }

  ghost predicate NamesUnique(t: Tables) {
    forall i, j :: i in t.domains && j in t.domains && t.domains[i].name == t.domains[j].name ==> i == j
  }

  lemma PutSound(t: Tables, id: nat, d: Domain, enabled: bool)
    requires SchedulesSound(t) && (enabled ==> d.lifecycle.Active? && d.monitoring)
    ensures forall costs :: SchedulesSound(Put(t, id, d, enabled).(costs := costs))
  {
  }

  lemma ConfirmSound(t: Tables, id: nat)
    requires SchedulesSound(t)
    ensures SchedulesSound(ConfirmDomain(t, id))
  {
  }

  lemma StepKeepsSound(t: Tables, r: Row, drawn: nat, c: Scope)
    requires Step(t, r, drawn, c).Some? && SchedulesSound(t)
    ensures SchedulesSound(Step(t, r, drawn, c).value)
  {
    if Writes(r) {
      var id, v := Touched(t, r, drawn), r.values.value;
      var d := if id in t.domains then Updated(t.domains[id], v, c, id) else Inserted(v, c.kind);
      PutSound(t, id, d, d.monitoring && d.lifecycle.Active?);
    } else if Applies(r) && r.matched.Some? {
      if r.action.Missing? {
        PutSound(t, r.matched.value, Disappeared(t.domains[r.matched.value], c.kind), false);
      } else {
        ConfirmSound(t, r.matched.value);
      }
    }
  }

  lemma StepKeepsPrices(t: Tables, r: Row, drawn: nat, c: Scope)
    requires Step(t, r, drawn, c).Some? && PricesSound(t, c.at.today)
    ensures PricesSound(Step(t, r, drawn, c).value, c.at.today)
  {
    StepConfined(t, r, drawn, c);
  }

  lemma StepKeepsUnique(t: Tables, r: Row, drawn: nat, c: Scope)
    requires Step(t, r, drawn, c).Some? && NamesUnique(t)
    ensures NamesUnique(Step(t, r, drawn, c).value)
  {
    StepRespects(t, r, drawn, c);
    var u := Step(t, r, drawn, c).value;
    forall i, j | i in u.domains && j in u.domains && u.domains[i].name == u.domains[j].name ensures i == j {
      if i in t.domains && j !in t.domains {
        assert Named(t, u.domains[j].name, i);
      } else if j in t.domains && i !in t.domains {
        assert Named(t, u.domains[i].name, j);
      }
    }
  }

  /** Every import keeps names unique, schedules sound, and at most one sheet price of a kind in effect. */
  lemma {:induction false} ApplyKeepsInvariants(t: Tables, rows: seq<Row>, drawn: seq<nat>, c: Scope)
    requires |drawn| == |rows| && ApplyRows(t, rows, drawn, c).Some?
    requires SchedulesSound(t) && NamesUnique(t) && PricesSound(t, c.at.today)
    ensures var u := ApplyRows(t, rows, drawn, c).value;
      SchedulesSound(u) && NamesUnique(u) && PricesSound(u, c.at.today)
  {
    if rows != [] {
      var n := |rows| - 1;
      var u := ApplyRows(t, rows[..n], drawn[..n], c).value;
      ApplyKeepsInvariants(t, rows[..n], drawn[..n], c);
      StepKeepsSound(u, rows[n], drawn[n], c);
      StepKeepsUnique(u, rows[n], drawn[n], c);
      StepKeepsPrices(u, rows[n], drawn[n], c);
    }
  }

  // ---- What every import does ------------------------------------------------------------------

  /** The name of the domain the row touches: a new row's own, otherwise that of the matched domain as it is now. */
  ghost function TargetName(t: Tables, r: Row): string
    requires RowFits(t, r)
  {
    if r.action.Add? then r.values.value.domain else t.domains[r.matched.value].name
  }

  /** The row has what its action needs, and its match exists. */
  ghost predicate RowFits(t: Tables, r: Row) {
    && (r.action.Add? || r.action.Modify? ==> r.values.Some?)
    && (!r.action.Add? ==> r.matched.Some? && r.matched.value in t.domains)
  }

  /** Different rows touch different domains. */
  ghost predicate Fits(t: Tables, rows: seq<Row>) {
    && (forall i :: 0 <= i < |rows| && Applies(rows[i]) ==> RowFits(t, rows[i]))
    && (forall i, j :: 0 <= i < j < |rows| && Applies(rows[i]) && Applies(rows[j]) ==>
          TargetName(t, rows[i]) != TargetName(t, rows[j]))
  }

  /** The source type of an import: "import" for a file, "google_sheet" for a sheet. */
  predicate FromSource(sourceType: string, kind: string) {
    sourceType == if kind == "excel" then "import" else "google_sheet"
  }

  /** The domain the row touches is what the row says, field by field; prices and schedule included. */
  ghost predicate Landed(t: Tables, u: Tables, r: Row, c: Scope, id: nat)
    requires RowFits(t, r)
  {
    && Named(u, TargetName(t, r), id)
    && match r.action
       case Missing => id in t.domains && Gone(t, u, c, id)
       case Unchanged => id in t.domains && Present(t, u, id)
       case Invalid => true
       case _ => Written(t, u, r.values.value, c, id)
  }

  /** A missing domain loses its schedule, and if it belongs to the source also its monitoring; nothing else changes. */
  ghost predicate Gone(t: Tables, u: Tables, c: Scope, id: nat)
    requires id in t.domains && id in u.domains
  {
    var d := t.domains[id];
    && Enabled(u, id, false) && CostsOf(u, id) == CostsOf(t, id)
    && if FromSource(d.sourceType, c.kind)
       then u.domains[id] == Domain(d.name, d.registrar, d.purchaseDate, d.expiration, d.priority, d.notes, d.lifecycle,
                                    false, d.sourceType, "missing_from_source", d.version + 1)
       else u.domains[id] == d
  }

  /** A domain that is listed without change is marked present; nothing else changes. */
  ghost predicate Present(t: Tables, u: Tables, id: nat)
    requires id in t.domains && id in u.domains
  {
    var d := t.domains[id];
    && (id in u.schedules <==> id in t.schedules) && (id in t.schedules ==> u.schedules[id] == t.schedules[id])
    && CostsOf(u, id) == CostsOf(t, id)
    && if d.sourceStatus == "present" then u.domains[id] == d
       else u.domains[id] == Domain(d.name, d.registrar, d.purchaseDate, d.expiration, d.priority, d.notes, d.lifecycle,
                                    d.monitoring, d.sourceType, "present", d.version + 1)
  }

  ghost predicate Written(t: Tables, u: Tables, v: Values, c: Scope, id: nat) {
    && id in u.domains && PricesWritten(CostsOf(t, id), CostsOf(u, id), v, c.at.today)
    && Enabled(u, id, u.domains[id].monitoring && u.domains[id].lifecycle.Active?)
    && FieldsWritten(if id in t.domains then Some(t.domains[id]) else None, u.domains[id], v, c, id)
  }

  /** Every field of a written domain, from the row and from the domain there was, if any. */
  ghost predicate FieldsWritten(before: Option<Domain>, d: Domain, v: Values, c: Scope, id: nat) {
    var archived := before.Some? && before.value.lifecycle == Archived;
    var manual := if before.Some? && id in c.at.overrides then c.at.overrides[id] else {};
    && d.name == (if before.Some? then before.value.name else v.domain)
    && d.purchaseDate == v.purchaseDate && d.notes == v.notes
    && d.registrar == (if TrimSpace(v.registrar) == "" then None else Some(ToLower(TrimSpace(v.registrar))))
    && d.expiration == (if "expiration_date" in manual then before.value.expiration else v.expirationDate)
    && d.priority == (if "business_priority" in manual then before.value.priority else v.priority)
    && d.lifecycle == (if archived then Archived else if v.active then Active else Inactive)
    && (d.monitoring <==> v.active && !archived)
    && FromSource(d.sourceType, c.kind) && d.sourceStatus == "present"
    && d.version == (if before.Some? then before.value.version else 0) + 1
  }

  predicate Enabled(u: Tables, id: nat, enabled: bool) {
    id in u.schedules && u.schedules[id] == enabled
  }

  /** The domains of other names, with their schedules and prices, are untouched. */
  ghost predicate Elsewhere(t: Tables, u: Tables, name: string) {
    && (forall id :: id in t.domains && t.domains[id].name != name ==> SameAt(t, u, id))
    && (forall id :: id in u.domains && id !in t.domains ==> u.domains[id].name == name)
  }

  lemma StepLands(t: Tables, r: Row, drawn: nat, c: Scope) returns (id: nat)
    requires Step(t, r, drawn, c).Some? && Applies(r) && RowFits(t, r)
    ensures Landed(t, Step(t, r, drawn, c).value, r, c, id) && id == Touched(t, r, drawn)
  {
    id := Touched(t, r, drawn);
    if Writes(r) { StepWrites(t, r, drawn, c); }
  }

  lemma StepWrites(t: Tables, r: Row, drawn: nat, c: Scope)
    requires Step(t, r, drawn, c).Some? && Writes(r) && RowFits(t, r)
    ensures Written(t, Step(t, r, drawn, c).value, r.values.value, c, Touched(t, r, drawn))
  {
    var id, v := Touched(t, r, drawn), r.values.value;
    var d := if id in t.domains then Updated(t.domains[id], v, c, id) else Inserted(v, c.kind);
    WriteWrites(t, id, d, v, c);
  }

  lemma WriteWrites(t: Tables, id: nat, d: Domain, v: Values, c: Scope)
    requires FieldsWritten(if id in t.domains then Some(t.domains[id]) else None, d, v, c, id)
    ensures Written(t, Write(t, id, d, d.monitoring && d.lifecycle.Active?, v, c.at.today), v, c, id)
  {
    RepriceWrites(CostsOf(t, id), v, c.at.today);
  }

  lemma StepElsewhere(t: Tables, r: Row, drawn: nat, c: Scope)
    requires Step(t, r, drawn, c).Some? && Applies(r) && RowFits(t, r)
    ensures Elsewhere(t, Step(t, r, drawn, c).value, TargetName(t, r))
  {
    StepConfined(t, r, drawn, c);
  }

  /** Row `r` touches the domain called `name`. */
  ghost predicate Touches(t: Tables, r: Row, name: string) {
    Applies(r) && RowFits(t, r) && TargetName(t, r) == name
  }

  lemma RowFitsLater(t: Tables, u: Tables, r: Row, c: Scope)
    requires RowFits(t, r) && Respects(t, u, c)
    ensures RowFits(u, r) && TargetName(u, r) == TargetName(t, r)
  {
  }

  lemma FitsPrefix(t: Tables, rows: seq<Row>)
    requires Fits(t, rows) && rows != []
    ensures Fits(t, rows[..|rows| - 1])
  {
  }

  /** One more row: what it does not touch stays. */
  lemma StepAside(t: Tables, u: Tables, r: Row, drawn: nat, c: Scope, name: string, id: nat)
    requires Respects(t, u, c) && (Applies(r) ==> RowFits(t, r)) && !Touches(t, r, name)
    requires Step(u, r, drawn, c).Some? && Named(u, name, id)
    ensures SameAt(u, Step(u, r, drawn, c).value, id)
  {
    if Applies(r) {
      RowFitsLater(t, u, r, c);
      StepElsewhere(u, r, drawn, c);
    }
  }

  /** Domains that no applied row touches keep everything, and no domain of such a name appears. */
  lemma {:induction false} Untouched(t: Tables, rows: seq<Row>, drawn: seq<nat>, c: Scope, name: string)
    requires |drawn| == |rows| && ApplyRows(t, rows, drawn, c).Some? && Fits(t, rows)
    requires forall i :: 0 <= i < |rows| ==> !Touches(t, rows[i], name)
    ensures var u := ApplyRows(t, rows, drawn, c).value;
            && (forall id :: Named(t, name, id) ==> SameAt(t, u, id))
            && (forall id :: Named(u, name, id) ==> id in t.domains)
  {
    if rows != [] {
      var n := |rows| - 1;
      var u := ApplyRows(t, rows[..n], drawn[..n], c).value;
      var w := ApplyRows(t, rows, drawn, c).value;
      FitsPrefix(t, rows);
      assert forall i :: 0 <= i < n ==> rows[..n][i] == rows[i];
      Untouched(t, rows[..n], drawn[..n], c, name);
      ApplyRespects(t, rows[..n], drawn[..n], c);
      forall id | Named(t, name, id) ensures SameAt(t, w, id) { StepAside(t, u, rows[n], drawn[n], c, name, id); }
      NoNewName(t, u, rows[n], drawn[n], c, name);
    }
  }

  lemma NoNewName(t: Tables, u: Tables, r: Row, drawn: nat, c: Scope, name: string)
    requires Respects(t, u, c) && (Applies(r) ==> RowFits(t, r)) && !Touches(t, r, name)
    requires Step(u, r, drawn, c).Some? && forall id :: Named(u, name, id) ==> id in t.domains
    ensures forall id :: Named(Step(u, r, drawn, c).value, name, id) ==> id in t.domains
  {
    StepRespects(u, r, drawn, c);
    if Applies(r) {
      RowFitsLater(t, u, r, c);
      StepElsewhere(u, r, drawn, c);
    }
    var w := Step(u, r, drawn, c).value;
    forall id | Named(w, name, id) ensures id in t.domains {
      if id in u.domains { assert Named(u, name, id); }
    }
  }

  /** What is at name `name` before some rows is what it was at the start. */
  ghost predicate NotYet(t: Tables, u: Tables, name: string) {
    && (forall id :: Named(t, name, id) ==> SameAt(t, u, id))
    && (forall id :: Named(u, name, id) ==> id in t.domains)
  }

  lemma LandedFrom(t: Tables, u: Tables, w: Tables, r: Row, c: Scope, id: nat)
    requires RowFits(t, r) && RowFits(u, r) && TargetName(u, r) == TargetName(t, r) && Landed(u, w, r, c, id)
    requires Respects(t, u, c) && Respects(u, w, c) && NotYet(t, u, TargetName(t, r))
    requires id in u.domains || CostsOf(t, id) == CostsOf(u, id)
    ensures Landed(t, w, r, c, id)
  {
    if id in u.domains {
      assert Named(u, TargetName(t, r), id);
      assert Named(t, TargetName(t, r), id);
    }
  }

  lemma LandedStays(t: Tables, u: Tables, w: Tables, r: Row, c: Scope, id: nat)
    requires RowFits(t, r) && Landed(t, u, r, c, id) && SameAt(u, w, id)
    ensures Landed(t, w, r, c, id)
  {
  }

  /** Identifiers drawn for new domains are unused and distinct, and only domains have prices. */
  ghost predicate Drawable(t: Tables, drawn: seq<nat>) {
    && (forall i :: 0 <= i < |drawn| ==> drawn[i] !in t.domains)
    && (forall i, j :: 0 <= i < j < |drawn| ==> drawn[i] != drawn[j])
    && (forall id :: id in t.costs ==> id in t.domains)
  }

  /** New domains and new prices belong to drawn identifiers. */
  ghost predicate Within(t: Tables, u: Tables, drawn: seq<nat>) {
    && (forall id :: id in u.domains ==> id in t.domains || id in drawn)
    && (forall id :: id in u.costs ==> id in u.domains)
  }

  lemma StepWithin(t: Tables, u: Tables, r: Row, drawn: seq<nat>, d: nat, c: Scope)
    requires Within(t, u, drawn) && Step(u, r, d, c).Some?
    ensures Within(t, Step(u, r, d, c).value, drawn + [d])
  {
  }

  lemma {:induction false} ApplyWithin(t: Tables, rows: seq<Row>, drawn: seq<nat>, c: Scope)
    requires |drawn| == |rows| && ApplyRows(t, rows, drawn, c).Some? && forall id :: id in t.costs ==> id in t.domains
    ensures Within(t, ApplyRows(t, rows, drawn, c).value, drawn)
  {
    if rows != [] {
      var n := |rows| - 1;
      ApplyWithin(t, rows[..n], drawn[..n], c);
      StepWithin(t, ApplyRows(t, rows[..n], drawn[..n], c).value, rows[n], drawn[..n], drawn[n], c);
      assert drawn[..n] + [drawn[n]] == drawn;
    }
  }

  /** An applied import realises every valid row: the domain it touches is what the row makes of the domain as it
      was before the import, whatever the other rows do. */
  lemma {:induction false} ApplyRealises(t: Tables, rows: seq<Row>, drawn: seq<nat>, c: Scope, k: nat) returns (id: nat)
    requires |drawn| == |rows| && ApplyRows(t, rows, drawn, c).Some? && Fits(t, rows) && Drawable(t, drawn)
    requires k < |rows| && Applies(rows[k])
    ensures Landed(t, ApplyRows(t, rows, drawn, c).value, rows[k], c, id)
  {
    var n := |rows| - 1;
    var u := ApplyRows(t, rows[..n], drawn[..n], c).value;
    FitsPrefix(t, rows);
    ApplyRespects(t, rows[..n], drawn[..n], c);
    assert rows[..n] + [rows[n]] == rows;
    if k == n {
      id := LastRealises(t, u, rows, drawn, c);
    } else {
      id := ApplyRealises(t, rows[..n], drawn[..n], c, k);
      assert rows[..n][k] == rows[k];
      StepAside(t, u, rows[n], drawn[n], c, TargetName(t, rows[k]), id);
      LandedStays(t, u, ApplyRows(t, rows, drawn, c).value, rows[k], c, id);
    }
  }

  lemma {:induction false} LastRealises(t: Tables, u: Tables, rows: seq<Row>, drawn: seq<nat>, c: Scope)
      returns (id: nat)
    requires |drawn| == |rows| && rows != [] && ApplyRows(t, rows, drawn, c).Some?
    requires Fits(t, rows) && Drawable(t, drawn)
    requires Applies(rows[|rows| - 1]) && Some(u) == ApplyRows(t, rows[..|rows| - 1], drawn[..|rows| - 1], c)
    ensures Landed(t, ApplyRows(t, rows, drawn, c).value, rows[|rows| - 1], c, id)
  {
    var n := |rows| - 1;
    var name := TargetName(t, rows[n]);
    FitsPrefix(t, rows);
    ApplyRespects(t, rows[..n], drawn[..n], c);
    ApplyWithin(t, rows[..n], drawn[..n], c);
    RowFitsLater(t, u, rows[n], c);
    id := StepLands(u, rows[n], drawn[n], c);
    StepRespects(u, rows[n], drawn[n], c);
    assert forall i :: 0 <= i < n ==> rows[..n][i] == rows[i] && !Touches(t, rows[i], name);
    Untouched(t, rows[..n], drawn[..n], c, name);
    LandedFrom(t, u, ApplyRows(t, rows, drawn, c).value, rows[n], c, id);
  }

  /** The tables have the domains the preview saw, under the names it saw: none was renamed in between. */
  ghost predicate ViewOf(t: Tables, inventory: Inventory) {
    forall d :: d in inventory ==> Named(t, d, inventory[d].id)
  }

  /** Every preview fits the tables unless a domain it matched was renamed since. */
  lemma PreviewFits(t: Tables, cells: seq<Cells>, inventory: Inventory, source: Source, rows: seq<Row>,
                    names: seq<string>)
    requires Previewed(cells, inventory, source, rows, names) && ViewOf(t, inventory)
    ensures Fits(t, rows)
  {
    forall i | 0 <= i < |rows| && Applies(rows[i])
      ensures RowFits(t, rows[i]) && rows[i].values.Some? && TargetName(t, rows[i]) == rows[i].values.value.domain
    {
      PreviewActions(cells, inventory, source, rows, names, i);
    }
    forall i, j | 0 <= i < j < |rows| && Applies(rows[i]) && Applies(rows[j])
      ensures TargetName(t, rows[i]) != TargetName(t, rows[j])
    {
      PreviewDistinct(cells, inventory, source, rows, names, i, j);
    }
  }

  // ---- Which imports fail ---------------------------------------------------------------------

  /** The schema accepts what the row writes. */
  ghost predicate RowStorable(t: Tables, r: Row, drawn: nat, c: Scope) {
    Writes(r) ==> r.values.Some? && Storable(r.values.value, CostsOf(t, Touched(t, r, drawn)), c.at)
  }

  lemma StepSucceeds(u: Tables, r: Row, drawn: nat, c: Scope)
    requires (Applies(r) ==> RowFits(u, r)) && drawn !in u.domains
    ensures Step(u, r, drawn, c).Some? <==> RowStorable(u, r, drawn, c)
  {
  }

  /** What the row touches, and whether it can be stored, does not depend on the rows before it. */
  lemma StorableLater(t: Tables, u: Tables, r: Row, drawn: nat, c: Scope)
    requires NamesUnique(t) && NamesUnique(u) && Respects(t, u, c) && Applies(r) && RowFits(t, r)
    requires NotYet(t, u, TargetName(t, r)) && CostsOf(t, drawn) == CostsOf(u, drawn)
    ensures RowStorable(u, r, drawn, c) <==> RowStorable(t, r, drawn, c)
  {
    var name := TargetName(t, r);
    if r.action.Add? {
      if Exists(t, name) {
        assert Named(u, name, IdOf(t, name));
      } else if Exists(u, name) {
        assert Named(t, name, IdOf(u, name));
      }
    } else {
      assert Named(t, name, r.matched.value);
    }
  }

  /** A fitting import with unused identifiers is applied if and only if the schema accepts every row it writes,
      each judged by the tables before the import. */
  lemma {:induction false} ApplySucceedsIff(t: Tables, rows: seq<Row>, drawn: seq<nat>, c: Scope)
    requires |drawn| == |rows| && Fits(t, rows) && NamesUnique(t) && Drawable(t, drawn)
    ensures ApplyRows(t, rows, drawn, c).Some? <==>
              forall i :: 0 <= i < |rows| && Applies(rows[i]) ==> RowStorable(t, rows[i], drawn[i], c)
  {
    if rows != [] {
      var n := |rows| - 1;
      assert forall i :: 0 <= i < n ==> rows[..n][i] == rows[i] && drawn[..n][i] == drawn[i];
      FitsPrefix(t, rows);
      ApplySucceedsIff(t, rows[..n], drawn[..n], c);
      if ApplyRows(t, rows[..n], drawn[..n], c).Some? {
        LastSucceedsIff(t, ApplyRows(t, rows[..n], drawn[..n], c).value, rows, drawn, c);
      }
    }
  }

  lemma {:induction false} LastSucceedsIff(t: Tables, u: Tables, rows: seq<Row>, drawn: seq<nat>, c: Scope)
    requires |drawn| == |rows| && rows != [] && Fits(t, rows) && NamesUnique(t) && Drawable(t, drawn)
    requires Some(u) == ApplyRows(t, rows[..|rows| - 1], drawn[..|rows| - 1], c)
    ensures var n := |rows| - 1;
      ApplyRows(t, rows, drawn, c).Some? <==> (Applies(rows[n]) ==> RowStorable(t, rows[n], drawn[n], c))
  {
    var n := |rows| - 1;
    FitsPrefix(t, rows);
    ApplyRespects(t, rows[..n], drawn[..n], c);
    ApplyWithin(t, rows[..n], drawn[..n], c);
    ApplyKeepsUnique(t, rows[..n], drawn[..n], c);
    if Applies(rows[n]) {
      RowFitsLater(t, u, rows[n], c);
      var name := TargetName(t, rows[n]);
      assert forall i :: 0 <= i < n ==> rows[..n][i] == rows[i] && !Touches(t, rows[i], name);
      Untouched(t, rows[..n], drawn[..n], c, name);
      assert drawn[n] !in drawn[..n];
      StorableLater(t, u, rows[n], drawn[n], c);
      StepSucceeds(u, rows[n], drawn[n], c);
    }
  }

  lemma {:induction false} ApplyKeepsUnique(t: Tables, rows: seq<Row>, drawn: seq<nat>, c: Scope)
    requires |drawn| == |rows| && ApplyRows(t, rows, drawn, c).Some? && NamesUnique(t)
    ensures NamesUnique(ApplyRows(t, rows, drawn, c).value)
  {
    if rows != [] {
      var n := |rows| - 1;
      ApplyKeepsUnique(t, rows[..n], drawn[..n], c);
      StepKeepsUnique(ApplyRows(t, rows[..n], drawn[..n], c).value, rows[n], drawn[n], c);
    }
  }

  /** What a row needs by itself: a registrar name within the limit, and for each price a known currency and numbers
      that fit. */
  predicate ValuesStorable(v: Values, at: Setting) {
    && |TrimSpace(v.registrar)| <= 200
    && (v.purchasePrice.Some? || v.renewalPrice.Some? ==> v.currency in at.currencies && RateFits(v.taxRate))
    && (v.purchasePrice.Some? ==> AmountFits(v.purchasePrice.value))
    && (v.renewalPrice.Some? ==> AmountFits(v.renewalPrice.value))
  }

  /** As long as the date does not run backwards, an import is applied if and only if every value it writes can be
      stored by itself. */
  lemma {:induction false} ApplySucceeds(t: Tables, rows: seq<Row>, drawn: seq<nat>, c: Scope)
    requires |drawn| == |rows| && Fits(t, rows) && NamesUnique(t) && Drawable(t, drawn) && PricesSound(t, c.at.today)
    ensures ApplyRows(t, rows, drawn, c).Some? <==>
              forall i :: 0 <= i < |rows| && Writes(rows[i]) ==> ValuesStorable(rows[i].values.value, c.at)
  {
    ApplySucceedsIff(t, rows, drawn, c);
    forall i | 0 <= i < |rows| && Applies(rows[i])
      ensures RowStorable(t, rows[i], drawn[i], c) <==> (Writes(rows[i]) ==> ValuesStorable(rows[i].values.value, c.at))
    {
      if Writes(rows[i]) { assert Dated(CostsOf(t, Touched(t, rows[i], drawn[i])), c.at.today); }
    }
  }

  /** A preview the code accepts and apply refuses: one new domain priced in a currency the database does not know. */
  lemma {:induction false} UnknownCurrencyAborts(source: Source, at: Setting)
    requires at.currencies == {"THB", "USD"}
    ensures var v := Values("example.com", "", None, Some("10.000000"), "EUR", None, None, None, "medium", "", true);
      var rows := [Row(2, Add, true, Some(v), [], None)];
      && Previewed([Fields(v, [])], map[], source, rows, [])
      && ApplyRows(Tables(map[], map[], map[]), rows, [0], Scope(source.kind, at)).None?
  {
    var v := Values("example.com", "", None, Some("10.000000"), "EUR", None, None, None, "medium", "", true);
    var row := Row(2, Add, true, Some(v), [], None);
    var t, c := Tables(map[], map[], map[]), Scope(source.kind, at);
    assert "EUR" !in at.currencies by { assert "EUR"[0] != "THB"[0] && "EUR"[0] != "USD"[0]; }
    assert !Storable(v, [], at);
    assert Step(t, row, 0, c).None?;
    assert [row][..0] == [] && [0][..0] == [];
    assert ApplyRows(t, [row][..0], [0][..0], c) == Some(t);
    assert !Duplicated(Domains([Fields(v, [])]), 0);
    assert ParsedRow([Fields(v, [])], 0) == row.(action := Unchanged);
  }

  // ---- The service ------------------------------------------------------------------------------

  datatype Status = Pending | Applied(key: string) | Declined

  datatype Import = Import(status: Status, kind: string, rows: seq<Row>, validRowsApplied: nat)

  datatype Outcome = Done | AlreadyDone | BadRequest | NotFound | Conflict | Failed

  class Store {
    var domains: map<nat, Domain>
    var schedules: map<nat, bool>
    var costs: map<nat, seq<Cost>>
    var setting: Setting
    var imports: map<nat, Import>

    constructor (at: Setting)
      ensures View() == Tables(map[], map[], map[]) && imports == map[] && setting == at
    {
      domains, schedules, costs, imports, setting := map[], map[], map[], map[], at;
    }

    ghost function View(): Tables
      reads this
    {
      Tables(domains, schedules, costs)
    }

    method EnsureSchedule(id: nat, enabled: bool)
      modifies this`schedules
      ensures schedules == old(schedules)[id := enabled]
    {
      schedules := schedules[id := enabled];
    }

    /** The update of `upsertSheetCost`. */
    method EndPrices(cs: seq<Cost>, kind: CostKind) returns (r: seq<Cost>)
      ensures |r| == |cs| && forall i :: 0 <= i < |cs| ==> r[i] == Ended(cs[i], kind, setting.today)
    {
      var today := setting.today;
      r := seq(|cs|, i requires 0 <= i < |cs| =>
        if cs[i].kind == kind && cs[i].to == None
        then cs[i].(to := Some(if cs[i].from < today then today - 1 else today)) else cs[i]);
    }

    /** `upsertSheetCost`: end the price in effect, then insert the new one; either statement can be refused. */
    method UpsertCost(cs: seq<Cost>, kind: CostKind, amount: string, v: Values) returns (r: seq<Cost>, ok: bool)
      ensures ok <==> PriceStorable(kind, amount, v, cs, setting)
      ensures ok ==> r == Upserted(cs, kind, amount, v, setting.today)
    {
      var today := setting.today;
      if exists i :: 0 <= i < |cs| && Open(cs[i], kind) && cs[i].from > today { return cs, false; }
      r := EndPrices(cs, kind);
      var taxMode := "unknown";
      if v.taxRate.Some? { taxMode := "exclusive"; }
      if v.currency !in setting.currencies || !AmountFits(amount) || !RateFits(v.taxRate) { return cs, false; }
      r := r + [Cost(kind, amount, v.currency, v.taxRate, taxMode, 12, today, None)];
      ok := true;
    }

    /** The prices of `applySheetFields`: purchase, then renewal. */
    method WritePrices(id: nat, v: Values) returns (ok: bool)
      requires |TrimSpace(v.registrar)| <= 200
      modifies this`costs
      ensures ok <==> Storable(v, CostsOf(old(View()), id), setting)
      ensures ok ==> costs == old(costs)[id := Repriced(CostsOf(old(View()), id), v, setting.today)]
    {
      var cs := if id in costs then costs[id] else [];
      ghost var first := cs;
      ok := true;
      if v.purchasePrice.Some? {
        cs, ok := UpsertCost(cs, Purchase, v.purchasePrice.value, v);
        if !ok { return; }
        if v.renewalPrice.Some? {
          UpsertAside(first, Purchase, v.purchasePrice.value, v, setting, Renewal, v.renewalPrice.value);
        }
      }
      if v.renewalPrice.Some? {
        cs, ok := UpsertCost(cs, Renewal, v.renewalPrice.value, v);
        if !ok { return; }
      }
      costs := costs[id := cs];
    }

    /** The update of `applyModify`. */
    method UpdateDomain(id: nat, v: Values, kind: string) returns (enabled: bool)
      requires id in domains
      modifies this`domains
      ensures domains == old(domains)[id := Updated(old(domains)[id], v, Scope(kind, setting), id)]
      ensures enabled <==> domains[id].monitoring && domains[id].lifecycle.Active?
    {
      var d := domains[id];
      var fields := if id in setting.overrides then setting.overrides[id] else {};
      var lifecycle, monitoring := d.lifecycle, v.active;
      if lifecycle != Archived {
        lifecycle := if v.active then Active else Inactive;
      } else {
        monitoring := false;
      }
      domains := domains[id := Domain(
        d.name, RegistrarOf(v.registrar), v.purchaseDate,
        if "expiration_date" in fields then d.expiration else v.expirationDate,
        if "business_priority" in fields then d.priority else v.priority,
        v.notes, lifecycle, monitoring, SourceType(kind), "present", d.version + 1)];
      enabled := monitoring && lifecycle == Active;
    }

    /** `applyModify`: an archived domain stays archived and unmonitored; overridden fields are kept. */
    method ModifyRow(id: nat, v: Values, kind: string) returns (ok: bool)
      modifies this`domains, this`schedules, this`costs
      ensures ok == ModifyDomain(old(View()), id, v, Scope(kind, setting)).Some?
      ensures ok ==> View() == ModifyDomain(old(View()), id, v, Scope(kind, setting)).value
      ensures ok ==> Written(old(View()), View(), v, Scope(kind, setting), id)
    {
      if id !in domains || |TrimSpace(v.registrar)| > 200 { return false; }
      ghost var t := View();
      var enabled := UpdateDomain(id, v, kind);
      EnsureSchedule(id, enabled);
      ok := WritePrices(id, v);
      if ok { WriteWrites(t, id, domains[id], v, Scope(kind, setting)); }
    }

    /** `applyAdd`. */
    method AddRow(v: Values, drawn: nat, kind: string) returns (ok: bool)
      requires NamesUnique(View())
      modifies this`domains, this`schedules, this`costs
      ensures ok == AddDomain(old(View()), v, drawn, Scope(kind, setting)).Some?
      ensures ok ==> View() == AddDomain(old(View()), v, drawn, Scope(kind, setting)).value
      ensures ok ==>
                exists id :: Named(View(), v.domain, id) && Written(old(View()), View(), v, Scope(kind, setting), id)
    {
      ghost var t := View();
      if exists id :: id in domains && domains[id].name == v.domain {
        var id :| id in domains && domains[id].name == v.domain;
        assert Named(View(), v.domain, id);
        ok := ModifyRow(id, v, kind);
        assert ok ==> Named(View(), v.domain, id);
        return;
      }
      if drawn in domains || |TrimSpace(v.registrar)| > 200 { return false; }
      domains := domains[drawn := Domain(
        v.domain, RegistrarOf(v.registrar), v.purchaseDate, v.expirationDate, v.priority, v.notes,
        if v.active then Active else Inactive, v.active, SourceType(kind), "present", 1)];
      EnsureSchedule(drawn, v.active);
      ok := WritePrices(drawn, v);
      if ok {
        WriteWrites(t, drawn, domains[drawn], v, Scope(kind, setting));
        assert Named(View(), v.domain, drawn);
      }
    }

    /** `applyMissing`. */
    method MissingRowOf(id: nat, kind: string) returns (ok: bool)
      modifies this`domains, this`schedules, this`costs
      ensures ok == MissDomain(old(View()), id, Scope(kind, setting)).Some?
      ensures ok ==> View() == MissDomain(old(View()), id, Scope(kind, setting)).value
      ensures ok ==> id in old(domains) && Gone(old(View()), View(), Scope(kind, setting), id)
    {
      if id !in domains { return false; }
      if domains[id].sourceType == SourceType(kind) {
        var d := domains[id];
        domains := domains[id := d.(sourceStatus := "missing_from_source", monitoring := false,
                                    version := d.version + 1)];
      }
      assert domains == old(domains)[id := Disappeared(old(domains)[id], kind)];
      EnsureSchedule(id, false);
      return true;
    }

    method ApplyRow(r: Row, drawn: nat, kind: string) returns (ok: bool)
      requires NamesUnique(View()) && Applies(r)
      modifies this`domains, this`schedules, this`costs
      ensures ok == Step(old(View()), r, drawn, Scope(kind, setting)).Some?
      ensures ok ==> View() == Step(old(View()), r, drawn, Scope(kind, setting)).value
    {
      match r.action
      case Add =>
        if r.values.None? { return false; }
        ok := AddRow(r.values.value, drawn, kind);
      case Modify =>
        if r.values.None? || r.matched.None? { return false; }
        ok := ModifyRow(r.matched.value, r.values.value, kind);
      case Missing =>
        if r.matched.None? { return false; }
        ok := MissingRowOf(r.matched.value, kind);
      case Unchanged =>
        if r.matched.Some? && r.matched.value in domains && domains[r.matched.value].sourceStatus != "present" {
          var d := domains[r.matched.value];
          domains := domains[r.matched.value := d.(sourceStatus := "present", version := d.version + 1)];
        }
        assert r.matched.Some? && r.matched.value in old(domains) ==>
                 domains == old(domains)[r.matched.value := Confirmed(old(domains)[r.matched.value])];
        return true;
      case Invalid =>
        return false;
    }

    /** The loop over the rows: it stops at the first failure. */
    method ApplyAll(rows: seq<Row>, drawn: seq<nat>, kind: string) returns (ok: bool, applied: nat)
      requires |drawn| == |rows| && NamesUnique(View())
      modifies this`domains, this`schedules, this`costs
      ensures ok == ApplyRows(old(View()), rows, drawn, Scope(kind, setting)).Some?
      ensures ok ==> View() == ApplyRows(old(View()), rows, drawn, Scope(kind, setting)).value
      ensures ok ==> applied == AppliedCount(rows)
    {
      applied := 0;
      ghost var t, c := View(), Scope(kind, setting);
      for k := 0 to |rows|
        invariant ApplyRows(t, rows[..k], drawn[..k], c) == Some(View()) && NamesUnique(View())
        invariant applied == AppliedCount(rows[..k])
      {
        assert rows[..k + 1][..k] == rows[..k] && drawn[..k + 1][..k] == drawn[..k];
        if rows[k].valid && rows[k].action != Invalid {
          ghost var before := View();
          ok := ApplyRow(rows[k], drawn[k], kind);
          if !ok {
            Fails(t, rows, drawn, c, k + 1);
            return;
          }
          StepKeepsUnique(before, rows[k], drawn[k], c);
          applied := applied + 1;
        }
      }
      assert rows[..|rows|] == rows && drawn[..|rows|] == drawn;
      ok := true;
    }

    /** `Apply`: everything or nothing, once. */
    method Apply(id: nat, key: string, reason: string, drawn: seq<nat>) returns (o: Outcome)
      requires NamesUnique(View()) && (id in imports ==> |drawn| == |imports[id].rows|)
      modifies this`domains, this`schedules, this`costs, this`imports
      ensures var w, q := World(old(View()), old(imports)), Request(id, key, reason, drawn, setting);
        o == Answer(w, q) && World(View(), imports) == Serve(w, q)
      ensures !o.Done? ==> View() == old(View()) && imports == old(imports)
      ensures o.Done? <==>
                && 8 <= ByteLength(TrimSpace(key)) <= 200 && TrimSpace(reason) != ""
                && id in old(imports) && old(imports)[id].status == Pending
                && ApplyRows(old(View()), old(imports)[id].rows, drawn, Scope(old(imports)[id].kind, setting)).Some?
                && forall j :: j in old(imports) && j != id ==> old(imports)[j].status != Applied(TrimSpace(key))
    {
      var k := TrimSpace(key);
      if ByteLength(k) < 8 || ByteLength(k) > 200 || TrimSpace(reason) == "" { return BadRequest; }
      if id !in imports { return NotFound; }
      var item := imports[id];
      if item.status.Applied? {
        return if item.status.key == k then AlreadyDone else Conflict;
      }
      if item.status != Pending { return Conflict; }
      var savedDomains, savedSchedules, savedCosts := domains, schedules, costs;
      var ok, applied := ApplyAll(item.rows, drawn, item.kind);
      if !ok || exists j :: j in imports && j != id && imports[j].status == Applied(k) {
        domains, schedules, costs := savedDomains, savedSchedules, savedCosts;
        return Failed;
      }
      imports := imports[id := item.(status := Applied(k), validRowsApplied := applied)];
      return Done;
    }
  }

  lemma {:induction false} Fails(t: Tables, rows: seq<Row>, drawn: seq<nat>, c: Scope, k: nat)
    requires |drawn| == |rows| && k <= |rows| && ApplyRows(t, rows[..k], drawn[..k], c).None?
    ensures ApplyRows(t, rows, drawn, c).None?
  {
    if k == |rows| {
      assert rows[..k] == rows && drawn[..k] == drawn;
    } else {
      var n := |rows| - 1;
      assert rows[..n][..k] == rows[..k] && drawn[..n][..k] == drawn[..k];
      Fails(t, rows[..n], drawn[..n], c, k);
    }
  }

  // ---- Any sequence of requests ------------------------------------------------------------------

  datatype World = World(tables: Tables, imports: map<nat, Import>)

  /** A request to apply an import, with the identifiers it draws and the setting it is served in. */
  datatype Request = Request(id: nat, key: string, reason: string, drawn: seq<nat>, setting: Setting)

  /** One identifier is drawn per row. */
  predicate Drawn(w: World, q: Request) {
    q.id in w.imports ==> |q.drawn| == |w.imports[q.id].rows|
  }

  /** Another import was applied under this key; the table keeps apply keys unique, so the final update is refused. */
  predicate KeyUsed(imports: map<nat, Import>, id: nat, key: string) {
    exists j :: j in imports && j != id && imports[j].status == Applied(key)
  }

  /** How a request is answered. */
  ghost function Answer(w: World, q: Request): Outcome
    requires Drawn(w, q)
  {
    if !(8 <= ByteLength(TrimSpace(q.key)) <= 200) || TrimSpace(q.reason) == "" then BadRequest
    else if q.id !in w.imports then NotFound
    else
      match w.imports[q.id].status
      case Applied(used) => if used == TrimSpace(q.key) then AlreadyDone else Conflict
      case Declined => Conflict
      case Pending => if Result(w, q).Some? && !KeyUsed(w.imports, q.id, TrimSpace(q.key)) then Done else Failed
  }

  ghost function Result(w: World, q: Request): Option<Tables>
    requires Drawn(w, q) && q.id in w.imports
  {
    ApplyRows(w.tables, w.imports[q.id].rows, q.drawn, Scope(w.imports[q.id].kind, q.setting))
  }

  function Finished(i: Import, key: string): Import {
    i.(status := Applied(TrimSpace(key)), validRowsApplied := AppliedCount(i.rows))
  }

  ghost function Serve(w: World, q: Request): World
    requires Drawn(w, q)
  {
    if Answer(w, q).Done?
    then World(Result(w, q).value, w.imports[q.id := Finished(w.imports[q.id], q.key)])
    else w
  }

  ghost predicate AllDrawn(w: World, qs: seq<Request>) {
    forall i :: 0 <= i < |qs| ==> Drawn(w, qs[i])
  }

  /** Requests are served one after the other; imports keep their rows, so the identifiers stay the right number. */
  ghost function ServeAll(w: World, qs: seq<Request>): (u: World)
    requires AllDrawn(w, qs)
    ensures u.imports.Keys == w.imports.Keys
    ensures forall id :: id in w.imports ==> u.imports[id].rows == w.imports[id].rows
  {
    if qs == [] then w
    else
      var rest := qs[..|qs| - 1];
      assert forall i :: 0 <= i < |rest| ==> rest[i] == qs[i];
      assert Drawn(w, qs[|qs| - 1]);
      Serve(ServeAll(w, rest), qs[|qs| - 1])
  }

  /** How any request for an import that is already applied is answered: nothing is applied again, the same key is
      acknowledged and any other key is a conflict. */
  lemma ApplyTwice(w: World, q: Request)
    requires Drawn(w, q) && q.id in w.imports && w.imports[q.id].status.Applied?
    ensures Serve(w, q) == w && !Answer(w, q).Done?
    ensures Answer(w, q).AlreadyDone? <==> !Answer(w, q).BadRequest? && w.imports[q.id].status.key == TrimSpace(q.key)
  {
  }

  lemma {:induction false} AppliedStays(w: World, id: nat, qs: seq<Request>)
    requires AllDrawn(w, qs) && id in w.imports && w.imports[id].status.Applied?
    ensures ServeAll(w, qs).imports[id] == w.imports[id]
    ensures (forall k :: 0 <= k < |qs| ==> qs[k].id == id) ==> ServeAll(w, qs) == w
  {
    if qs != [] {
      var rest, q := qs[..|qs| - 1], qs[|qs| - 1];
      assert forall i :: 0 <= i < |rest| ==> rest[i] == qs[i];
      AppliedStays(w, id, rest);
      assert Drawn(w, q);
      if q.id == id { ApplyTwice(ServeAll(w, rest), q); }
    }
  }

  /** A request that is answered Done applies its rows once and for all: under any later requests, for this import or
      for others, the import stays exactly as it is and none of those for it is answered Done again; if all of them
      are for it, nothing changes at all. */
  lemma {:induction false} AppliedOnce(w: World, q: Request, later: seq<Request>, k: nat)
    requires Drawn(w, q) && Answer(w, q).Done? && AllDrawn(Serve(w, q), later)
    ensures var u := Serve(w, q); var z := ServeAll(u, later);
      && u == World(Result(w, q).value, w.imports[q.id := Finished(w.imports[q.id], q.key)])
      && z.imports[q.id] == u.imports[q.id]
      && ((forall i :: 0 <= i < |later| ==> later[i].id == q.id) ==> z == u)
    ensures k < |later| && later[k].id == q.id ==>
              && AllDrawn(Serve(w, q), later[..k])
              && var y := ServeAll(Serve(w, q), later[..k]);
                 Drawn(y, later[k]) && !Answer(y, later[k]).Done?
                 && (Answer(y, later[k]).AlreadyDone? <==>
                       !Answer(y, later[k]).BadRequest? && TrimSpace(later[k].key) == TrimSpace(q.key))
  {
    var u := Serve(w, q);
    AppliedStays(u, q.id, later);
    if k < |later| && later[k].id == q.id {
      assert forall i :: 0 <= i < k ==> later[..k][i] == later[i];
      AppliedStays(u, q.id, later[..k]);
      assert Drawn(u, later[k]);
      ApplyTwice(ServeAll(u, later[..k]), later[k]);
    }
  }

  ghost predicate KeysUnique(imports: map<nat, Import>) {
    forall i, j :: i in imports && j in imports && i != j && imports[i].status.Applied? ==>
      imports[i].status != imports[j].status
  }

  lemma ServeKeepsKeys(w: World, q: Request)
    requires Drawn(w, q) && KeysUnique(w.imports)
    ensures KeysUnique(Serve(w, q).imports)
  {
    if Answer(w, q).Done? {
      MarkKeepsKeys(w.imports, q.id, Finished(w.imports[q.id], q.key));
    }
  }

  lemma MarkKeepsKeys(imports: map<nat, Import>, id: nat, item: Import)
    requires KeysUnique(imports) && item.status.Applied? && !KeyUsed(imports, id, item.status.key)
    ensures KeysUnique(imports[id := item])
  {
  }

  /** One key applies at most one import, under any sequence of requests. */
  lemma {:induction false} OneImportPerKey(w: World, qs: seq<Request>)
    requires AllDrawn(w, qs) && KeysUnique(w.imports)
    ensures KeysUnique(ServeAll(w, qs).imports)
  {
    if qs != [] {
      var rest, q := qs[..|qs| - 1], qs[|qs| - 1];
      assert forall i :: 0 <= i < |rest| ==> rest[i] == qs[i];
      OneImportPerKey(w, rest);
      assert Drawn(w, q);
      ServeKeepsKeys(ServeAll(w, rest), q);
    }
  }
}
