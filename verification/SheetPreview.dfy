/** Previewing a spreadsheet against the inventory (internal/sheets/model.go and service.go): rows that name
    the same domain are set aside, every other valid row becomes an action, and tracked domains the sheet no
    longer lists are reported missing. */
module SheetPreview {
  import opened Text

  datatype Values = Values(
    domain: string, registrar: string, purchasePrice: Option<string>, renewalPrice: Option<string>, currency: string,
    taxRate: Option<string>, purchaseDate: Option<string>, expirationDate: Option<string>, priority: string,
    notes: string, active: bool)

  /** A data row after its cells were read: blank, or normalized with the errors found. */
  datatype Cells = Blank | Fields(values: Values, errors: seq<string>) {
    predicate Sound() { Fields? && errors == [] }
  }

  datatype Action = Add | Modify | Unchanged | Missing | Invalid

  datatype Row = Row(number: int, action: Action, valid: bool, values: Option<Values>, errors: seq<string>,
                     matched: Option<nat>)

  // ---- Parsing the rows ------------------------------------------------------------------

  function Domains(cells: seq<Cells>): (ds: seq<Option<string>>)
    ensures |ds| == |cells|
    ensures forall i :: 0 <= i < |cells| ==> ds[i] == if cells[i].Sound() then Some(cells[i].values.domain) else None
  {
    seq(|cells|, i requires 0 <= i < |cells| => if cells[i].Sound() then Some(cells[i].values.domain) else None)
  }

  /** Another sound row names the same domain. */
  predicate Duplicated(ds: seq<Option<string>>, i: int)
    requires 0 <= i < |ds|
  {
    ds[i].Some? && exists j :: 0 <= j < |ds| && j != i && ds[j] == ds[i]
  }

  function ReadRow(c: Cells, number: int): Row {
    match c
    case Blank => Row(number, Invalid, false, None, ["EMPTY_ROW"], None)
    case Fields(values, errors) =>
      Row(number, if errors == [] then Unchanged else Invalid, errors == [], Some(values), errors, None)
  }

  function SetAside(r: Row): Row
    requires r.values.Some?
  {
    r.(valid := false, action := Invalid, errors := r.errors + ["DUPLICATE_DOMAIN:" + r.values.value.domain])
  }

  /** What row `i` should become. */
  function ParsedRow(cells: seq<Cells>, i: int): Row
    requires 0 <= i < |cells|
  {
    var r := ReadRow(cells[i], i + 2);
    if Duplicated(Domains(cells), i) then SetAside(r) else r
  }

  method ReadRows(cells: seq<Cells>) returns (rows: seq<Row>)
    ensures |rows| == |cells| && forall i :: 0 <= i < |cells| ==> rows[i] == ReadRow(cells[i], i + 2)
  {
    rows := [];
    for k := 0 to |cells|
      invariant |rows| == k && forall i :: 0 <= i < k ==> rows[i] == ReadRow(cells[i], i + 2)
    {
      var row := Row(k + 2, Invalid, false, None, [], None);
      match cells[k]
      case Blank =>
        rows := rows + [row.(errors := ["EMPTY_ROW"])];
      case Fields(values, errors) =>
        row := row.(values := Some(values), errors := errors, valid := errors == []);
        if row.valid { row := row.(action := Unchanged); }
        rows := rows + [row];
    }
  }

  /** For each domain, the indexes of the sound rows that name it, in order. */
  ghost predicate Indexed(ds: seq<Option<string>>, n: nat, index: map<string, seq<nat>>)
    requires n <= |ds|
  {
    && (forall d, k :: d in index && 0 <= k < |index[d]| ==> index[d][k] < n && ds[index[d][k]] == Some(d))
    && (forall d, k, l :: d in index && 0 <= k < l < |index[d]| ==> index[d][k] < index[d][l])
    && (forall i :: 0 <= i < n && ds[i].Some? ==> ds[i].value in index && i in index[ds[i].value])
  }

  function Appended(index: map<string, seq<nat>>, d: string, i: nat): map<string, seq<nat>> {
    index[d := (if d in index then index[d] else []) + [i]]
  }

  lemma AppendedIndexed(ds: seq<Option<string>>, i: nat, index: map<string, seq<nat>>)
    requires i < |ds| && Indexed(ds, i, index) && ds[i].Some?
    ensures Indexed(ds, i + 1, Appended(index, ds[i].value, i))
  {
    var d := ds[i].value;
    var after := Appended(index, d, i);
    assert after[d][|after[d]| - 1] == i;
    forall j | 0 <= j < i + 1 && ds[j].Some? ensures ds[j].value in after && j in after[ds[j].value] {
      if j < i { assert j in index[ds[j].value]; }
    }
  }

  lemma SkippedIndexed(ds: seq<Option<string>>, i: nat, index: map<string, seq<nat>>)
    requires i < |ds| && Indexed(ds, i, index) && ds[i].None?
    ensures Indexed(ds, i + 1, index)
  {
  }

  method IndexDomains(rows: seq<Row>, ghost ds: seq<Option<string>>) returns (index: map<string, seq<nat>>)
    requires |ds| == |rows|
    requires forall i :: 0 <= i < |rows| ==>
               ds[i] == if rows[i].valid && rows[i].values.Some? then Some(rows[i].values.value.domain) else None
    ensures Indexed(ds, |ds|, index)
  {
    index := map[];
    for i := 0 to |rows|
      invariant Indexed(ds, i, index)
    {
      if rows[i].valid && rows[i].values.Some? {
        AppendedIndexed(ds, i, index);
        index := Appended(index, rows[i].values.value.domain, i);
      } else {
        SkippedIndexed(ds, i, index);
      }
    }
  }

  lemma DuplicatedIffTwo(ds: seq<Option<string>>, index: map<string, seq<nat>>, i: nat)
    requires i < |ds| && Indexed(ds, |ds|, index) && ds[i].Some?
    ensures Duplicated(ds, i) <==> |index[ds[i].value]| >= 2
  {
    var d := ds[i].value;
    var s := index[d];
    assert i in s;
    if |s| >= 2 {
      assert s[0] < s[1];
      var j := if s[0] == i then s[1] else s[0];
      assert j != i && ds[j] == ds[i];
    }
    if Duplicated(ds, i) {
      var j :| 0 <= j < |ds| && j != i && ds[j] == ds[i];
      assert j in s;
      assert s[0] != i || s[0] != j;
    }
  }

  // ---- Setting duplicates aside -----------------------------------------------------------

  /** Mark every row of one duplicated domain. */
  method MarkAll(rows: seq<Row>, at: seq<nat>) returns (r: seq<Row>)
    requires forall k :: 0 <= k < |at| ==> at[k] < |rows| && rows[at[k]].values.Some?
    requires forall k, l :: 0 <= k < l < |at| ==> at[k] < at[l]
    ensures |r| == |rows|
    ensures forall i :: 0 <= i < |rows| ==> r[i] == if i in at then SetAside(rows[i]) else rows[i]
  {
    r := rows;
    for k := 0 to |at|
      invariant |r| == |rows|
      invariant forall i :: 0 <= i < |rows| ==> r[i] == if i in at[..k] then SetAside(rows[i]) else rows[i]
    {
      assert at[k] !in at[..k];
      var row := r[at[k]];
      r := r[at[k] := row.(valid := false, action := Invalid,
                           errors := row.errors + ["DUPLICATE_DOMAIN:" + row.values.value.domain])];
      assert at[..k + 1] == at[..k] + [at[k]];
    }
    assert at[..|at|] == at;
  }

  /** Row `i` once the domains outside `todo` have been looked at. */
  ghost predicate Marked(before: Row, after: Row, d: Option<string>, todo: set<string>, index: map<string, seq<nat>>) {
    if d.Some? && d.value !in todo && d.value in index && |index[d.value]| >= 2 && before.values.Some?
    then after == SetAside(before) else after == before
  }

  /** The loop over the duplicates, in any order. */
  method IsolateDuplicates(rows: seq<Row>, index: map<string, seq<nat>>, ghost ds: seq<Option<string>>)
      returns (r: seq<Row>)
    requires |ds| == |rows| && Indexed(ds, |ds|, index)
    requires forall i :: 0 <= i < |rows| && ds[i].Some? ==> rows[i].values.Some?
    ensures |r| == |rows| && forall i :: 0 <= i < |rows| ==> Marked(rows[i], r[i], ds[i], {}, index)
  {
    r := rows;
    var todo := index.Keys;
    assert forall i :: 0 <= i < |rows| ==> Marked(rows[i], r[i], ds[i], todo, index);
    while todo != {}
      invariant todo <= index.Keys && |r| == |rows|
      invariant forall i :: 0 <= i < |rows| ==> Marked(rows[i], r[i], ds[i], todo, index)
      decreases |todo|
    {
      var d :| d in todo;
      ghost var was := r;
      if |index[d]| >= 2 {
        MarkedValues(rows, r, ds, todo, index, d);
        r := MarkAll(r, index[d]);
      }
      MarkedNext(rows, was, r, ds, todo, index, d);
      todo := todo - {d};
    }
  }

  lemma MarkedValues(rows: seq<Row>, r: seq<Row>, ds: seq<Option<string>>, todo: set<string>,
                     index: map<string, seq<nat>>, d: string)
    requires |ds| == |rows| == |r| && Indexed(ds, |ds|, index) && d in todo && d in index
    requires forall i :: 0 <= i < |rows| && ds[i].Some? ==> rows[i].values.Some?
    requires forall i :: 0 <= i < |rows| ==> Marked(rows[i], r[i], ds[i], todo, index)
    ensures forall k :: 0 <= k < |index[d]| ==> r[index[d][k]] == rows[index[d][k]] && rows[index[d][k]].values.Some?
  {
    forall k | 0 <= k < |index[d]| ensures r[index[d][k]] == rows[index[d][k]] && rows[index[d][k]].values.Some? {
      var i := index[d][k];
      assert Marked(rows[i], r[i], ds[i], todo, index) && ds[i] == Some(d);
    }
  }

  lemma MarkedNext(rows: seq<Row>, was: seq<Row>, r: seq<Row>, ds: seq<Option<string>>, todo: set<string>,
                   index: map<string, seq<nat>>, d: string)
    requires |ds| == |rows| == |was| == |r| && Indexed(ds, |ds|, index) && d in todo && d in index
    requires forall i :: 0 <= i < |rows| && ds[i].Some? ==> rows[i].values.Some?
    requires forall i :: 0 <= i < |rows| ==> Marked(rows[i], was[i], ds[i], todo, index)
    requires if |index[d]| >= 2
             then forall i :: 0 <= i < |rows| ==>
                 (if i in index[d] then was[i].values.Some? && r[i] == SetAside(was[i]) else r[i] == was[i])
             else r == was
    ensures forall i :: 0 <= i < |rows| ==> Marked(rows[i], r[i], ds[i], todo - {d}, index)
  {
    forall i | 0 <= i < |rows| ensures Marked(rows[i], r[i], ds[i], todo - {d}, index) {
      assert Marked(rows[i], was[i], ds[i], todo, index);
      if ds[i] == Some(d) { assert i in index[d]; }
      if i in index[d] { assert ds[i] == Some(d); }
    }
  }

  /** `ParseRows`: every row is as specified. */
  method ParseRows(cells: seq<Cells>) returns (rows: seq<Row>)
    ensures |rows| == |cells| && forall i :: 0 <= i < |cells| ==> rows[i] == ParsedRow(cells, i)
  {
    ghost var ds := Domains(cells);
    var read := ReadRows(cells);
    var index := IndexDomains(read, ds);
    rows := IsolateDuplicates(read, index, ds);
    forall i | 0 <= i < |cells| ensures rows[i] == ParsedRow(cells, i) {
      assert Marked(read[i], rows[i], ds[i], {}, index);
      if ds[i].Some? { DuplicatedIffTwo(ds, index, i); }
    }
  }

  /** The valid rows name pairwise distinct domains; a row is invalid exactly when it is blank, has errors or
      shares its domain with another sound row. */
  lemma ParsedDistinct(cells: seq<Cells>, i: int, j: int)
    requires 0 <= i < j < |cells| && ParsedRow(cells, i).valid && ParsedRow(cells, j).valid
    ensures ParsedRow(cells, i).values.Some? && ParsedRow(cells, j).values.Some?
    ensures ParsedRow(cells, i).values.value.domain != ParsedRow(cells, j).values.value.domain
  {
    var ds := Domains(cells);
    assert !Duplicated(ds, i);
    assert ds[i].Some? && ds[j].Some? && ds[j] != ds[i];
  }

  // ---- Planning against the inventory --------------------------------------------------------

  /** A domain of the inventory as the preview reads it, with the source its last import came from. */
  datatype Tracked = Tracked(
    id: nat, registrar: string, purchasePrice: string, renewalPrice: string, currency: string, taxRate: string,
    purchaseDate: string, expirationDate: string, priority: string, notes: string, active: bool,
    sourceType: string, sourceStatus: string, source: Source)

  datatype Source = Source(kind: string, spreadsheet: string, sheet: string)

  type Inventory = map<string, Tracked>

  function OrEmpty(s: Option<string>): string {
    if s.Some? then s.value else ""
  }

  predicate Same(before: string, after: string) {
    TrimSpace(before) == TrimSpace(after)
  }

  /** `sheetDiff` finds nothing. */
  predicate Agrees(t: Tracked, v: Values) {
    && Same(t.registrar, v.registrar) && Same(t.purchasePrice, OrEmpty(v.purchasePrice))
    && Same(t.renewalPrice, OrEmpty(v.renewalPrice))
    && Same(t.currency, v.currency) && Same(t.taxRate, OrEmpty(v.taxRate))
    && Same(t.purchaseDate, OrEmpty(v.purchaseDate))
    && Same(t.expirationDate, OrEmpty(v.expirationDate)) && Same(t.priority, v.priority) && Same(t.notes, v.notes)
    && t.active == v.active
  }

  datatype Field =
    | RegistrarField | PurchasePriceField | RenewalPriceField | CurrencyField | TaxRateField
    | PurchaseDateField | ExpirationField | PriorityField | NotesField | ActiveField

  function Flag(b: bool): string {
    if b then "true" else "false"
  }

  function Before(t: Tracked, f: Field): string {
    match f
    case RegistrarField => t.registrar
    case PurchasePriceField => t.purchasePrice
    case RenewalPriceField => t.renewalPrice
    case CurrencyField => t.currency
    case TaxRateField => t.taxRate
    case PurchaseDateField => t.purchaseDate
    case ExpirationField => t.expirationDate
    case PriorityField => t.priority
    case NotesField => t.notes
    case ActiveField => Flag(t.active)
  }

  function After(v: Values, f: Field): string {
    match f
    case RegistrarField => v.registrar
    case PurchasePriceField => OrEmpty(v.purchasePrice)
    case RenewalPriceField => OrEmpty(v.renewalPrice)
    case CurrencyField => v.currency
    case TaxRateField => OrEmpty(v.taxRate)
    case PurchaseDateField => OrEmpty(v.purchaseDate)
    case ExpirationField => OrEmpty(v.expirationDate)
    case PriorityField => v.priority
    case NotesField => v.notes
    case ActiveField => Flag(v.active)
  }

  predicate Differs(t: Tracked, v: Values, f: Field) {
    if f.ActiveField? then t.active != v.active else !Same(Before(t, f), After(v, f))
  }

  type Diff = map<Field, (string, string)>

  /** The order in which the fields are compared. */
  ghost function Rank(f: Field): nat {
    match f
    case RegistrarField => 0
    case PurchasePriceField => 1
    case RenewalPriceField => 2
    case CurrencyField => 3
    case TaxRateField => 4
    case PurchaseDateField => 5
    case ExpirationField => 6
    case PriorityField => 7
    case NotesField => 8
    case ActiveField => 9
  }

  /** The first `n` fields have been compared: those that differ are listed, with both values. */
  ghost predicate Compared(t: Tracked, v: Values, n: nat, diff: Diff) {
    && (forall f :: f in diff <==> Rank(f) < n && Differs(t, v, f))
    && (forall f :: f in diff ==> diff[f] == (Before(t, f), After(v, f)))
  }

  lemma RankOnce(f: Field, g: Field)
    requires Rank(f) == Rank(g)
    ensures f == g
  {
  }

  method Compare(diff: Diff, f: Field, before: string, after: string, ghost t: Tracked, ghost v: Values, ghost n: nat)
      returns (r: Diff)
    requires Compared(t, v, n, diff) && Rank(f) == n && !f.ActiveField?
    requires before == Before(t, f) && after == After(v, f)
    ensures Compared(t, v, n + 1, r)
  {
    r := diff;
    if TrimSpace(before) != TrimSpace(after) {
      r := r[f := (before, after)];
    }
    forall g: Field | Rank(g) == n ensures g == f { RankOnce(f, g); }
  }

  method CompareFlag(diff: Diff, before: bool, after: bool, ghost t: Tracked, ghost v: Values) returns (r: Diff)
    requires Compared(t, v, 9, diff) && before == t.active && after == v.active
    ensures Compared(t, v, 10, r)
  {
    r := diff;
    if before != after {
      r := r[ActiveField := (Flag(before), Flag(after))];
    }
    forall g: Field | Rank(g) == 9 ensures g == ActiveField { RankOnce(ActiveField, g); }
  }

  method ComparePrices(diff: Diff, t: Tracked, v: Values) returns (r: Diff)
    requires Compared(t, v, 0, diff)
    ensures Compared(t, v, 3, r)
  {
    r := Compare(diff, RegistrarField, t.registrar, v.registrar, t, v, 0);
    r := Compare(r, PurchasePriceField, t.purchasePrice, OrEmpty(v.purchasePrice), t, v, 1);
    r := Compare(r, RenewalPriceField, t.renewalPrice, OrEmpty(v.renewalPrice), t, v, 2);
  }

  method CompareTerms(diff: Diff, t: Tracked, v: Values) returns (r: Diff)
    requires Compared(t, v, 3, diff)
    ensures Compared(t, v, 6, r)
  {
    r := Compare(diff, CurrencyField, t.currency, v.currency, t, v, 3);
    r := Compare(r, TaxRateField, t.taxRate, OrEmpty(v.taxRate), t, v, 4);
    r := Compare(r, PurchaseDateField, t.purchaseDate, OrEmpty(v.purchaseDate), t, v, 5);
  }

  method CompareRest(diff: Diff, t: Tracked, v: Values) returns (r: Diff)
    requires Compared(t, v, 6, diff)
    ensures Compared(t, v, 9, r)
  {
    r := Compare(diff, ExpirationField, t.expirationDate, OrEmpty(v.expirationDate), t, v, 6);
    r := Compare(r, PriorityField, t.priority, v.priority, t, v, 7);
    r := Compare(r, NotesField, t.notes, v.notes, t, v, 8);
  }

  /** `sheetDiff`: the fields that differ, spaces at the ends aside; none exactly when row and inventory agree. */
  method SheetDiff(t: Tracked, v: Values) returns (diff: Diff)
    ensures forall f :: f in diff <==> Differs(t, v, f)
    ensures forall f :: f in diff ==> diff[f] == (Before(t, f), After(v, f))
    ensures diff == map[] <==> Agrees(t, v)
  {
    diff := map[];
    diff := ComparePrices(diff, t, v);
    diff := CompareTerms(diff, t, v);
    diff := CompareRest(diff, t, v);
    diff := CompareFlag(diff, t.active, v.active, t, v);
    AllCompared(t, v, diff);
  }

  lemma AllCompared(t: Tracked, v: Values, diff: Diff)
    requires Compared(t, v, 10, diff)
    ensures forall f :: f in diff <==> Differs(t, v, f)
    ensures forall f :: f in diff ==> diff[f] == (Before(t, f), After(v, f))
    ensures diff == map[] <==> Agrees(t, v)
  {
    AgreesMeans(t, v);
    if diff == map[] { assert forall f: Field :: f !in diff; }
  }

  lemma AgreesMeans(t: Tracked, v: Values)
    ensures Agrees(t, v) <==> forall f: Field :: !Differs(t, v, f)
  {
    if forall f: Field :: !Differs(t, v, f) {
      assert !Differs(t, v, RegistrarField) && !Differs(t, v, PurchasePriceField) && !Differs(t, v, RenewalPriceField);
      assert !Differs(t, v, CurrencyField) && !Differs(t, v, TaxRateField) && !Differs(t, v, PurchaseDateField);
      assert !Differs(t, v, ExpirationField) && !Differs(t, v, PriorityField) && !Differs(t, v, NotesField);
      assert !Differs(t, v, ActiveField);
    }
  }

  predicate Counts(r: Row) {
    r.valid && r.values.Some?
  }

  function Planned(r: Row, inventory: Inventory): Row {
    if !Counts(r) then r
    else
      var v := r.values.value;
      if v.domain !in inventory then r.(action := Add)
      else r.(matched := Some(inventory[v.domain].id),
              action := if Agrees(inventory[v.domain], v) then Unchanged else Modify)
  }

  /** Some counting row names `d`. */
  predicate Names(rows: seq<Row>, d: string) {
    exists i :: 0 <= i < |rows| && Counts(rows[i]) && rows[i].values.value.domain == d
  }

  method Plan(rows: seq<Row>, inventory: Inventory) returns (r: seq<Row>, seen: set<string>)
    ensures |r| == |rows| && forall i :: 0 <= i < |rows| ==> r[i] == Planned(rows[i], inventory)
    ensures forall d :: d in seen <==> Names(rows, d)
  {
    r, seen := rows, {};
    for k := 0 to |rows|
      invariant |r| == |rows|
      invariant forall i :: 0 <= i < |rows| ==> r[i] == if i < k then Planned(rows[i], inventory) else rows[i]
      invariant forall d :: d in seen <==> Names(rows[..k], d)
    {
      NamesNext(rows, k);
      if r[k].valid && r[k].values.Some? {
        var v := r[k].values.value;
        seen := seen + {v.domain};
        if v.domain !in inventory {
          r := r[k := r[k].(action := Add)];
        } else {
          var current := inventory[v.domain];
          r := r[k := r[k].(matched := Some(current.id))];
          var diff := SheetDiff(current, v);
          if diff == map[] {
            r := r[k := r[k].(action := Unchanged)];
          } else {
            r := r[k := r[k].(action := Modify)];
          }
        }
      }
    }
    assert rows[..|rows|] == rows;
  }

  lemma NamesNext(rows: seq<Row>, k: nat)
    requires k < |rows|
    ensures forall d :: Names(rows[..k + 1], d) <==>
              Names(rows[..k], d) || (Counts(rows[k]) && rows[k].values.value.domain == d)
  {
    var less, more := rows[..k], rows[..k + 1];
    forall d ensures Names(more, d) <==> Names(less, d) || (Counts(rows[k]) && rows[k].values.value.domain == d) {
      if Names(less, d) {
        var i :| 0 <= i < |less| && Counts(less[i]) && less[i].values.value.domain == d;
        assert more[i] == less[i];
      }
      if Names(more, d) {
        var i :| 0 <= i < |more| && Counts(more[i]) && more[i].values.value.domain == d;
        if i < k { assert less[i] == more[i]; }
      }
      assert more[k] == rows[k];
    }
  }

  // ---- Missing domains ----------------------------------------------------------------------

  /** The inventory believes this sheet lists the domain. */
  predicate TrackedBy(t: Tracked, source: Source) {
    && t.sourceType == (if source.kind == "excel" then "import" else "google_sheet")
    && t.sourceStatus == "present" && t.source == source
  }

  predicate Lost(inventory: Inventory, source: Source, seen: set<string>, d: string) {
    d in inventory && TrackedBy(inventory[d], source) && d !in seen
  }

  function MissingRow(d: string, id: nat, number: int): Row {
    Row(number, Missing, true, Some(Values(d, "", None, None, "", None, None, None, "", "", false)), [], Some(id))
  }

  /** The loop over the inventory, in any order: one row for each lost domain, numbered on from `first`. */
  method FindMissing(inventory: Inventory, source: Source, seen: set<string>, first: int)
      returns (rows: seq<Row>, names: seq<string>)
    ensures |names| == |rows|
    ensures forall k :: 0 <= k < |rows| ==>
              names[k] in inventory && rows[k] == MissingRow(names[k], inventory[names[k]].id, first + k)
    ensures forall k, l :: 0 <= k < l < |names| ==> names[k] != names[l]
    ensures forall d :: d in names <==> Lost(inventory, source, seen, d)
  {
    rows, names := [], [];
    var todo, next := inventory.Keys, first;
    while todo != {}
      invariant todo <= inventory.Keys && next == first + |rows|
      invariant |names| == |rows|
      invariant forall k :: 0 <= k < |rows| ==>
                  names[k] in inventory && rows[k] == MissingRow(names[k], inventory[names[k]].id, first + k)
      invariant forall k, l :: 0 <= k < l < |names| ==> names[k] != names[l]
      invariant forall d :: d in names <==> Lost(inventory, source, seen, d) && d !in todo
      decreases |todo|
    {
      var d :| d in todo;
      todo := todo - {d};
      var current := inventory[d];
      var expected := "google_sheet";
      if source.kind == "excel" { expected := "import"; }
      if !(current.sourceType != expected || current.sourceStatus != "present" || current.source != source
           || d in seen) {
        var values := Values(d, "", None, None, "", None, None, None, "", "", false);
        rows := rows + [Row(next, Missing, true, Some(values), [], Some(current.id))];
        names := names + [d];
        next := next + 1;
      }
    }
  }

  // ---- Counting -------------------------------------------------------------------------------

  datatype Tally = Tally(total: nat, added: nat, modified: nat, same: nat, missing: nat, invalid: nat)

  function CountBy(rows: seq<Row>, a: Action): nat {
    if rows == [] then 0 else CountBy(rows[..|rows| - 1], a) + if rows[|rows| - 1].action == a then 1 else 0
  }

  /** `countActions`: each count is exact, and they add up to the rows. */
  method CountActions(rows: seq<Row>) returns (t: Tally)
    ensures t == Tally(|rows|, CountBy(rows, Add), CountBy(rows, Modify), CountBy(rows, Unchanged),
                       CountBy(rows, Missing), CountBy(rows, Invalid))
    ensures t.added + t.modified + t.same + t.missing + t.invalid == t.total
  {
    t := Tally(|rows|, 0, 0, 0, 0, 0);
    for k := 0 to |rows|
      invariant t == Tally(|rows|, CountBy(rows[..k], Add), CountBy(rows[..k], Modify), CountBy(rows[..k], Unchanged),
                           CountBy(rows[..k], Missing), CountBy(rows[..k], Invalid))
      invariant t.added + t.modified + t.same + t.missing + t.invalid == k
    {
      assert rows[..k + 1][..k] == rows[..k];
      match rows[k].action
      case Add => t := t.(added := t.added + 1);
      case Modify => t := t.(modified := t.modified + 1);
      case Unchanged => t := t.(same := t.same + 1);
      case Missing => t := t.(missing := t.missing + 1);
      case Invalid => t := t.(invalid := t.invalid + 1);
    }
    assert rows[..|rows|] == rows;
  }

  // ---- The preview ----------------------------------------------------------------------------

  ghost predicate Previewed(cells: seq<Cells>, inventory: Inventory, source: Source, rows: seq<Row>,
                            names: seq<string>) {
    && |rows| == |cells| + |names|
    && (forall i :: 0 <= i < |cells| ==> rows[i] == Planned(ParsedRow(cells, i), inventory))
    && (forall k :: 0 <= k < |names| ==>
          names[k] in inventory && rows[|cells| + k] == MissingRow(names[k], inventory[names[k]].id, |cells| + 2 + k))
    && (forall k, l :: 0 <= k < l < |names| ==> names[k] != names[l])
    && (forall d :: d in names <==> d in inventory && TrackedBy(inventory[d], source) && !Listed(cells, d))
  }

  /** Exactly one sound row names `d`. */
  ghost predicate Listed(cells: seq<Cells>, d: string) {
    exists i :: 0 <= i < |cells| && cells[i].Sound() && cells[i].values.domain == d && !Duplicated(Domains(cells), i)
  }

  lemma ListedIffNamed(cells: seq<Cells>, rows: seq<Row>, d: string)
    requires |rows| == |cells| && forall i :: 0 <= i < |cells| ==> rows[i] == ParsedRow(cells, i)
    ensures Names(rows, d) <==> Listed(cells, d)
  {
    if Names(rows, d) {
      var i :| 0 <= i < |rows| && Counts(rows[i]) && rows[i].values.value.domain == d;
      assert cells[i].Sound() && !Duplicated(Domains(cells), i);
    }
    if Listed(cells, d) {
      var i :| 0 <= i < |cells| && cells[i].Sound() && cells[i].values.domain == d && !Duplicated(Domains(cells), i);
      assert Counts(rows[i]);
    }
  }

  lemma Assembled(cells: seq<Cells>, inventory: Inventory, source: Source, planned: seq<Row>, missing: seq<Row>,
                  names: seq<string>, seen: set<string>)
    requires |planned| == |cells|
    requires forall i :: 0 <= i < |cells| ==> planned[i] == Planned(ParsedRow(cells, i), inventory)
    requires |names| == |missing|
    requires forall k :: 0 <= k < |missing| ==>
               names[k] in inventory && missing[k] == MissingRow(names[k], inventory[names[k]].id, |cells| + 2 + k)
    requires forall k, l :: 0 <= k < l < |names| ==> names[k] != names[l]
    requires forall d :: d in seen <==> Listed(cells, d)
    requires forall d :: d in names <==> Lost(inventory, source, seen, d)
    ensures Previewed(cells, inventory, source, planned + missing, names)
  {
  }

  /** `previewSnapshot`. */
  method Preview(cells: seq<Cells>, inventory: Inventory, source: Source)
      returns (rows: seq<Row>, t: Tally, names: seq<string>)
    ensures Previewed(cells, inventory, source, rows, names)
    ensures t.total == |rows| == t.added + t.modified + t.same + t.missing + t.invalid
    ensures t.invalid == CountBy(rows, Invalid) && t.missing == CountBy(rows, Missing)
    ensures t.added == CountBy(rows, Add) && t.modified == CountBy(rows, Modify) && t.same == CountBy(rows, Unchanged)
  {
    var parsed := ParseRows(cells);
    var planned, seen := Plan(parsed, inventory);
    var missing: seq<Row>;
    missing, names := FindMissing(inventory, source, seen, |cells| + 2);
    rows := planned + missing;
    forall d ensures d in seen <==> Listed(cells, d) { ListedIffNamed(cells, parsed, d); }
    Assembled(cells, inventory, source, planned, missing, names, seen);
    t := CountActions(rows);
  }

  /** All valid rows, missing ones included, name pairwise distinct domains. */
  lemma PreviewDistinct(cells: seq<Cells>, inventory: Inventory, source: Source, rows: seq<Row>, names: seq<string>,
                        i: int, j: int)
    requires Previewed(cells, inventory, source, rows, names) && 0 <= i < j < |rows| && rows[i].valid && rows[j].valid
    ensures rows[i].values.Some? && rows[j].values.Some? && rows[i].values.value.domain != rows[j].values.value.domain
  {
    if j < |cells| {
      ParsedDistinct(cells, i, j);
    } else {
      MissingAt(cells, inventory, source, rows, names, j);
      if i < |cells| {
        ListedAt(cells, inventory, source, rows, names, i);
      } else {
        MissingAt(cells, inventory, source, rows, names, i);
      }
    }
  }

  lemma MissingAt(cells: seq<Cells>, inventory: Inventory, source: Source, rows: seq<Row>, names: seq<string>, j: int)
    requires Previewed(cells, inventory, source, rows, names) && |cells| <= j < |rows|
    ensures rows[j].values.Some? && rows[j].values.value.domain == names[j - |cells|] && names[j - |cells|] in names
  {
    var k := j - |cells|;
    assert rows[|cells| + k] == MissingRow(names[k], inventory[names[k]].id, |cells| + 2 + k);
  }

  lemma ListedAt(cells: seq<Cells>, inventory: Inventory, source: Source, rows: seq<Row>, names: seq<string>, i: int)
    requires Previewed(cells, inventory, source, rows, names) && 0 <= i < |cells| && rows[i].valid
    ensures rows[i].values.Some? && rows[i].values.value.domain !in names
  {
    assert cells[i].Sound() && !Duplicated(Domains(cells), i);
    assert Listed(cells, rows[i].values.value.domain);
  }

  /** What each action means. */
  lemma PreviewActions(cells: seq<Cells>, inventory: Inventory, source: Source, rows: seq<Row>, names: seq<string>,
                       i: int)
    requires Previewed(cells, inventory, source, rows, names) && 0 <= i < |rows|
    ensures rows[i].action.Invalid? <==> !rows[i].valid
    ensures rows[i].action.Missing? <==> i >= |cells|
    ensures rows[i].action.Missing? ==>
              && rows[i].errors == [] && rows[i].values.Some?
              && rows[i].values.value == Values(names[i - |cells|], "", None, None, "", None, None, None, "", "", false)
    ensures rows[i].action.Add? ==>
              rows[i].values.Some? && rows[i].values.value.domain !in inventory && rows[i].matched.None?
    ensures rows[i].valid && !rows[i].action.Add? ==>
              && rows[i].values.Some? && rows[i].values.value.domain in inventory
              && rows[i].matched == Some(inventory[rows[i].values.value.domain].id)
    ensures rows[i].action.Modify? ==> !Agrees(inventory[rows[i].values.value.domain], rows[i].values.value)
    ensures rows[i].action.Unchanged? ==> Agrees(inventory[rows[i].values.value.domain], rows[i].values.value)
    ensures rows[i].number == i + 2
  {
    if i >= |cells| { assert names[i - |cells|] in inventory; }
  }

  /** A tracked domain is reported missing exactly when no single sound row lists it: also when the sheet
      lists it twice, because both rows are set aside. */
  lemma ListedTwiceIsMissing(cells: seq<Cells>, inventory: Inventory, source: Source, rows: seq<Row>,
                             names: seq<string>, i: int, j: int)
    requires Previewed(cells, inventory, source, rows, names) && 0 <= i < j < |cells|
    requires cells[i].Sound() && cells[j].Sound() && cells[i].values.domain == cells[j].values.domain
    requires cells[i].values.domain in inventory && TrackedBy(inventory[cells[i].values.domain], source)
    ensures cells[i].values.domain in names && rows[i].action.Invalid? && rows[j].action.Invalid?
  {
    var ds := Domains(cells);
    var d := cells[i].values.domain;
    assert ds[i] == ds[j] == Some(d);
    forall k | 0 <= k < |cells| && cells[k].Sound() && cells[k].values.domain == d ensures Duplicated(ds, k) {
      assert ds[if k == i then j else i] == ds[k];
    }
  }
}
