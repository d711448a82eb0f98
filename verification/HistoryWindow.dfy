/** Uptime over a time window (internal/monitor/read.go): one pass over the status history turns it into
    the time spent in each availability state. Instants are integer ticks. */
module HistoryWindow {
  import opened Text
  import opened Arithmetic
  import opened Decimals

  datatype Entry = Entry(dimension: string, value: string, at: int) {
    predicate Availability() { dimension == "availability" }
  }

  /** The order the history is read in: by time. Entries of the same instant come in any fixed order. */
  predicate Sorted(h: seq<Entry>) {
    forall i, j :: 0 <= i < j < |h| ==> h[i].at <= h[j].at
  }

  // ---- What the window should report ---------------------------------------------------

  /** The availability in force at instant `t`: that of the latest entry not after it. */
  function StateAt(h: seq<Entry>, t: int): string {
    if h == [] then "UNKNOWN"
    else
      var e := h[|h| - 1];
      if e.Availability() && e.at <= t then e.value else StateAt(h[..|h| - 1], t)
  }

  const KNOWN := ["ACTIVE", "DEGRADED", "UNAVAILABLE"]

  /** How many instants of [a, b) have one of the states `vs` in force. */
  function Measure(h: seq<Entry>, vs: seq<string>, a: int, b: int): nat
    decreases b - a
  {
    if b <= a then 0 else Measure(h, vs, a, b - 1) + if StateAt(h, b - 1) in vs then 1 else 0
  }

  /** How many of [a, b) have none of them. */
  function OtherMeasure(h: seq<Entry>, vs: seq<string>, a: int, b: int): nat
    decreases b - a
  {
    if b <= a then 0 else OtherMeasure(h, vs, a, b - 1) + if StateAt(h, b - 1) in vs then 0 else 1
  }

  /** Every instant is counted in exactly one state, so the four totals add up to the window. */
  lemma {:induction false} Conserved(h: seq<Entry>, a: int, b: int)
    requires a <= b
    ensures Measure(h, ["ACTIVE"], a, b) + Measure(h, ["DEGRADED"], a, b) + Measure(h, ["UNAVAILABLE"], a, b) ==
              Measure(h, KNOWN, a, b)
    ensures Measure(h, KNOWN, a, b) + OtherMeasure(h, KNOWN, a, b) == b - a
    decreases b - a
  {
    if a < b { Conserved(h, a, b - 1); }
  }

  /** Adjacent windows add up. */
  lemma {:induction false} Adjacent(h: seq<Entry>, vs: seq<string>, a: int, m: int, b: int)
    requires a <= m <= b
    ensures Measure(h, vs, a, b) == Measure(h, vs, a, m) + Measure(h, vs, m, b)
    decreases b - m
  {
    if m < b { Adjacent(h, vs, a, m, b - 1); }
  }

  /** A stretch with one state in force. */
  lemma {:induction false} Stretch(h: seq<Entry>, vs: seq<string>, state: string, a: int, b: int)
    requires a <= b && forall t :: a <= t < b ==> StateAt(h, t) == state
    ensures Measure(h, vs, a, b) == if state in vs then b - a else 0
    decreases b - a
  {
    if a < b { Stretch(h, vs, state, a, b - 1); }
  }

  // ---- Reading the history ----------------------------------------------------------------

  /** The latest availability before the window, or UNKNOWN. */
  function InitialState(h: seq<Entry>, since: int): string {
    if h == [] then "UNKNOWN"
    else
      var e := h[|h| - 1];
      if e.Availability() && e.at < since then e.value else InitialState(h[..|h| - 1], since)
  }

  /** The entries inside the window, in order. */
  function Timeline(h: seq<Entry>, since: int, until: int): seq<Entry> {
    if h == [] then []
    else
      var e := h[|h| - 1];
      Timeline(h[..|h| - 1], since, until) + if since <= e.at <= until then [e] else []
  }

  /** The value of the last availability entry. */
  function Latest(h: seq<Entry>): string {
    if h == [] then "UNKNOWN"
    else if h[|h| - 1].Availability() then h[|h| - 1].value
    else Latest(h[..|h| - 1])
  }

  /** The first entry not before `t`. */
  function Cut(h: seq<Entry>, t: int): (k: nat)
    ensures k <= |h|
  {
    if h == [] then 0 else if h[|h| - 1].at < t then |h| else Cut(h[..|h| - 1], t)
  }

  lemma {:induction false} CutSplits(h: seq<Entry>, t: int)
    requires Sorted(h)
    ensures forall i :: 0 <= i < |h| ==> (h[i].at < t <==> i < Cut(h, t))
  {
    if h != [] && h[|h| - 1].at >= t { CutSplits(h[..|h| - 1], t); }
  }

  lemma {:induction false} InitialIsLatest(h: seq<Entry>, since: int, k: nat)
    requires k <= |h| && forall i :: 0 <= i < |h| ==> (h[i].at < since <==> i < k)
    ensures InitialState(h, since) == Latest(h[..k])
  {
    if h != [] {
      var rest := h[..|h| - 1];
      if k == |h| {
        assert h[..k] == h;
        InitialIsLatest(rest, since, |rest|);
        assert rest[..|rest|] == rest;
      } else {
        InitialIsLatest(rest, since, k);
        assert rest[..k] == h[..k];
      }
    }
  }

  lemma {:induction false} TimelineIsSlice(h: seq<Entry>, since: int, until: int, lo: nat, hi: nat)
    requires lo <= hi <= |h|
    requires forall i :: 0 <= i < |h| ==> (since <= h[i].at <= until <==> lo <= i < hi)
    ensures Timeline(h, since, until) == h[lo..hi]
  {
    if h != [] {
      var rest := h[..|h| - 1];
      if lo < hi == |h| {
        TimelineIsSlice(rest, since, until, lo, hi - 1);
        assert h[lo..hi] == rest[lo..hi - 1] + [h[|h| - 1]];
      } else {
        var l, u := if lo <= |rest| then lo else |rest|, if hi <= |rest| then hi else |rest|;
        TimelineIsSlice(rest, since, until, l, u);
        assert h[lo..hi] == rest[l..u];
      }
    }
  }

  /** While no availability entry intervenes, the latest one is in force. */
  lemma {:induction false} Steady(h: seq<Entry>, k: nat, t: int)
    requires k <= |h|
    requires forall i :: 0 <= i < k && h[i].Availability() ==> h[i].at <= t
    requires forall i :: k <= i < |h| ==> h[i].at > t
    ensures StateAt(h, t) == Latest(h[..k])
  {
    if h != [] {
      var rest := h[..|h| - 1];
      if k == |h| {
        assert h[..k] == h;
        if !h[|h| - 1].Availability() {
          Steady(rest, |rest|, t);
          assert rest[..|rest|] == rest;
        }
      } else {
        Steady(rest, k, t);
        assert rest[..k] == h[..k];
      }
    }
  }

  lemma SteadyStretch(h: seq<Entry>, k: nat, vs: seq<string>, a: int, b: int)
    requires k <= |h| && a <= b
    requires forall i :: 0 <= i < k && h[i].Availability() ==> h[i].at <= a
    requires forall i :: k <= i < |h| ==> h[i].at >= b
    ensures Measure(h, vs, a, b) == if Latest(h[..k]) in vs then b - a else 0
  {
    forall t | a <= t < b ensures StateAt(h, t) == Latest(h[..k]) { Steady(h, k, t); }
    Stretch(h, vs, Latest(h[..k]), a, b);
  }

  lemma SteadySplit(h: seq<Entry>, k: nat, vs: seq<string>, since: int, a: int, b: int)
    requires since <= a && k <= |h| && a <= b
    requires forall i :: 0 <= i < k && h[i].Availability() ==> h[i].at <= a
    requires forall i :: k <= i < |h| ==> h[i].at >= b
    ensures Measure(h, vs, since, b) == Measure(h, vs, since, a) + if Latest(h[..k]) in vs then b - a else 0
  {
    SteadyStretch(h, k, vs, a, b);
    Adjacent(h, vs, since, a, b);
  }

  /** After the first `k` entries: the latest of them is `state`, and none is later than the cursor. */
  ghost predicate InForce(h: seq<Entry>, k: nat, since: int, state: string, cursor: int)
    requires k <= |h|
  {
    && since <= cursor && state == Latest(h[..k])
    && forall i :: 0 <= i < k && h[i].Availability() ==> h[i].at <= cursor
  }

  lemma InForceNext(h: seq<Entry>, k: nat, since: int, state: string, cursor: int)
    requires k < |h| && cursor <= h[k].at && InForce(h, k, since, state, cursor)
    ensures if h[k].Availability() then InForce(h, k + 1, since, h[k].value, h[k].at)
              else InForce(h, k + 1, since, state, cursor)
  {
    assert h[..k + 1][..k] == h[..k];
  }

  /** How many availability changes lie in the window. */
  function Changes(h: seq<Entry>): nat {
    if h == [] then 0 else Changes(h[..|h| - 1]) + if h[|h| - 1].Availability() then 1 else 0
  }

  lemma ChangesNext(h: seq<Entry>, n: nat)
    requires n < |h|
    ensures Changes(h[..n + 1]) == Changes(h[..n]) + if h[n].Availability() then 1 else 0
  {
    assert h[..n + 1][..n] == h[..n];
  }

  // ---- The aggregate ------------------------------------------------------------------------

  /** A share of a whole as a percentage with four decimals, halves away from zero. */
  function Percentage(part: int, whole: int): real
    requires whole > 0
  {
    RoundedBy(part as real / whole as real * 100.0, 10000)
  }

  lemma RatioBounds(part: int, whole: int)
    requires whole > 0 && 0 <= part <= whole
    ensures 0.0 <= part as real / whole as real * 100.0 <= 100.0
  {
    var x := part as real / whole as real;
    Quotient(part as real, whole as real);
    CancelLess(0.0, x, whole as real);
    CancelLess(x, 1.0, whole as real);
  }

  /** A part of a whole is reported between 0 and 100 after rounding. */
  lemma PercentageBounds(part: int, whole: int)
    requires whole > 0 && 0 <= part <= whole
    ensures 0.0 <= Percentage(part, whole) <= 100.0
  {
    var x := part as real / whole as real * 100.0;
    RatioBounds(part, whole);
    RoundedMonotone(0.0, x, 10000);
    RoundedMonotone(x, 100.0, 10000);
    MultipleIntro(0.0, 0, 10000);
    MultipleIntro(100.0, 1000000, 10000);
    RoundedMultiple(0.0, 10000);
    RoundedMultiple(100.0, 10000);
  }

  /** `pct` is `part` as a percentage of `whole`, to the nearest of four decimals. */
  ghost predicate IsShare(pct: real, part: int, whole: int) {
    MultipleBy(pct, 10000) && Abs(pct * whole as real - 100.0 * part as real) * 10000.0 <= 0.5 * whole as real
  }

  lemma PercentageIsShare(part: int, whole: int)
    requires whole > 0
    ensures IsShare(Percentage(part, whole), part, whole)
  {
    RoundedIsMultiple(part as real / whole as real * 100.0, 10000);
    ShareOf(part as real, whole as real, part as real / whole as real * 100.0);
  }

  lemma ShareOf(a: real, w: real, x: real)
    requires w > 0.0 && x == a / w * 100.0
    ensures Abs(RoundedBy(x, 10000) * w - 100.0 * a) * 10000.0 <= 0.5 * w
  {
    RoundedNear(x, 10000);
    WholeTimes(a, w);
    ShareNear(RoundedBy(x, 10000), x, 100.0 * a, w);
  }

  lemma RoundedIsMultiple(x: real, p: nat)
    requires p >= 1
    ensures MultipleBy(RoundedBy(x, p), p)
  {
    RoundedScaled(x, p);
    MultipleIntro(RoundedBy(x, p), UnitsBy(x, p), p);
  }

  lemma ShareNear(pct: real, x: real, a: real, w: real)
    requires w > 0.0 && x * w == a && Abs(pct - x) * 10000.0 <= 0.5
    ensures Abs(pct * w - a) * 10000.0 <= 0.5 * w
  {
    ScaleSign(pct - x, w);
    Distribute(pct, x, w);
    var e := Abs(pct * w - a);
    assert e == Abs(pct - x) * w;
    Within(Abs(pct - x), w, e);
  }

  lemma WholeTimes(a: real, w: real)
    requires w > 0.0
    ensures a / w * 100.0 * w == 100.0 * a
  {
    Quotient(a, w);
    AssociateReal(a / w, 100.0, w);
    AssociateReal(a / w, w, 100.0);
  }

  lemma Within(d: real, w: real, e: real)
    requires w > 0.0 && d * 10000.0 <= 0.5 && e == d * w
    ensures e * 10000.0 <= 0.5 * w
  {
    ScaleLess(d * 10000.0, 0.5, w);
    assert d * 10000.0 * w == e * 10000.0;
  }

  class Aggregate {
    var active: int
    var degraded: int
    var unavailable: int
    var known: int
    var changes: nat
    var coverage: real
    var uptime: Option<real>

    constructor ()
      ensures active == degraded == unavailable == known == 0 && changes == 0 && coverage == 0.0 && uptime == None
    {
      active, degraded, unavailable, known, changes, coverage, uptime := 0, 0, 0, 0, 0, 0.0, None;
    }

    method AccumulateState(state: string, ticks: int)
      modifies this`active, this`degraded, this`unavailable
      ensures active == old(active) + if state == "ACTIVE" && ticks > 0 then ticks else 0
      ensures degraded == old(degraded) + if state == "DEGRADED" && ticks > 0 then ticks else 0
      ensures unavailable == old(unavailable) + if state == "UNAVAILABLE" && ticks > 0 then ticks else 0
    {
      if ticks <= 0 { return; }
      if state == "ACTIVE" {
        active := active + ticks;
      } else if state == "DEGRADED" {
        degraded := degraded + ticks;
      } else if state == "UNAVAILABLE" {
        unavailable := unavailable + ticks;
      }
    }

    ghost predicate Measured(h: seq<Entry>, a: int, b: int)
      reads this
    {
      && active == Measure(h, ["ACTIVE"], a, b)
      && degraded == Measure(h, ["DEGRADED"], a, b)
      && unavailable == Measure(h, ["UNAVAILABLE"], a, b)
    }

    /** One stretch: the state has been in force since the cursor. */
    method Extend(ghost h: seq<Entry>, ghost k: nat, ghost since: int, state: string, cursor: int, next: int)
      requires cursor <= next && k <= |h| && Measured(h, since, cursor) && InForce(h, k, since, state, cursor)
      requires forall i :: k <= i < |h| ==> h[i].at >= next
      modifies this`active, this`degraded, this`unavailable
      ensures Measured(h, since, next)
    {
      SteadySplit(h, k, ["ACTIVE"], since, cursor, next);
      SteadySplit(h, k, ["DEGRADED"], since, cursor, next);
      SteadySplit(h, k, ["UNAVAILABLE"], since, cursor, next);
      AccumulateState(state, next - cursor);
    }

    /** One iteration, on entry `k` of the history. */
    method Visit(ghost h: seq<Entry>, ghost k: nat, ghost since: int, entry: Entry, state: string, cursor: int)
        returns (state': string, cursor': int)
      requires Sorted(h) && k < |h| && entry == h[k] && cursor <= entry.at
      requires Measured(h, since, cursor) && InForce(h, k, since, state, cursor)
      modifies this`active, this`degraded, this`unavailable
      ensures Measured(h, since, cursor') && InForce(h, k + 1, since, state', cursor') && cursor' <= entry.at
    {
      state', cursor' := state, cursor;
      InForceNext(h, k, since, state, cursor);
      if entry.Availability() {
        Extend(h, k, since, state, cursor, entry.at);
        state', cursor' := entry.value, entry.at;
      }
    }

    /** The loop over the timeline, which is the slice [lo, hi) of the history. */
    method Walk(timeline: seq<Entry>, initial: string, since: int, until: int, ghost h: seq<Entry>, ghost lo: nat,
                ghost hi: nat)
        returns (state: string, cursor: int, count: nat)
      requires Sorted(h) && since < until && lo <= hi <= |h| && timeline == h[lo..hi]
      requires InForce(h, lo, since, initial, since)
      requires forall i :: lo <= i < hi ==> since <= h[i].at <= until
      requires Measured(h, since, since)
      modifies this`active, this`degraded, this`unavailable
      ensures Measured(h, since, cursor) && InForce(h, hi, since, state, cursor) && cursor <= until
      ensures count == Changes(timeline)
    {
      state, cursor, count := initial, since, 0;
      for n := 0 to |timeline|
        invariant cursor <= until && (if n == 0 then cursor == since else cursor <= h[lo + n - 1].at)
        invariant count == Changes(timeline[..n])
        invariant InForce(h, lo + n, since, state, cursor) && Measured(h, since, cursor)
      {
        ChangesNext(timeline, n);
        assert timeline[n] == h[lo + n];
        assert n > 0 ==> h[lo + n - 1].at <= h[lo + n].at;
        state, cursor := Visit(h, lo + n, since, timeline[n], state, cursor);
        if timeline[n].Availability() { count := count + 1; }
      }
      assert timeline[..|timeline|] == timeline;
    }

    /** `calculateHistoryAggregate`: exactly the time each state was in force according to the entries the query
        returned, hence according to the whole history when no more than `limit` entries lie in the window; and
        percentages within range. */
    method Calculate(h: seq<Entry>, since: int, until: int, limit: nat)
      requires Sorted(h) && since < until && active == degraded == unavailable == 0 && uptime == None
      modifies this
      ensures Measured(Visible(h, since, until, limit), since, until)
      ensures |Timeline(h, since, until)| <= limit ==> Measured(h, since, until)
      ensures changes == Changes(First(Timeline(h, since, until), limit))
      ensures known == active + degraded + unavailable == Measure(Visible(h, since, until, limit), KNOWN, since, until)
      ensures known + OtherMeasure(Visible(h, since, until, limit), KNOWN, since, until) == until - since
      ensures coverage == Percentage(known, until - since) && 0.0 <= coverage <= 100.0
      ensures IsShare(coverage, known, until - since)
      ensures uptime.Some? <==> known > 0
      ensures uptime.Some? ==> uptime.value == Percentage(active, known) && 0.0 <= uptime.value <= 100.0
      ensures uptime.Some? ==> IsShare(uptime.value, active, known)
    {
      ghost var v, lo := Visible(h, since, until, limit), Cut(h, since);
      var timeline := First(Timeline(h, since, until), limit);
      VisibleSlice(h, since, until, limit);
      InitialInForce(h, v, since);
      var state, cursor, count := Walk(timeline, InitialState(h, since), since, until, v, lo, |v|);
      Extend(v, |v|, since, state, cursor, until);
      changes := count;
      if |Timeline(h, since, until)| <= limit {
        VisibleIsEnough(h, since, until, limit, ["ACTIVE"]);
        VisibleIsEnough(h, since, until, limit, ["DEGRADED"]);
        VisibleIsEnough(h, since, until, limit, ["UNAVAILABLE"]);
      }
      known := active + degraded + unavailable;
      Conserved(v, since, until);
      PercentageBounds(known, until - since);
      PercentageIsShare(known, until - since);
      coverage := Percentage(known, until - since);
      uptime := None;
      if known > 0 {
        PercentageBounds(active, known);
        PercentageIsShare(active, known);
        uptime := Some(Percentage(active, known));
      }
    }
  }

  // ---- The limit of the query -----------------------------------------------------------------

  function First(s: seq<Entry>, n: nat): seq<Entry> {
    if |s| <= n then s else s[..n]
  }

  /** The entries before the window and the first `limit` inside it. */
  ghost function Visible(h: seq<Entry>, since: int, until: int, limit: nat): seq<Entry> {
    h[..Min(Cut(h, until + 1), Cut(h, since) + limit)]
  }

  lemma VisibleSlice(h: seq<Entry>, since: int, until: int, limit: nat)
    requires Sorted(h) && since < until
    ensures var v, lo := Visible(h, since, until, limit), Cut(h, since);
      && Sorted(v) && lo <= |v| && v <= h && First(Timeline(h, since, until), limit) == v[lo..]
      && (forall i :: lo <= i < |v| ==> since <= v[i].at <= until)
      && (|Timeline(h, since, until)| <= limit ==> forall i :: |v| <= i < |h| ==> h[i].at > until)
  {
    var lo, hi := Cut(h, since), Cut(h, until + 1);
    CutSplits(h, since);
    CutSplits(h, until + 1);
    CutOrder(h, since, until + 1);
    TimelineIsSlice(h, since, until, lo, hi);
    var v := Visible(h, since, until, limit);
    assert First(h[lo..hi], limit) == v[lo..];
  }

  lemma InitialInForce(h: seq<Entry>, v: seq<Entry>, since: int)
    requires Sorted(h) && v <= h && Cut(h, since) <= |v|
    ensures InForce(v, Cut(h, since), since, InitialState(h, since), since)
  {
    var lo := Cut(h, since);
    CutSplits(h, since);
    InitialIsLatest(h, since, lo);
    assert v[..lo] == h[..lo];
  }

  lemma {:induction false} StateOfPrefix(h: seq<Entry>, k: nat, t: int)
    requires k <= |h| && forall i :: k <= i < |h| ==> h[i].at > t
    ensures StateAt(h[..k], t) == StateAt(h, t)
  {
    if k == |h| {
      assert h[..k] == h;
    } else {
      StateOfPrefix(h[..|h| - 1], k, t);
      assert h[..|h| - 1][..k] == h[..k];
    }
  }

  lemma {:induction false} MeasureOfPrefix(h: seq<Entry>, k: nat, vs: seq<string>, a: int, b: int)
    requires k <= |h| && forall i :: k <= i < |h| ==> h[i].at > b
    ensures Measure(h[..k], vs, a, b) == Measure(h, vs, a, b)
    decreases b - a
  {
    if a < b {
      MeasureOfPrefix(h, k, vs, a, b - 1);
      StateOfPrefix(h, k, b - 1);
    }
  }

  /** The limit loses nothing when it is not exceeded. */
  lemma VisibleIsEnough(h: seq<Entry>, since: int, until: int, limit: nat, vs: seq<string>)
    requires Sorted(h) && since < until && |Timeline(h, since, until)| <= limit
    ensures Measure(Visible(h, since, until, limit), vs, since, until) == Measure(h, vs, since, until)
  {
    VisibleSlice(h, since, until, limit);
    var v := Visible(h, since, until, limit);
    assert h[..|v|] == v;
    MeasureOfPrefix(h, |v|, vs, since, until);
  }

  lemma {:induction false} CutOrder(h: seq<Entry>, a: int, b: int)
    requires a <= b
    ensures Cut(h, a) <= Cut(h, b)
  {
    if h != [] { CutOrder(h[..|h| - 1], a, b); }
  }
}
