/** The effective state of a domain and how one observation advances it
    (internal/classification/state.go), with the closed form of any history. */
module Hysteresis {
  import opened Text

  datatype Availability = Unknown | Active | Degraded | Unavailable

  datatype Dimension = DimAvailability | DimDns | DimHttp | DimRedirect | DimIsp | DimTls | DimContent

  /** The `current_*` columns of one row of `domains`; "" stands for NULL. */
  datatype DomainRow = DomainRow(
    availability: Availability, dns: string, http: string, redirect: string,
    isp: string, tls: string, content: string, confidence: int,
    failureStreak: nat, successStreak: nat, failureStage: string, errorCode: string)

  /** What one check concluded. */
  datatype Decision = Decision(
    availability: Availability, dns: string, http: string, redirect: string,
    isp: string, tls: string, content: string, confidence: int,
    failureStage: string, errorCode: string)

  /** A check as it is committed: manual runs do not qualify. */
  datatype Observation = Observation(run: nat, qualifying: bool, decision: Decision)

  datatype EffectiveState = EffectiveState(
    row: DomainRow, openedIncident: bool, closedIncident: bool, changed: seq<Dimension>)

  /** The configured thresholds; `Advance` replaces one below 1 by its default. */
  datatype Policy = Policy(openFailures: int, closeSuccesses: int) {
    function Open(): int { if openFailures < 1 then 3 else openFailures }
    function Close(): int { if closeSuccesses < 1 then 2 else closeSuccesses }
    predicate Valid() { openFailures >= 1 && closeSuccesses >= 1 }
  }

  const DNS_STATUSES: set<string> :=
    {"OK", "NXDOMAIN", "SERVFAIL", "REFUSED", "TIMEOUT", "NETWORK_ERROR", "DISCREPANCY", "UNKNOWN"}
  const HTTP_STATUSES: set<string> :=
    {"OK", "REDIRECT", "CLIENT_ERROR", "SERVER_ERROR", "TIMEOUT", "CONNECTION_ERROR", "UNKNOWN"}
  const REDIRECT_STATUSES: set<string> :=
    {"NONE", "TEMPORARY", "PERMANENT", "LOOP", "INVALID", "HTTPS_DOWNGRADE", "UNKNOWN"}
  const ISP_STATUSES: set<string> := {"NOT_DETECTED", "SUSPECTED", "HIGH_CONFIDENCE_BLOCK", "UNKNOWN"}
  const TLS_STATUSES: set<string> :=
    {"VALID", "EXPIRING", "EXPIRED", "HOSTNAME_MISMATCH", "INVALID", "ERROR", "NOT_APPLICABLE", "UNKNOWN"}
  const CONTENT_STATUSES: set<string> :=
    {"VALID_HTML", "VALID_NON_HTML", "EMPTY", "TOO_SMALL", "NOT_MEANINGFUL", "OVERSIZED_TRUNCATED",
     "UNSUPPORTED_CONTENT", "UNKNOWN"}

  /** The database enumerations a decision must belong to for its result to be stored. */
  predicate InSchema(d: Decision) {
    && d.dns in DNS_STATUSES && d.http in HTTP_STATUSES && d.redirect in REDIRECT_STATUSES
    && d.isp in ISP_STATUSES && d.tls in TLS_STATUSES && d.content in CONTENT_STATUSES
    && 0 <= d.confidence <= 99
  }

  const DIMENSIONS: seq<Dimension> :=
    [DimAvailability, DimDns, DimHttp, DimRedirect, DimIsp, DimTls, DimContent]

  /** A domain that was never checked (the column defaults). */
  const INITIAL_ROW :=
    DomainRow(Unknown, "UNKNOWN", "UNKNOWN", "UNKNOWN", "UNKNOWN", "UNKNOWN", "UNKNOWN", 0, 0, 0, "", "")

  function Name(a: Availability): string {
    match a
    case Unknown => "UNKNOWN"
    case Active => "ACTIVE"
    case Degraded => "DEGRADED"
    case Unavailable => "UNAVAILABLE"
  }

  function ValueOf(row: DomainRow, d: Dimension): string {
    match d
    case DimAvailability => Name(row.availability)
    case DimDns => row.dns
    case DimHttp => row.http
    case DimRedirect => row.redirect
    case DimIsp => row.isp
    case DimTls => row.tls
    case DimContent => row.content
  }

  function Reported(decision: Decision, d: Dimension): string {
    match d
    case DimAvailability => Name(decision.availability)
    case DimDns => decision.dns
    case DimHttp => decision.http
    case DimRedirect => decision.redirect
    case DimIsp => decision.isp
    case DimTls => decision.tls
    case DimContent => decision.content
  }

  lemma {:induction false} DnsTrimmed(s: string)
    requires s in DNS_STATUSES
    ensures Trimmed(s)
  {
  }

  lemma {:induction false} HttpTrimmed(s: string)
    requires s in HTTP_STATUSES
    ensures Trimmed(s)
  {
  }

  lemma {:induction false} RedirectTrimmed(s: string)
    requires s in REDIRECT_STATUSES
    ensures Trimmed(s)
  {
  }

  lemma {:induction false} IspTrimmed(s: string)
    requires s in ISP_STATUSES
    ensures Trimmed(s)
  {
  }

  lemma {:induction false} TlsTrimmed(s: string)
    requires s in TLS_STATUSES
    ensures Trimmed(s)
  {
  }

  lemma {:induction false} ContentTrimmed(s: string)
    requires s in CONTENT_STATUSES
    ensures Trimmed(s)
  {
  }

  /** No status the database accepts is blank or padded. */
  lemma {:induction false} ReportedTrimmed(decision: Decision, d: Dimension)
    requires InSchema(decision)
    ensures Trimmed(Reported(decision, d))
  {
    match d
    case DimAvailability =>
    case DimDns => DnsTrimmed(decision.dns);
    case DimHttp => HttpTrimmed(decision.http);
    case DimRedirect => RedirectTrimmed(decision.redirect);
    case DimIsp => IspTrimmed(decision.isp);
    case DimTls => TlsTrimmed(decision.tls);
    case DimContent => ContentTrimmed(decision.content);
  }

  function ObservedOrCurrent(observed: string, current: string): string {
    if observed == "" || observed == "UNKNOWN" then current else observed
  }

  predicate Counts(o: Observation) {
    o.qualifying && !o.decision.availability.Unknown?
  }

  function NextAvailability(p: Policy, row: DomainRow, succeeded: bool): Availability {
    if !succeeded then
      if row.failureStreak + 1 >= p.Open() then Unavailable else Degraded
    else if row.availability.Unknown? || row.availability.Active? || row.successStreak + 1 >= p.Close() then
      Active
    else
      Degraded
  }

  /** The row after an observation. An observation that does not count keeps everything
      except the failure stage and the error code, which are always rewritten. */
  function Advanced(p: Policy, row: DomainRow, o: Observation): DomainRow {
    var d := o.decision;
    var succeeded := d.availability.Active?;
    if !Counts(o) then
      row.(failureStage := "", errorCode := "")
    else
      DomainRow(
        NextAvailability(p, row, succeeded),
        ObservedOrCurrent(d.dns, row.dns), ObservedOrCurrent(d.http, row.http),
        ObservedOrCurrent(d.redirect, row.redirect), ObservedOrCurrent(d.isp, row.isp),
        ObservedOrCurrent(d.tls, row.tls), ObservedOrCurrent(d.content, row.content),
        d.confidence,
        if succeeded then 0 else row.failureStreak + 1,
        if succeeded then row.successStreak + 1 else 0,
        if succeeded then "" else d.failureStage,
        if succeeded then "" else d.errorCode)
  }

  /** The first `n` dimensions whose value differs, in the fixed order. */
  function Changed(before: DomainRow, after: DomainRow, n: nat): seq<Dimension>
    requires n <= |DIMENSIONS|
  {
    if n == 0 then []
    else
      var rest := Changed(before, after, n - 1);
      var d := DIMENSIONS[n - 1];
      if ValueOf(before, d) != ValueOf(after, d) then rest + [d] else rest
  }

  /** Listed once each, and exactly the dimensions that differ. */
  lemma {:induction false} ChangedIsDiff(before: DomainRow, after: DomainRow)
    ensures var dims := Changed(before, after, |DIMENSIONS|);
      && (forall d :: d in dims <==> ValueOf(before, d) != ValueOf(after, d))
      && (forall i, j :: 0 <= i < j < |dims| ==> dims[i] != dims[j])
  {
    ChangedPrefix(before, after, |DIMENSIONS|);
    forall d ensures d in DIMENSIONS[..|DIMENSIONS|] {
      EveryDimension(d);
    }
  }

  lemma {:induction false} ChangedPrefix(before: DomainRow, after: DomainRow, n: nat)
    requires n <= |DIMENSIONS|
    ensures var dims := Changed(before, after, n);
      && (forall d :: d in dims <==> d in DIMENSIONS[..n] && ValueOf(before, d) != ValueOf(after, d))
      && (forall i, j :: 0 <= i < j < |dims| ==> dims[i] != dims[j])
  {
    if n > 0 {
      ChangedPrefix(before, after, n - 1);
      DimensionsDistinct(n - 1);
      assert DIMENSIONS[..n] == DIMENSIONS[..n - 1] + [DIMENSIONS[n - 1]];
    }
  }

  lemma {:induction false} DimensionsDistinct(n: nat)
    requires n < |DIMENSIONS|
    ensures DIMENSIONS[n] !in DIMENSIONS[..n]
  {
    assert forall i :: 0 <= i < n ==> DIMENSIONS[i] != DIMENSIONS[n];
  }

  lemma {:induction false} EveryDimension(d: Dimension)
    ensures d in DIMENSIONS[..|DIMENSIONS|]
  {
    match d
    case DimAvailability => assert d == DIMENSIONS[0];
    case DimDns => assert d == DIMENSIONS[1];
    case DimHttp => assert d == DIMENSIONS[2];
    case DimRedirect => assert d == DIMENSIONS[3];
    case DimIsp => assert d == DIMENSIONS[4];
    case DimTls => assert d == DIMENSIONS[5];
    case DimContent => assert d == DIMENSIONS[6];
  }

  method ChangedDimensions(before: DomainRow, after: DomainRow) returns (result: seq<Dimension>)
    ensures result == Changed(before, after, |DIMENSIONS|)
    ensures forall d :: d in result <==> ValueOf(before, d) != ValueOf(after, d)
  {
    result := [];
    for i := 0 to |DIMENSIONS|
      invariant result == Changed(before, after, i)
    {
      var d := DIMENSIONS[i];
      if ValueOf(before, d) != ValueOf(after, d) {
        result := result + [d];
      }
    }
    ChangedIsDiff(before, after);
  }

  lemma {:induction false} IdleChangesNothing(before: DomainRow, after: DomainRow, n: nat)
    requires n <= |DIMENSIONS|
    requires forall d :: ValueOf(before, d) == ValueOf(after, d)
    ensures Changed(before, after, n) == []
  {
    if n > 0 {
      IdleChangesNothing(before, after, n - 1);
    }
  }

  /** `classification.Advance`, field by field. */
  method Advance(p: Policy, current: DomainRow, o: Observation) returns (state: EffectiveState)
    ensures state.row == Advanced(p, current, o)
    ensures forall d :: d in state.changed <==> ValueOf(current, d) != ValueOf(state.row, d)
    ensures state.changed == Changed(current, state.row, |DIMENSIONS|)
    ensures state.openedIncident <==> !current.availability.Unavailable? && state.row.availability.Unavailable?
    ensures state.closedIncident <==> current.availability.Unavailable? && state.row.availability.Active?
  {
    var row := current.(failureStage := "", errorCode := "");
    if !o.qualifying || o.decision.availability == Unknown {
      IdleChangesNothing(current, row, |DIMENSIONS|);
      return EffectiveState(row, false, false, []);
    }
    var openFailures, closeSuccesses := p.openFailures, p.closeSuccesses;
    if openFailures < 1 { openFailures := 3; }
    if closeSuccesses < 1 { closeSuccesses := 2; }
    if o.decision.availability == Active {
      row := row.(successStreak := row.successStreak + 1, failureStreak := 0);
      if row.availability == Unknown || row.availability == Active {
        row := row.(availability := Active);
      } else if row.successStreak >= closeSuccesses {
        row := row.(availability := Active);
      } else {
        row := row.(availability := Degraded);
      }
    } else {
      row := row.(failureStreak := row.failureStreak + 1, successStreak := 0,
                  failureStage := o.decision.failureStage, errorCode := o.decision.errorCode);
      row := row.(availability := if row.failureStreak >= openFailures then Unavailable else Degraded);
    }
    row := row.(dns := ObservedOrCurrent(o.decision.dns, row.dns));
    row := row.(http := ObservedOrCurrent(o.decision.http, row.http));
    row := row.(redirect := ObservedOrCurrent(o.decision.redirect, row.redirect));
    row := row.(isp := ObservedOrCurrent(o.decision.isp, row.isp));
    row := row.(tls := ObservedOrCurrent(o.decision.tls, row.tls));
    row := row.(content := ObservedOrCurrent(o.decision.content, row.content));
    row := row.(confidence := o.decision.confidence);
    var justOpened := current.availability != Unavailable && row.availability == Unavailable;
    var justClosed := current.availability == Unavailable && row.availability == Active;
    var changed := ChangedDimensions(current, row);
    state := EffectiveState(row, justOpened, justClosed, changed);
  }

  /** A manual or inconclusive check leaves the row alone exactly when no failure
      stage and no error code were recorded. */
  lemma {:induction false} IdleObservationKeepsRow(p: Policy, row: DomainRow, o: Observation)
    requires !Counts(o)
    ensures forall d :: ValueOf(Advanced(p, row, o), d) == ValueOf(row, d)
    ensures Advanced(p, row, o) == row <==> row.failureStage == "" && row.errorCode == ""
  {
    assert Advanced(p, row, o).failureStage == "";
  }

  /** Such a row exists: a failed check stores its stage, and the manual check after it clears it. */
  lemma {:induction false} ManualCheckClearsStage(p: Policy)
    ensures var failed := Decision(Unavailable, "TIMEOUT", "UNKNOWN", "UNKNOWN", "UNKNOWN", "UNKNOWN", "UNKNOWN", 90,
                                   "dns", "DNS_TIMEOUT");
            var before := Fold(p, [Observation(0, true, failed)]);
            var after := Fold(p, [Observation(0, true, failed), Observation(1, false, failed)]);
            && InSchema(failed) && before.failureStage == "dns" && before.errorCode == "DNS_TIMEOUT"
            && after == before.(failureStage := "", errorCode := "") && after != before
  {
    var failed := Decision(Unavailable, "TIMEOUT", "UNKNOWN", "UNKNOWN", "UNKNOWN", "UNKNOWN", "UNKNOWN", 90,
                           "dns", "DNS_TIMEOUT");
    var check, manual := Observation(0, true, failed), Observation(1, false, failed);
    assert [check][..0] == [] && [check, manual][..1] == [check];
    assert Fold(p, [check]) == Advanced(p, INITIAL_ROW, check);
  }

  // ---- Whole histories -------------------------------------------------------------

  function Fold(p: Policy, obs: seq<Observation>): DomainRow {
    if obs == [] then INITIAL_ROW
    else Advanced(p, Fold(p, obs[..|obs| - 1]), obs[|obs| - 1])
  }

  /** A counted observation, reduced to its outcome, the run that made it and what it said about a failure. */
  datatype Mark = Mark(ok: bool, run: nat, stage: string, code: string)

  function MarkOf(o: Observation): Mark {
    Mark(o.decision.availability.Active?, o.run, o.decision.failureStage, o.decision.errorCode)
  }

  function Marks(obs: seq<Observation>): (ms: seq<Mark>)
    ensures |ms| <= |obs|
  {
    if obs == [] then []
    else
      var rest := Marks(obs[..|obs| - 1]);
      var o := obs[|obs| - 1];
      if Counts(o) then rest + [MarkOf(o)] else rest
  }

  /** Length of the longest suffix of `ms` whose marks all equal `ok`. */
  function Trailing(ms: seq<Mark>, ok: bool): nat {
    if ms == [] || ms[|ms| - 1].ok != ok then 0
    else 1 + Trailing(ms[..|ms| - 1], ok)
  }

  lemma {:induction false} TrailingIsSuffix(ms: seq<Mark>, ok: bool)
    ensures Trailing(ms, ok) <= |ms|
    ensures forall i :: |ms| - Trailing(ms, ok) <= i < |ms| ==> ms[i].ok == ok
    ensures Trailing(ms, ok) < |ms| ==> ms[|ms| - Trailing(ms, ok) - 1].ok != ok
  {
    if ms != [] && ms[|ms| - 1].ok == ok {
      TrailingIsSuffix(ms[..|ms| - 1], ok);
    }
  }

  lemma {:induction false} TrailingSnoc(ms: seq<Mark>, m: Mark)
    ensures Trailing(ms + [m], m.ok) == Trailing(ms, m.ok) + 1
    ensures Trailing(ms + [m], !m.ok) == 0
  {
    assert (ms + [m])[..|ms|] == ms;
  }

  predicate EverFailed(ms: seq<Mark>) {
    exists i :: 0 <= i < |ms| && !ms[i].ok
  }

  /** The availability, read off the marks without running the state machine. */
  function ClosedForm(p: Policy, ms: seq<Mark>): Availability {
    if ms == [] then Unknown
    else if Trailing(ms, false) > 0 then
      if Trailing(ms, false) >= p.Open() then Unavailable else Degraded
    else if Trailing(ms, true) >= p.Close() || !EverFailed(ms) then Active
    else Degraded
  }

  /** Folding `Advance` over any history gives the closed form of its marks, and the
      stored streaks are the trailing run lengths. */
  lemma {:induction false} FoldIsClosedForm(p: Policy, obs: seq<Observation>)
    ensures Fold(p, obs).availability == ClosedForm(p, Marks(obs))
    ensures Fold(p, obs).failureStreak == Trailing(Marks(obs), false)
    ensures Fold(p, obs).successStreak == Trailing(Marks(obs), true)
  {
    if obs != [] {
      var o := obs[|obs| - 1];
      FoldIsClosedForm(p, obs[..|obs| - 1]);
      if Counts(o) { ClosedFormStep(p, Fold(p, obs[..|obs| - 1]), Marks(obs[..|obs| - 1]), o); }
    }
  }

  lemma {:induction false} ClosedFormStep(p: Policy, row: DomainRow, ms: seq<Mark>, o: Observation)
    requires Counts(o) && row.availability == ClosedForm(p, ms)
    requires row.failureStreak == Trailing(ms, false) && row.successStreak == Trailing(ms, true)
    ensures var after, next := Advanced(p, row, o), ms + [MarkOf(o)];
      && after.availability == ClosedForm(p, next)
      && after.failureStreak == Trailing(next, false) && after.successStreak == Trailing(next, true)
  {
    var m := MarkOf(o);
    TrailingSnoc(ms, m);
    if m.ok {
      EverFailedSnoc(ms, m);
      TrailingAllOk(ms);
    }
  }

  lemma {:induction false} EverFailedSnoc(ms: seq<Mark>, m: Mark)
    requires m.ok
    ensures EverFailed(ms + [m]) <==> EverFailed(ms)
  {
    if EverFailed(ms) {
      var i :| 0 <= i < |ms| && !ms[i].ok;
      assert !(ms + [m])[i].ok;
    }
  }

  lemma {:induction false} TrailingAllOk(ms: seq<Mark>)
    ensures Trailing(ms, false) > 0 ==> EverFailed(ms)
    ensures ms != [] && Trailing(ms, false) == 0 ==> Trailing(ms, true) > 0
  {
  }

  predicate Informs(o: Observation, d: Dimension) {
    Counts(o) && Reported(o.decision, d) != "" && Reported(o.decision, d) != "UNKNOWN"
  }

  /** The last observation that says something about `d`, or -1. */
  function LatestReport(obs: seq<Observation>, d: Dimension): (i: int)
    ensures -1 <= i < |obs|
    ensures i >= 0 ==> Informs(obs[i], d)
    ensures forall j :: i < j < |obs| ==> !Informs(obs[j], d)
  {
    if obs == [] then -1
    else if Informs(obs[|obs| - 1], d) then |obs| - 1
    else
      var before := obs[..|obs| - 1];
      assert forall j :: 0 <= j < |before| ==> before[j] == obs[j];
      LatestReport(before, d)
  }

  /** Every dimension but the availability holds its latest informative report, or
      "UNKNOWN" when there was none. */
  lemma {:induction false} StatusIsLatestReport(p: Policy, obs: seq<Observation>, d: Dimension)
    requires d != DimAvailability
    ensures ValueOf(Fold(p, obs), d) ==
      if LatestReport(obs, d) < 0 then "UNKNOWN" else Reported(obs[LatestReport(obs, d)].decision, d)
  {
    if obs != [] {
      var before, o := obs[..|obs| - 1], obs[|obs| - 1];
      StatusIsLatestReport(p, before, d);
      AdvancedStatus(p, Fold(p, before), o, d);
    }
  }

  lemma {:induction false} AdvancedStatus(p: Policy, row: DomainRow, o: Observation, d: Dimension)
    requires d != DimAvailability
    ensures ValueOf(Advanced(p, row, o), d) == if Informs(o, d) then Reported(o.decision, d) else ValueOf(row, d)
  {
  }

  /** The stage and code stored are those of the last check, if that was a counted failure. */
  ghost predicate DetailsOf(row: DomainRow, obs: seq<Observation>) {
    var failing := obs != [] && Counts(obs[|obs| - 1]) && !obs[|obs| - 1].decision.availability.Active?;
    && row.failureStage == (if failing then obs[|obs| - 1].decision.failureStage else "")
    && row.errorCode == (if failing then obs[|obs| - 1].decision.errorCode else "")
  }

  lemma {:induction false} FoldDetails(p: Policy, obs: seq<Observation>)
    ensures DetailsOf(Fold(p, obs), obs)
  {
  }

  /** The last check that was scheduled and conclusive, or -1. */
  function LastCounted(obs: seq<Observation>): (i: int)
    ensures -1 <= i < |obs|
    ensures i >= 0 ==> obs[i].qualifying && obs[i].decision.availability != Unknown
    ensures forall j :: i < j < |obs| ==> !obs[j].qualifying || obs[j].decision.availability == Unknown
  {
    if obs == [] then -1
    else if Counts(obs[|obs| - 1]) then |obs| - 1
    else
      var before := obs[..|obs| - 1];
      assert forall j :: 0 <= j < |before| ==> before[j] == obs[j];
      LastCounted(before)
  }

  /** The confidence of that check. */
  function LatestConfidence(obs: seq<Observation>): int {
    if LastCounted(obs) < 0 then 0 else obs[LastCounted(obs)].decision.confidence
  }

  /** The stored confidence is that of the last counted check. */
  lemma {:induction false} FoldConfidence(p: Policy, obs: seq<Observation>)
    ensures Fold(p, obs).confidence == LatestConfidence(obs)
  {
    if obs != [] { FoldConfidence(p, obs[..|obs| - 1]); }
  }
}
