/** The durable record of one domain: its effective row, its incidents and its status
    history, as `CompleteRun` and `SubmitResult` write them
    (internal/monitor/complete.go, internal/probe/results.go). */
module Ledger {
  import opened Text
  import opened Hysteresis

  datatype Incident = Incident(
    active: bool, openedBy: nat, closedBy: Option<nat>, openCount: nat, closeCount: nat,
    failureStage: string, errorCode: string)

  datatype HistoryEntry = HistoryEntry(
    dimension: Dimension, previous: Option<string>, current: string, confidence: int, run: nat)

  datatype DomainState = DomainState(row: DomainRow, incidents: seq<Incident>, history: seq<HistoryEntry>)

  /** What can be committed about a domain: a local check, or the ISP status that a remote result implies. */
  datatype Entry = Local(o: Observation) | Remote(run: nat, isp: string, confidence: int)

  const INITIAL := DomainState(INITIAL_ROW, [], [])

  /** The row the `SELECT ... status IN ('open','acknowledged')` finds, or the table's length. */
  function FirstActive(incidents: seq<Incident>): (i: nat)
    ensures i <= |incidents|
    ensures forall k :: 0 <= k < i ==> !incidents[k].active
    ensures i < |incidents| ==> incidents[i].active
  {
    if incidents == [] || incidents[0].active then 0
    else
      assert forall k :: 0 < k < |incidents| ==> incidents[k] == incidents[1..][k - 1];
      1 + FirstActive(incidents[1..])
  }

  /** The incident table after a qualifying check; `row` is the row already advanced. */
  function IncidentsAfter(p: Policy, incidents: seq<Incident>, o: Observation, row: DomainRow): seq<Incident> {
    var i, d := FirstActive(incidents), o.decision;
    if d.availability.Unknown? then incidents
    else if d.availability.Active? && i == |incidents| then incidents
    else if d.availability.Active? then
      var seen := incidents[i].(closeCount := row.successStreak);
      incidents[i := if row.availability.Active? && row.successStreak >= p.closeSuccesses
                     then seen.(active := false, closedBy := Some(o.run)) else seen]
    else if i < |incidents| then
      incidents[i := incidents[i].(openCount := Max(incidents[i].openCount, row.failureStreak),
                                   failureStage := d.failureStage, errorCode := d.errorCode, closeCount := 0)]
    else if row.availability.Unavailable? && row.failureStreak >= p.openFailures then
      incidents + [Incident(true, o.run, None, row.failureStreak, 0, d.failureStage, d.errorCode)]
    else incidents
  }

  /** One history entry per listed dimension. */
  function EntriesFor(dims: seq<Dimension>, run: nat, before: DomainRow, after: DomainRow): seq<HistoryEntry> {
    if dims == [] then []
    else
      var d := dims[|dims| - 1];
      EntriesFor(dims[..|dims| - 1], run, before, after)
      + [HistoryEntry(d, Nullable(ValueOf(before, d)), ValueOf(after, d), after.confidence, run)]
  }

  function Commit(p: Policy, s: DomainState, e: Entry): DomainState {
    match e
    case Local(o) =>
      var row := Advanced(p, s.row, o);
      DomainState(
        row,
        if o.qualifying then IncidentsAfter(p, s.incidents, o, row) else s.incidents,
        s.history + EntriesFor(Changed(s.row, row, |DIMENSIONS|), o.run, s.row, row))
    case Remote(run, isp, confidence) =>
      s.(row := s.row.(isp := isp),
         history := if s.row.isp == isp then s.history
                    else s.history + [HistoryEntry(DimIsp, Some(s.row.isp), isp, confidence, run)])
  }

  function Replay(p: Policy, entries: seq<Entry>): DomainState {
    if entries == [] then INITIAL
    else Commit(p, Replay(p, entries[..|entries| - 1]), entries[|entries| - 1])
  }

  function Observations(entries: seq<Entry>): seq<Observation> {
    if entries == [] then []
    else
      var rest, e := Observations(entries[..|entries| - 1]), entries[|entries| - 1];
      if e.Local? then rest + [e.o] else rest
  }

  /** Remote results touch the ISP status only, so availability and streaks have the closed form
      of the local observations. */
  lemma {:induction false} ReplayIsClosedForm(p: Policy, entries: seq<Entry>)
    ensures var ms := Marks(Observations(entries));
      && Replay(p, entries).row.availability == ClosedForm(p, ms)
      && Replay(p, entries).row.failureStreak == Trailing(ms, false)
      && Replay(p, entries).row.successStreak == Trailing(ms, true)
  {
    FoldIsClosedForm(p, Observations(entries));
    ReplayIsFold(p, entries);
  }

  lemma {:induction false} ReplayIsFold(p: Policy, entries: seq<Entry>)
    ensures Replay(p, entries).row.(isp := "") == Fold(p, Observations(entries)).(isp := "")
  {
    if entries != [] {
      var before, e := entries[..|entries| - 1], entries[|entries| - 1];
      ReplayIsFold(p, before);
      var obs := Observations(before);
      if e.Local? {
        assert (obs + [e.o])[..|obs|] == obs;
      }
    }
  }

  /** A commit that says something about `d`: an informative local report, or a remote ISP status. */
  predicate Tells(e: Entry, d: Dimension) {
    match e
    case Local(o) => Informs(o, d)
    case Remote(_, _, _) => d == DimIsp
  }

  function Told(e: Entry, d: Dimension): string {
    match e
    case Local(o) => Reported(o.decision, d)
    case Remote(_, isp, _) => isp
  }

  /** The last commit that says something about `d`, or -1. */
  function LatestTold(entries: seq<Entry>, d: Dimension): (i: int)
    ensures -1 <= i < |entries|
    ensures i >= 0 ==> Tells(entries[i], d)
    ensures forall j :: i < j < |entries| ==> !Tells(entries[j], d)
  {
    if entries == [] then -1
    else if Tells(entries[|entries| - 1], d) then |entries| - 1
    else
      var before := entries[..|entries| - 1];
      assert forall j :: 0 <= j < |before| ==> before[j] == entries[j];
      LatestTold(before, d)
  }

  /** What the commits say about `d`. */
  function LatestWord(entries: seq<Entry>, d: Dimension): string {
    if LatestTold(entries, d) < 0 then "UNKNOWN" else Told(entries[LatestTold(entries, d)], d)
  }

  /** Every status but the availability is the latest word of the commits, local or remote. */
  lemma {:induction false} ReplayIsLatest(p: Policy, entries: seq<Entry>, d: Dimension)
    requires d != DimAvailability
    ensures ValueOf(Replay(p, entries).row, d) == LatestWord(entries, d)
  {
    if entries != [] {
      var before, e := entries[..|entries| - 1], entries[|entries| - 1];
      ReplayIsLatest(p, before, d);
      match e
      case Local(o) => AdvancedStatus(p, Replay(p, before).row, o, d);
      case Remote(_, isp, _) =>
        var row := Replay(p, before).row;
        assert ValueOf(row.(isp := isp), d) == if d == DimIsp then isp else ValueOf(row, d);
    }
  }

  /** The confidence is that of the last counted local check. */
  lemma {:induction false} ReplayConfidence(p: Policy, entries: seq<Entry>)
    ensures Replay(p, entries).row.confidence == LatestConfidence(Observations(entries))
  {
    ReplayIsFold(p, entries);
    FoldConfidence(p, Observations(entries));
  }

  /** The failure stage and error code are those of the last local check, if it was a counted failure. */
  lemma {:induction false} ReplayDetails(p: Policy, entries: seq<Entry>)
    ensures DetailsOf(Replay(p, entries).row, Observations(entries))
  {
    ReplayIsFold(p, entries);
    FoldDetails(p, Observations(entries));
  }

  // ---- Incidents against the marks -------------------------------------------------

  /** The streak of `ok` marks that ended at mark `j`. */
  function StreakAt(ms: seq<Mark>, j: nat, ok: bool): nat
    requires j < |ms|
  {
    Trailing(ms[..j + 1], ok)
  }

  lemma {:induction false} StreakSnoc(ms: seq<Mark>, m: Mark)
    ensures forall j, ok :: 0 <= j < |ms| ==> StreakAt(ms + [m], j, ok) == StreakAt(ms, j, ok)
    ensures forall ok :: StreakAt(ms + [m], |ms|, ok) == Trailing(ms + [m], ok)
  {
    var next := ms + [m];
    assert next[..|ms| + 1] == next;
    forall j, ok | 0 <= j < |ms| ensures StreakAt(next, j, ok) == StreakAt(ms, j, ok) {
      assert next[..j + 1] == ms[..j + 1];
    }
  }

  /** At mark `i` the failures had reached the threshold, and no recovery was complete since. */
  ghost predicate TrippedAt(p: Policy, ms: seq<Mark>, i: int) {
    && 0 <= i < |ms|
    && StreakAt(ms, i, false) >= p.openFailures
    && forall j :: i < j < |ms| ==> StreakAt(ms, j, true) < p.closeSuccesses
  }

  ghost predicate Tripped(p: Policy, ms: seq<Mark>) {
    exists i :: TrippedAt(p, ms, i)
  }

  ghost predicate OpeningMark(p: Policy, ms: seq<Mark>, i: int) {
    TrippedAt(p, ms, i) && forall j :: j < i ==> !TrippedAt(p, ms, j)
  }

  /** `peak` is the largest failure streak reached at or after mark `i`. */
  ghost predicate IsPeak(ms: seq<Mark>, i: nat, peak: nat) {
    && (forall j :: i <= j < |ms| ==> StreakAt(ms, j, false) <= peak)
    && (exists j :: i <= j < |ms| && StreakAt(ms, j, false) == peak)
  }

  /** Mark `j` is the last failure. */
  ghost predicate FailedLast(ms: seq<Mark>, j: int) {
    0 <= j < |ms| && !ms[j].ok && forall k :: j < k < |ms| ==> ms[k].ok
  }

  /** The incident carries the stage and the code of the last failure. */
  ghost predicate Details(ms: seq<Mark>, stage: string, code: string) {
    exists j :: FailedLast(ms, j) && stage == ms[j].stage && code == ms[j].code
  }

  /** Incident `inc` is the one that mark `i` opened: who opened it, the largest streak since, the last failure. */
  ghost predicate Opened(p: Policy, ms: seq<Mark>, inc: Incident, i: int) {
    && OpeningMark(p, ms, i)
    && inc.openedBy == ms[i].run
    && IsPeak(ms, i, inc.openCount)
    && inc.openCount >= p.openFailures
    && Details(ms, inc.failureStage, inc.errorCode)
  }

  /** The active incident `inc` is the one that mark `i` opened, and nothing has closed it. */
  ghost predicate Describes(p: Policy, ms: seq<Mark>, inc: Incident, i: int) {
    && Opened(p, ms, inc, i)
    && inc.closedBy.None?
    && inc.closeCount == Trailing(ms, true) < p.closeSuccesses
  }

  ghost predicate Described(p: Policy, ms: seq<Mark>, inc: Incident) {
    exists i :: Describes(p, ms, inc, i)
  }

  /** Mark `j` completed the recovery that closed the incident, which was open until then. */
  ghost predicate ClosedAt(p: Policy, ms: seq<Mark>, inc: Incident, j: int) {
    && 0 <= j < |ms|
    && inc.closedBy == Some(ms[j].run)
    && inc.closeCount == StreakAt(ms, j, true) >= p.closeSuccesses
    && exists i :: Opened(p, ms[..j], inc, i)
  }

  ghost predicate Settled(p: Policy, ms: seq<Mark>, inc: Incident) {
    exists j :: ClosedAt(p, ms, inc, j)
  }

  ghost predicate HasActive(incidents: seq<Incident>) {
    exists k :: 0 <= k < |incidents| && incidents[k].active
  }

  /** How often the failures reached the threshold anew. */
  ghost function Openings(p: Policy, ms: seq<Mark>): nat {
    if ms == [] then 0
    else
      var before := ms[..|ms| - 1];
      Openings(p, before) + if Tripped(p, ms) && !Tripped(p, before) then 1 else 0
  }

  ghost predicate InStep(p: Policy, ms: seq<Mark>, incidents: seq<Incident>) {
    && (forall k :: 0 <= k < |incidents| - 1 ==> !incidents[k].active)
    && (Tripped(p, ms) <==> HasActive(incidents))
    && (HasActive(incidents) ==> Described(p, ms, incidents[|incidents| - 1]))
  }

  /** Every incident is accounted for: one for each opening, and the closed ones as they were closed. */
  ghost predicate Accounted(p: Policy, ms: seq<Mark>, incidents: seq<Incident>) {
    && |incidents| == Openings(p, ms)
    && forall k :: 0 <= k < |incidents| && !incidents[k].active ==> Settled(p, ms, incidents[k])
  }

  lemma {:induction false} TrippedSnoc(p: Policy, ms: seq<Mark>, m: Mark, i: int)
    ensures i < |ms| ==>
      (TrippedAt(p, ms + [m], i) <==> TrippedAt(p, ms, i) && Trailing(ms + [m], true) < p.closeSuccesses)
    ensures TrippedAt(p, ms + [m], |ms|) <==> Trailing(ms + [m], false) >= p.openFailures
  {
    StreakSnoc(ms, m);
    if 0 <= i < |ms| && TrippedAt(p, ms + [m], i) {
      assert StreakAt(ms + [m], |ms|, true) < p.closeSuccesses;
      forall j | i < j < |ms| ensures StreakAt(ms, j, true) < p.closeSuccesses {
        assert StreakAt(ms + [m], j, true) < p.closeSuccesses;
      }
    }
  }

  lemma {:induction false} PeakSnoc(ms: seq<Mark>, m: Mark, i: nat, peak: nat)
    requires i < |ms| && IsPeak(ms, i, peak)
    ensures IsPeak(ms + [m], i, Max(peak, Trailing(ms + [m], false)))
  {
    StreakSnoc(ms, m);
    var j :| i <= j < |ms| && StreakAt(ms, j, false) == peak;
    assert StreakAt(ms + [m], j, false) == peak;
    assert StreakAt(ms + [m], |ms|, false) == Trailing(ms + [m], false);
  }

  /** A check that does not close the active incident keeps its opening mark. */
  lemma {:induction false} OpeningSnoc(p: Policy, ms: seq<Mark>, m: Mark, i: int)
    requires OpeningMark(p, ms, i) && Trailing(ms + [m], true) < p.closeSuccesses
    ensures OpeningMark(p, ms + [m], i)
  {
    TrippedSnoc(p, ms, m, i);
    forall j | j < i ensures !TrippedAt(p, ms + [m], j) {
      TrippedSnoc(p, ms, m, j);
    }
  }

  /** Success keeps the last failure, and a failure becomes it. */
  lemma {:induction false} DetailsSnoc(ms: seq<Mark>, m: Mark, stage: string, code: string)
    ensures m.ok && Details(ms, stage, code) ==> Details(ms + [m], stage, code)
    ensures !m.ok ==> Details(ms + [m], m.stage, m.code)
  {
    if m.ok && Details(ms, stage, code) {
      var j :| FailedLast(ms, j) && stage == ms[j].stage && code == ms[j].code;
      assert FailedLast(ms + [m], j) && (ms + [m])[j] == ms[j];
    }
    if !m.ok { assert FailedLast(ms + [m], |ms|); }
  }

  lemma {:induction false} SettledSnoc(p: Policy, ms: seq<Mark>, m: Mark, inc: Incident)
    requires Settled(p, ms, inc)
    ensures Settled(p, ms + [m], inc)
  {
    var j :| ClosedAt(p, ms, inc, j);
    StreakSnoc(ms, m);
    assert (ms + [m])[..j] == ms[..j] && (ms + [m])[j] == ms[j];
    assert ClosedAt(p, ms + [m], inc, j);
  }

  lemma {:induction false} OpeningsSnoc(p: Policy, ms: seq<Mark>, m: Mark)
    ensures Openings(p, ms + [m]) == Openings(p, ms) + if Tripped(p, ms + [m]) && !Tripped(p, ms) then 1 else 0
  {
    assert (ms + [m])[..|ms|] == ms;
  }

  /** One counted check keeps the account. */
  lemma {:induction false} IncidentStepAccounted(p: Policy, ms: seq<Mark>, incidents: seq<Incident>, o: Observation,
                                                 row: DomainRow)
    requires p.Valid() && InStep(p, ms, incidents) && Accounted(p, ms, incidents) && Counts(o)
    requires row.failureStreak == Trailing(ms + [MarkOf(o)], false)
    requires row.successStreak == Trailing(ms + [MarkOf(o)], true)
    requires row.availability == ClosedForm(p, ms + [MarkOf(o)])
    ensures Accounted(p, ms + [MarkOf(o)], IncidentsAfter(p, incidents, o, row))
  {
    var m := MarkOf(o);
    var next, after, last := ms + [m], IncidentsAfter(p, incidents, o, row), |incidents| - 1;
    IncidentStepInStep(p, ms, incidents, o, row);
    OpeningsSnoc(p, ms, m);
    if HasActive(incidents) {
      assert FirstActive(incidents) == last;
      assert |after| == |incidents|;
    } else {
      assert FirstActive(incidents) == |incidents|;
      OpensAtMostOne(p, incidents, o, row);
    }
    forall k | 0 <= k < |after| && !after[k].active ensures Settled(p, next, after[k]) {
      if HasActive(incidents) && k == last {
        ClosesLast(p, ms, incidents, o, row);
      } else {
        assert after[k] == incidents[k];
        SettledSnoc(p, ms, m, incidents[k]);
      }
    }
  }

  lemma {:induction false} OpensAtMostOne(p: Policy, incidents: seq<Incident>, o: Observation, row: DomainRow)
    requires !HasActive(incidents)
    ensures var after := IncidentsAfter(p, incidents, o, row);
      && |after| == |incidents| + (if HasActive(after) then 1 else 0)
      && forall k :: 0 <= k < |after| && !after[k].active ==> k < |incidents| && after[k] == incidents[k]
  {
    assert FirstActive(incidents) == |incidents|;
    var after := IncidentsAfter(p, incidents, o, row);
    if |after| > |incidents| { assert after[|incidents|].active; }
  }

  lemma {:induction false} ClosesLast(p: Policy, ms: seq<Mark>, incidents: seq<Incident>, o: Observation,
                                      row: DomainRow)
    requires p.Valid() && InStep(p, ms, incidents) && Counts(o) && HasActive(incidents)
    requires row.successStreak == Trailing(ms + [MarkOf(o)], true)
    requires !IncidentsAfter(p, incidents, o, row)[|incidents| - 1].active
    ensures Settled(p, ms + [MarkOf(o)], IncidentsAfter(p, incidents, o, row)[|incidents| - 1])
  {
    var m, last := MarkOf(o), |incidents| - 1;
    var next, inc := ms + [m], IncidentsAfter(p, incidents, o, row)[|incidents| - 1];
    assert FirstActive(incidents) == last;
    var i :| Describes(p, ms, incidents[last], i);
    StreakSnoc(ms, m);
    assert next[..|ms|] == ms;
    assert Opened(p, next[..|ms|], inc, i);
    assert ClosedAt(p, next, inc, |ms|);
  }

  /** One counted check keeps the table in step with the marks. */
  lemma {:induction false} IncidentStepInStep(p: Policy, ms: seq<Mark>, incidents: seq<Incident>, o: Observation,
                                              row: DomainRow)
    requires p.Valid() && InStep(p, ms, incidents) && Counts(o)
    requires row.failureStreak == Trailing(ms + [MarkOf(o)], false)
    requires row.successStreak == Trailing(ms + [MarkOf(o)], true)
    requires row.availability == ClosedForm(p, ms + [MarkOf(o)])
    ensures InStep(p, ms + [MarkOf(o)], IncidentsAfter(p, incidents, o, row))
  {
    var m := MarkOf(o);
    var next, after, last := ms + [m], IncidentsAfter(p, incidents, o, row), |incidents| - 1;
    TrailingSnoc(ms, m);
    if HasActive(incidents) {
      assert FirstActive(incidents) == last;
      var i :| Describes(p, ms, incidents[last], i);
      PeakSnoc(ms, m, i, incidents[last].openCount);
      DetailsSnoc(ms, m, incidents[last].failureStage, incidents[last].errorCode);
      if Trailing(next, true) < p.closeSuccesses {
        OpeningSnoc(p, ms, m, i);
        assert after[last].active;
        assert Describes(p, next, after[last], i);
      } else {
        NoneTripped(p, ms, m);
        assert !HasActive(after);
      }
    } else {
      OpenStep(p, ms, incidents, o, row);
    }
  }

  lemma {:induction false} NoneTripped(p: Policy, ms: seq<Mark>, m: Mark)
    requires p.Valid() && m.ok && Trailing(ms + [m], true) >= p.closeSuccesses
    ensures !Tripped(p, ms + [m])
  {
    TrailingSnoc(ms, m);
    forall j ensures !TrippedAt(p, ms + [m], j) {
      TrippedSnoc(p, ms, m, j);
    }
  }

  /** With no active incident, a check opens one exactly when it trips the threshold. */
  lemma {:induction false} OpenStep(p: Policy, ms: seq<Mark>, incidents: seq<Incident>, o: Observation, row: DomainRow)
    requires p.Valid() && InStep(p, ms, incidents) && Counts(o) && !HasActive(incidents)
    requires row.failureStreak == Trailing(ms + [MarkOf(o)], false)
    requires row.availability == ClosedForm(p, ms + [MarkOf(o)])
    ensures InStep(p, ms + [MarkOf(o)], IncidentsAfter(p, incidents, o, row))
  {
    var m := MarkOf(o);
    var next, after, n := ms + [m], IncidentsAfter(p, incidents, o, row), |ms|;
    TrailingSnoc(ms, m);
    assert FirstActive(incidents) == |incidents|;
    forall j ensures j != n ==> !TrippedAt(p, next, j) {
      TrippedSnoc(p, ms, m, j);
    }
    TrippedSnoc(p, ms, m, n);
    if Trailing(next, false) >= p.openFailures {
      StreakSnoc(ms, m);
      assert StreakAt(next, n, false) == Trailing(next, false);
      assert IsPeak(next, n, Trailing(next, false));
      DetailsSnoc(ms, m, "", "");
      assert after[|incidents|].active;
      assert Describes(p, next, after[|incidents|], n);
    }
  }

  lemma {:induction false} ReplayInStep(p: Policy, entries: seq<Entry>)
    requires p.Valid()
    ensures InStep(p, Marks(Observations(entries)), Replay(p, entries).incidents)
    ensures Accounted(p, Marks(Observations(entries)), Replay(p, entries).incidents)
  {
    if entries != [] {
      var before, e := entries[..|entries| - 1], entries[|entries| - 1];
      ReplayInStep(p, before);
      ReplayIsClosedForm(p, entries);
      if e.Local? {
        var obs := Observations(before);
        assert (obs + [e.o])[..|obs|] == obs;
        if Counts(e.o) {
          IncidentStepInStep(p, Marks(obs), Replay(p, before).incidents, e.o, Replay(p, entries).row);
          IncidentStepAccounted(p, Marks(obs), Replay(p, before).incidents, e.o, Replay(p, entries).row);
        }
      }
    }
  }

  /** State and incident table in lockstep, after any sequence of commits. */
  lemma {:induction false} Lockstep(p: Policy, entries: seq<Entry>)
    requires p.Valid()
    ensures var s, ms := Replay(p, entries), Marks(Observations(entries));
      // never two active incidents
      && (forall k, l :: 0 <= k < l < |s.incidents| ==> !(s.incidents[k].active && s.incidents[l].active))
      && (s.row.availability.Unavailable? ==> HasActive(s.incidents))
      && (s.row.availability.Active? || s.row.availability.Unknown? ==> !HasActive(s.incidents))
      // active exactly while tripped and not recovered
      && (HasActive(s.incidents) <==> Tripped(p, ms))
      && (HasActive(s.incidents) ==>
            var inc := s.incidents[|s.incidents| - 1];
            && inc.active
            && inc.closeCount == s.row.successStreak < p.closeSuccesses
            && Described(p, ms, inc))
      // one incident for each time the threshold was reached anew, and the closed ones as they were closed
      && Accounted(p, ms, s.incidents)
  {
    ReplayInStep(p, entries);
    ReplayIsClosedForm(p, entries);
    TrippedMatchesState(p, Marks(Observations(entries)));
  }

  lemma {:induction false} TrippedMatchesState(p: Policy, ms: seq<Mark>)
    requires p.Valid()
    ensures Trailing(ms, false) >= p.openFailures ==> Tripped(p, ms)
    ensures ClosedForm(p, ms).Active? || ClosedForm(p, ms).Unknown? ==> !Tripped(p, ms)
  {
    if ms != [] {
      var n := |ms| - 1;
      assert ms[..n + 1] == ms;
      assert forall ok :: StreakAt(ms, n, ok) == Trailing(ms, ok);
      if Trailing(ms, false) >= p.openFailures {
        assert TrippedAt(p, ms, n);
      }
      forall i | ClosedForm(p, ms).Active? ensures !TrippedAt(p, ms, i) {
        if 0 <= i < n {
          assert EverFailed(ms) ==> StreakAt(ms, n, true) >= p.closeSuccesses;
          assert !EverFailed(ms) ==> ms[i].ok;
        }
      }
    }
  }

  // ---- Flapping --------------------------------------------------------------------

  function ClosedCount(incidents: seq<Incident>): nat {
    if incidents == [] then 0
    else ClosedCount(incidents[..|incidents| - 1]) + if incidents[|incidents| - 1].active then 0 else 1
  }

  lemma {:induction false} ClosedCountInStep(incidents: seq<Incident>)
    requires forall k :: 0 <= k < |incidents| - 1 ==> !incidents[k].active
    ensures ClosedCount(incidents) == |incidents| - if HasActive(incidents) then 1 else 0
  {
    if incidents != [] {
      var front := incidents[..|incidents| - 1];
      ClosedCountInStep(front);
      assert HasActive(incidents) ==> incidents[|incidents| - 1].active;
    }
  }

  /** Marks already spent on opened and closed incidents, plus the streak towards the next change. */
  ghost function Spent(p: Policy, s: DomainState): int {
    |s.incidents| * p.openFailures + ClosedCount(s.incidents) * p.closeSuccesses
    + if HasActive(s.incidents) then s.row.successStreak else s.row.failureStreak
  }

  lemma {:induction false} OnlyLastActive(p: Policy, entries: seq<Entry>)
    requires p.Valid()
    ensures var s := Replay(p, entries);
      && (forall k :: 0 <= k < |s.incidents| - 1 ==> !s.incidents[k].active)
      && (!HasActive(s.incidents) ==> s.row.failureStreak < p.openFailures)
  {
    ReplayInStep(p, entries);
    ReplayIsClosedForm(p, entries);
    TrippedMatchesState(p, Marks(Observations(entries)));
  }

  lemma {:induction false} FlappingPotential(p: Policy, entries: seq<Entry>)
    requires p.Valid()
    ensures Spent(p, Replay(p, entries)) <= |Marks(Observations(entries))|
  {
    if entries != [] {
      var before, e := entries[..|entries| - 1], entries[|entries| - 1];
      FlappingPotential(p, before);
      if e.Local? {
        var obs := Observations(before);
        assert (obs + [e.o])[..|obs|] == obs;
        if Counts(e.o) {
          OnlyLastActive(p, before);
          OnlyLastActive(p, entries);
          SpentStep(p, Replay(p, before), e.o);
        }
      }
    }
  }

  lemma {:induction false} SpentStep(p: Policy, s: DomainState, o: Observation)
    requires p.Valid() && Counts(o)
    requires forall k :: 0 <= k < |s.incidents| - 1 ==> !s.incidents[k].active
    requires !HasActive(s.incidents) ==> s.row.failureStreak < p.openFailures
    requires var after := Commit(p, s, Local(o)).incidents; forall k :: 0 <= k < |after| - 1 ==> !after[k].active
    ensures Spent(p, Commit(p, s, Local(o))) <= Spent(p, s) + 1
  {
    var s' := Commit(p, s, Local(o));
    FlappingStep(p, s, o);
    ClosedCountInStep(s.incidents);
    ClosedCountInStep(s'.incidents);
    AddOne(|s.incidents|, p.openFailures);
    AddOne(ClosedCount(s.incidents), p.closeSuccesses);
  }

  lemma {:induction false} AddOne(k: int, d: int)
    ensures (k + 1) * d == k * d + d
  {
  }

  lemma {:induction false} FlappingStep(p: Policy, s: DomainState, o: Observation)
    requires p.Valid() && Counts(o)
    requires forall k :: 0 <= k < |s.incidents| - 1 ==> !s.incidents[k].active
    requires !HasActive(s.incidents) ==> s.row.failureStreak < p.openFailures
    ensures var row := Advanced(p, s.row, o); var after := IncidentsAfter(p, s.incidents, o, row);
      var was := HasActive(s.incidents);
      if !was && HasActive(after) then
        |after| == |s.incidents| + 1 && s.row.failureStreak + 1 == p.openFailures && row.successStreak == 0
      else if was && !HasActive(after) then
        |after| == |s.incidents| && row.failureStreak == 0 && s.row.successStreak + 1 >= p.closeSuccesses
      else
        && |after| == |s.incidents|
        && row.failureStreak <= s.row.failureStreak + 1 && row.successStreak <= s.row.successStreak + 1
  {
    var row := Advanced(p, s.row, o);
    var after, last := IncidentsAfter(p, s.incidents, o, row), |s.incidents| - 1;
    if HasActive(s.incidents) {
      assert FirstActive(s.incidents) == last;
      assert HasActive(after) <==> after[last].active;
    } else {
      assert FirstActive(s.incidents) == |s.incidents|;
      if |after| > |s.incidents| { assert after[last + 1].active; }
    }
  }

  /** However the domain flaps, every opened incident costs `open` checks and every closed one `close`. */
  lemma {:induction false} FlappingBound(p: Policy, entries: seq<Entry>)
    requires p.Valid()
    ensures var s := Replay(p, entries); var n := |Marks(Observations(entries))|;
      var openings, closings := |s.incidents|, ClosedCount(s.incidents);
      && openings * p.openFailures + closings * p.closeSuccesses <= n
      && 0 <= openings - closings <= 1
      && openings <= (n + p.closeSuccesses) / (p.openFailures + p.closeSuccesses)
  {
    FlappingPotential(p, entries);
    OnlyLastActive(p, entries);
    SpentBound(p, Replay(p, entries), |Marks(Observations(entries))|);
  }

  lemma {:induction false} SpentBound(p: Policy, s: DomainState, n: nat)
    requires p.Valid() && Spent(p, s) <= n && forall k :: 0 <= k < |s.incidents| - 1 ==> !s.incidents[k].active
    ensures var openings, closings := |s.incidents|, ClosedCount(s.incidents);
      && openings * p.openFailures + closings * p.closeSuccesses <= n
      && 0 <= openings - closings <= 1
      && openings <= (n + p.closeSuccesses) / (p.openFailures + p.closeSuccesses)
  {
    ClosedCountInStep(s.incidents);
    OpeningsBound(|s.incidents|, ClosedCount(s.incidents), p.openFailures, p.closeSuccesses, n);
  }

  lemma {:induction false} OpeningsBound(k: int, closings: int, o: int, c: int, n: int)
    requires o > 0 && c > 0 && k - 1 <= closings && k * o + closings * c <= n
    ensures k <= (n + c) / (o + c)
  {
    assert (k - 1) * c <= closings * c;
    assert k * (o + c) == k * o + (k - 1) * c + c;
    QuotientBound(k, o + c, n + c, (n + c) / (o + c), (n + c) % (o + c));
  }

  lemma {:induction false} QuotientBound(k: int, d: int, n: int, q: int, r: int)
    requires k * d <= n == q * d + r && 0 <= r < d
    ensures k <= q
  {
    if k >= q + 1 {
      ScaleLe(q + 1, k, d);
    }
  }

  lemma {:induction false} ScaleLe(x: int, y: int, d: int)
    requires x <= y && 0 <= d
    ensures x * d <= y * d
  {
    assert (y - x) * d >= 0;
  }

  // ---- Status history --------------------------------------------------------------

  /** What the log says about `d`. */
  function Recorded(history: seq<HistoryEntry>, d: Dimension): string {
    if history == [] then "UNKNOWN"
    else if history[|history| - 1].dimension == d then history[|history| - 1].current
    else Recorded(history[..|history| - 1], d)
  }

  ghost predicate Chained(history: seq<HistoryEntry>) {
    forall k :: 0 <= k < |history| ==> LinkOk(history, k)
  }

  ghost predicate LinkOk(history: seq<HistoryEntry>, k: nat)
    requires k < |history|
  {
    var prior := Recorded(history[..k], history[k].dimension);
    && history[k].previous == Some(prior)
    && history[k].current != prior
  }

  lemma {:induction false} ChainedSnoc(history: seq<HistoryEntry>, e: HistoryEntry)
    requires Chained(history)
    requires e.previous == Some(Recorded(history, e.dimension)) && e.current != Recorded(history, e.dimension)
    ensures Chained(history + [e])
    ensures forall d :: Recorded(history + [e], d) == if d == e.dimension then e.current else Recorded(history, d)
  {
    var next := history + [e];
    assert next[..|history|] == history;
    forall k | 0 <= k < |next| ensures LinkOk(next, k) {
      if k < |history| {
        assert LinkOk(history, k);
        assert next[..k] == history[..k];
      }
    }
  }

  /** The new value of the listed dimensions, the old value of the others. */
  function Mixed(dims: seq<Dimension>, before: DomainRow, after: DomainRow, d: Dimension): string {
    if d in dims then ValueOf(after, d) else ValueOf(before, d)
  }

  lemma {:induction false} ChainedEntries(history: seq<HistoryEntry>, dims: seq<Dimension>, run: nat,
                                          before: DomainRow, after: DomainRow)
    requires Chained(history) && forall d :: Recorded(history, d) == ValueOf(before, d)
    requires forall i, j :: 0 <= i < j < |dims| ==> dims[i] != dims[j]
    requires forall d :: d in dims ==> ValueOf(before, d) != ValueOf(after, d) && Trimmed(ValueOf(before, d))
    ensures Chained(history + EntriesFor(dims, run, before, after))
    ensures forall d :: Recorded(history + EntriesFor(dims, run, before, after), d) == Mixed(dims, before, after, d)
  {
    if dims == [] {
      assert history + [] == history;
    } else {
      var rest, d := dims[..|dims| - 1], dims[|dims| - 1];
      assert dims == rest + [d];
      ChainedEntries(history, rest, run, before, after);
      var log := history + EntriesFor(rest, run, before, after);
      var e := HistoryEntry(d, Nullable(ValueOf(before, d)), ValueOf(after, d), after.confidence, run);
      NullableTrimmed(ValueOf(before, d));
      ChainedOne(log, rest, e, before, after);
      assert log + [e] == history + EntriesFor(dims, run, before, after);
    }
  }

  lemma {:induction false} ChainedOne(log: seq<HistoryEntry>, rest: seq<Dimension>, e: HistoryEntry, before: DomainRow,
                                      after: DomainRow)
    requires Chained(log) && forall x :: Recorded(log, x) == Mixed(rest, before, after, x)
    requires e.dimension !in rest && e.previous == Some(ValueOf(before, e.dimension))
    requires e.current == ValueOf(after, e.dimension)
    requires ValueOf(before, e.dimension) != ValueOf(after, e.dimension)
    ensures Chained(log + [e]) && forall x :: Recorded(log + [e], x) == Mixed(rest + [e.dimension], before, after, x)
  {
    assert Recorded(log, e.dimension) == Mixed(rest, before, after, e.dimension);
    ChainedSnoc(log, e);
    forall x ensures Recorded(log + [e], x) == Mixed(rest + [e.dimension], before, after, x) {
      assert Recorded(log, x) == Mixed(rest, before, after, x);
    }
  }

  /** What the database accepts: members of its enumerations. */
  predicate EntryOk(e: Entry) {
    match e
    case Local(o) => InSchema(o.decision)
    case Remote(_, isp, _) => isp in ISP_STATUSES
  }

  /** The log is a chain whose last entries are the stored values, none of them blank. */
  ghost predicate Faithful(s: DomainState) {
    && Chained(s.history)
    && (forall d :: Recorded(s.history, d) == ValueOf(s.row, d))
    && (forall d :: Trimmed(ValueOf(s.row, d)))
  }

  lemma {:induction false} AdvancedTrimmed(p: Policy, row: DomainRow, o: Observation, d: Dimension)
    requires InSchema(o.decision) && Trimmed(ValueOf(row, d))
    ensures Trimmed(ValueOf(Advanced(p, row, o), d))
  {
    ReportedTrimmed(o.decision, d);
    if d != DimAvailability {
      AdvancedStatus(p, row, o, d);
    }
  }

  lemma {:induction false} LocalStaysFaithful(p: Policy, s: DomainState, o: Observation)
    requires Faithful(s) && InSchema(o.decision)
    ensures Faithful(Commit(p, s, Local(o)))
  {
    var row := Advanced(p, s.row, o);
    ChangedIsDiff(s.row, row);
    ChainedEntries(s.history, Changed(s.row, row, |DIMENSIONS|), o.run, s.row, row);
    forall d ensures Trimmed(ValueOf(row, d)) {
      AdvancedTrimmed(p, s.row, o, d);
    }
  }

  lemma {:induction false} RemoteStaysFaithful(p: Policy, s: DomainState, run: nat, isp: string, confidence: int)
    requires Faithful(s) && isp in ISP_STATUSES
    ensures Faithful(Commit(p, s, Remote(run, isp, confidence)))
  {
    IspTrimmed(isp);
    assert forall d :: ValueOf(s.row.(isp := isp), d) == if d == DimIsp then isp else ValueOf(s.row, d);
    if s.row.isp != isp {
      assert Recorded(s.history, DimIsp) == ValueOf(s.row, DimIsp);
      ChainedSnoc(s.history, HistoryEntry(DimIsp, Some(s.row.isp), isp, confidence, run));
    }
  }

  /** For every dimension the log is a chain that starts at "UNKNOWN" and ends at the stored
      value, whatever mix of local and remote results was committed. */
  lemma {:induction false} HistoryIsChain(p: Policy, entries: seq<Entry>)
    requires forall i :: 0 <= i < |entries| ==> EntryOk(entries[i])
    ensures Faithful(Replay(p, entries))
  {
    if entries != [] {
      var before, e := entries[..|entries| - 1], entries[|entries| - 1];
      assert forall i :: 0 <= i < |before| ==> before[i] == entries[i];
      HistoryIsChain(p, before);
      assert EntryOk(e);
      match e
      case Local(o) => LocalStaysFaithful(p, Replay(p, before), o);
      case Remote(run, isp, confidence) => RemoteStaysFaithful(p, Replay(p, before), run, isp, confidence);
    }
  }

  // ---- Who wrote the history -----------------------------------------------------------

  /** What the commits make of dimension `d`. */
  function Word(p: Policy, entries: seq<Entry>, d: Dimension): string {
    if d == DimAvailability then Name(ClosedForm(p, Marks(Observations(entries)))) else LatestWord(entries, d)
  }

  lemma {:induction false} ReplayIsWord(p: Policy, entries: seq<Entry>, d: Dimension)
    ensures ValueOf(Replay(p, entries).row, d) == Word(p, entries, d)
  {
    if d == DimAvailability { ReplayIsClosedForm(p, entries); } else { ReplayIsLatest(p, entries, d); }
  }

  /** The history entry carries the run and the confidence of the commit; an idle check writes none, and a remote
      result writes about the ISP status only. */
  predicate SignedBy(h: HistoryEntry, e: Entry) {
    match e
    case Local(o) =>
      h.run == o.run && h.confidence == o.decision.confidence && o.qualifying && o.decision.availability != Unknown
    case Remote(run, _, confidence) => h.run == run && h.confidence == confidence && h.dimension == DimIsp
  }

  /** The history falls into one stretch per commit, `cuts[i]` to `cuts[i + 1]`: signed by that commit, and after it
      the log says of every dimension what the commits so far make of it. */
  ghost predicate Attributed(p: Policy, entries: seq<Entry>, history: seq<HistoryEntry>, cuts: seq<nat>) {
    && |cuts| == |entries| + 1 && cuts[0] == 0 && cuts[|entries|] == |history|
    && (forall i :: 0 <= i < |cuts| ==> cuts[i] <= |history|)
    && (forall i, j :: 0 <= i < j < |cuts| ==> cuts[i] <= cuts[j])
    && (forall i, k :: 0 <= i < |entries| && cuts[i] <= k < cuts[i + 1] ==> SignedBy(history[k], entries[i]))
    && (forall i, d :: 0 <= i < |cuts| ==> Recorded(history[..cuts[i]], d) == Word(p, entries[..i], d))
  }

  lemma {:induction false} EntriesSigned(dims: seq<Dimension>, run: nat, before: DomainRow, after: DomainRow)
    ensures forall k :: 0 <= k < |EntriesFor(dims, run, before, after)| ==>
              EntriesFor(dims, run, before, after)[k].run == run
              && EntriesFor(dims, run, before, after)[k].confidence == after.confidence
  {
    if dims != [] { EntriesSigned(dims[..|dims| - 1], run, before, after); }
  }

  lemma {:induction false} CommitSigns(p: Policy, s: DomainState, e: Entry)
    ensures s.history <= Commit(p, s, e).history
    ensures forall k :: |s.history| <= k < |Commit(p, s, e).history| ==> SignedBy(Commit(p, s, e).history[k], e)
  {
    match e
    case Local(o) =>
      var row := Advanced(p, s.row, o);
      EntriesSigned(Changed(s.row, row, |DIMENSIONS|), o.run, s.row, row);
      if !Counts(o) { IdleChangesNothing(s.row, row, |DIMENSIONS|); }
    case Remote(_, _, _) =>
  }

  /** Every history row is the work of exactly one commit, after any mix of commits. */
  lemma {:induction false} HistoryAttributed(p: Policy, entries: seq<Entry>) returns (cuts: seq<nat>)
    requires forall i :: 0 <= i < |entries| ==> EntryOk(entries[i])
    ensures Attributed(p, entries, Replay(p, entries).history, cuts)
  {
    HistoryIsChain(p, entries);
    forall d ensures Recorded(Replay(p, entries).history, d) == Word(p, entries, d) { ReplayIsWord(p, entries, d); }
    if entries == [] {
      cuts := [0];
    } else {
      var before, e := entries[..|entries| - 1], entries[|entries| - 1];
      assert forall i :: 0 <= i < |before| ==> before[i] == entries[i];
      var rest := HistoryAttributed(p, before);
      CommitSigns(p, Replay(p, before), e);
      cuts := rest + [|Replay(p, entries).history|];
      AttributedSnoc(p, before, e, Replay(p, before).history, Replay(p, entries).history, rest);
      assert before + [e] == entries;
    }
  }

  lemma {:induction false} AttributedSnoc(p: Policy, before: seq<Entry>, e: Entry, history: seq<HistoryEntry>,
                                          longer: seq<HistoryEntry>, rest: seq<nat>)
    requires Attributed(p, before, history, rest) && history <= longer
    requires forall k :: |history| <= k < |longer| ==> SignedBy(longer[k], e)
    requires forall d :: Recorded(longer, d) == Word(p, before + [e], d)
    ensures Attributed(p, before + [e], longer, rest + [|longer|])
  {
    var entries, cuts, n := before + [e], rest + [|longer|], |before|;
    forall i, k | 0 <= i < |entries| && cuts[i] <= k < cuts[i + 1] ensures SignedBy(longer[k], entries[i]) {
      if i < n { assert SignedBy(history[k], before[i]); }
    }
    forall i, d | 0 <= i < |cuts| ensures Recorded(longer[..cuts[i]], d) == Word(p, entries[..i], d) {
      if i <= n {
        assert longer[..cuts[i]] == history[..rest[i]] && entries[..i] == before[..i];
      } else {
        assert longer[..cuts[i]] == longer && entries[..i] == entries;
      }
    }
  }
}
