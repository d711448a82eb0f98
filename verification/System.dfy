/** The whole service: monitoring pipeline, remote probes and the domains they both write to.
    Local completions and remote results are committed to a domain in one global order. */
module System {
  import opened Hysteresis
  import opened Settings
  import opened Ledger
  import M = Pipeline
  import P = Probes

  /** One committed change of a domain. */
  datatype Logged = Logged(domain: nat, entry: Entry)

  datatype State = State(monitor: M.State, probes: P.State, log: seq<Logged>, domains: map<nat, DomainState>)

  datatype Action = Monitor(m: M.Action) | Probe(p: P.Action)

  const EMPTY := State(M.EMPTY, P.EMPTY, [], map[])

  /** Domains start with the column defaults. */
  function DomainOf(domains: map<nat, DomainState>, d: nat): DomainState {
    if d in domains then domains[d] else INITIAL
  }

  function Committing(c: Config, s: State, x: Logged): State {
    s.(log := s.log + [x], domains := s.domains[x.domain := Commit(c.policy, DomainOf(s.domains, x.domain), x.entry)])
  }

  /** A dispatch only picks runs that completed recently, with their own domain. */
  ghost predicate PicksCompleted(c: Config, s: State, picks: seq<P.Pick>) {
    forall i :: 0 <= i < |picks| ==> RunCompleted(c, s.monitor, picks[i])
  }

  ghost predicate RunCompleted(c: Config, m: M.State, x: P.Pick) {
    && x.run in m.runs && m.runs[x.run].status.Completed? && m.runs[x.run].Domain() == x.domain
    && m.runs[x.run].completedAt.Some? && m.runs[x.run].completedAt.value >= m.now - c.probeEvidenceFresh
  }

  /** The domain's side of a monitoring action: a new completion is committed to its domain. */
  function WithMonitor(c: Config, s: State, m: M.State): State {
    if |m.commits| == |s.monitor.commits| || m.commits == [] then s.(monitor := m)
    else
      var done := m.commits[|m.commits| - 1];
      Committing(c, s.(monitor := m), Logged(done.domain, Local(done.o)))
  }

  function WithProbes(c: Config, s: State, p: P.State): State {
    if |p.results| == |s.probes.results| || p.results == [] then s.(probes := p)
    else
      var done := p.results[|p.results| - 1];
      Committing(c, s.(probes := p), Logged(done.domain, Remote(done.run, done.isp, done.confidence)))
  }

  ghost function Next(c: Config, s: State, a: Action): State {
    match a
    case Monitor(x) => WithMonitor(c, s, M.Next(c, s.monitor, x))
    case Probe(x) =>
      if x.Dispatch? && !PicksCompleted(c, s, x.picks) then s
      else WithProbes(c, s, P.Next(c, s.probes, s.monitor.now, x))
  }

  ghost function Reached(c: Config, actions: seq<Action>): State {
    if actions == [] then EMPTY
    else Next(c, Reached(c, actions[..|actions| - 1]), actions[|actions| - 1])
  }

  /** The part of the log that concerns domain `d`. */
  function EntriesOf(log: seq<Logged>, d: nat): seq<Entry> {
    if log == [] then []
    else
      var rest, x := EntriesOf(log[..|log| - 1], d), log[|log| - 1];
      if x.domain == d then rest + [x.entry] else rest
  }

  function LocalsOf(log: seq<Logged>): seq<M.Completion> {
    if log == [] then []
    else
      var rest, x := LocalsOf(log[..|log| - 1]), log[|log| - 1];
      if x.entry.Local? then rest + [M.Completion(x.domain, x.entry.o)] else rest
  }

  function RemotesOf(log: seq<Logged>): seq<(nat, Entry)> {
    if log == [] then []
    else
      var rest, x := RemotesOf(log[..|log| - 1]), log[|log| - 1];
      if x.entry.Remote? then rest + [(x.domain, x.entry)] else rest
  }

  function AsEntries(results: seq<P.Result>): seq<(nat, Entry)> {
    if results == [] then []
    else
      var x := results[|results| - 1];
      AsEntries(results[..|results| - 1]) + [(x.domain, Remote(x.run, x.isp, x.confidence))]
  }

  /** Every domain is what its own log entries replay to, and the log holds exactly the pipeline's
      completions and the probes' results. */
  ghost predicate Consistent(c: Config, s: State) {
    && (forall d :: DomainOf(s.domains, d) == Replay(c.policy, EntriesOf(s.log, d)))
    && LocalsOf(s.log) == s.monitor.commits
    && RemotesOf(s.log) == AsEntries(s.probes.results)
    && (forall i :: 0 <= i < |s.log| ==> EntryOk(s.log[i].entry))
  }

  lemma {:induction false} CommittingKept(c: Config, s: State, x: Logged)
    requires forall d :: DomainOf(s.domains, d) == Replay(c.policy, EntriesOf(s.log, d))
    requires forall i :: 0 <= i < |s.log| ==> EntryOk(s.log[i].entry)
    requires EntryOk(x.entry)
    ensures var s' := Committing(c, s, x);
      && (forall d :: DomainOf(s'.domains, d) == Replay(c.policy, EntriesOf(s'.log, d)))
      && (forall i :: 0 <= i < |s'.log| ==> EntryOk(s'.log[i].entry))
      && LocalsOf(s'.log) == LocalsOf(s.log) + (if x.entry.Local? then [M.Completion(x.domain, x.entry.o)] else [])
      && RemotesOf(s'.log) == RemotesOf(s.log) + (if x.entry.Remote? then [(x.domain, x.entry)] else [])
  {
    var s' := Committing(c, s, x);
    assert s'.log[..|s.log|] == s.log;
    forall d ensures DomainOf(s'.domains, d) == Replay(c.policy, EntriesOf(s'.log, d)) {
      var before := EntriesOf(s.log, d);
      assert (before + [x.entry])[..|before|] == before;
    }
  }

  /** At most one run is committed by one action, and the database accepted its decision. */
  ghost predicate CommitsOne(m: M.State, m': M.State) {
    || m'.commits == m.commits
    || (exists x :: m'.commits == m.commits + [x] && InSchema(x.o.decision))
  }

  ghost predicate AcceptsOne(p: P.State, p': P.State) {
    || p'.results == p.results
    || (exists x :: p'.results == p.results + [x] && x.isp in ISP_STATUSES)
  }

  lemma {:induction false} MonitorStep(c: Config, m: M.State, x: M.Action)
    requires c.Valid() && M.Inv(c, m)
    ensures M.Inv(c, M.Next(c, m, x)) && CommitsOne(m, M.Next(c, m, x))
  {
    M.NextKept(c, m, x);
    OneCommit(c, m, x);
  }

  lemma {:induction false} OneCommit(c: Config, m: M.State, x: M.Action)
    ensures CommitsOne(m, M.Next(c, m, x))
  {
    var m' := M.Next(c, m, x);
    if m'.commits != m.commits {
      var done := m'.commits[|m.commits|];
      assert m'.commits == m.commits + [done];
    }
  }

  lemma {:induction false} ProbeStep(c: Config, p: P.State, now: int, x: P.Action)
    requires c.Valid() && P.Inv(p)
    ensures P.Inv(P.Next(c, p, now, x)) && AcceptsOne(p, P.Next(c, p, now, x))
  {
    P.NextKept(c, p, now, x);
    OneResult(c, p, now, x);
  }

  lemma {:induction false} OneResult(c: Config, p: P.State, now: int, x: P.Action)
    ensures AcceptsOne(p, P.Next(c, p, now, x))
  {
    var p' := P.Next(c, p, now, x);
    if p'.results != p.results {
      var done := p'.results[|p.results|];
      assert p'.results == p.results + [done];
    }
  }

  lemma {:induction false} MonitorConsistent(c: Config, s: State, m: M.State)
    requires Consistent(c, s) && CommitsOne(s.monitor, m)
    ensures Consistent(c, WithMonitor(c, s, m))
  {
    if m.commits != s.monitor.commits {
      var done := m.commits[|m.commits| - 1];
      CommittingKept(c, s.(monitor := m), Logged(done.domain, Local(done.o)));
    }
  }

  lemma {:induction false} ProbesConsistent(c: Config, s: State, p: P.State)
    requires Consistent(c, s) && AcceptsOne(s.probes, p)
    ensures Consistent(c, WithProbes(c, s, p))
  {
    if p.results != s.probes.results {
      var done := p.results[|p.results| - 1];
      CommittingKept(c, s.(probes := p), Logged(done.domain, Remote(done.run, done.isp, done.confidence)));
      assert p.results[..|p.results| - 1] == s.probes.results;
    }
  }

  ghost predicate Sound(c: Config, s: State) {
    M.Inv(c, s.monitor) && P.Inv(s.probes) && Consistent(c, s)
  }

  lemma {:induction false} NextSound(c: Config, s: State, a: Action)
    requires c.Valid() && Sound(c, s)
    ensures Sound(c, Next(c, s, a))
  {
    match a
    case Monitor(x) =>
      MonitorStep(c, s.monitor, x);
      MonitorConsistent(c, s, M.Next(c, s.monitor, x));
    case Probe(x) =>
      ProbeStep(c, s.probes, s.monitor.now, x);
      ProbesConsistent(c, s, P.Next(c, s.probes, s.monitor.now, x));
  }

  lemma {:induction false} EmptySound(c: Config)
    ensures Sound(c, EMPTY)
  {
    M.EmptyOk(c);
  }

  /** Every reachable state of the whole service is sound. */
  lemma {:induction false} ReachedSound(c: Config, actions: seq<Action>)
    requires c.Valid()
    ensures Sound(c, Reached(c, actions))
  {
    if actions == [] {
      EmptySound(c);
    } else {
      ReachedSound(c, actions[..|actions| - 1]);
      NextSound(c, Reached(c, actions[..|actions| - 1]), actions[|actions| - 1]);
    }
  }

  // ---- Each run counts once --------------------------------------------------------

  ghost predicate DistinctCompletions(cs: seq<M.Completion>) {
    forall i, j :: 0 <= i < j < |cs| ==> cs[i].o.run != cs[j].o.run
  }

  ghost predicate DistinctRuns(obs: seq<Observation>) {
    forall i, j :: 0 <= i < j < |obs| ==> obs[i].run != obs[j].run
  }

  lemma {:induction false} ObservationsAreLocals(log: seq<Logged>, d: nat)
    ensures forall o :: o in Observations(EntriesOf(log, d)) ==> M.Completion(d, o) in LocalsOf(log)
  {
    if log != [] {
      var rest, x := log[..|log| - 1], log[|log| - 1];
      ObservationsAreLocals(rest, d);
      var before := EntriesOf(rest, d);
      assert (before + [x.entry])[..|before|] == before;
    }
  }

  lemma {:induction false} EachRunCountsOnce(log: seq<Logged>, d: nat)
    requires DistinctCompletions(LocalsOf(log))
    ensures DistinctRuns(Observations(EntriesOf(log, d)))
  {
    if log != [] {
      var rest, x := log[..|log| - 1], log[|log| - 1];
      var before, locals := EntriesOf(rest, d), LocalsOf(rest);
      assert locals == LocalsOf(log)[..|locals|];
      EachRunCountsOnce(rest, d);
      ObservationsAreLocals(rest, d);
      assert (before + [x.entry])[..|before|] == before;
      if x.domain == d && x.entry.Local? {
        var obs := Observations(before);
        forall i | 0 <= i < |obs| ensures obs[i].run != x.entry.o.run {
          assert obs[i] in obs;
          var k :| 0 <= k < |locals| && locals[k] == M.Completion(d, obs[i]);
          assert LocalsOf(log)[k] == locals[k] && LocalsOf(log)[|locals|].o == x.entry.o;
        }
      }
    }
  }

  // ---- Nothing is missing, nothing is repeated ------------------------------------------

  /** The observations of domain `d` among the pipeline's completions, in order. */
  function ObservationsOf(cs: seq<M.Completion>, d: nat): seq<Observation> {
    if cs == [] then []
    else
      var rest, x := ObservationsOf(cs[..|cs| - 1], d), cs[|cs| - 1];
      if x.domain == d then rest + [x.o] else rest
  }

  /** The remote entries among a domain's commits, in order. */
  function RemotesIn(entries: seq<Entry>): seq<Entry> {
    if entries == [] then []
    else
      var rest, e := RemotesIn(entries[..|entries| - 1]), entries[|entries| - 1];
      if e.Remote? then rest + [e] else rest
  }

  /** The accepted results for domain `d`, in order, as entries. */
  function ResultsOf(results: seq<(nat, Entry)>, d: nat): seq<Entry> {
    if results == [] then []
    else
      var rest, x := ResultsOf(results[..|results| - 1], d), results[|results| - 1];
      if x.0 == d then rest + [x.1] else rest
  }

  lemma {:induction false} ObservationsMatch(log: seq<Logged>, d: nat)
    ensures Observations(EntriesOf(log, d)) == ObservationsOf(LocalsOf(log), d)
  {
    if log != [] {
      var rest, x := log[..|log| - 1], log[|log| - 1];
      ObservationsMatch(rest, d);
      var before, locals := EntriesOf(rest, d), LocalsOf(rest);
      assert (before + [x.entry])[..|before|] == before;
      if x.entry.Local? {
        assert (locals + [M.Completion(x.domain, x.entry.o)])[..|locals|] == locals;
      }
    }
  }

  lemma {:induction false} RemotesMatch(log: seq<Logged>, d: nat)
    ensures RemotesIn(EntriesOf(log, d)) == ResultsOf(RemotesOf(log), d)
  {
    if log != [] {
      var rest, x := log[..|log| - 1], log[|log| - 1];
      RemotesMatch(rest, d);
      var before, remotes := EntriesOf(rest, d), RemotesOf(rest);
      assert (before + [x.entry])[..|before|] == before;
      if x.entry.Remote? {
        assert (remotes + [(x.domain, x.entry)])[..|remotes|] == remotes;
      }
    }
  }

  /** Every completed run of the domain has its observation. */
  ghost predicate HasObservation(obs: seq<Observation>, run: nat) {
    exists o :: o in obs && o.run == run
  }

  lemma {:induction false} ObservationOf(cs: seq<M.Completion>, x: M.Completion)
    requires x in cs
    ensures x.o in ObservationsOf(cs, x.domain)
  {
    if x != cs[|cs| - 1] {
      ObservationOf(cs[..|cs| - 1], x);
    }
  }

  lemma {:induction false} CompletedRunsObserved(c: Config, m: M.State, run: nat)
    requires M.Inv(c, m) && run in m.runs && m.runs[run].status.Completed?
    ensures HasObservation(ObservationsOf(m.commits, m.runs[run].Domain()), run)
  {
    assert M.Committed(m.commits, run);
    var i :| 0 <= i < |m.commits| && m.commits[i].o.run == run;
    assert M.CommitOk(m.runs, m.commits[i]);
    ObservationOf(m.commits, m.commits[i]);
  }

  // ---- The main theorem ------------------------------------------------------------

  /** What a domain's row, incidents and history must be, given the commits that concern it. */
  ghost predicate Explained(p: Policy, dom: DomainState, entries: seq<Entry>)
    requires p.Valid()
  {
    var ms := Marks(Observations(entries));
    // the effective state is the closed form of the counted observations
    && dom.row.availability == ClosedForm(p, ms)
    && dom.row.failureStreak == Trailing(ms, false)
    && dom.row.successStreak == Trailing(ms, true)
    // every other status is the latest word about it, and the details are those of the last check
    && (forall dim :: dim != DimAvailability ==> ValueOf(dom.row, dim) == LatestWord(entries, dim))
    && DetailsOf(dom.row, Observations(entries))
    && dom.row.confidence == LatestConfidence(Observations(entries))
    // the incident table is in lockstep with it
    && (forall k, l :: 0 <= k < l < |dom.incidents| ==> !(dom.incidents[k].active && dom.incidents[l].active))
    && (HasActive(dom.incidents) <==> Tripped(p, ms))
    && (dom.row.availability.Unavailable? ==> HasActive(dom.incidents))
    && (dom.row.availability.Active? || dom.row.availability.Unknown? ==> !HasActive(dom.incidents))
    && (HasActive(dom.incidents) ==> Described(p, ms, dom.incidents[|dom.incidents| - 1]))
    // one incident per opening, the closed ones as they were closed, and all paid for in observations
    && Accounted(p, ms, dom.incidents)
    && |dom.incidents| <= (|ms| + p.closeSuccesses) / (p.openFailures + p.closeSuccesses)
    // the status history is a chain that ends at the stored values
    && Chained(dom.history)
    && (forall dim :: Recorded(dom.history, dim) == ValueOf(dom.row, dim))
    // made of one stretch per commit, with the commit's run and confidence
    && (exists cuts :: Attributed(p, entries, dom.history, cuts))
  }

  lemma {:induction false} ReplayExplained(p: Policy, entries: seq<Entry>)
    requires p.Valid() && forall i :: 0 <= i < |entries| ==> EntryOk(entries[i])
    ensures Explained(p, Replay(p, entries), entries)
  {
    ReplayIsClosedForm(p, entries);
    forall dim | dim != DimAvailability ensures ValueOf(Replay(p, entries).row, dim) == LatestWord(entries, dim) {
      ReplayIsLatest(p, entries, dim);
    }
    ReplayDetails(p, entries);
    ReplayConfidence(p, entries);
    var cuts := HistoryAttributed(p, entries);
    Lockstep(p, entries);
    FlappingBound(p, entries);
    HistoryIsChain(p, entries);
  }

  lemma {:induction false} EntriesOk(log: seq<Logged>, d: nat)
    requires forall i :: 0 <= i < |log| ==> EntryOk(log[i].entry)
    ensures forall i :: 0 <= i < |EntriesOf(log, d)| ==> EntryOk(EntriesOf(log, d)[i])
  {
    if log != [] {
      assert forall i :: 0 <= i < |log| - 1 ==> log[..|log| - 1][i] == log[i];
      EntriesOk(log[..|log| - 1], d);
    }
  }

  /** In every reachable state of the service, every domain is explained by the commits that concern it: the
      observations of its completed runs, each exactly once and in commit order, and the results accepted for it from
      probes, exactly those and in order. */
  lemma {:induction false} EveryDomainIsExplained(c: Config, actions: seq<Action>, d: nat)
    requires c.Valid()
    ensures var s := Reached(c, actions);
      var entries := EntriesOf(s.log, d);
      var obs := Observations(entries);
      && Explained(c.policy, DomainOf(s.domains, d), entries)
      && obs == ObservationsOf(s.monitor.commits, d) && RemotesIn(entries) == ResultsOf(AsEntries(s.probes.results), d)
      && DistinctRuns(obs)
      && (forall o :: o in obs ==>
            o.run in s.monitor.runs && s.monitor.runs[o.run].status.Completed? && s.monitor.runs[o.run].Domain() == d)
      && (forall r :: r in s.monitor.runs && s.monitor.runs[r].status.Completed? && s.monitor.runs[r].Domain() == d ==>
            HasObservation(obs, r))
  {
    var s := Reached(c, actions);
    ReachedSound(c, actions);
    EntriesOk(s.log, d);
    ReplayExplained(c.policy, EntriesOf(s.log, d));
    ObservationsMatch(s.log, d);
    RemotesMatch(s.log, d);
    DomainRuns(c, s, d);
  }

  lemma {:induction false} DomainRuns(c: Config, s: State, d: nat)
    requires M.Inv(c, s.monitor) && Consistent(c, s)
    ensures var obs := Observations(EntriesOf(s.log, d));
      && DistinctRuns(obs)
      && (forall o :: o in obs ==>
            o.run in s.monitor.runs && s.monitor.runs[o.run].status.Completed? && s.monitor.runs[o.run].Domain() == d)
      && (forall r :: r in s.monitor.runs && s.monitor.runs[r].status.Completed? && s.monitor.runs[r].Domain() == d ==>
            HasObservation(obs, r))
  {
    CompletionsAreRuns(c, s.monitor);
    EachRunCountsOnce(s.log, d);
    ObservationsAreLocals(s.log, d);
    ObservationsMatch(s.log, d);
    forall r | r in s.monitor.runs && s.monitor.runs[r].status.Completed? && s.monitor.runs[r].Domain() == d
      ensures HasObservation(Observations(EntriesOf(s.log, d)), r)
    {
      CompletedRunsObserved(c, s.monitor, r);
    }
  }

  lemma {:induction false} CompletionsAreRuns(c: Config, m: M.State)
    requires M.Inv(c, m)
    ensures DistinctCompletions(m.commits)
    ensures forall x :: x in m.commits ==>
              x.o.run in m.runs && m.runs[x.o.run].status.Completed? && m.runs[x.o.run].Domain() == x.domain
  {
    forall x | x in m.commits
      ensures x.o.run in m.runs && m.runs[x.o.run].status.Completed? && m.runs[x.o.run].Domain() == x.domain
    {
      var i :| 0 <= i < |m.commits| && m.commits[i] == x;
      assert M.CommitOk(m.runs, m.commits[i]);
      assert M.Committed(m.commits, x.o.run);
    }
  }
}
