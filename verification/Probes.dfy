/** Remote probe nodes and their leased jobs (internal/probe/jobs.go, results.go and auth.go).
    Every transaction is one action of a state machine; an action that fails changes nothing. */
module Probes {
  import opened Text
  import opened Hysteresis
  import opened Settings

  datatype NodeStatus = Online | Impaired | Offline | Revoked | UpgradeRequired

  datatype Node = Node(region: string, status: NodeStatus, lastSeen: Option<int>, revokedAt: Option<int>)

  datatype JobStatus = Queued | Leased | Completed | Expired | Cancelled

  datatype Job = Job(
    run: nat, domain: nat, probe: nat, nonce: nat, status: JobStatus,
    expiresAt: int, leaseUntil: Option<int>, attempts: nat)
  {
    predicate Open() { status.Queued? || status.Leased? }
  }

  const MAX_ATTEMPTS := 20

  /** An accepted result, with the lease it was accepted under. */
  datatype Result = Result(job: nat, probe: nat, nonce: nat, at: int, leaseUntil: int, run: nat, domain: nat,
                           isp: string, confidence: int)

  datatype State = State(nodes: map<nat, Node>, jobs: map<nat, Job>, results: seq<Result>)

  const EMPTY := State(map[], map[], [])

  /** A new job: identifier and nonce are random. */
  datatype Pick = Pick(run: nat, domain: nat, job: nat, nonce: nat)

  /** The checks a submission passes before the database is asked: payload size, signature, identity, clock. The value
      names the first that failed. */
  datatype Screening = Passed | Oversized | BadSignature | WrongIdentity | Skewed

  /** A principal keeps the status it had when it authenticated. */
  datatype Action =
    | Register(probe: nat, region: string)
    | Heartbeat(probe: nat, status: NodeStatus)
    | Revoke(probe: nat)
    | Dispatch(selected: nat, picks: seq<Pick>)
    | Claim(probe: nat, principalStatus: NodeStatus, job: nat)
    | Submit(probe: nat, job: nat, screening: Screening, run: nat, nonce: nat, isp: string, confidence: int)

  // ---- Transactions ----------------------------------------------------------------

  function NodesAfterHeartbeat(nodes: map<nat, Node>, probe: nat, status: NodeStatus, now: int): map<nat, Node> {
    if probe in nodes && nodes[probe].revokedAt.None? && (status.Online? || status.Impaired? || status.UpgradeRequired?)
    then nodes[probe := nodes[probe].(status := status, lastSeen := Some(now))] else nodes
  }

  function AfterRevoke(s: State, probe: nat, now: int): State {
    if probe !in s.nodes || s.nodes[probe].revokedAt.Some? then s
    else s.(
      nodes := s.nodes[probe := s.nodes[probe].(status := Revoked, revokedAt := Some(now))],
      jobs := map j | j in s.jobs ::
        if s.jobs[j].probe == probe && s.jobs[j].Open() then s.jobs[j].(status := Cancelled) else s.jobs[j])
  }

  /** Nodes not seen recently go offline. */
  function Staled(c: Config, n: Node, now: int): Node {
    if (n.status.Online? || n.status.Impaired?) && (n.lastSeen.None? || n.lastSeen.value < now - c.probeStaleAfter)
    then n.(status := Offline) else n
  }

  function Lapsed(j: Job, now: int): Job {
    if j.Open() && j.expiresAt <= now then j.(status := Expired) else j
  }

  predicate Eligible(c: Config, n: Node, now: int) {
    && n.region == c.probeRegion && n.status.Online? && n.revokedAt.None?
    && n.lastSeen.Some? && n.lastSeen.value >= now - c.probeStaleAfter
  }

  /** The jobs a dispatch may insert for probe `p`: runs without a job there, fresh identifiers. */
  predicate PicksOk(c: Config, jobs: map<nat, Job>, p: nat, picks: seq<Pick>) {
    && |picks| <= c.probeBatch
    && (forall i :: 0 <= i < |picks| ==> picks[i].job !in jobs)
    && (forall i, j :: 0 <= i < |picks| && j in jobs ==>
          jobs[j].nonce != picks[i].nonce && !(jobs[j].run == picks[i].run && jobs[j].probe == p))
    && (forall i, j :: 0 <= i < j < |picks| ==>
          picks[i].job != picks[j].job && picks[i].nonce != picks[j].nonce && picks[i].run != picks[j].run)
  }

  function NewJob(c: Config, x: Pick, p: nat, now: int): Job {
    Job(x.run, x.domain, p, x.nonce, Queued, now + c.probeJobTtl, None, 0)
  }

  function Inserted(c: Config, jobs: map<nat, Job>, p: nat, picks: seq<Pick>, now: int): map<nat, Job> {
    if picks == [] then jobs
    else
      var x := picks[|picks| - 1];
      Inserted(c, jobs, p, picks[..|picks| - 1], now)[x.job := NewJob(c, x, p, now)]
  }

  /** The housekeeping that opens every dispatch. */
  function Swept(c: Config, s: State, now: int): State {
    s.(nodes := map p | p in s.nodes :: Staled(c, s.nodes[p], now),
       jobs := map j | j in s.jobs :: Lapsed(s.jobs[j], now))
  }

  function AfterDispatch(c: Config, s: State, now: int, selected: nat, picks: seq<Pick>): State {
    var low := Swept(c, s, now);
    if selected !in low.nodes || !Eligible(c, low.nodes[selected], now) then low
    else if !PicksOk(c, low.jobs, selected, picks) then s
    else low.(jobs := Inserted(c, low.jobs, selected, picks, now))
  }

  /** Before a claim, the probe's lapsed leases are requeued while attempts remain, then overdue jobs expire. */
  function Refreshed(j: Job, probe: nat, now: int): Job {
    if j.probe != probe then j
    else if j.status.Leased? && j.leaseUntil.Some? && j.leaseUntil.value <= now
            && j.expiresAt > now && j.attempts < MAX_ATTEMPTS
    then j.(status := Queued, leaseUntil := None)
    else Lapsed(j, now)
  }

  /** Without a claimable job the transaction is rolled back, requeues included. */
  function AfterClaim(c: Config, s: State, now: int, probe: nat, principalStatus: NodeStatus, job: nat): State {
    var jobs := map j | j in s.jobs :: Refreshed(s.jobs[j], probe, now);
    if !principalStatus.Online? || job !in jobs || jobs[job].probe != probe
       || !jobs[job].status.Queued? || jobs[job].expiresAt <= now then s
    else s.(jobs := jobs[job := jobs[job].(
      status := Leased, leaseUntil := Some(Min(now + c.probeJobLease, jobs[job].expiresAt)),
      attempts := jobs[job].attempts + 1)])
  }

  datatype Outcome = Accepted | NotFound | Replay | Forbidden | Overdue | TooLarge | Unsigned | ClockSkew

  function Judgement(jobs: map<nat, Job>, now: int, probe: nat, job: nat, screening: Screening, run: nat,
                     nonce: nat): Outcome {
    match screening
    case Oversized => TooLarge
    case BadSignature => Unsigned
    case WrongIdentity => Forbidden
    case Skewed => ClockSkew
    case Passed =>
      if job !in jobs then NotFound
      else
        var j := jobs[job];
        if j.status.Completed? then Replay
        else if !j.status.Leased? || j.probe != probe || j.run != run || j.nonce != nonce then Forbidden
        else if j.expiresAt <= now || j.leaseUntil.None? || j.leaseUntil.value <= now then Overdue
        else Accepted
  }

  function AfterSubmit(s: State, now: int, a: Action): State
    requires a.Submit?
  {
    if !Judgement(s.jobs, now, a.probe, a.job, a.screening, a.run, a.nonce).Accepted? || a.isp !in ISP_STATUSES then s
    else
      var j := s.jobs[a.job];
      s.(jobs := s.jobs[a.job := j.(status := Completed, leaseUntil := None)],
         results := s.results
             + [Result(a.job, a.probe, a.nonce, now, j.leaseUntil.value, j.run, j.domain, a.isp, a.confidence)])
  }

  function Next(c: Config, s: State, now: int, a: Action): State {
    match a
    case Register(p, region) => if p in s.nodes then s else s.(nodes := s.nodes[p := Node(region, Offline, None, None)])
    case Heartbeat(p, status) => s.(nodes := NodesAfterHeartbeat(s.nodes, p, status, now))
    case Revoke(p) => AfterRevoke(s, p, now)
    case Dispatch(selected, picks) => AfterDispatch(c, s, now, selected, picks)
    case Claim(p, status, job) => AfterClaim(c, s, now, p, status, job)
    case Submit(_, _, _, _, _, _, _) => AfterSubmit(s, now, a)
  }

  // ---- Invariants ------------------------------------------------------------------

  ghost predicate NodesOk(nodes: map<nat, Node>) {
    forall p :: p in nodes ==> (nodes[p].status.Revoked? <==> nodes[p].revokedAt.Some?)
  }

  ghost predicate JobOk(nodes: map<nat, Node>, j: Job) {
    && j.attempts <= MAX_ATTEMPTS
    && (j.status.Queued? ==> j.attempts < MAX_ATTEMPTS)
    && (j.status.Leased? ==> j.leaseUntil.Some? && j.leaseUntil.value <= j.expiresAt)
    && j.probe in nodes
    && (j.Open() ==> nodes[j.probe].revokedAt.None?)
  }

  ghost predicate JobsOk(nodes: map<nat, Node>, jobs: map<nat, Job>) {
    && (forall j :: j in jobs ==> JobOk(nodes, jobs[j]))
    && (forall i, j :: i in jobs && j in jobs && jobs[i].nonce == jobs[j].nonce ==> i == j)
    && (forall i, j ::
          i in jobs && j in jobs && jobs[i].run == jobs[j].run && jobs[i].probe == jobs[j].probe ==> i == j)
  }

  ghost predicate ResultOk(jobs: map<nat, Job>, x: Result) {
    && x.job in jobs && jobs[x.job].status.Completed?
    && x.probe == jobs[x.job].probe && x.nonce == jobs[x.job].nonce
    && x.run == jobs[x.job].run && x.domain == jobs[x.job].domain
    && x.at < x.leaseUntil <= jobs[x.job].expiresAt
    && x.isp in ISP_STATUSES
  }

  ghost predicate HasResult(results: seq<Result>, j: nat) {
    exists i :: 0 <= i < |results| && results[i].job == j
  }

  ghost predicate ResultsOk(jobs: map<nat, Job>, results: seq<Result>) {
    && (forall i :: 0 <= i < |results| ==> ResultOk(jobs, results[i]))
    && (forall i, j :: 0 <= i < j < |results| ==> results[i].job != results[j].job)
    && (forall j :: j in jobs && jobs[j].status.Completed? ==> HasResult(results, j))
  }

  ghost predicate Inv(s: State) {
    NodesOk(s.nodes) && JobsOk(s.nodes, s.jobs) && ResultsOk(s.jobs, s.results)
  }

  ghost predicate NodesEvolve(nodes: map<nat, Node>, nodes': map<nat, Node>) {
    forall p :: p in nodes ==> p in nodes' && (nodes[p].revokedAt.Some? ==> nodes'[p] == nodes[p])
  }

  ghost predicate JobEvolves(j: Job, j': Job) {
    && j'.run == j.run && j'.domain == j.domain && j'.probe == j.probe && j'.nonce == j.nonce
    && j'.expiresAt == j.expiresAt
    && j'.attempts >= j.attempts
    && (!j.Open() ==> j' == j)
  }

  ghost predicate JobsEvolve(jobs: map<nat, Job>, jobs': map<nat, Job>) {
    forall j :: j in jobs ==> j in jobs' && JobEvolves(jobs[j], jobs'[j])
  }

  /** Results are only appended, and none comes from a probe that was revoked before. */
  ghost predicate ResultsEvolve(nodes: map<nat, Node>, results: seq<Result>, results': seq<Result>) {
    && results <= results'
    && forall i :: |results| <= i < |results'| ==>
         (results'[i].probe in nodes ==> nodes[results'[i].probe].revokedAt.None?)
  }

  ghost predicate Step(s: State, s': State) {
    && Inv(s') && NodesEvolve(s.nodes, s'.nodes) && JobsEvolve(s.jobs, s'.jobs)
    && ResultsEvolve(s.nodes, s.results, s'.results)
  }

  // ---- What every action keeps -----------------------------------------------------

  lemma {:induction false} ResultsFrame(jobs: map<nat, Job>, jobs': map<nat, Job>, results: seq<Result>)
    requires ResultsOk(jobs, results) && JobsEvolve(jobs, jobs')
    requires forall j :: j in jobs' && jobs'[j].status.Completed? ==> j in jobs && jobs[j].status.Completed?
    ensures ResultsOk(jobs', results)
  {
    forall i | 0 <= i < |results| ensures ResultOk(jobs', results[i]) {
      assert ResultOk(jobs, results[i]);
    }
  }

  /** Rows change in place: the keys that make jobs unique do not. */
  lemma {:induction false} JobRowsKept(nodes: map<nat, Node>, nodes': map<nat, Node>, jobs: map<nat, Job>,
                                       jobs': map<nat, Job>)
    requires JobsOk(nodes, jobs) && jobs'.Keys == jobs.Keys && JobsEvolve(jobs, jobs')
    requires forall j :: j in jobs' ==> JobOk(nodes', jobs'[j])
    ensures JobsOk(nodes', jobs')
  {
  }

  lemma {:induction false} NodesKept(s: State, nodes: map<nat, Node>)
    requires Inv(s) && NodesOk(nodes) && NodesEvolve(s.nodes, nodes)
    requires forall p :: p in s.nodes && s.nodes[p].revokedAt.None? ==> nodes[p].revokedAt.None?
    ensures Step(s, s.(nodes := nodes))
  {
    assert JobsOk(nodes, s.jobs) by {
      forall j | j in s.jobs ensures JobOk(nodes, s.jobs[j]) {
        assert JobOk(s.nodes, s.jobs[j]);
      }
    }
  }

  lemma {:induction false} RevokeKept(s: State, probe: nat, now: int)
    requires Inv(s) && probe in s.nodes && s.nodes[probe].revokedAt.None?
    ensures Step(s, AfterRevoke(s, probe, now))
  {
    var s' := AfterRevoke(s, probe, now);
    forall j | j in s.jobs ensures JobOk(s'.nodes, s'.jobs[j]) && JobEvolves(s.jobs[j], s'.jobs[j]) {
      assert JobOk(s.nodes, s.jobs[j]);
    }
    JobRowsKept(s.nodes, s'.nodes, s.jobs, s'.jobs);
    ResultsFrame(s.jobs, s'.jobs, s.results);
  }

  lemma {:induction false} JobsOnlyKept(s: State, jobs: map<nat, Job>)
    requires Inv(s) && JobsOk(s.nodes, jobs) && JobsEvolve(s.jobs, jobs)
    requires forall j :: j in jobs && jobs[j].status.Completed? ==> j in s.jobs && s.jobs[j].status.Completed?
    ensures Step(s, s.(jobs := jobs))
  {
    ResultsFrame(s.jobs, jobs, s.results);
  }

  lemma {:induction false} LapsedKept(s: State, now: int)
    requires Inv(s)
    ensures Step(s, s.(jobs := map j | j in s.jobs :: Lapsed(s.jobs[j], now)))
  {
    var jobs := map j | j in s.jobs :: Lapsed(s.jobs[j], now);
    forall j | j in jobs ensures JobOk(s.nodes, jobs[j]) && JobEvolves(s.jobs[j], jobs[j]) {
      assert JobOk(s.nodes, s.jobs[j]);
    }
    JobRowsKept(s.nodes, s.nodes, s.jobs, jobs);
    JobsOnlyKept(s, jobs);
  }

  lemma {:induction false} InsertOne(c: Config, nodes: map<nat, Node>, jobs: map<nat, Job>, p: nat, x: Pick, now: int)
    requires JobsOk(nodes, jobs) && p in nodes && nodes[p].revokedAt.None? && x.job !in jobs
    requires forall j :: j in jobs ==> jobs[j].nonce != x.nonce && !(jobs[j].run == x.run && jobs[j].probe == p)
    ensures JobsOk(nodes, jobs[x.job := NewJob(c, x, p, now)])
  {
    var jobs' := jobs[x.job := NewJob(c, x, p, now)];
    forall j | j in jobs' ensures JobOk(nodes, jobs'[j]) {
      assert j != x.job ==> JobOk(nodes, jobs[j]);
    }
  }

  ghost predicate Picked(c: Config, p: nat, picks: seq<Pick>, now: int, id: nat, j: Job) {
    exists i :: 0 <= i < |picks| && picks[i].job == id && j == NewJob(c, picks[i], p, now)
  }

  /** A dispatch adds the picked jobs and leaves the others alone. */
  ghost predicate Extends(c: Config, p: nat, picks: seq<Pick>, now: int, jobs: map<nat, Job>, jobs': map<nat, Job>) {
    && (forall j :: j in jobs ==> j in jobs' && jobs'[j] == jobs[j])
    && (forall j :: j in jobs' && j !in jobs ==> Picked(c, p, picks, now, j, jobs'[j]))
  }

  lemma {:induction false} PickedLater(c: Config, p: nat, picks: seq<Pick>, n: nat, now: int, id: nat, j: Job)
    requires n <= |picks| && Picked(c, p, picks[..n], now, id, j)
    ensures Picked(c, p, picks, now, id, j)
  {
    var i :| 0 <= i < n && picks[..n][i].job == id && j == NewJob(c, picks[..n][i], p, now);
    assert picks[i].job == id;
  }

  lemma {:induction false} InsertedExtends(c: Config, jobs: map<nat, Job>, p: nat, picks: seq<Pick>, now: int)
    requires forall i :: 0 <= i < |picks| ==> picks[i].job !in jobs
    ensures Extends(c, p, picks, now, jobs, Inserted(c, jobs, p, picks, now))
  {
    if picks != [] {
      var n := |picks| - 1;
      var mid, jobs' := Inserted(c, jobs, p, picks[..n], now), Inserted(c, jobs, p, picks, now);
      assert forall i :: 0 <= i < n ==> picks[..n][i] == picks[i];
      InsertedExtends(c, jobs, p, picks[..n], now);
      forall j | j in jobs' && j !in jobs ensures Picked(c, p, picks, now, j, jobs'[j]) {
        if j == picks[n].job {
          assert jobs'[j] == NewJob(c, picks[n], p, now);
        } else {
          PickedLater(c, p, picks, n, now, j, mid[j]);
        }
      }
    }
  }

  lemma {:induction false} PicksPrefix(c: Config, jobs: map<nat, Job>, p: nat, picks: seq<Pick>)
    requires PicksOk(c, jobs, p, picks) && picks != []
    ensures PicksOk(c, jobs, p, picks[..|picks| - 1])
  {
    var rest := picks[..|picks| - 1];
    assert forall i :: 0 <= i < |rest| ==> rest[i] == picks[i];
  }

  /** The next pick is still new when the earlier ones have been inserted. */
  lemma {:induction false} NextPickIsNew(c: Config, jobs: map<nat, Job>, mid: map<nat, Job>, p: nat, picks: seq<Pick>,
                                         now: int)
    requires PicksOk(c, jobs, p, picks) && picks != [] && Extends(c, p, picks[..|picks| - 1], now, jobs, mid)
    ensures var x := picks[|picks| - 1];
      && x.job !in mid
      && forall j :: j in mid ==> mid[j].nonce != x.nonce && !(mid[j].run == x.run && mid[j].probe == p)
  {
    var n := |picks| - 1;
    var x := picks[n];
    forall j | j in mid && j !in jobs
      ensures j != x.job && mid[j].nonce != x.nonce && !(mid[j].run == x.run && mid[j].probe == p)
    {
      assert Picked(c, p, picks[..n], now, j, mid[j]);
      var i :| 0 <= i < n && picks[..n][i].job == j && mid[j] == NewJob(c, picks[..n][i], p, now);
      assert picks[..n][i] == picks[i];
    }
  }

  lemma {:induction false} InsertedKept(c: Config, nodes: map<nat, Node>, jobs: map<nat, Job>, p: nat,
                                        picks: seq<Pick>, now: int)
    requires JobsOk(nodes, jobs) && p in nodes && nodes[p].revokedAt.None? && PicksOk(c, jobs, p, picks)
    ensures JobsOk(nodes, Inserted(c, jobs, p, picks, now))
  {
    if picks != [] {
      var rest := picks[..|picks| - 1];
      PicksPrefix(c, jobs, p, picks);
      InsertedKept(c, nodes, jobs, p, rest, now);
      InsertedExtends(c, jobs, p, rest, now);
      var mid := Inserted(c, jobs, p, rest, now);
      NextPickIsNew(c, jobs, mid, p, picks, now);
      InsertOne(c, nodes, mid, p, picks[|picks| - 1], now);
    }
  }

  lemma {:induction false} NewJobsAreQueued(c: Config, jobs: map<nat, Job>, p: nat, picks: seq<Pick>, now: int)
    ensures var jobs' := Inserted(c, jobs, p, picks, now);
      forall j :: j in jobs' ==> jobs'[j].status.Queued? || (j in jobs && jobs'[j] == jobs[j])
  {
    if picks != [] {
      NewJobsAreQueued(c, jobs, p, picks[..|picks| - 1], now);
    }
  }

  lemma {:induction false} StepThen(s: State, mid: State, s': State)
    requires Step(s, mid) && Step(mid, s')
    ensures Step(s, s')
  {
  }

  lemma {:induction false} SweepKept(c: Config, s: State, now: int)
    requires Inv(s)
    ensures Step(s, Swept(c, s, now))
  {
    var mid := s.(nodes := map p | p in s.nodes :: Staled(c, s.nodes[p], now));
    NodesKept(s, mid.nodes);
    LapsedKept(mid, now);
    StepThen(s, mid, Swept(c, s, now));
  }

  lemma {:induction false} InsertKept(c: Config, s: State, now: int, p: nat, picks: seq<Pick>)
    requires Inv(s) && p in s.nodes && s.nodes[p].revokedAt.None? && PicksOk(c, s.jobs, p, picks)
    ensures Step(s, s.(jobs := Inserted(c, s.jobs, p, picks, now)))
  {
    InsertedKept(c, s.nodes, s.jobs, p, picks, now);
    InsertedExtends(c, s.jobs, p, picks, now);
    NewJobsAreQueued(c, s.jobs, p, picks, now);
    JobsOnlyKept(s, Inserted(c, s.jobs, p, picks, now));
  }

  lemma {:induction false} DispatchKept(c: Config, s: State, now: int, selected: nat, picks: seq<Pick>)
    requires c.Valid() && Inv(s)
    ensures Step(s, AfterDispatch(c, s, now, selected, picks))
  {
    var low := Swept(c, s, now);
    SweepKept(c, s, now);
    if selected in low.nodes && Eligible(c, low.nodes[selected], now) {
      if PicksOk(c, low.jobs, selected, picks) {
        InsertKept(c, low, now, selected, picks);
        StepThen(s, low, low.(jobs := Inserted(c, low.jobs, selected, picks, now)));
      } else {
        Stutter(s);
      }
    }
  }

  lemma {:induction false} Stutter(s: State)
    requires Inv(s)
    ensures Step(s, s)
  {
  }

  lemma {:induction false} ClaimKept(c: Config, s: State, now: int, probe: nat, principalStatus: NodeStatus, job: nat)
    requires c.Valid() && Inv(s) && AfterClaim(c, s, now, probe, principalStatus, job) != s
    ensures Step(s, AfterClaim(c, s, now, probe, principalStatus, job))
  {
    var s' := AfterClaim(c, s, now, probe, principalStatus, job);
    forall j | j in s.jobs ensures JobOk(s.nodes, s'.jobs[j]) && JobEvolves(s.jobs[j], s'.jobs[j]) {
      assert JobOk(s.nodes, s.jobs[j]);
    }
    JobRowsKept(s.nodes, s.nodes, s.jobs, s'.jobs);
    JobsOnlyKept(s, s'.jobs);
  }

  lemma {:induction false} SubmitKept(s: State, now: int, a: Action)
    requires Inv(s) && a.Submit? && AfterSubmit(s, now, a) != s
    ensures Step(s, AfterSubmit(s, now, a))
  {
    var s', n := AfterSubmit(s, now, a), |s.results|;
    assert JobOk(s.nodes, s.jobs[a.job]);
    forall j | j in s.jobs ensures JobOk(s.nodes, s'.jobs[j]) && JobEvolves(s.jobs[j], s'.jobs[j]) {
      assert JobOk(s.nodes, s.jobs[j]);
    }
    JobRowsKept(s.nodes, s.nodes, s.jobs, s'.jobs);
    AcceptOnce(s.jobs, s'.jobs, s.results, s'.results[n]);
  }

  /** A result is accepted for a leased job, which therefore had none. */
  lemma {:induction false} AcceptOnce(jobs: map<nat, Job>, jobs': map<nat, Job>, results: seq<Result>, x: Result)
    requires ResultsOk(jobs, results) && x.job in jobs && jobs[x.job].status.Leased? && JobsEvolve(jobs, jobs')
    requires jobs' == jobs[x.job := jobs'[x.job]] && ResultOk(jobs', x)
    ensures ResultsOk(jobs', results + [x])
  {
    var next, n := results + [x], |results|;
    forall i | 0 <= i <= n ensures ResultOk(jobs', next[i]) && (i < n ==> next[i].job != x.job) {
      if i < n { assert ResultOk(jobs, results[i]); }
    }
    forall j | j in jobs' && jobs'[j].status.Completed? ensures HasResult(next, j) {
      if j == x.job {
        assert next[n].job == j;
      } else {
        var i :| 0 <= i < n && results[i].job == j;
        assert next[i].job == j;
      }
    }
  }

  lemma {:induction false} NextKept(c: Config, s: State, now: int, a: Action)
    requires c.Valid() && Inv(s)
    ensures Step(s, Next(c, s, now, a))
  {
    if Next(c, s, now, a) == s {
      Stutter(s);
    } else {
      match a
      case Register(p, region) => NodesKept(s, Next(c, s, now, a).nodes);
      case Heartbeat(p, status) => NodesKept(s, Next(c, s, now, a).nodes);
      case Revoke(p) => RevokeKept(s, p, now);
      case Dispatch(selected, picks) => DispatchKept(c, s, now, selected, picks);
      case Claim(p, status, job) => ClaimKept(c, s, now, p, status, job);
      case Submit(_, _, _, _, _, _, _) => SubmitKept(s, now, a);
    }
  }

  // ---- Theorems about every execution ----------------------------------------------

  /** Actions carry their own clock reading; nothing below needs the readings to be ordered. */
  datatype Timed = Timed(at: int, action: Action)

  function Exec(c: Config, s: State, actions: seq<Timed>): State {
    if actions == [] then s
    else Next(c, Exec(c, s, actions[..|actions| - 1]), actions[|actions| - 1].at, actions[|actions| - 1].action)
  }

  lemma {:induction false} ExecKept(c: Config, s: State, actions: seq<Timed>)
    requires c.Valid() && Inv(s)
    ensures Step(s, Exec(c, s, actions))
  {
    if actions == [] {
      Stutter(s);
    } else {
      var mid, a := Exec(c, s, actions[..|actions| - 1]), actions[|actions| - 1];
      ExecKept(c, s, actions[..|actions| - 1]);
      NextKept(c, mid, a.at, a.action);
      StepThen(s, mid, Exec(c, s, actions));
    }
  }

  /** A job accepts at most one result, from its own probe with its own nonce and inside a lease that
      never outlives the job; attempts stay within the limit; one job per run and probe. */
  lemma {:induction false} OneResultPerJob(c: Config, actions: seq<Timed>)
    requires c.Valid()
    ensures var s := Exec(c, EMPTY, actions);
      && (forall i, j :: 0 <= i < j < |s.results| ==> s.results[i].job != s.results[j].job)
      && (forall i :: 0 <= i < |s.results| ==> ResultOk(s.jobs, s.results[i]))
      && (forall j :: j in s.jobs && s.jobs[j].status.Completed? ==> HasResult(s.results, j))
      && (forall j :: j in s.jobs ==> s.jobs[j].attempts <= MAX_ATTEMPTS)
      && (forall j :: j in s.jobs && s.jobs[j].status.Queued? ==> s.jobs[j].attempts < MAX_ATTEMPTS)
      && (forall i, j ::
            i in s.jobs && j in s.jobs && s.jobs[i].run == s.jobs[j].run && s.jobs[i].probe == s.jobs[j].probe ==>
              i == j)
  {
    ExecKept(c, EMPTY, actions);
    var s := Exec(c, EMPTY, actions);
    assert forall j :: j in s.jobs ==> JobOk(s.nodes, s.jobs[j]);
  }

  /** Completed, expired and cancelled jobs never change again. */
  lemma {:induction false} ClosedJobsAbsorb(c: Config, actions: seq<Timed>, more: seq<Timed>, j: nat)
    requires c.Valid() && j in Exec(c, EMPTY, actions).jobs && !Exec(c, EMPTY, actions).jobs[j].Open()
    ensures var s, s' := Exec(c, EMPTY, actions), Exec(c, Exec(c, EMPTY, actions), more);
      j in s'.jobs && s'.jobs[j] == s.jobs[j]
  {
    ExecKept(c, EMPTY, actions);
    ExecKept(c, Exec(c, EMPTY, actions), more);
  }

  /** Revocation is final: whatever a previously authenticated principal still sends, the probe stays
      revoked, never has an open job again, and no later result is its own. */
  lemma {:induction false} RevocationIsFinal(c: Config, actions: seq<Timed>, more: seq<Timed>, p: nat)
    requires c.Valid() && p in Exec(c, EMPTY, actions).nodes && Exec(c, EMPTY, actions).nodes[p].status.Revoked?
    ensures var s, s' := Exec(c, EMPTY, actions), Exec(c, Exec(c, EMPTY, actions), more);
      && p in s'.nodes && s'.nodes[p].status.Revoked?
      && (forall j :: j in s'.jobs && s'.jobs[j].probe == p ==> !s'.jobs[j].Open())
      && (forall j :: j in s.jobs && s.jobs[j].probe == p ==> j in s'.jobs && s'.jobs[j] == s.jobs[j])
      && s.results <= s'.results
      && (forall i :: |s.results| <= i < |s'.results| ==> s'.results[i].probe != p)
  {
    ExecKept(c, EMPTY, actions);
    ExecKept(c, Exec(c, EMPTY, actions), more);
    var s, s' := Exec(c, EMPTY, actions), Exec(c, Exec(c, EMPTY, actions), more);
    assert forall j :: j in s.jobs ==> JobOk(s.nodes, s.jobs[j]);
    assert forall j :: j in s'.jobs ==> JobOk(s'.nodes, s'.jobs[j]);
  }
}
