/** The probe service's transactions, statement by statement (internal/probe), proved against the
    actions of the probe state machine. */
module ProbeStore {
  import opened Text
  import opened Hysteresis
  import opened Settings
  import opened Ledger
  import opened Probes
  import opened Selection

  predicate Leasable(j: Job, probe: nat, now: int) {
    j.probe == probe && j.status.Queued? && j.expiresAt > now
  }

  /** A completed run the dispatch may pick, with the identifiers drawn for its job. */
  datatype Candidate = Candidate(run: nat, job: nat, nonce: nat)

  // ---- What the housekeeping does ----------------------------------------------------

  /** Working nodes that have not been seen lately go offline, and nothing else happens to the nodes. */
  ghost predicate NodesSwept(c: Config, nodes: map<nat, Node>, nodes': map<nat, Node>, now: int) {
    && nodes'.Keys == nodes.Keys
    && forall p :: p in nodes ==>
         var n := nodes[p];
         var unseen := n.lastSeen == None || now - n.lastSeen.value > c.probeStaleAfter;
         var lost := n.status in {Online, Impaired} && unseen;
         nodes'[p] == Node(n.region, if lost then Offline else n.status, n.lastSeen, n.revokedAt)
  }

  /** Queued and leased jobs that are overdue expire, and nothing else happens to the jobs. */
  ghost predicate Expires(j: Job, j': Job, now: int) {
    if j.status in {JobStatus.Queued, Leased} && j.expiresAt <= now then j' == j.(status := Expired) else j' == j
  }

  ghost predicate JobsSwept(jobs: map<nat, Job>, jobs': map<nat, Job>, now: int) {
    jobs'.Keys == jobs.Keys && forall j :: j in jobs ==> Expires(jobs[j], jobs'[j], now)
  }

  /** Before a claim: the probe's jobs whose lease is over go back to the queue, unless they are overdue or out of
      attempts; its overdue jobs expire; the jobs of other probes are left alone. */
  ghost predicate Renews(j: Job, j': Job, probe: nat, now: int) {
    if j.probe == probe && j.status == Leased && j.leaseUntil.Some? && j.leaseUntil.value <= now && j.expiresAt > now
       && j.attempts < 20
    then j' == j.(status := JobStatus.Queued, leaseUntil := None)
    else if j.probe == probe then Expires(j, j', now) else j' == j
  }

  /** The probe may be given the job now: it is queued, or its lease is over with attempts left; and not overdue. */
  ghost predicate Offered(j: Job, probe: nat, now: int) {
    && j.probe == probe && j.expiresAt > now
    && (j.status == JobStatus.Queued
        || (j.status == Leased && j.leaseUntil.Some? && j.leaseUntil.value <= now && j.attempts < 20))
  }

  /** The node may be given jobs: of the required region, online, not revoked and seen lately. */
  ghost predicate Available(c: Config, n: Node, now: int) {
    && n.region == c.probeRegion && n.status == Online && n.revokedAt == None
    && n.lastSeen.Some? && now - n.lastSeen.value <= c.probeStaleAfter
  }

  /** No available node comes before `p`, which is available. */
  ghost predicate Leads(c: Config, nodes: map<nat, Node>, ranked: seq<nat>, p: nat, now: int) {
    exists i :: 0 <= i < |ranked| && ranked[i] == p && p in nodes && Available(c, nodes[p], now)
      && forall k :: 0 <= k < i ==> ranked[k] !in nodes || !Available(c, nodes[ranked[k]], now)
  }

  /** The job is the first in the query's order that the probe may be given. */
  ghost predicate Earliest(jobs: map<nat, Job>, visited: seq<nat>, probe: nat, now: int, id: nat) {
    exists i :: 0 <= i < |visited| && visited[i] == id && id in jobs && Offered(jobs[id], probe, now)
      && forall k :: 0 <= k < i ==> visited[k] !in jobs || !Offered(jobs[visited[k]], probe, now)
  }

  /** The job is leased, for one more attempt and never beyond its expiry; the others are only renewed. */
  ghost predicate JobGiven(c: Config, jobs: map<nat, Job>, jobs': map<nat, Job>, probe: nat, now: int, id: nat) {
    && jobs'.Keys == jobs.Keys && id in jobs
    && (forall j :: j in jobs && j != id ==> Renews(jobs[j], jobs'[j], probe, now))
    && var j, end := jobs[id], Min(now + c.probeJobLease, jobs[id].expiresAt);
       jobs'[id] == Job(j.run, j.domain, j.probe, j.nonce, Leased, j.expiresAt, Some(end), j.attempts + 1)
  }

  lemma RefreshRenews(j: Job, probe: nat, now: int)
    ensures Renews(j, Refreshed(j, probe, now), probe, now)
    ensures Leasable(Refreshed(j, probe, now), probe, now) <==> Offered(j, probe, now)
  {
  }

  /** The submission is for a leased job of this probe, with the job's own run and nonce. */
  ghost predicate Addressed(j: Job, probe: nat, run: nat, nonce: nat) {
    j.status == Leased && j.probe == probe && j.run == run && j.nonce == nonce
  }

  /** Both the job and its lease are still running. */
  ghost predicate InTime(j: Job, now: int) {
    now < j.expiresAt && j.leaseUntil.Some? && now < j.leaseUntil.value
  }

  /** Exactly what a submission needs to be accepted. */
  ghost predicate Acceptable(jobs: map<nat, Job>, now: int, probe: nat, job: nat, screening: Screening, run: nat,
                             nonce: nat) {
    screening == Passed && job in jobs && Addressed(jobs[job], probe, run, nonce) && InTime(jobs[job], now)
  }

  lemma GivenAfter(c: Config, jobs: map<nat, Job>, renewed: map<nat, Job>, jobs': map<nat, Job>, probe: nat, now: int,
                   id: nat)
    requires id in jobs && renewed == map j | j in jobs :: Refreshed(jobs[j], probe, now)
    requires jobs' == renewed[id := renewed[id].(
               status := Leased, leaseUntil := Some(Min(now + c.probeJobLease, renewed[id].expiresAt)),
               attempts := renewed[id].attempts + 1)]
    ensures JobGiven(c, jobs, jobs', probe, now, id)
  {
    forall j | j in jobs && j != id ensures Renews(jobs[j], jobs'[j], probe, now) {
      RefreshRenews(jobs[j], probe, now);
    }
  }

  // ---- Which runs are dispatched ------------------------------------------------------

  function RunsOf(visited: seq<Candidate>): (rs: seq<nat>)
    ensures |rs| == |visited| && forall i :: 0 <= i < |visited| ==> rs[i] == visited[i].run
  {
    seq(|visited|, i requires 0 <= i < |visited| => visited[i].run)
  }

  function PickedRuns(picks: seq<Pick>): (rs: seq<nat>)
    ensures |rs| == |picks| && forall i :: 0 <= i < |picks| ==> rs[i] == picks[i].run
  {
    seq(|picks|, i requires 0 <= i < |picks| => picks[i].run)
  }

  predicate Listed(picks: seq<Pick>, run: nat) {
    exists i :: 0 <= i < |picks| && picks[i].run == run
  }

  /** The picks are those of the runs taken, in order. */
  ghost predicate Follows(picks: seq<Pick>, taken: seq<nat>) {
    |taken| == |picks| && forall i :: 0 <= i < |picks| ==> picks[i].run == taken[i]
  }

  lemma FollowsAll(picks: seq<Pick>, taken: seq<nat>)
    requires Follows(picks, taken)
    ensures PickedRuns(picks) == taken
  {
  }

  lemma PickNext(rs: seq<nat>, wanted: set<nat>, taken: seq<nat>, picks: seq<Pick>, limit: nat, k: nat)
    requires k < |rs| && FirstOf(rs[..k], wanted, taken, limit) && Follows(picks, taken)
    ensures var fits := rs[k] in wanted && !Listed(picks, rs[k]) && |picks| < limit;
      FirstOf(rs[..k + 1], wanted, if fits then taken + [rs[k]] else taken, limit)
  {
    FirstOfNext(rs, wanted, taken, limit, k);
    if rs[k] in taken {
      var i :| 0 <= i < |taken| && taken[i] == rs[k];
      assert picks[i].run == rs[k];
    }
  }

  lemma InUnprobed(jobs: map<nat, Job>, p: nat, recent: map<nat, nat>, run: nat)
    ensures run in UnprobedRuns(jobs, p, recent) <==> run in recent && !HasJob(jobs, run, p)
  {
  }

  predicate HasJob(jobs: map<nat, Job>, run: nat, p: nat) {
    exists j :: j in jobs && jobs[j].run == run && jobs[j].probe == p
  }

  /** Runs with a fresh local result and no job for this probe. */
  ghost function UnprobedRuns(jobs: map<nat, Job>, p: nat, recent: map<nat, nat>): set<nat> {
    set r | r in recent && !HasJob(jobs, r, p)
  }

  /** Every pick is a candidate with the domain of its run. */
  ghost predicate Drawn(picks: seq<Pick>, visited: seq<Candidate>, recent: map<nat, nat>) {
    forall i :: 0 <= i < |picks| ==>
      && picks[i].run in recent && picks[i].domain == recent[picks[i].run]
      && Candidate(picks[i].run, picks[i].job, picks[i].nonce) in visited
  }

  lemma DrawnNext(picks: seq<Pick>, visited: seq<Candidate>, recent: map<nat, nat>, k: nat)
    requires k < |visited| && Drawn(picks, visited, recent) && visited[k].run in recent
    ensures var x := visited[k]; Drawn(picks + [Pick(x.run, recent[x.run], x.job, x.nonce)], visited, recent)
  {
    var x := visited[k];
    assert Candidate(x.run, x.job, x.nonce) == visited[k];
  }

  /** The drawn identifiers and nonces are unused and distinct. */
  ghost predicate Unused(jobs: map<nat, Job>, picks: seq<Pick>) {
    && (forall i :: 0 <= i < |picks| ==> picks[i].job !in jobs)
    && (forall i, j :: 0 <= i < |picks| && j in jobs ==> jobs[j].nonce != picks[i].nonce)
    && (forall i, j :: 0 <= i < j < |picks| ==> picks[i].job != picks[j].job && picks[i].nonce != picks[j].nonce)
  }

  /** The identifier or the nonce is in use. */
  predicate Collides(jobs: map<nat, Job>, x: Pick) {
    x.job in jobs || exists j :: j in jobs && jobs[j].nonce == x.nonce
  }

  /** One queued job for probe `p` per pick, beside the jobs there were. */
  ghost predicate JobsAdded(c: Config, jobs: map<nat, Job>, jobs': map<nat, Job>, p: nat, picks: seq<Pick>, now: int) {
    && (forall j :: j in jobs ==> j in jobs' && jobs'[j] == jobs[j])
    && (forall i :: 0 <= i < |picks| ==>
          && picks[i].job in jobs'
          && jobs'[picks[i].job] ==
               Job(picks[i].run, picks[i].domain, p, picks[i].nonce, JobStatus.Queued, now + c.probeJobTtl, None, 0))
    && (forall j :: j in jobs' ==> j in jobs || exists i :: 0 <= i < |picks| && picks[i].job == j)
  }

  lemma {:induction false} InsertedAdds(c: Config, jobs: map<nat, Job>, p: nat, picks: seq<Pick>, now: int)
    requires Unused(jobs, picks)
    ensures JobsAdded(c, jobs, Inserted(c, jobs, p, picks, now), p, picks, now)
  {
    if picks != [] {
      var n := |picks| - 1;
      var rest, x := picks[..n], picks[n];
      UnusedPrefix(jobs, picks, n);
      InsertedAdds(c, jobs, p, rest, now);
      assert forall i :: 0 <= i < n ==> rest[i] == picks[i];
      AddOne(c, jobs, Inserted(c, jobs, p, rest, now), p, rest, x, now);
      assert rest + [x] == picks;
    }
  }

  lemma AddOne(c: Config, jobs: map<nat, Job>, mid: map<nat, Job>, p: nat, rest: seq<Pick>, x: Pick, now: int)
    requires JobsAdded(c, jobs, mid, p, rest, now) && x.job !in jobs
    requires forall i :: 0 <= i < |rest| ==> rest[i].job != x.job
    ensures JobsAdded(c, jobs, mid[x.job := NewJob(c, x, p, now)], p, rest + [x], now)
  {
    var more, jobs' := rest + [x], mid[x.job := NewJob(c, x, p, now)];
    forall j | j in jobs' ensures j in jobs || exists i :: 0 <= i < |more| && more[i].job == j {
      if j == x.job {
        assert more[|rest|].job == j;
      } else if j !in jobs {
        var i :| 0 <= i < |rest| && rest[i].job == j;
        assert more[i].job == j;
      }
    }
  }

  /** The next insert collides exactly when its identifier or nonce is used by then. */
  lemma UnusedNext(c: Config, jobs: map<nat, Job>, jobs': map<nat, Job>, p: nat, picks: seq<Pick>, n: nat, now: int)
    requires n < |picks| && Unused(jobs, picks[..n]) && JobsAdded(c, jobs, jobs', p, picks[..n], now)
    ensures Unused(jobs, picks[..n + 1]) <==> !Collides(jobs', picks[n])
  {
    var rest, more, x := picks[..n], picks[..n + 1], picks[n];
    assert more == rest + [x];
    if Unused(jobs, more) {
      assert more[n] == x;
      forall j | j in jobs' ensures j != x.job && jobs'[j].nonce != x.nonce {
        if j !in jobs {
          var i :| 0 <= i < |rest| && rest[i].job == j;
          assert more[i] == rest[i];
        }
      }
    } else if !Collides(jobs', x) {
      forall i | 0 <= i < n ensures rest[i].job != x.job && rest[i].nonce != x.nonce {
        assert rest[i].job in jobs';
      }
      assert Unused(jobs, more);
    }
  }

  lemma UnusedPrefix(jobs: map<nat, Job>, picks: seq<Pick>, n: nat)
    requires n <= |picks| && Unused(jobs, picks)
    ensures Unused(jobs, picks[..n])
  {
  }

  lemma PicksFit(c: Config, jobs: map<nat, Job>, p: nat, visited: seq<Candidate>, recent: map<nat, nat>,
                 picks: seq<Pick>)
    requires c.Valid()
    requires FirstOf(RunsOf(visited), UnprobedRuns(jobs, p, recent), PickedRuns(picks), c.probeBatch)
    ensures PicksOk(c, jobs, p, picks) <==> Unused(jobs, picks)
  {
    FirstOfMembers(RunsOf(visited), UnprobedRuns(jobs, p, recent), PickedRuns(picks), c.probeBatch);
    forall i, j | 0 <= i < |picks| && j in jobs ensures !(jobs[j].run == picks[i].run && jobs[j].probe == p) {
      assert PickedRuns(picks)[i] in UnprobedRuns(jobs, p, recent);
    }
    forall i, j | 0 <= i < j < |picks| ensures picks[i].run != picks[j].run {
      assert PickedRuns(picks)[i] != PickedRuns(picks)[j];
    }
  }

  /** The picks are the first runs without a job for the probe, with their domains; either each of them has its job, or
      an identifier was in use. */
  ghost predicate Dispatched(c: Config, swept: State, after: State, now: int, p: nat, visited: seq<Candidate>,
                             recent: map<nat, nat>, picks: seq<Pick>, ok: bool)
    requires c.Valid()
  {
    && FirstOf(RunsOf(visited), UnprobedRuns(swept.jobs, p, recent), PickedRuns(picks), c.probeBatch)
    && Drawn(picks, visited, recent) && (ok <==> Unused(swept.jobs, picks))
    && (ok ==> after.nodes == swept.nodes && JobsAdded(c, swept.jobs, after.jobs, p, picks, now))
  }

  class Service {
    var now: int
    var nodes: map<nat, Node>
    var jobs: map<nat, Job>
    var results: seq<Result>
    var domains: map<nat, DomainState>

    constructor ()
      ensures View() == EMPTY && domains == map[]
    {
      now, nodes, jobs, results, domains := 0, map[], map[], [], map[];
    }

    ghost function View(): State
      reads this
    {
      State(nodes, jobs, results)
    }

    /** `Heartbeat`: the reported status follows the agent's protocol version and clock offset. */
    method HeartbeatOf(c: Config, probe: nat, sameVersion: bool, skewed: bool) returns (status: NodeStatus, ok: bool)
      modifies this`nodes
      ensures View() == Next(c, old(View()), now, Heartbeat(probe, status))
      ensures status == if !sameVersion then UpgradeRequired else if skewed then Impaired else Online
      ensures ok <==> probe in old(nodes) && old(nodes)[probe].revokedAt.None?
      ensures ok ==> nodes == old(nodes)[probe := Node(old(nodes)[probe].region, status, Some(now), None)]
      ensures !ok ==> nodes == old(nodes)
    {
      status := Online;
      if !sameVersion {
        status := UpgradeRequired;
      } else if skewed {
        status := Impaired;
      }
      if probe !in nodes || nodes[probe].revokedAt != None { return status, false; }
      nodes := nodes[probe := nodes[probe].(status := status, lastSeen := Some(now))];
      ok := true;
    }

    /** The node goes first, then its open jobs. */
    method RevokeNode(c: Config, probe: nat) returns (ok: bool)
      modifies this`nodes, this`jobs
      ensures View() == Next(c, old(View()), now, Revoke(probe))
      ensures ok <==> probe in old(nodes) && old(nodes)[probe].revokedAt.None?
      ensures ok ==>
                var n := old(nodes)[probe];
                nodes == old(nodes)[probe := Node(n.region, Revoked, n.lastSeen, Some(now))]
      ensures ok ==>
                && jobs.Keys == old(jobs).Keys
                && forall j :: j in jobs ==>
                     if old(jobs)[j].probe == probe && old(jobs)[j].status in {JobStatus.Queued, Leased}
                     then jobs[j] == old(jobs)[j].(status := Cancelled) else jobs[j] == old(jobs)[j]
    {
      if probe !in nodes || nodes[probe].revokedAt != None { return false; }
      nodes := nodes[probe := nodes[probe].(status := Revoked, revokedAt := Some(now))];
      jobs := map j | j in jobs ::
        if jobs[j].probe == probe && (jobs[j].status == Queued || jobs[j].status == Leased)
          then jobs[j].(status := Cancelled) else jobs[j];
      return true;
    }

    /** Nodes not seen recently go offline. */
    method SweepNodes(c: Config)
      modifies this`nodes
      ensures nodes == map p | p in old(nodes) :: Staled(c, old(nodes)[p], now)
      ensures NodesSwept(c, old(nodes), nodes, now)
    {
      nodes := map p | p in nodes ::
        if (nodes[p].status == Online || nodes[p].status == Impaired)
           && (nodes[p].lastSeen == None || nodes[p].lastSeen.value < now - c.probeStaleAfter)
        then nodes[p].(status := Offline) else nodes[p];
    }

    /** Overdue jobs expire. */
    method SweepJobs()
      modifies this`jobs
      ensures jobs == map j | j in old(jobs) :: Lapsed(old(jobs)[j], now)
      ensures JobsSwept(old(jobs), jobs, now)
    {
      jobs := map j | j in jobs ::
        if (jobs[j].status == Queued || jobs[j].status == Leased) && jobs[j].expiresAt <= now
          then jobs[j].(status := Expired) else jobs[j];
    }

    method Sweep(c: Config)
      modifies this`nodes, this`jobs
      ensures View() == Swept(c, old(View()), now)
      ensures NodesSwept(c, old(nodes), nodes, now) && JobsSwept(old(jobs), jobs, now)
    {
      SweepNodes(c);
      SweepJobs();
    }

    /** The first available node in the query's order. */
    method SelectProbe(c: Config, ranked: seq<nat>) returns (selected: Option<nat>)
      requires forall p :: p in nodes ==> p in ranked
      ensures selected.Some? ==> selected.value in nodes && Eligible(c, nodes[selected.value], now)
      ensures selected.None? <==> forall p :: p in nodes ==> !Available(c, nodes[p], now)
      ensures selected.Some? ==> Leads(c, nodes, ranked, selected.value, now)
    {
      for i := 0 to |ranked|
        invariant forall k :: 0 <= k < i ==> ranked[k] !in nodes || !Available(c, nodes[ranked[k]], now)
      {
        var p := ranked[i];
        if p in nodes && nodes[p].region == c.probeRegion && nodes[p].status == Online && nodes[p].revokedAt == None
           && nodes[p].lastSeen.Some? && nodes[p].lastSeen.value >= now - c.probeStaleAfter {
          return Some(p);
        }
      }
      return None;
    }

    /** One insert per pick; an identifier or a nonce that is in use fails it. */
    method InsertJobs(c: Config, p: nat, picks: seq<Pick>) returns (ok: bool)
      modifies this`jobs
      ensures ok <==> Unused(old(jobs), picks)
      ensures ok ==> jobs == Inserted(c, old(jobs), p, picks, now) && JobsAdded(c, old(jobs), jobs, p, picks, now)
    {
      ghost var before := jobs;
      for k := 0 to |picks|
        invariant Unused(before, picks[..k]) && jobs == Inserted(c, before, p, picks[..k], now)
      {
        assert picks[..k + 1][..k] == picks[..k];
        InsertedAdds(c, before, p, picks[..k], now);
        UnusedNext(c, before, jobs, p, picks, k, now);
        if Collides(jobs, picks[k]) {
          if Unused(before, picks) { UnusedPrefix(before, picks, k + 1); }
          return false;
        }
        jobs := jobs[picks[k].job := Job(picks[k].run, picks[k].domain, p, picks[k].nonce, Queued, now + c.probeJobTtl,
                                         None, 0)];
      }
      assert picks[..|picks|] == picks;
      InsertedAdds(c, before, p, picks, now);
      ok := true;
    }

    /** One row of the query: taken if it passes the filter and the limit is not reached. */
    method Consider(c: Config, p: nat, visited: seq<Candidate>, k: nat, recent: map<nat, nat>, picks: seq<Pick>,
                    ghost taken: seq<nat>)
        returns (r: seq<Pick>, ghost taken': seq<nat>)
      requires c.Valid() && k < |visited| && Follows(picks, taken) && Drawn(picks, visited, recent)
      requires FirstOf(RunsOf(visited)[..k], UnprobedRuns(jobs, p, recent), taken, c.probeBatch)
      ensures Follows(r, taken') && Drawn(r, visited, recent)
      ensures FirstOf(RunsOf(visited)[..k + 1], UnprobedRuns(jobs, p, recent), taken', c.probeBatch)
    {
      var x := visited[k];
      PickNext(RunsOf(visited), UnprobedRuns(jobs, p, recent), taken, picks, c.probeBatch, k);
      InUnprobed(jobs, p, recent, x.run);
      r, taken' := picks, taken;
      if |picks| < c.probeBatch && x.run in recent && !HasJob(jobs, x.run, p) && !Listed(picks, x.run) {
        DrawnNext(picks, visited, recent, k);
        r := picks + [Pick(x.run, recent[x.run], x.job, x.nonce)];
        taken' := taken + [x.run];
      }
    }

    /** Runs with a fresh local result and no job for this probe, the first ones in the query's order. */
    method SelectRuns(c: Config, p: nat, visited: seq<Candidate>, recent: map<nat, nat>) returns (picks: seq<Pick>)
      requires c.Valid()
      ensures FirstOf(RunsOf(visited), UnprobedRuns(jobs, p, recent), PickedRuns(picks), c.probeBatch)
      ensures Drawn(picks, visited, recent)
    {
      picks := [];
      ghost var taken := [];
      FirstOfNone(RunsOf(visited), UnprobedRuns(jobs, p, recent), c.probeBatch);
      for k := 0 to |visited|
        invariant Follows(picks, taken) && Drawn(picks, visited, recent)
        invariant FirstOf(RunsOf(visited)[..k], UnprobedRuns(jobs, p, recent), taken, c.probeBatch)
      {
        picks, taken := Consider(c, p, visited, k, recent, picks, taken);
      }
      FollowsAll(picks, taken);
      assert RunsOf(visited)[..|visited|] == RunsOf(visited);
    }

    /** `DispatchPending`. `ranked` is the node table in the query's order, `visited` the unlocked runs in
        theirs with the identifiers drawn for them, `recent` the runs with a fresh local result and their
        domains. A colliding identifier fails an insert and rolls the transaction back. */
    method DispatchPending(c: Config, ranked: seq<nat>, visited: seq<Candidate>, recent: map<nat, nat>)
        returns (selected: Option<nat>, picks: seq<Pick>, ok: bool, ghost swept: State)
      requires c.Valid() && forall p :: p in nodes ==> p in ranked
      modifies this`nodes, this`jobs
      ensures selected.Some? ==> View() == Next(c, old(View()), now, Dispatch(selected.value, picks))
      ensures selected.None? ==> ok && View() == swept && picks == []
      ensures swept == Swept(c, old(View()), now)
      ensures NodesSwept(c, old(nodes), swept.nodes, now) && JobsSwept(old(jobs), swept.jobs, now)
      ensures selected.None? <==> forall p :: p in swept.nodes ==> !Available(c, swept.nodes[p], now)
      ensures selected.Some? ==> Leads(c, swept.nodes, ranked, selected.value, now)
      ensures selected.Some? ==> Dispatched(c, swept, View(), now, selected.value, visited, recent, picks, ok)
      ensures !ok ==> View() == old(View())
    {
      var savedNodes, savedJobs := nodes, jobs;
      Sweep(c);
      swept := View();
      picks, ok := [], true;
      selected := SelectProbe(c, ranked);
      if selected.Some? {
        picks := SelectRuns(c, selected.value, visited, recent);
        PicksFit(c, jobs, selected.value, visited, recent, picks);
        ok := InsertJobs(c, selected.value, picks);
        if !ok {
          nodes, jobs := savedNodes, savedJobs;
        }
      }
    }

    /** Requeue the probe's lapsed leases, then expire its overdue jobs. */
    method Refresh(probe: nat)
      modifies this`jobs
      ensures jobs == map j | j in old(jobs) :: Refreshed(old(jobs)[j], probe, now)
    {
      jobs := map j | j in jobs ::
        if jobs[j].probe == probe && jobs[j].status == Leased
           && jobs[j].leaseUntil.Some? && jobs[j].leaseUntil.value <= now
           && jobs[j].expiresAt > now && jobs[j].attempts < MAX_ATTEMPTS
        then jobs[j].(status := Queued, leaseUntil := None) else jobs[j];
      jobs := map j | j in jobs ::
        if jobs[j].probe == probe && (jobs[j].status == Queued || jobs[j].status == Leased) && jobs[j].expiresAt <= now
        then jobs[j].(status := Expired) else jobs[j];
    }

    /** `Claim`: when nothing can be leased the transaction is abandoned. `visited` lists the unlocked jobs
        in the query's order. */
    method ClaimJob(c: Config, probe: nat, principalStatus: NodeStatus, visited: seq<nat>) returns (job: Option<nat>)
      modifies this`jobs
      ensures job.Some? ==> View() == Next(c, old(View()), now, Claim(probe, principalStatus, job.value))
      ensures job.Some? ==>
                && principalStatus.Online? && job.value in jobs
                && jobs[job.value].status.Leased? && jobs[job.value].probe == probe
      ensures job.None? ==> View() == old(View())
      ensures job.Some? <==>
                && principalStatus == Online
                && exists v :: v in visited && v in old(jobs) && Offered(old(jobs)[v], probe, now)
      ensures job.Some? ==> Earliest(old(jobs), visited, probe, now, job.value)
      ensures job.Some? ==> JobGiven(c, old(jobs), jobs, probe, now, job.value)
    {
      if principalStatus != Online { return None; }
      var saved := jobs;
      Refresh(probe);
      ghost var renewed := jobs;
      for i := 0 to |visited|
        invariant jobs == renewed
        invariant forall k :: 0 <= k < i && visited[k] in saved ==> !Offered(saved[visited[k]], probe, now)
      {
        if visited[i] in jobs { RefreshRenews(saved[visited[i]], probe, now); }
        if visited[i] in jobs && jobs[visited[i]].probe == probe && jobs[visited[i]].status == Queued
           && jobs[visited[i]].expiresAt > now {
          var id := visited[i];
          var leaseUntil := now + c.probeJobLease;
          if leaseUntil > jobs[id].expiresAt { leaseUntil := jobs[id].expiresAt; }
          jobs := jobs[id := jobs[id].(status := Leased, leaseUntil := Some(leaseUntil),
                                       attempts := jobs[id].attempts + 1)];
          GivenAfter(c, saved, renewed, jobs, probe, now, id);
          return Some(id);
        }
      }
      jobs := saved;
      return None;
    }

    /** `SubmitResult`: the checks, then the ISP status of the domain and its history, then the job. */
    method SubmitResult(c: Config, probe: nat, job: nat, screening: Screening, run: nat, nonce: nat, isp: string,
                        confidence: int)
        returns (outcome: Outcome)
      requires isp in ISP_STATUSES && forall j :: j in jobs ==> jobs[j].domain in domains
      modifies this`jobs, this`results, this`domains
      ensures outcome == Judgement(old(jobs), now, probe, job, screening, run, nonce)
      ensures View() == Next(c, old(View()), now, Submit(probe, job, screening, run, nonce, isp, confidence))
      ensures outcome.Accepted? ==>
                var d := old(jobs)[job].domain;
                domains == old(domains)[d := Commit(c.policy, old(domains)[d], Remote(run, isp, confidence))]
      ensures !outcome.Accepted? ==> domains == old(domains)
      ensures outcome.Accepted? <==> Acceptable(old(jobs), now, probe, job, screening, run, nonce)
      ensures outcome.Accepted? ==>
                var j := old(jobs)[job];
                && jobs == old(jobs)[job := Job(j.run, j.domain, j.probe, j.nonce, Completed, j.expiresAt, None,
                                                j.attempts)]
                && results == old(results)
                     + [Result(job, probe, nonce, now, j.leaseUntil.value, run, j.domain, isp, confidence)]
      ensures outcome.Replay? <==> screening == Passed && job in old(jobs) && old(jobs)[job].status == Completed
      ensures outcome.NotFound? <==> screening == Passed && job !in old(jobs)
      ensures outcome.Overdue? <==>
                && screening == Passed && job in old(jobs) && Addressed(old(jobs)[job], probe, run, nonce)
                && !InTime(old(jobs)[job], now)
      ensures (outcome.TooLarge? <==> screening == Oversized) && (outcome.Unsigned? <==> screening == BadSignature)
      ensures outcome.ClockSkew? <==> screening == Skewed
    {
      if screening == Oversized { return TooLarge; }
      if screening == BadSignature { return Unsigned; }
      if screening == WrongIdentity { return Forbidden; }
      if screening == Skewed { return ClockSkew; }
      if job !in jobs { return NotFound; }
      var j := jobs[job];
      if j.status == Completed { return Replay; }
      if j.status != Leased || j.probe != probe || run != j.run || nonce != j.nonce { return Forbidden; }
      if !(j.expiresAt > now) || j.leaseUntil.None? || !(j.leaseUntil.value > now) { return Overdue; }
      var dom := domains[j.domain];
      var previous := dom.row.isp;
      if previous != isp {
        dom := dom.(history := dom.history + [HistoryEntry(DimIsp, Some(previous), isp, confidence, run)]);
      }
      dom := dom.(row := dom.row.(isp := isp));
      domains := domains[j.domain := dom];
      results := results + [Result(job, probe, nonce, now, j.leaseUntil.value, j.run, j.domain, isp, confidence)];
      jobs := jobs[job := j.(status := Completed, leaseUntil := None)];
      return Accepted;
    }
  }
}
