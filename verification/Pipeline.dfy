/** Monitoring runs from creation to acknowledgement: the run table, the outbox, its dispatchers,
    the stream and the consumers that execute runs (internal/monitor/store.go and service.go,
    internal/queue/outbox.go and consumer.go). Every database transaction is one action. An action
    whose guard fails changes nothing, so every sequence of actions is an execution. */
module Pipeline {
  import opened Text
  import opened Hysteresis
  import opened Settings

  datatype RunStatus = Queued | Running | Completed | Failed | Cancelled

  /** The two formats of `deduplication_key`, both injective in their parts. */
  datatype DedupKey = Slot(domain: nat, at: int, version: string) | Request(domain: nat, user: nat, key: string)

  datatype Run = Run(
    key: DedupKey, status: RunStatus, deadline: int, startedAt: Option<int>, completedAt: Option<int>,
    heartbeat: Option<int>, worker: Option<nat>, attempts: nat)
  {
    function Domain(): nat { key.domain }
    predicate Manual() { key.Request? }
    /** The table's CHECK: a completion time needs a start time. */
    predicate Storable() { completedAt.Some? ==> startedAt.Some? }
    predicate Live(c: Config, now: int) { status.Running? && heartbeat.Some? && heartbeat.value > now - c.queueLease }
    /** No delivery will ever execute the run again. */
    predicate Finished(c: Config, now: int) {
      || status.Completed? || status.Cancelled?
      || (status.Failed? && (deadline <= now || attempts >= c.maxAttempts))
    }
  }

  datatype EventStatus = Pending | Dispatching | Dispatched | Undeliverable

  /** A row of `job_outbox`; its idempotency key is "outbox:" and the key of its run. */
  datatype Event = Event(
    run: nat, key: DedupKey, status: EventStatus, attempts: nat, availableAt: int,
    lockedAt: Option<int>, lockedBy: Option<nat>)
  {
    predicate HeldBy(w: nat) { status.Dispatching? && lockedBy == Some(w) }
  }

  /** Where a dispatcher stands in `RunOnce`: about to append the head of its batch, or about to
      record that the append succeeded or failed. */
  datatype Dispatcher = Sending(batch: seq<nat>) | Sent(batch: seq<nat>) | SendFailed(batch: seq<nat>)

  datatype Message = Message(event: nat, run: nat)

  /** One delivery of stream message `m` to a handler; while it executes, the worker and the attempt it claimed. */
  datatype Task = Received(m: nat) | Executing(m: nat, worker: nat, attempt: nat) | Handled(m: nat)

  /** A committed `CompleteRun`. */
  datatype Completion = Completion(domain: nat, o: Observation)

  datatype State = State(
    now: int, runs: map<nat, Run>, events: map<nat, Event>, dispatchers: map<nat, Dispatcher>,
    stream: seq<Message>, tasks: map<nat, Task>, acked: set<nat>, commits: seq<Completion>)

  const EMPTY := State(0, map[], map[], map[], [], map[], {}, [])

  datatype Action =
    | Tick(to: int)
    | CreateRun(run: nat, event: nat, key: DedupKey)
    | FailRun(run: nat)
    | ClaimBatch(w: nat, chosen: seq<nat>)
    | XAdd(w: nat, reply: Reply)
    | MarkDispatched(w: nat)
    | MarkFailure(w: nat, jitter: nat)
    | DropDispatcher(w: nat)
    | Deliver(t: nat, m: nat)
    | ClaimExecution(t: nat, worker: nat, lockFree: bool)
    | CompleteRun(t: nat, decision: Decision)
    | Acknowledge(t: nat)
    | DropTask(t: nat)

  /** An append can fail after Redis has executed it. */
  datatype Reply = Appended | Refused | AppendedButLost

  // ---- Runs ------------------------------------------------------------------------

  predicate KeyTaken(runs: map<nat, Run>, key: DedupKey) {
    exists r :: r in runs && runs[r].key == key
  }

  function NewRun(c: Config, key: DedupKey, now: int): Run {
    Run(key, Queued, now + c.runTimeout, None, None, None, None, 0)
  }

  function NewEvent(run: nat, key: DedupKey, now: int): Event {
    Event(run, key, Pending, 0, now, None, None)
  }

  /** A run and its event in one transaction; a key that exists already creates nothing. */
  function AfterCreate(c: Config, s: State, run: nat, event: nat, key: DedupKey): State {
    if KeyTaken(s.runs, key) || run in s.runs || event in s.events then s
    else s.(runs := s.runs[run := NewRun(c, key, s.now)], events := s.events[event := NewEvent(run, key, s.now)])
  }

  datatype ClaimOutcome = NotFound | AlreadyDone | Expired | Busy | Rejected | Claimed

  predicate DomainBusy(c: Config, runs: map<nat, Run>, id: nat, now: int)
    requires id in runs
  {
    exists other ::
      other in runs && other != id && runs[other].Domain() == runs[id].Domain() && runs[other].Live(c, now)
  }

  /** What `ClaimExecution` answers; `lockFree` says whether the advisory lock was obtained. */
  function Verdict(c: Config, runs: map<nat, Run>, id: nat, now: int, lockFree: bool): ClaimOutcome {
    if id !in runs then NotFound
    else
      var r := runs[id];
      if r.status.Completed? || r.status.Cancelled? then AlreadyDone
      else if r.deadline <= now then if r.startedAt.Some? then Expired else Rejected
      else if r.Live(c, now) || !lockFree || DomainBusy(c, runs, id, now) then Busy
      else if r.attempts >= c.maxAttempts then if r.startedAt.Some? then Expired else Rejected
      else Claimed
  }

  /** The claimed run's new row. */
  function ClaimedRow(r: Run, now: int, worker: nat): Run {
    r.(status := Running, startedAt := if r.startedAt.Some? then r.startedAt else Some(now),
       worker := Some(worker), heartbeat := Some(now), attempts := r.attempts + 1)
  }

  function ExpiredRow(r: Run, now: int): Run {
    if r.deadline <= now then r.(status := Failed, completedAt := Some(now), worker := None, heartbeat := None)
    else r.(status := Failed, completedAt := Some(now))
  }

  function RunsAfterClaim(c: Config, runs: map<nat, Run>, id: nat, now: int, worker: nat,
                          lockFree: bool): map<nat, Run> {
    match Verdict(c, runs, id, now, lockFree)
    case Claimed => runs[id := ClaimedRow(runs[id], now, worker)]
    case Expired => runs[id := ExpiredRow(runs[id], now)]
    case _ => runs
  }

  function CompletedRow(r: Run, now: int): Run {
    r.(status := Completed, completedAt := Some(now), worker := None, heartbeat := None)
  }

  function FailedRow(r: Run, now: int): Run {
    r.(status := Failed, completedAt := Some(now), worker := None, heartbeat := None)
  }

  function RunsAfterFail(runs: map<nat, Run>, id: nat, now: int): map<nat, Run> {
    if id in runs && !runs[id].status.Completed? && FailedRow(runs[id], now).Storable()
    then runs[id := FailedRow(runs[id], now)] else runs
  }

  // ---- Outbox ----------------------------------------------------------------------

  /** The requeue that starts every claim. */
  function Requeued(c: Config, e: Event, now: int): Event {
    if e.status.Dispatching? && e.lockedAt.Some? && e.lockedAt.value < now - c.outboxLease
    then e.(status := Pending, lockedAt := None, lockedBy := None) else e
  }

  predicate Claimable(c: Config, e: Event, now: int) {
    e.status.Pending? && e.availableAt <= now && e.attempts < c.maxAttempts
  }

  /** Any batch of distinct eligible events is allowed: rows locked by others are skipped. */
  predicate BatchOk(c: Config, events: map<nat, Event>, now: int, chosen: seq<nat>) {
    && |chosen| <= c.outboxBatch
    && (forall i, j :: 0 <= i < j < |chosen| ==> chosen[i] != chosen[j])
    && (forall i :: 0 <= i < |chosen| ==> chosen[i] in events && Claimable(c, Requeued(c, events[chosen[i]], now), now))
  }

  function LeasedRow(c: Config, e: Event, now: int, w: nat, taken: bool): Event {
    var q := Requeued(c, e, now);
    if taken then q.(status := Dispatching, lockedAt := Some(now), lockedBy := Some(w)) else q
  }

  function EventsAfterClaim(c: Config, events: map<nat, Event>, now: int, w: nat, chosen: seq<nat>): map<nat, Event> {
    map e | e in events :: LeasedRow(c, events[e], now, w, e in chosen)
  }

  function EventDispatched(e: Event): Event {
    e.(status := Dispatched, lockedAt := None, lockedBy := None)
  }

  function Pow2(n: nat): nat { if n == 0 then 1 else 2 * Pow2(n - 1) }

  function EventRetried(c: Config, e: Event, now: int, jitter: nat): Event {
    e.(attempts := e.attempts + 1,
       status := if e.attempts + 1 >= c.maxAttempts then Undeliverable else Pending,
       availableAt := now + 1000 * Min(300, Pow2(e.attempts + 1)) + jitter,
       lockedAt := None, lockedBy := None)
  }

  function EventRecorded(c: Config, e: Event, failed: bool, now: int, jitter: nat): Event {
    if failed then EventRetried(c, e, now, jitter) else EventDispatched(e)
  }

  function Without<K, V>(m: map<K, V>, k: K): map<K, V> { m - {k} }

  /** The dispatcher's remaining batch, or no dispatcher when it is done. */
  function NextInBatch(ds: map<nat, Dispatcher>, w: nat, batch: seq<nat>): map<nat, Dispatcher> {
    if |batch| <= 1 then Without(ds, w) else ds[w := Sending(batch[1..])]
  }

  // ---- Actions ---------------------------------------------------------------------

  function AfterXAdd(s: State, w: nat, reply: Reply): State {
    if w !in s.dispatchers || !s.dispatchers[w].Sending? || s.dispatchers[w].batch == [] then s
    else
      var batch := s.dispatchers[w].batch;
      if batch[0] !in s.events then s
      else s.(
        stream := if reply.Refused? then s.stream else s.stream + [Message(batch[0], s.events[batch[0]].run)],
        dispatchers := s.dispatchers[w := if reply.Appended? then Sent(batch) else SendFailed(batch)])
  }

  /** Recording the outcome needs the lease: without it nothing changes and `RunOnce` gives up. */
  function AfterMark(c: Config, s: State, w: nat, failed: bool, jitter: nat): State {
    if w !in s.dispatchers || s.dispatchers[w].batch == []
       || (failed && !s.dispatchers[w].SendFailed?) || (!failed && !s.dispatchers[w].Sent?) then s
    else
      var batch := s.dispatchers[w].batch;
      var e := batch[0];
      if e !in s.events || !s.events[e].HeldBy(w) then s.(dispatchers := Without(s.dispatchers, w))
      else s.(
        events := s.events[e := EventRecorded(c, s.events[e], failed, s.now, jitter)],
        dispatchers := NextInBatch(s.dispatchers, w, batch))
  }

  /** Only a claim that is settled for good lets the handler succeed; an error drops the delivery. */
  function TasksAfterClaim(tasks: map<nat, Task>, t: nat, claimed: Task, verdict: ClaimOutcome): map<nat, Task> {
    var m := claimed.m;
    match verdict
    case Claimed => tasks[t := claimed]
    case AlreadyDone => tasks[t := Handled(m)]
    case Expired => tasks[t := Handled(m)]
    case _ => Without(tasks, t)
  }

  /** What a successful claim turns the delivery into. */
  function Claiming(runs: map<nat, Run>, m: nat, id: nat, worker: nat): Task {
    Executing(m, worker, if id in runs then runs[id].attempts + 1 else 0)
  }

  function AfterTaskClaim(c: Config, s: State, t: nat, worker: nat, lockFree: bool): State {
    if t !in s.tasks || !s.tasks[t].Received? || s.tasks[t].m >= |s.stream| then s
    else
      var m := s.tasks[t].m;
      var id := s.stream[m].run;
      s.(runs := RunsAfterClaim(c, s.runs, id, s.now, worker, lockFree),
         tasks := TasksAfterClaim(s.tasks, t, Claiming(s.runs, m, id, worker), Verdict(c, s.runs, id, s.now, lockFree)))
  }

  function AfterComplete(s: State, t: nat, decision: Decision): State {
    if t !in s.tasks || !s.tasks[t].Executing? || s.tasks[t].m >= |s.stream| then s
    else
      var m := s.tasks[t].m;
      var id := s.stream[m].run;
      if id !in s.runs || !s.runs[id].status.Running? || !InSchema(decision) then s.(tasks := Without(s.tasks, t))
      else
        var r := s.runs[id];
        s.(runs := s.runs[id := CompletedRow(r, s.now)],
           tasks := s.tasks[t := Handled(m)],
           commits := s.commits + [Completion(r.Domain(), Observation(id, !r.Manual(), decision))])
  }

  function Next(c: Config, s: State, a: Action): State {
    match a
    case Tick(to) => s.(now := Max(s.now, to))
    case CreateRun(run, event, key) => AfterCreate(c, s, run, event, key)
    case FailRun(run) => s.(runs := RunsAfterFail(s.runs, run, s.now))
    case ClaimBatch(w, chosen) =>
      if w in s.dispatchers || !BatchOk(c, s.events, s.now, chosen) then s
      else s.(events := EventsAfterClaim(c, s.events, s.now, w, chosen),
              dispatchers := if chosen == [] then s.dispatchers else s.dispatchers[w := Sending(chosen)])
    case XAdd(w, reply) => AfterXAdd(s, w, reply)
    case MarkDispatched(w) => AfterMark(c, s, w, false, 0)
    case MarkFailure(w, jitter) => AfterMark(c, s, w, true, jitter)
    case DropDispatcher(w) => s.(dispatchers := Without(s.dispatchers, w))
    case Deliver(t, m) =>
      if t in s.tasks || m >= |s.stream| || m in s.acked then s else s.(tasks := s.tasks[t := Received(m)])
    case ClaimExecution(t, worker, lockFree) => AfterTaskClaim(c, s, t, worker, lockFree)
    case CompleteRun(t, decision) => AfterComplete(s, t, decision)
    case Acknowledge(t) =>
      if t !in s.tasks || !s.tasks[t].Handled? then s
      else s.(acked := s.acked + {s.tasks[t].m}, tasks := Without(s.tasks, t))
    case DropTask(t) => s.(tasks := Without(s.tasks, t))
  }

  function Exec(c: Config, s: State, actions: seq<Action>): State {
    if actions == [] then s else Next(c, Exec(c, s, actions[..|actions| - 1]), actions[|actions| - 1])
  }

  // ---- Invariants ------------------------------------------------------------------

  /** Nothing in the pipeline cancels a run. */
  ghost predicate RunOk(c: Config, r: Run) {
    && r.attempts <= c.maxAttempts
    && r.Storable()
    && (r.startedAt.None? <==> r.attempts == 0)
    && (r.status.Queued? <==> r.attempts == 0)
    && !r.status.Cancelled?
    && (r.status.Completed? || r.status.Failed? ==> r.completedAt.Some?)
  }

  ghost predicate RunsOk(c: Config, runs: map<nat, Run>) {
    && (forall r :: r in runs ==> RunOk(c, runs[r]))
    && (forall q, r :: q in runs && r in runs && runs[q].key == runs[r].key ==> q == r)
  }

  ghost predicate LiveIn(c: Config, runs: map<nat, Run>, now: int, r: nat, domain: nat) {
    r in runs && runs[r].Domain() == domain && runs[r].Live(c, now)
  }

  /** At most one live run per domain. */
  ghost predicate LeasesOk(c: Config, runs: map<nat, Run>, now: int) {
    forall q, r, d :: LiveIn(c, runs, now, q, d) && LiveIn(c, runs, now, r, d) ==> q == r
  }

  ghost predicate Committed(commits: seq<Completion>, r: nat) {
    exists i :: 0 <= i < |commits| && commits[i].o.run == r
  }

  ghost predicate CommitOk(runs: map<nat, Run>, x: Completion) {
    && x.o.run in runs
    && x.domain == runs[x.o.run].Domain()
    && x.o.qualifying == !runs[x.o.run].Manual()
    && InSchema(x.o.decision)
  }

  /** The committed runs are the completed ones, once each. */
  ghost predicate CommitsOk(runs: map<nat, Run>, commits: seq<Completion>) {
    && (forall i :: 0 <= i < |commits| ==> CommitOk(runs, commits[i]))
    && (forall i, j :: 0 <= i < j < |commits| ==> commits[i].o.run != commits[j].o.run)
    && (forall r :: r in runs ==> (runs[r].status.Completed? <==> Committed(commits, r)))
  }

  ghost predicate HasEvent(events: map<nat, Event>, r: nat) {
    exists e :: e in events && events[e].run == r
  }

  ghost predicate EventOk(c: Config, e: Event) {
    && e.attempts <= c.maxAttempts
    && (e.status.Undeliverable? <==> e.attempts == c.maxAttempts)
    && (e.status.Dispatching? <==> e.lockedBy.Some?)
  }

  /** Exactly one event per run, and one key for both. */
  ghost predicate EventsOk(c: Config, runs: map<nat, Run>, events: map<nat, Event>) {
    && (forall e :: e in events ==> EventOk(c, events[e]))
    && (forall e :: e in events ==> events[e].run in runs && events[e].key == runs[events[e].run].key)
    && (forall e, f :: e in events && f in events && events[e].run == events[f].run ==> e == f)
    && (forall r :: r in runs ==> HasEvent(events, r))
  }

  ghost predicate InStream(stream: seq<Message>, e: nat) {
    exists m :: 0 <= m < |stream| && stream[m].event == e
  }

  ghost predicate MessageOk(events: map<nat, Event>, x: Message) {
    x.event in events && events[x.event].run == x.run
  }

  ghost predicate SentOk(stream: seq<Message>, d: Dispatcher) {
    d.Sent? && d.batch != [] ==> InStream(stream, d.batch[0])
  }

  ghost predicate StreamOk(events: map<nat, Event>, stream: seq<Message>, dispatchers: map<nat, Dispatcher>) {
    && (forall m :: 0 <= m < |stream| ==> MessageOk(events, stream[m]))
    && (forall e :: e in events && events[e].status.Dispatched? ==> InStream(stream, e))
    && (forall w :: w in dispatchers ==> SentOk(stream, dispatchers[w]))
  }

  ghost predicate MessageFinished(c: Config, runs: map<nat, Run>, now: int, stream: seq<Message>, m: nat) {
    m < |stream| && stream[m].run in runs && runs[stream[m].run].Finished(c, now)
  }

  ghost predicate TaskOk(c: Config, runs: map<nat, Run>, now: int, stream: seq<Message>, t: Task) {
    && t.m < |stream|
    && (t.Handled? ==> MessageFinished(c, runs, now, stream, t.m))
    && (t.Executing? ==> ClaimOk(runs, stream[t.m].run, t.worker, t.attempt))
  }

  /** The run was claimed by this worker with this attempt, and no one else holds it unless it was claimed since. */
  ghost predicate ClaimOk(runs: map<nat, Run>, id: nat, worker: nat, attempt: nat) {
    && id in runs && 1 <= attempt <= runs[id].attempts
    && (runs[id].status.Running? && runs[id].attempts == attempt ==> runs[id].worker == Some(worker))
  }

  ghost predicate TasksOk(c: Config, runs: map<nat, Run>, now: int, stream: seq<Message>, tasks: map<nat, Task>,
                          acked: set<nat>) {
    && (forall t :: t in tasks ==> TaskOk(c, runs, now, stream, tasks[t]))
    && (forall m :: m in acked ==> MessageFinished(c, runs, now, stream, m))
  }

  ghost predicate Inv(c: Config, s: State) {
    && RunsOk(c, s.runs) && LeasesOk(c, s.runs, s.now) && CommitsOk(s.runs, s.commits)
    && EventsOk(c, s.runs, s.events) && StreamOk(s.events, s.stream, s.dispatchers)
    && TasksOk(c, s.runs, s.now, s.stream, s.tasks, s.acked)
  }

  // ---- What every action keeps -----------------------------------------------------

  ghost predicate RunEvolves(c: Config, r: Run, now: int, r': Run, now': int) {
    && r'.key == r.key && r'.deadline == r.deadline && r'.attempts >= r.attempts
    && (r.status.Completed? ==> r' == r)
    && (r.startedAt.Some? ==> r'.startedAt == r.startedAt)
    && (r.Finished(c, now) ==> r'.Finished(c, now'))
    && (r.startedAt.None? && r.deadline <= now ==> r' == r)
    && (r'.attempts == r.attempts && r'.status.Running? ==> r.status.Running? && r'.worker == r.worker)
  }

  ghost predicate RunsEvolve(c: Config, runs: map<nat, Run>, now: int, runs': map<nat, Run>, now': int) {
    now <= now' && forall r :: r in runs ==> r in runs' && RunEvolves(c, runs[r], now, runs'[r], now')
  }

  ghost predicate EventEvolves(e: Event, e': Event) {
    && e'.run == e.run && e'.key == e.key && e'.attempts >= e.attempts
    && (e.status.Dispatched? || e.status.Undeliverable? ==> e' == e)
  }

  ghost predicate EventsEvolve(events: map<nat, Event>, events': map<nat, Event>) {
    forall e :: e in events ==> e in events' && EventEvolves(events[e], events'[e])
  }

  /** Nothing is forgotten, and what is settled stays settled. */
  ghost predicate Evolves(c: Config, s: State, s': State) {
    && RunsEvolve(c, s.runs, s.now, s'.runs, s'.now)
    && EventsEvolve(s.events, s'.events)
    && s.commits <= s'.commits && s.stream <= s'.stream && s.acked <= s'.acked
  }

  ghost predicate Step(c: Config, s: State, s': State) {
    Inv(c, s') && Evolves(c, s, s')
  }

  // One kind of change at a time: a run's row, a new run, an event's row, the stream, a task.

  /** Deliveries only look at whether runs are finished. */
  lemma {:induction false} TasksFrame(c: Config, runs: map<nat, Run>, now: int, stream: seq<Message>,
                                      runs': map<nat, Run>, now': int, stream': seq<Message>,
                                      tasks: map<nat, Task>, acked: set<nat>)
    requires TasksOk(c, runs, now, stream, tasks, acked)
    requires RunsEvolve(c, runs, now, runs', now') && stream <= stream'
    ensures TasksOk(c, runs', now', stream', tasks, acked)
  {
    forall m: nat | MessageFinished(c, runs, now, stream, m) ensures MessageFinished(c, runs', now', stream', m) {
      assert stream'[m] == stream[m];
    }
    forall t | t in tasks ensures TaskOk(c, runs', now', stream', tasks[t]) {
      assert TaskOk(c, runs, now, stream, tasks[t]);
    }
  }

  lemma {:induction false} RowRuns(c: Config, runs: map<nat, Run>, now: int, id: nat, r: Run)
    requires RunsOk(c, runs) && id in runs && RunOk(c, r) && RunEvolves(c, runs[id], now, r, now)
    ensures RunsOk(c, runs[id := r]) && RunsEvolve(c, runs, now, runs[id := r], now)
  {
  }

  lemma {:induction false} RowLease(c: Config, runs: map<nat, Run>, now: int, id: nat, r: Run)
    requires id in runs && LeasesOk(c, runs, now) && r.key == runs[id].key
    requires r.Live(c, now) ==> !DomainBusy(c, runs, id, now)
    ensures LeasesOk(c, runs[id := r], now)
  {
    var runs' := runs[id := r];
    forall p, q, d | LiveIn(c, runs', now, p, d) && LiveIn(c, runs', now, q, d) ensures p == q {
      assert p != id ==> LiveIn(c, runs, now, p, d);
      assert q != id ==> LiveIn(c, runs, now, q, d);
    }
  }

  lemma {:induction false} RowCommits(runs: map<nat, Run>, commits: seq<Completion>, id: nat, r: Run)
    requires CommitsOk(runs, commits) && id in runs && r.key == runs[id].key
    requires r.status.Completed? <==> runs[id].status.Completed?
    ensures CommitsOk(runs[id := r], commits)
  {
    forall i | 0 <= i < |commits| ensures CommitOk(runs[id := r], commits[i]) {
      assert CommitOk(runs, commits[i]);
    }
  }

  lemma {:induction false} RowEvents(c: Config, runs: map<nat, Run>, events: map<nat, Event>, id: nat, r: Run)
    requires EventsOk(c, runs, events) && id in runs && r.key == runs[id].key
    ensures EventsOk(c, runs[id := r], events)
  {
  }

  lemma {:induction false} RowKept(c: Config, s: State, id: nat, r: Run)
    requires Inv(c, s) && id in s.runs && RunOk(c, r) && RunEvolves(c, s.runs[id], s.now, r, s.now)
    requires r.status.Completed? <==> s.runs[id].status.Completed?
    requires r.Live(c, s.now) ==> !DomainBusy(c, s.runs, id, s.now)
    ensures Step(c, s, s.(runs := s.runs[id := r]))
  {
    RowRuns(c, s.runs, s.now, id, r);
    RowLease(c, s.runs, s.now, id, r);
    RowCommits(s.runs, s.commits, id, r);
    RowEvents(c, s.runs, s.events, id, r);
    TasksFrame(c, s.runs, s.now, s.stream, s.runs[id := r], s.now, s.stream, s.tasks, s.acked);
    EventsReflexive(s.events);
  }

  lemma {:induction false} EventsReflexive(events: map<nat, Event>)
    ensures EventsEvolve(events, events)
  {
  }

  lemma {:induction false} CreateRuns(c: Config, runs: map<nat, Run>, now: int, id: nat, r: Run)
    requires RunsOk(c, runs) && LeasesOk(c, runs, now) && RunOk(c, r) && r.status.Queued? && id !in runs
    requires forall q :: q in runs ==> runs[q].key != r.key
    ensures RunsOk(c, runs[id := r]) && LeasesOk(c, runs[id := r], now) && RunsEvolve(c, runs, now, runs[id := r], now)
  {
    var runs' := runs[id := r];
    forall q, d | LiveIn(c, runs', now, q, d) ensures LiveIn(c, runs, now, q, d) {
    }
  }

  lemma {:induction false} CreateCommits(runs: map<nat, Run>, commits: seq<Completion>, id: nat, r: Run)
    requires CommitsOk(runs, commits) && id !in runs && r.status.Queued?
    ensures CommitsOk(runs[id := r], commits)
  {
    forall i | 0 <= i < |commits| ensures CommitOk(runs[id := r], commits[i]) && commits[i].o.run != id {
      assert CommitOk(runs, commits[i]);
    }
  }

  lemma {:induction false} CreateEvents(c: Config, runs: map<nat, Run>, events: map<nat, Event>, id: nat, r: Run,
                                        event: nat, e: Event)
    requires EventsOk(c, runs, events) && id !in runs && event !in events
    requires EventOk(c, e) && e.run == id && e.key == r.key
    ensures EventsOk(c, runs[id := r], events[event := e]) && EventsEvolve(events, events[event := e])
  {
    var events' := events[event := e];
    forall q | q in runs[id := r] ensures HasEvent(events', q) {
      if q == id {
        assert events'[event].run == id;
      } else {
        var f :| f in events && events[f].run == q;
        assert events'[f].run == q;
      }
    }
  }

  lemma {:induction false} CreateStream(events: map<nat, Event>, stream: seq<Message>,
                                        dispatchers: map<nat, Dispatcher>, event: nat, e: Event)
    requires StreamOk(events, stream, dispatchers) && event !in events && e.status.Pending?
    ensures StreamOk(events[event := e], stream, dispatchers)
  {
    forall m | 0 <= m < |stream| ensures MessageOk(events[event := e], stream[m]) {
      assert MessageOk(events, stream[m]);
    }
  }

  lemma {:induction false} CreateKept(c: Config, s: State, run: nat, event: nat, key: DedupKey)
    requires c.Valid() && Inv(c, s) && !KeyTaken(s.runs, key) && run !in s.runs && event !in s.events
    ensures Step(c, s, AfterCreate(c, s, run, event, key))
  {
    var s' := AfterCreate(c, s, run, event, key);
    CreateRuns(c, s.runs, s.now, run, s'.runs[run]);
    CreateCommits(s.runs, s.commits, run, s'.runs[run]);
    CreateEvents(c, s.runs, s.events, run, s'.runs[run], event, s'.events[event]);
    CreateStream(s.events, s.stream, s.dispatchers, event, s'.events[event]);
    TasksFrame(c, s.runs, s.now, s.stream, s'.runs, s.now, s.stream, s.tasks, s.acked);
  }

  /** The commit itself: the run was running, so it was not committed before. */
  lemma {:induction false} CommitOnce(runs: map<nat, Run>, commits: seq<Completion>, id: nat, r: Run, x: Completion)
    requires CommitsOk(runs, commits) && id in runs && runs[id].status.Running?
    requires r.key == runs[id].key && r.status.Completed? && x.o.run == id && CommitOk(runs, x)
    ensures CommitsOk(runs[id := r], commits + [x])
  {
    var runs', commits', n := runs[id := r], commits + [x], |commits|;
    assert !Committed(commits, id);
    forall i | 0 <= i <= n ensures CommitOk(runs', commits'[i]) {
      assert i < n ==> CommitOk(runs, commits[i]);
    }
    forall q | q in runs' ensures runs'[q].status.Completed? <==> Committed(commits', q) {
      if q == id {
        assert commits'[n].o.run == id;
      } else if Committed(commits, q) {
        var i :| 0 <= i < n && commits[i].o.run == q;
        assert commits'[i].o.run == q;
      }
    }
  }

  lemma {:induction false} CommitKept(c: Config, s: State, id: nat, decision: Decision)
    requires c.Valid() && Inv(c, s) && id in s.runs && s.runs[id].status.Running? && InSchema(decision)
    ensures var r := s.runs[id];
      Step(c, s, s.(runs := s.runs[id := CompletedRow(r, s.now)],
                    commits := s.commits + [Completion(r.Domain(), Observation(id, !r.Manual(), decision))]))
  {
    var r, r' := s.runs[id], CompletedRow(s.runs[id], s.now);
    assert RunOk(c, r);
    RowRuns(c, s.runs, s.now, id, r');
    RowLease(c, s.runs, s.now, id, r');
    CommitOnce(s.runs, s.commits, id, r', Completion(r.Domain(), Observation(id, !r.Manual(), decision)));
    RowEvents(c, s.runs, s.events, id, r');
    TasksFrame(c, s.runs, s.now, s.stream, s.runs[id := r'], s.now, s.stream, s.tasks, s.acked);
    EventsReflexive(s.events);
  }

  lemma {:induction false} CompleteKept(c: Config, s: State, t: nat, decision: Decision)
    requires c.Valid() && Inv(c, s) && t in s.tasks && s.tasks[t].Executing? && s.tasks[t].m < |s.stream|
    ensures Step(c, s, AfterComplete(s, t, decision))
  {
    var s', m := AfterComplete(s, t, decision), s.tasks[t].m;
    var id := s.stream[m].run;
    if id !in s.runs || !s.runs[id].status.Running? || !InSchema(decision) {
      DropTaskKept(c, s, t);
    } else {
      var mid := s.(runs := s'.runs, commits := s'.commits);
      CommitKept(c, s, id, decision);
      TaskKept(c, mid, t, Handled(m));
      StepThen(c, s, mid, s');
    }
  }

  lemma {:induction false} EventRows(c: Config, runs: map<nat, Run>, events: map<nat, Event>, events': map<nat, Event>)
    requires EventsOk(c, runs, events) && events'.Keys == events.Keys && EventsEvolve(events, events')
    requires forall e :: e in events' ==> EventOk(c, events'[e])
    ensures EventsOk(c, runs, events')
  {
    forall r | r in runs ensures HasEvent(events', r) {
      var e :| e in events && events[e].run == r;
      assert events'[e].run == r;
    }
  }

  lemma {:induction false} EventRowsStream(events: map<nat, Event>, events': map<nat, Event>, stream: seq<Message>,
                                           dispatchers: map<nat, Dispatcher>)
    requires StreamOk(events, stream, dispatchers) && events'.Keys == events.Keys && EventsEvolve(events, events')
    requires forall e :: e in events' && events'[e].status.Dispatched? ==> InStream(stream, e)
    ensures StreamOk(events', stream, dispatchers)
  {
    forall m | 0 <= m < |stream| ensures MessageOk(events', stream[m]) {
      assert MessageOk(events, stream[m]);
    }
  }

  /** Events may change by requeue, claim, dispatch or retry; none of them loses a run. */
  lemma {:induction false} EventRowsKept(c: Config, s: State, events: map<nat, Event>)
    requires Inv(c, s) && events.Keys == s.events.Keys && EventsEvolve(s.events, events)
    requires forall e :: e in events ==> EventOk(c, events[e])
    requires forall e :: e in events && events[e].status.Dispatched? ==> InStream(s.stream, e)
    ensures Step(c, s, s.(events := events))
  {
    EventRows(c, s.runs, s.events, events);
    EventRowsStream(s.events, events, s.stream, s.dispatchers);
    RunsReflexive(c, s.runs, s.now);
  }

  lemma {:induction false} RunsReflexive(c: Config, runs: map<nat, Run>, now: int)
    ensures RunsEvolve(c, runs, now, runs, now)
  {
  }

  lemma {:induction false} LeasedRowOk(c: Config, e: Event, now: int, w: nat, taken: bool)
    requires EventOk(c, e) && (taken ==> Claimable(c, Requeued(c, e, now), now))
    ensures EventEvolves(e, LeasedRow(c, e, now, w, taken)) && EventOk(c, LeasedRow(c, e, now, w, taken))
    ensures LeasedRow(c, e, now, w, taken).status.Dispatched? ==> e.status.Dispatched?
  {
  }

  lemma {:induction false} BatchRows(c: Config, runs: map<nat, Run>, events: map<nat, Event>, now: int, w: nat,
                                     chosen: seq<nat>)
    requires c.Valid() && EventsOk(c, runs, events) && BatchOk(c, events, now, chosen)
    ensures var events' := EventsAfterClaim(c, events, now, w, chosen);
      && EventsEvolve(events, events')
      && forall e :: e in events ==>
           EventOk(c, events'[e]) && (events'[e].status.Dispatched? ==> events[e].status.Dispatched?)
  {
    var events' := EventsAfterClaim(c, events, now, w, chosen);
    forall e | e in events
      ensures EventEvolves(events[e], events'[e]) && EventOk(c, events'[e])
      ensures (events'[e].status.Dispatched? ==> events[e].status.Dispatched?)
    {
      LeasedRowOk(c, events[e], now, w, e in chosen);
    }
  }

  lemma {:induction false} BatchKept(c: Config, s: State, w: nat, chosen: seq<nat>)
    requires c.Valid() && Inv(c, s) && BatchOk(c, s.events, s.now, chosen) && w !in s.dispatchers
    ensures Step(c, s, Next(c, s, ClaimBatch(w, chosen)))
  {
    var mid, s' := s.(events := EventsAfterClaim(c, s.events, s.now, w, chosen)), Next(c, s, ClaimBatch(w, chosen));
    BatchRows(c, s.runs, s.events, s.now, w, chosen);
    EventRowsKept(c, s, mid.events);
    DispatcherKept(c, mid, s'.dispatchers);
    StepThen(c, s, mid, s');
  }

  lemma {:induction false} XAddStream(events: map<nat, Event>, stream: seq<Message>, dispatchers: map<nat, Dispatcher>,
                                      w: nat, d: Dispatcher, x: Message)
    requires StreamOk(events, stream, dispatchers) && MessageOk(events, x) && d.batch != [] && d.batch[0] == x.event
    ensures StreamOk(events, stream + [x], dispatchers[w := d])
  {
    var next := stream + [x];
    forall e | InStream(stream, e) ensures InStream(next, e) {
      var m :| 0 <= m < |stream| && stream[m].event == e;
      assert next[m].event == e;
    }
    assert next[|stream|].event == x.event;
    forall v | v in dispatchers && v != w ensures SentOk(next, dispatchers[v]) {
      assert SentOk(stream, dispatchers[v]);
    }
    forall m | 0 <= m < |next| ensures MessageOk(events, next[m]) {
      assert m < |stream| ==> MessageOk(events, stream[m]);
    }
  }

  lemma {:induction false} XAddKept(c: Config, s: State, w: nat, reply: Reply)
    requires c.Valid() && Inv(c, s)
    ensures Step(c, s, AfterXAdd(s, w, reply))
  {
    var s' := AfterXAdd(s, w, reply);
    if s'.stream == s.stream {
      DispatcherKept(c, s, s'.dispatchers);
    } else {
      XAddStream(s.events, s.stream, s.dispatchers, w, s'.dispatchers[w], s'.stream[|s.stream|]);
      RunsReflexive(c, s.runs, s.now);
      EventsReflexive(s.events);
      TasksFrame(c, s.runs, s.now, s.stream, s.runs, s.now, s'.stream, s.tasks, s.acked);
    }
  }

  lemma {:induction false} MarkKept(c: Config, s: State, w: nat, failed: bool, jitter: nat)
    requires c.Valid() && Inv(c, s) && AfterMark(c, s, w, failed, jitter) != s
    ensures Step(c, s, AfterMark(c, s, w, failed, jitter))
  {
    var e := s.dispatchers[w].batch[0];
    assert SentOk(s.stream, s.dispatchers[w]);
    if e in s.events && s.events[e].HeldBy(w) {
      MarkHeldKept(c, s, w, e, failed, jitter, NextInBatch(s.dispatchers, w, s.dispatchers[w].batch));
    } else {
      DispatcherKept(c, s, Without(s.dispatchers, w));
    }
  }

  lemma {:induction false} MarkHeldKept(c: Config, s: State, w: nat, id: nat, failed: bool, jitter: nat,
                                        dispatchers: map<nat, Dispatcher>)
    requires c.Valid() && Inv(c, s) && id in s.events && s.events[id].HeldBy(w) && (!failed ==> InStream(s.stream, id))
    requires forall v :: v in dispatchers ==> SentOk(s.stream, dispatchers[v])
    ensures Step(c, s, s.(
      events := s.events[id := EventRecorded(c, s.events[id], failed, s.now, jitter)],
      dispatchers := dispatchers))
  {
    var mid := s.(events := s.events[id := EventRecorded(c, s.events[id], failed, s.now, jitter)]);
    MarkRowKept(c, s, id, w, failed, jitter);
    DispatcherKept(c, mid, dispatchers);
    StepThen(c, s, mid, mid.(dispatchers := dispatchers));
  }

  lemma {:induction false} EventRowKept(c: Config, s: State, id: nat, e: Event)
    requires Inv(c, s) && id in s.events && EventOk(c, e) && EventEvolves(s.events[id], e)
    requires e.status.Dispatched? ==> InStream(s.stream, id)
    ensures Step(c, s, s.(events := s.events[id := e]))
  {
    EventRowsKept(c, s, s.events[id := e]);
  }

  lemma {:induction false} MarkRowKept(c: Config, s: State, id: nat, w: nat, failed: bool, jitter: nat)
    requires c.Valid() && Inv(c, s) && id in s.events && s.events[id].HeldBy(w) && (!failed ==> InStream(s.stream, id))
    ensures Step(c, s, s.(events := s.events[id := EventRecorded(c, s.events[id], failed, s.now, jitter)]))
  {
    assert EventOk(c, s.events[id]);
    EventRowKept(c, s, id, EventRecorded(c, s.events[id], failed, s.now, jitter));
  }

  lemma {:induction false} Stutter(c: Config, s: State)
    requires Inv(c, s)
    ensures Step(c, s, s)
  {
    RunsReflexive(c, s.runs, s.now);
    EventsReflexive(s.events);
  }

  lemma {:induction false} TaskKept(c: Config, s: State, t: nat, task: Task)
    requires Inv(c, s) && TaskOk(c, s.runs, s.now, s.stream, task)
    ensures Step(c, s, s.(tasks := s.tasks[t := task]))
  {
    Stutter(c, s);
    assert TasksOk(c, s.runs, s.now, s.stream, s.tasks[t := task], s.acked);
  }

  lemma {:induction false} DropTaskKept(c: Config, s: State, t: nat)
    requires Inv(c, s)
    ensures Step(c, s, s.(tasks := Without(s.tasks, t)))
  {
    Stutter(c, s);
    assert TasksOk(c, s.runs, s.now, s.stream, Without(s.tasks, t), s.acked);
  }

  lemma {:induction false} AckKept(c: Config, s: State, t: nat)
    requires Inv(c, s) && t in s.tasks && s.tasks[t].Handled?
    ensures Step(c, s, s.(acked := s.acked + {s.tasks[t].m}, tasks := Without(s.tasks, t)))
  {
    Stutter(c, s);
    assert TaskOk(c, s.runs, s.now, s.stream, s.tasks[t]);
    assert TasksOk(c, s.runs, s.now, s.stream, Without(s.tasks, t), s.acked + {s.tasks[t].m});
  }

  lemma {:induction false} DispatcherKept(c: Config, s: State, dispatchers: map<nat, Dispatcher>)
    requires Inv(c, s) && forall w :: w in dispatchers ==> SentOk(s.stream, dispatchers[w])
    ensures Step(c, s, s.(dispatchers := dispatchers))
  {
    Stutter(c, s);
    assert StreamOk(s.events, s.stream, dispatchers);
  }

  lemma {:induction false} StepThen(c: Config, s: State, mid: State, s': State)
    requires Step(c, s, mid) && Step(c, mid, s')
    ensures Step(c, s, s')
  {
    assert RunsEvolve(c, s.runs, s.now, s'.runs, s'.now) by {
      RunsTransitive(c, s.runs, s.now, mid.runs, mid.now, s'.runs, s'.now);
    }
    assert EventsEvolve(s.events, s'.events) by {
      EventsTransitive(s.events, mid.events, s'.events);
    }
  }

  lemma {:induction false} RunsTransitive(c: Config, runs: map<nat, Run>, now: int, runs': map<nat, Run>, now': int,
                                          runs'': map<nat, Run>, now'': int)
    requires RunsEvolve(c, runs, now, runs', now') && RunsEvolve(c, runs', now', runs'', now'')
    ensures RunsEvolve(c, runs, now, runs'', now'')
  {
  }

  lemma {:induction false} EventsTransitive(events: map<nat, Event>, events': map<nat, Event>,
                                            events'': map<nat, Event>)
    requires EventsEvolve(events, events') && EventsEvolve(events', events'')
    ensures EventsEvolve(events, events'')
  {
  }

  /** A claim that lets the handler succeed leaves its run finished. */
  lemma {:induction false} SettledClaim(c: Config, runs: map<nat, Run>, id: nat, now: int, worker: nat, lockFree: bool)
    requires Verdict(c, runs, id, now, lockFree).Expired? || Verdict(c, runs, id, now, lockFree).AlreadyDone?
    ensures id in RunsAfterClaim(c, runs, id, now, worker, lockFree)
    ensures RunsAfterClaim(c, runs, id, now, worker, lockFree)[id].Finished(c, now)
  {
  }

  lemma {:induction false} SettledMessage(c: Config, runs: map<nat, Run>, now: int, stream: seq<Message>, m: nat,
                                          worker: nat, lockFree: bool)
    requires m < |stream|
    ensures var verdict := Verdict(c, runs, stream[m].run, now, lockFree);
      verdict.Expired? || verdict.AlreadyDone? ==>
        MessageFinished(c, RunsAfterClaim(c, runs, stream[m].run, now, worker, lockFree), now, stream, m)
  {
    var verdict := Verdict(c, runs, stream[m].run, now, lockFree);
    if verdict.Expired? || verdict.AlreadyDone? {
      SettledClaim(c, runs, stream[m].run, now, worker, lockFree);
    }
  }

  lemma {:induction false} ClaimingOk(c: Config, runs: map<nat, Run>, m: nat, id: nat, now: int, worker: nat,
                                      lockFree: bool)
    ensures var task := Claiming(runs, m, id, worker);
      Verdict(c, runs, id, now, lockFree).Claimed? ==>
        ClaimOk(RunsAfterClaim(c, runs, id, now, worker, lockFree), id, worker, task.attempt)
  {
  }

  lemma {:induction false} ClaimTaskKept(c: Config, s: State, t: nat, m: nat, runs: map<nat, Run>, claimed: Task,
                                         verdict: ClaimOutcome, s': State)
    requires Step(c, s, s.(runs := runs)) && claimed.Executing? && claimed.m == m < |s.stream|
    requires verdict.Expired? || verdict.AlreadyDone? ==> MessageFinished(c, runs, s.now, s.stream, m)
    requires verdict.Claimed? ==> ClaimOk(runs, s.stream[m].run, claimed.worker, claimed.attempt)
    requires s' == s.(runs := runs, tasks := TasksAfterClaim(s.tasks, t, claimed, verdict))
    ensures Step(c, s, s')
  {
    TaskStep(c, s, s.(runs := runs), t, claimed, verdict);
  }

  lemma {:induction false} ClaimKept(c: Config, s: State, t: nat, worker: nat, lockFree: bool)
    requires c.Valid() && Inv(c, s) && t in s.tasks && s.tasks[t].Received? && s.tasks[t].m < |s.stream|
    ensures Step(c, s, AfterTaskClaim(c, s, t, worker, lockFree))
  {
    var m := s.tasks[t].m;
    var id := s.stream[m].run;
    ClaimRowKept(c, s, id, worker, lockFree);
    SettledMessage(c, s.runs, s.now, s.stream, m, worker, lockFree);
    ClaimingOk(c, s.runs, m, id, s.now, worker, lockFree);
    ClaimTaskKept(c, s, t, m, RunsAfterClaim(c, s.runs, id, s.now, worker, lockFree),
                  Claiming(s.runs, m, id, worker), Verdict(c, s.runs, id, s.now, lockFree),
                  AfterTaskClaim(c, s, t, worker, lockFree));
  }

  lemma {:induction false} TaskStep(c: Config, s: State, next: State, t: nat, claimed: Task, verdict: ClaimOutcome)
    requires Step(c, s, next) && claimed.Executing? && claimed.m < |next.stream|
    requires verdict.Expired? || verdict.AlreadyDone? ==>
               MessageFinished(c, next.runs, next.now, next.stream, claimed.m)
    requires verdict.Claimed? ==> ClaimOk(next.runs, next.stream[claimed.m].run, claimed.worker, claimed.attempt)
    ensures Step(c, s, next.(tasks := TasksAfterClaim(next.tasks, t, claimed, verdict)))
  {
    if verdict.Claimed? {
      TaskKept(c, next, t, claimed);
    } else if verdict.Expired? || verdict.AlreadyDone? {
      TaskKept(c, next, t, Handled(claimed.m));
    } else {
      DropTaskKept(c, next, t);
    }
    StepThen(c, s, next, next.(tasks := TasksAfterClaim(next.tasks, t, claimed, verdict)));
  }

  lemma {:induction false} ClaimedRowOk(c: Config, r: Run, now: int, worker: nat)
    requires RunOk(c, r) && !r.status.Completed? && r.deadline > now && r.attempts < c.maxAttempts
    ensures RunOk(c, ClaimedRow(r, now, worker)) && RunEvolves(c, r, now, ClaimedRow(r, now, worker), now)
    ensures !ClaimedRow(r, now, worker).status.Completed?
  {
  }

  lemma {:induction false} ExpiredRowOk(c: Config, r: Run, now: int)
    requires RunOk(c, r) && !r.status.Completed? && r.startedAt.Some?
    requires (r.deadline <= now || r.attempts >= c.maxAttempts)
    ensures RunOk(c, ExpiredRow(r, now)) && RunEvolves(c, r, now, ExpiredRow(r, now), now)
    ensures ExpiredRow(r, now).status.Failed?
  {
  }

  lemma {:induction false} ClaimedKept(c: Config, s: State, id: nat, worker: nat)
    requires Inv(c, s) && id in s.runs && !DomainBusy(c, s.runs, id, s.now)
    requires !s.runs[id].status.Completed? && s.runs[id].deadline > s.now && s.runs[id].attempts < c.maxAttempts
    ensures Step(c, s, s.(runs := s.runs[id := ClaimedRow(s.runs[id], s.now, worker)]))
  {
    ClaimedRowOk(c, s.runs[id], s.now, worker);
    RowKept(c, s, id, ClaimedRow(s.runs[id], s.now, worker));
  }

  lemma {:induction false} ExpiredKept(c: Config, s: State, id: nat)
    requires Inv(c, s) && id in s.runs && !s.runs[id].status.Completed? && s.runs[id].startedAt.Some?
    requires s.runs[id].deadline <= s.now || s.runs[id].attempts >= c.maxAttempts
    ensures Step(c, s, s.(runs := s.runs[id := ExpiredRow(s.runs[id], s.now)]))
  {
    ExpiredRowOk(c, s.runs[id], s.now);
    RowKept(c, s, id, ExpiredRow(s.runs[id], s.now));
  }

  /** The two changes a claim can make, with what it checked. */
  ghost predicate ClaimChange(c: Config, runs: map<nat, Run>, id: nat, now: int, worker: nat, runs': map<nat, Run>) {
    runs' == runs || MayClaim(c, runs, id, now, worker, runs') || MayExpire(c, runs, id, now, runs')
  }

  ghost predicate MayClaim(c: Config, runs: map<nat, Run>, id: nat, now: int, worker: nat, runs': map<nat, Run>) {
    && id in runs && !runs[id].status.Completed? && !DomainBusy(c, runs, id, now)
    && runs[id].deadline > now && runs[id].attempts < c.maxAttempts
    && runs' == runs[id := ClaimedRow(runs[id], now, worker)]
  }

  ghost predicate MayExpire(c: Config, runs: map<nat, Run>, id: nat, now: int, runs': map<nat, Run>) {
    && id in runs && !runs[id].status.Completed? && runs[id].startedAt.Some?
    && (runs[id].deadline <= now || runs[id].attempts >= c.maxAttempts)
    && runs' == runs[id := ExpiredRow(runs[id], now)]
  }

  lemma {:induction false} ClaimChanges(c: Config, runs: map<nat, Run>, id: nat, now: int, worker: nat, lockFree: bool)
    ensures ClaimChange(c, runs, id, now, worker, RunsAfterClaim(c, runs, id, now, worker, lockFree))
  {
  }

  lemma {:induction false} ClaimChangeKept(c: Config, s: State, id: nat, worker: nat, runs: map<nat, Run>)
    requires Inv(c, s) && ClaimChange(c, s.runs, id, s.now, worker, runs)
    ensures Step(c, s, s.(runs := runs))
  {
    if runs == s.runs {
      Stutter(c, s);
    } else if MayClaim(c, s.runs, id, s.now, worker, runs) {
      ClaimedKept(c, s, id, worker);
    } else {
      ExpiredKept(c, s, id);
    }
  }

  lemma {:induction false} ClaimRowKept(c: Config, s: State, id: nat, worker: nat, lockFree: bool)
    requires c.Valid() && Inv(c, s)
    ensures Step(c, s, s.(runs := RunsAfterClaim(c, s.runs, id, s.now, worker, lockFree)))
  {
    ClaimChanges(c, s.runs, id, s.now, worker, lockFree);
    ClaimChangeKept(c, s, id, worker, RunsAfterClaim(c, s.runs, id, s.now, worker, lockFree));
  }

  lemma {:induction false} TickKept(c: Config, s: State, to: int)
    requires c.Valid() && Inv(c, s)
    ensures Step(c, s, s.(now := Max(s.now, to)))
  {
    var now := Max(s.now, to);
    assert LeasesOk(c, s.runs, now) by {
      forall q, d | LiveIn(c, s.runs, now, q, d) ensures LiveIn(c, s.runs, s.now, q, d) {
      }
    }
    TasksFrame(c, s.runs, s.now, s.stream, s.runs, now, s.stream, s.tasks, s.acked);
    EventsReflexive(s.events);
  }

  lemma {:induction false} FailKept(c: Config, s: State, id: nat)
    requires c.Valid() && Inv(c, s)
    ensures Step(c, s, s.(runs := RunsAfterFail(s.runs, id, s.now)))
  {
    if RunsAfterFail(s.runs, id, s.now) == s.runs {
      Stutter(c, s);
    } else {
      assert RunOk(c, s.runs[id]);
      RowKept(c, s, id, FailedRow(s.runs[id], s.now));
    }
  }

  lemma {:induction false} NextKept(c: Config, s: State, a: Action)
    requires c.Valid() && Inv(c, s)
    ensures Step(c, s, Next(c, s, a))
  {
    if Next(c, s, a) == s {
      Stutter(c, s);
    } else {
      match a
      case Tick(to) => TickKept(c, s, to);
      case CreateRun(run, event, key) => CreateKept(c, s, run, event, key);
      case FailRun(run) => FailKept(c, s, run);
      case ClaimBatch(w, chosen) => BatchKept(c, s, w, chosen);
      case XAdd(w, reply) => XAddKept(c, s, w, reply);
      case MarkDispatched(w) => MarkKept(c, s, w, false, 0);
      case MarkFailure(w, jitter) => MarkKept(c, s, w, true, jitter);
      case DropDispatcher(w) => DispatcherKept(c, s, Without(s.dispatchers, w));
      case Deliver(t, m) => TaskKept(c, s, t, Received(m));
      case ClaimExecution(t, worker, lockFree) => ClaimKept(c, s, t, worker, lockFree);
      case CompleteRun(t, decision) => CompleteKept(c, s, t, decision);
      case Acknowledge(t) => AckKept(c, s, t);
      case DropTask(t) => DropTaskKept(c, s, t);
    }
  }

  // ---- Theorems about every execution ----------------------------------------------

  lemma {:induction false} EmptyOk(c: Config)
    ensures Inv(c, EMPTY)
  {
  }

  lemma {:induction false} ExecKept(c: Config, s: State, actions: seq<Action>)
    requires c.Valid() && Inv(c, s)
    ensures Step(c, s, Exec(c, s, actions))
  {
    if actions == [] {
      Stutter(c, s);
    } else {
      var mid := Exec(c, s, actions[..|actions| - 1]);
      ExecKept(c, s, actions[..|actions| - 1]);
      NextKept(c, mid, actions[|actions| - 1]);
      StepThen(c, s, mid, Exec(c, s, actions));
    }
  }

  function Reached(c: Config, actions: seq<Action>): State {
    Exec(c, EMPTY, actions)
  }

  lemma {:induction false} ReachedOk(c: Config, actions: seq<Action>)
    requires c.Valid()
    ensures Inv(c, Reached(c, actions))
  {
    EmptyOk(c);
    ExecKept(c, EMPTY, actions);
  }

  /** Whatever is dispatched twice, redelivered, crashed or re-claimed: each run commits its
      evidence at most once, it is completed exactly when it has, and that is final. */
  lemma {:induction false} AtMostOnce(c: Config, actions: seq<Action>, more: seq<Action>)
    requires c.Valid()
    ensures var s := Reached(c, actions); var s' := Exec(c, s, more);
      && (forall i, j :: 0 <= i < j < |s.commits| ==> s.commits[i].o.run != s.commits[j].o.run)
      && (forall r :: r in s.runs ==> (s.runs[r].status.Completed? <==> Committed(s.commits, r)))
      && (forall r :: r in s.runs && s.runs[r].status.Completed? ==> r in s'.runs && s'.runs[r] == s.runs[r])
      && s.commits <= s'.commits
  {
    ReachedOk(c, actions);
    ExecKept(c, Reached(c, actions), more);
  }

  /** At every moment at most one run of a domain is running inside its lease, and no run is
      attempted more often than configured. */
  lemma {:induction false} OneLiveRunPerDomain(c: Config, actions: seq<Action>)
    requires c.Valid()
    ensures var s := Reached(c, actions);
      && (forall q, r, d :: LiveIn(c, s.runs, s.now, q, d) && LiveIn(c, s.runs, s.now, r, d) ==> q == r)
      && (forall r :: r in s.runs ==> s.runs[r].attempts <= c.maxAttempts)
  {
    ReachedOk(c, actions);
  }

  /** One event per run and one run per key, on every execution; an event is undeliverable exactly
      when its attempts are used up; `dispatched` means appended; both are final. */
  lemma {:induction false} OutboxMatchesRuns(c: Config, actions: seq<Action>, more: seq<Action>)
    requires c.Valid()
    ensures var s := Reached(c, actions); var s' := Exec(c, s, more);
      && (forall r :: r in s.runs ==> HasEvent(s.events, r))
      && (forall e, f :: e in s.events && f in s.events && s.events[e].run == s.events[f].run ==> e == f)
      && (forall q, r :: q in s.runs && r in s.runs && s.runs[q].key == s.runs[r].key ==> q == r)
      && (forall e :: e in s.events ==> s.events[e].attempts <= c.maxAttempts)
      && (forall e :: e in s.events ==> (s.events[e].status.Undeliverable? <==> s.events[e].attempts == c.maxAttempts))
      && (forall e :: e in s.events && s.events[e].status.Dispatched? ==> InStream(s.stream, e))
      && (forall e :: e in s.events && (s.events[e].status.Dispatched? || s.events[e].status.Undeliverable?) ==>
            e in s'.events && s'.events[e] == s.events[e])
  {
    ReachedOk(c, actions);
    ExecKept(c, Reached(c, actions), more);
    assert forall e :: e in Reached(c, actions).events ==> EventOk(c, Reached(c, actions).events[e]);
  }

  /** An outcome is recorded: an attempt is counted, or the event reaches a final status. */
  ghost predicate Records(e: Event, e': Event) {
    || e'.attempts != e.attempts
    || (e'.status.Dispatched? && !e.status.Dispatched?)
    || (e'.status.Undeliverable? && !e.status.Undeliverable?)
  }

  /** Whatever the state and the action, only the dispatcher that holds an event's lease records its outcome, and
      a dispatcher that lost the lease of its next event changes nothing and gives up its batch. */
  lemma {:induction false} LostLeaseRecordsNothing(c: Config, s: State, a: Action, e: nat)
    requires e in s.events
    ensures var s' := Next(c, s, a);
      && e in s'.events
      && (Records(s.events[e], s'.events[e]) ==> (a.MarkDispatched? || a.MarkFailure?) && s.events[e].HeldBy(a.w))
    ensures (a.MarkDispatched? || a.MarkFailure?) && GivesUp(s, a.w, a.MarkFailure?) ==>
              Next(c, s, a) == s.(dispatchers := Without(s.dispatchers, a.w))
  {
    match a
    case ClaimBatch(w, chosen) =>
      if Next(c, s, a) != s { assert Next(c, s, a).events[e] == LeasedRow(c, s.events[e], s.now, w, e in chosen); }
    case MarkDispatched(w) => assert Next(c, s, a) == AfterMark(c, s, w, false, 0);
    case MarkFailure(w, jitter) => assert Next(c, s, a) == AfterMark(c, s, w, true, jitter);
    case _ =>
  }

  /** Dispatcher `w` is about to record an outcome for an event it no longer holds. */
  ghost predicate GivesUp(s: State, w: nat, failed: bool) {
    && w in s.dispatchers && (if failed then s.dispatchers[w].SendFailed? else s.dispatchers[w].Sent?)
    && s.dispatchers[w].batch != [] && s.dispatchers[w].batch[0] in s.events
    && !s.events[s.dispatchers[w].batch[0]].HeldBy(w)
  }

  /** A live lease is respected: until it lapses, only its holder changes the event. A lapsed one is given up by the
      next claim, which may lease the event anew. */
  lemma {:induction false} LeaseIsRespected(c: Config, s: State, a: Action, e: nat, w: nat)
    requires e in s.events && s.events[e].HeldBy(w) && s.events[e].lockedAt.Some?
    ensures var s', at := Next(c, s, a), s.events[e].lockedAt.value;
      && e in s'.events
      && (s.now - at <= c.outboxLease && s'.events[e] != s.events[e] ==>
            (a.MarkDispatched? || a.MarkFailure?) && a.w == w)
      && (s.now - at > c.outboxLease && a.ClaimBatch? && s' != s ==>
            && (e !in a.chosen ==> s'.events[e].status.Pending? && s'.events[e].lockedBy.None?)
            && (e in a.chosen ==> s'.events[e].HeldBy(a.w) && s'.events[e].lockedAt == Some(s.now)))
  {
    match a
    case ClaimBatch(v, chosen) =>
      if Next(c, s, a) != s {
        assert Next(c, s, a).events[e] == LeasedRow(c, s.events[e], s.now, v, e in chosen);
        if e in chosen {
          var i :| 0 <= i < |chosen| && chosen[i] == e;
          assert Claimable(c, Requeued(c, s.events[chosen[i]], s.now), s.now);
        }
      }
    case MarkDispatched(v) => assert Next(c, s, a) == AfterMark(c, s, v, false, 0);
    case MarkFailure(v, jitter) => assert Next(c, s, a) == AfterMark(c, s, v, true, jitter);
    case _ =>
  }

  /** The pause after a failed attempt, without the jitter. */
  function Pause(c: Config, e: Event, now: int, jitter: nat): int {
    EventRetried(c, e, now, jitter).availableAt - now - jitter
  }

  /** The backoff: two seconds after the first failure, twice as long after each further one, at most five minutes. */
  lemma BackoffDoubles(c: Config, e: Event, now: int, jitter: nat)
    ensures e.attempts == 0 ==> Pause(c, e, now, jitter) == 2000
    ensures Pause(c, e.(attempts := e.attempts + 1), now, jitter) == Min(300000, 2 * Pause(c, e, now, jitter))
    ensures 2000 <= Pause(c, e, now, jitter) <= 300000
  {
    Pow2Grows(e.attempts);
    assert Pow2(1) == 2 * Pow2(0);
  }

  lemma {:induction false} Pow2Grows(n: nat)
    ensures Pow2(n) >= 1 && Pow2(n + 1) == 2 * Pow2(n) && Pow2(n + 2) == 4 * Pow2(n)
  {
    if n > 0 { Pow2Grows(n - 1); }
  }

  /** An acknowledged message never needed another delivery: its run is finished, and stays so. */
  lemma {:induction false} AcknowledgedIsFinished(c: Config, actions: seq<Action>, more: seq<Action>, m: nat)
    requires c.Valid() && m in Reached(c, actions).acked
    ensures MessageFinished(c, Reached(c, actions).runs, Reached(c, actions).now, Reached(c, actions).stream, m)
    ensures var s' := Exec(c, Reached(c, actions), more); MessageFinished(c, s'.runs, s'.now, s'.stream, m)
  {
    var s := Reached(c, actions);
    ReachedOk(c, actions);
    ExecKept(c, s, more);
  }

  // ---- Who commits -------------------------------------------------------------------

  /** Task `t` is executing a run that is still running, so that its completion would commit. */
  ghost predicate MayCommit(s: State, t: nat) {
    && t in s.tasks && s.tasks[t].Executing? && s.tasks[t].m < |s.stream|
    && s.stream[s.tasks[t].m].run in s.runs && s.runs[s.stream[s.tasks[t].m].run].status.Running?
  }

  /** The claim stored with the run is the one this task made. */
  ghost predicate OwnClaim(s: State, t: nat)
    requires MayCommit(s, t)
  {
    var r := s.runs[s.stream[s.tasks[t].m].run];
    r.worker == Some(s.tasks[t].worker) && r.attempts == s.tasks[t].attempt
  }

  /** Completion asks only that the run is running. The worker that commits holds the run if and only if the run has
      not been claimed again since, that is, if its attempts are still those the worker was given. */
  lemma {:induction false} CommitterHoldsRun(c: Config, actions: seq<Action>, t: nat)
    requires c.Valid() && MayCommit(Reached(c, actions), t)
    ensures var s := Reached(c, actions); var r := s.runs[s.stream[s.tasks[t].m].run];
      && s.tasks[t].attempt <= r.attempts
      && (OwnClaim(s, t) <==> r.attempts == s.tasks[t].attempt)
  {
    ReachedOk(c, actions);
    var s := Reached(c, actions);
    assert TaskOk(c, s.runs, s.now, s.stream, s.tasks[t]);
  }

  /** A lease that outlives every run, or a single attempt: a run is then claimed at most once. */
  predicate ClaimsOnce(c: Config) {
    c.queueLease >= c.runTimeout || c.maxAttempts == 1
  }

  ghost predicate OnceOk(c: Config, r: Run, now: int) {
    && r.attempts <= 1 && r.deadline - c.runTimeout <= now
    && (r.status.Running? ==> r.heartbeat.Some? && r.heartbeat.value >= r.deadline - c.runTimeout)
    && (r.status.Failed? ==> r.deadline <= now || r.attempts >= c.maxAttempts)
  }

  ghost predicate AllOnce(c: Config, runs: map<nat, Run>, now: int) {
    forall r :: r in runs ==> OnceOk(c, runs[r], now)
  }

  lemma {:induction false} ClaimOnce(c: Config, runs: map<nat, Run>, id: nat, now: int, worker: nat, lockFree: bool)
    requires c.Valid() && ClaimsOnce(c) && RunsOk(c, runs) && AllOnce(c, runs, now)
    ensures AllOnce(c, RunsAfterClaim(c, runs, id, now, worker, lockFree), now)
  {
    if id in runs {
      assert RunOk(c, runs[id]) && OnceOk(c, runs[id], now);
    }
  }

  lemma {:induction false} NextOnce(c: Config, s: State, a: Action)
    requires c.Valid() && ClaimsOnce(c) && RunsOk(c, s.runs) && AllOnce(c, s.runs, s.now) && !a.FailRun?
    ensures AllOnce(c, Next(c, s, a).runs, Next(c, s, a).now)
  {
    match a
    case CreateRun(run, event, key) => assert OnceOk(c, NewRun(c, key, s.now), s.now);
    case ClaimExecution(t, worker, lockFree) =>
      if Next(c, s, a) != s { ClaimOnce(c, s.runs, s.stream[s.tasks[t].m].run, s.now, worker, lockFree); }
    case _ =>
  }

  lemma {:induction false} ReachedOnce(c: Config, actions: seq<Action>)
    requires c.Valid() && ClaimsOnce(c) && forall i :: 0 <= i < |actions| ==> !actions[i].FailRun?
    ensures AllOnce(c, Reached(c, actions).runs, Reached(c, actions).now)
  {
    if actions != [] {
      var before := actions[..|actions| - 1];
      assert forall i :: 0 <= i < |before| ==> before[i] == actions[i];
      ReachedOnce(c, before);
      ReachedOk(c, before);
      NextOnce(c, Reached(c, before), actions[|actions| - 1]);
    }
  }

  /** With such settings, and as long as no run is failed from outside, whoever commits a run holds it. */
  lemma {:induction false} NoStaleCommit(c: Config, actions: seq<Action>, t: nat)
    requires c.Valid() && ClaimsOnce(c) && forall i :: 0 <= i < |actions| ==> !actions[i].FailRun?
    requires MayCommit(Reached(c, actions), t)
    ensures OwnClaim(Reached(c, actions), t)
  {
    ReachedOk(c, actions);
    ReachedOnce(c, actions);
    var s := Reached(c, actions);
    assert TaskOk(c, s.runs, s.now, s.stream, s.tasks[t]);
    assert OnceOk(c, s.runs[s.stream[s.tasks[t].m].run], s.now);
  }

  /** An execution that claims run 0 twice: its message is delivered to two workers, the second after the first
      one's lease lapsed. */
  function ClaimedTwice(c: Config): seq<Action> {
    [CreateRun(0, 0, Slot(0, 0, "")), ClaimBatch(0, [0]), XAdd(0, Appended), Deliver(0, 0),
     ClaimExecution(0, 0, true), Tick(c.queueLease), Deliver(1, 0), ClaimExecution(1, 1, true)]
  }

  lemma {:induction false} ExecSnoc(c: Config, actions: seq<Action>, a: Action)
    ensures Reached(c, actions + [a]) == Next(c, Reached(c, actions), a)
  {
    assert (actions + [a])[..|actions|] == actions;
  }

  lemma {:induction false} FirstCreated(c: Config)
    requires c.Valid()
    ensures Reached(c, ClaimedTwice(c)[..1]) ==
              EMPTY.(runs := map[0 := NewRun(c, Slot(0, 0, ""), 0)], events := map[0 := NewEvent(0, Slot(0, 0, ""), 0)])
  {
    ExecSnoc(c, [], ClaimedTwice(c)[0]);
    assert [] + [ClaimedTwice(c)[0]] == ClaimedTwice(c)[..1];
  }

  lemma {:induction false} FirstSent(c: Config)
    requires c.Valid()
    ensures var s := Reached(c, ClaimedTwice(c)[..3]);
      && s.now == 0 && s.stream == [Message(0, 0)] && s.acked == {} && s.tasks == map[] && s.commits == []
      && s.runs == map[0 := NewRun(c, Slot(0, 0, ""), 0)]
  {
    var all := ClaimedTwice(c);
    FirstCreated(c);
    var s := Reached(c, all[..1]);
    ExecSnoc(c, all[..1], all[1]);
    assert all[..1] + [all[1]] == all[..2];
    assert BatchOk(c, s.events, s.now, [0]);
    var s2 := Reached(c, all[..2]);
    assert s2 == s.(events := EventsAfterClaim(c, s.events, 0, 0, [0]), dispatchers := map[0 := Sending([0])]);
    assert s2.events[0].run == 0;
    ExecSnoc(c, all[..2], all[2]);
    assert all[..2] + [all[2]] == all[..3];
  }

  lemma {:induction false} FirstClaim(c: Config)
    requires c.Valid()
    ensures var s := Reached(c, ClaimedTwice(c)[..5]);
      && s.now == 0 && s.stream == [Message(0, 0)] && s.acked == {} && s.tasks == map[0 := Executing(0, 0, 1)]
      && s.runs == map[0 := ClaimedRow(NewRun(c, Slot(0, 0, ""), 0), 0, 0)]
  {
    var all := ClaimedTwice(c);
    FirstSent(c);
    ExecSnoc(c, all[..3], all[3]);
    assert all[..3] + [all[3]] == all[..4];
    var s := Reached(c, all[..4]);
    assert s.runs == map[0 := NewRun(c, Slot(0, 0, ""), 0)] && s.tasks == map[0 := Received(0)];
    assert Verdict(c, s.runs, 0, s.now, true).Claimed?;
    ExecSnoc(c, all[..4], all[4]);
    assert all[..4] + [all[4]] == all[..5];
  }

  /** Otherwise it can happen: if a lease can lapse before the deadline and a second attempt is allowed, a worker
      whose run was taken over may still commit it. */
  lemma {:induction false} StaleCommitHappens(c: Config, decision: Decision)
    requires c.Valid() && !ClaimsOnce(c) && InSchema(decision)
    ensures var s := Reached(c, ClaimedTwice(c));
      && MayCommit(s, 0) && MayCommit(s, 1) && OwnClaim(s, 1) && !OwnClaim(s, 0)
      && Next(c, s, CompleteRun(0, decision)).commits == s.commits + [Completion(0, Observation(0, true, decision))]
  {
    var all := ClaimedTwice(c);
    FirstClaim(c);
    ExecSnoc(c, all[..5], all[5]);
    assert all[..5] + [all[5]] == all[..6];
    ExecSnoc(c, all[..6], all[6]);
    assert all[..6] + [all[6]] == all[..7];
    ExecSnoc(c, all[..7], all[7]);
    assert all[..7] + [all[7]] == all;
    var s := Reached(c, all[..7]);
    assert s.runs == map[0 := ClaimedRow(NewRun(c, Slot(0, 0, ""), 0), 0, 0)] && s.now == c.queueLease;
    assert !DomainBusy(c, s.runs, 0, s.now);
    assert Verdict(c, s.runs, 0, s.now, true).Claimed?;
  }

  /** Some message about `r` is still waiting to be handled. */
  ghost predicate Undelivered(s: State, r: nat) {
    exists m :: 0 <= m < |s.stream| && s.stream[m].run == r && m !in s.acked
  }

  /** At-least-once: a run that is not finished is still in the outbox, or a message about it is
      still unacknowledged, or the outbox has given up on it. */
  lemma {:induction false} NoRunIsLost(c: Config, actions: seq<Action>, r: nat)
    requires c.Valid() && r in Reached(c, actions).runs
    ensures var s := Reached(c, actions);
      || s.runs[r].Finished(c, s.now)
      || Undelivered(s, r)
      || exists e :: e in s.events && s.events[e].run == r && !s.events[e].status.Dispatched?
  {
    var s := Reached(c, actions);
    ReachedOk(c, actions);
    assert HasEvent(s.events, r);
    var e :| e in s.events && s.events[e].run == r;
    if s.events[e].status.Dispatched? {
      assert InStream(s.stream, e);
      var m :| 0 <= m < |s.stream| && s.stream[m].event == e;
      assert MessageOk(s.events, s.stream[m]);
      if m in s.acked {
        assert MessageFinished(c, s.runs, s.now, s.stream, m);
      }
    }
  }

  /** Expiry settles an overdue run if and only if the run was ever started: the table forbids a
      completion time without a start time, so the update for any other run is refused. */
  lemma {:induction false} ExpiryNeedsStart(c: Config, actions: seq<Action>, r: nat, worker: nat, lockFree: bool)
    requires c.Valid() && r in Reached(c, actions).runs
    requires Reached(c, actions).runs[r].deadline <= Reached(c, actions).now
    requires !Reached(c, actions).runs[r].status.Completed?
    ensures var s := Reached(c, actions);
      RunsAfterClaim(c, s.runs, r, s.now, worker, lockFree)[r].status.Failed? <==> s.runs[r].startedAt.Some?
  {
    ReachedOk(c, actions);
    var s := Reached(c, actions);
    assert RunOk(c, s.runs[r]);
  }

  /** Such a run exists: create one and let its deadline pass. Every claim of it is then refused. */
  lemma {:induction false} OverdueBeforeStartHappens(c: Config, worker: nat, lockFree: bool)
    requires c.Valid()
    ensures var s := Reached(c, [CreateRun(0, 0, Slot(0, 0, "")), Tick(c.runTimeout)]);
      && 0 in s.runs && s.runs[0].startedAt.None? && s.runs[0].deadline <= s.now
      && Verdict(c, s.runs, 0, s.now, lockFree).Rejected?
      && RunsAfterClaim(c, s.runs, 0, s.now, worker, lockFree)[0].status.Queued?
  {
    var create, tick := CreateRun(0, 0, Slot(0, 0, "")), Tick(c.runTimeout);
    assert [create][..0] == [] && [create, tick][..1] == [create];
    assert Exec(c, EMPTY, [create]) == Next(c, Exec(c, EMPTY, [create][..0]), create);
    assert Reached(c, [create]) == AfterCreate(c, EMPTY, 0, 0, Slot(0, 0, ""));
    assert Reached(c, [create, tick]) == Next(c, Reached(c, [create]), tick);
  }

  /** So a run that is overdue before its first claim keeps its row for ever, and none of its
      messages is ever acknowledged. */
  lemma {:induction false} OverdueBeforeStartIsStuck(c: Config, actions: seq<Action>, more: seq<Action>, r: nat)
    requires c.Valid() && r in Reached(c, actions).runs
    requires var s := Reached(c, actions); s.runs[r].startedAt.None? && s.runs[r].deadline <= s.now
    ensures var s, s' := Reached(c, actions), Exec(c, Reached(c, actions), more);
      && r in s'.runs && s'.runs[r] == s.runs[r] && s.runs[r].status.Queued?
      && forall m :: m in s'.acked ==> m < |s'.stream| && s'.stream[m].run != r
  {
    var s, s' := Reached(c, actions), Exec(c, Reached(c, actions), more);
    ReachedOk(c, actions);
    ExecKept(c, s, more);
    assert RunOk(c, s.runs[r]);
    forall m | m in s'.acked ensures m < |s'.stream| && s'.stream[m].run != r {
      assert MessageFinished(c, s'.runs, s'.now, s'.stream, m);
    }
  }
}
