/** The monitoring transactions as the services run them against the database: each method follows
    its source statement by statement and is proved against the action of the state machine. */
module MonitorStore {
  import opened Text
  import opened Hysteresis
  import opened Settings
  import opened Ledger
  import opened Pipeline
  import opened Selection

  datatype Schedule = Schedule(domain: nat, enabled: bool, intervalSeconds: nat, jitterSeconds: nat, nextDue: int)

  datatype ManualOutcome =
    | Created(run: nat) | Existing(run: nat)
    | InvalidKey | DomainNotFound | DomainInactive | Conflict

  /** The columns of `domains` that decide whether it is checked. */
  datatype Flags = Flags(lifecycleActive: bool, monitoring: bool)

  /** The identifiers a transaction draws for a run and its event. */
  datatype Fresh = Fresh(run: nat, event: nat)

  /** The slot of a schedule: its due time, to the second. */
  function SlotKey(s: Schedule, version: string): DedupKey {
    Slot(s.domain, s.nextDue - s.nextDue % 1000, version)
  }

  /** Two due times share a slot if and only if they lie in the same second of the same domain, under one version. */
  lemma SlotIsSecond(s: Schedule, t: Schedule, v: string, w: string)
    ensures SlotKey(s, v) == SlotKey(t, w) <==> s.domain == t.domain && v == w && s.nextDue / 1000 == t.nextDue / 1000
  {
  }

  /** The interval and the jitter count from the present, so missed intervals are coalesced. */
  function Rescheduled(s: Schedule, now: int): Schedule {
    s.(nextDue := now + 1000 * (s.intervalSeconds + s.jitterSeconds))
  }

  predicate Due(flags: map<nat, Flags>, s: Schedule, now: int) {
    s.enabled && s.nextDue <= now && s.domain in flags && flags[s.domain].monitoring && flags[s.domain].lifecycleActive
  }

  /** The schedules that ought to run. */
  ghost function DueSet(flags: map<nat, Flags>, schedules: map<nat, Schedule>, now: int): set<nat> {
    set k | k in schedules && Due(flags, schedules[k], now)
  }

  function SlotKeys(schedules: map<nat, Schedule>, due: seq<nat>, version: string): (keys: seq<DedupKey>)
    requires forall i :: 0 <= i < |due| ==> due[i] in schedules
    ensures |keys| == |due|
  {
    seq(|due|, i requires 0 <= i < |due| => SlotKey(schedules[due[i]], version))
  }

  /** Due again one interval and the schedule's jitter from now, in seconds; otherwise the same. */
  ghost predicate MovedOn(s: Schedule, s': Schedule, now: int) {
    && s'.domain == s.domain && s'.enabled == s.enabled
    && s'.intervalSeconds == s.intervalSeconds && s'.jitterSeconds == s.jitterSeconds
    && s'.nextDue - now == s.intervalSeconds * 1000 + s.jitterSeconds * 1000
  }

  ghost predicate AdvancedSchedules(before: map<nat, Schedule>, after: map<nat, Schedule>, due: seq<nat>, now: int) {
    && after.Keys == before.Keys
    && forall k :: k in before ==> if k in due then MovedOn(before[k], after[k], now) else after[k] == before[k]
  }

  lemma {:induction false} AdvancedOne(before: map<nat, Schedule>, after: map<nat, Schedule>, due: seq<nat>, i: nat,
                                       now: int)
    requires i < |due| && due[i] in before && AdvancedSchedules(before, after, due[..i], now)
    requires forall j, k :: 0 <= j < k < |due| ==> due[j] != due[k]
    ensures AdvancedSchedules(before, after[due[i] := Rescheduled(after[due[i]], now)], due[..i + 1], now)
  {
    assert due[..i + 1] == due[..i] + [due[i]];
    assert due[i] !in due[..i];
  }

  /** Once processed, a schedule is not due at the same instant again. */
  lemma {:induction false} ProcessedOnce(flags: map<nat, Flags>, before: map<nat, Schedule>, after: map<nat, Schedule>,
                                         due: seq<nat>, now: int, k: nat)
    requires AdvancedSchedules(before, after, due, now) && k in due && k in before && before[k].intervalSeconds > 0
    ensures !Due(flags, after[k], now)
  {
  }

  /** The runs and events that creating one run per slot leaves behind. */
  function CreatedMany(c: Config, s: State, keys: seq<DedupKey>, ids: seq<Fresh>): State
    requires |keys| == |ids|
  {
    if keys == [] then s
    else
      var n := |keys| - 1;
      AfterCreate(c, CreatedMany(c, s, keys[..n], ids[..n]), ids[n].run, ids[n].event, keys[n])
  }

  function CreateActions(keys: seq<DedupKey>, ids: seq<Fresh>): seq<Action>
    requires |keys| == |ids|
  {
    if keys == [] then []
    else
      var n := |keys| - 1;
      CreateActions(keys[..n], ids[..n]) + [CreateRun(ids[n].run, ids[n].event, keys[n])]
  }

  /** The scheduler's transaction is an execution of the pipeline. */
  lemma {:induction false} CreatedManyIsExec(c: Config, s: State, keys: seq<DedupKey>, ids: seq<Fresh>)
    requires |keys| == |ids|
    ensures CreatedMany(c, s, keys, ids) == Exec(c, s, CreateActions(keys, ids))
  {
    if keys != [] {
      var n := |keys| - 1;
      CreatedManyIsExec(c, s, keys[..n], ids[..n]);
      var before := CreateActions(keys[..n], ids[..n]);
      assert CreateActions(keys, ids)[..|before|] == before;
    }
  }

  /** A run nobody has touched, with its deadline counted from now. */
  ghost predicate BrandNew(c: Config, r: Run, now: int) {
    && r.status.Queued? && r.deadline == now + c.runTimeout && r.attempts == 0
    && r.startedAt.None? && r.completedAt.None? && r.heartbeat.None? && r.worker.None?
  }

  /** An event that can be claimed at once. */
  ghost predicate Ready(e: Event, now: int) {
    e.status.Pending? && e.attempts == 0 && e.availableAt == now && e.lockedAt.None? && e.lockedBy.None?
  }

  /** Some run is that of the second in which the schedule was due. */
  ghost predicate HasRun(runs: map<nat, Run>, s: Schedule, version: string) {
    exists r, at ::
      r in runs && runs[r].key == Slot(s.domain, at, version) && at % 1000 == 0 && at <= s.nextDue < at + 1000
  }

  /** Existing runs and events are kept; the new ones are for the given keys and untouched. */
  ghost predicate OnlyNew(c: Config, s: State, s': State, keys: seq<DedupKey>) {
    && s'.now == s.now
    && (forall r :: r in s.runs ==> r in s'.runs && s'.runs[r] == s.runs[r])
    && (forall e :: e in s.events ==> e in s'.events && s'.events[e] == s.events[e])
    && (forall r :: r in s'.runs && r !in s.runs ==> s'.runs[r].key in keys && BrandNew(c, s'.runs[r], s.now))
    && (forall e :: e in s'.events && e !in s.events ==>
          Ready(s'.events[e], s.now) && s'.events[e].run in s'.runs && s'.events[e].run !in s.runs)
  }

  lemma {:induction false} CreatedManyMeans(c: Config, s: State, keys: seq<DedupKey>, ids: seq<Fresh>)
    requires |keys| == |ids|
    ensures OnlyNew(c, s, CreatedMany(c, s, keys, ids), keys)
  {
    if keys != [] {
      var n := |keys| - 1;
      CreatedManyMeans(c, s, keys[..n], ids[..n]);
      assert keys == keys[..n] + [keys[n]];
    }
  }

  /** The actions of one uninterrupted `RunOnce`, up to its `n`-th event. */
  function RunOnceActions(w: nat, batch: seq<nat>, replies: seq<Reply>, jitters: seq<nat>, n: nat): seq<Action>
    requires n <= |batch| <= |replies| && |batch| <= |jitters|
  {
    if n == 0 then [ClaimBatch(w, batch)]
    else
      RunOnceActions(w, batch, replies, jitters, n - 1)
      + [XAdd(w, replies[n - 1]), Recording(w, replies[n - 1], jitters[n - 1])]
  }

  function SentCount(replies: seq<Reply>, n: nat): nat
    requires n <= |replies|
  {
    if n == 0 then 0 else SentCount(replies, n - 1) + if replies[n - 1].Appended? then 1 else 0
  }

  /** What sending one held event does to the stream and to its row. */
  function StreamAfter(stream: seq<Message>, e: nat, run: nat, reply: Reply): seq<Message> {
    if reply.Refused? then stream else stream + [Message(e, run)]
  }

  function RowAfter(c: Config, e: Event, reply: Reply, now: int, jitter: nat): Event {
    if reply.Appended? then EventDispatched(e) else EventRetried(c, e, now, jitter)
  }

  function Recording(w: nat, reply: Reply, jitter: nat): Action {
    if reply.Appended? then MarkDispatched(w) else MarkFailure(w, jitter)
  }

  /** A dispatcher that still holds the head of its batch sends it and records the outcome. */
  lemma {:induction false} SendOne(c: Config, s: State, w: nat, batch: seq<nat>, reply: Reply, jitter: nat)
    requires batch != [] && s.dispatchers == map[w := Sending(batch)]
    requires batch[0] in s.events && s.events[batch[0]].HeldBy(w)
    ensures var e := batch[0];
      Next(c, Next(c, s, XAdd(w, reply)), Recording(w, reply, jitter))
      == s.(stream := StreamAfter(s.stream, e, s.events[e].run, reply),
            events := s.events[e := RowAfter(c, s.events[e], reply, s.now, jitter)],
            dispatchers := if |batch| == 1 then map[] else map[w := Sending(batch[1..])])
  {
    var mid := AfterXAdd(s, w, reply);
    assert mid.dispatchers[w].batch == batch;
    var last := AfterMark(c, mid, w, !reply.Appended?, if reply.Appended? then 0 else jitter);
    assert Without(mid.dispatchers, w) == map[];
  }

  lemma {:induction false} ExecTwo(c: Config, s: State, actions: seq<Action>, a: Action, b: Action)
    ensures Exec(c, s, actions + [a, b]) == Next(c, Next(c, Exec(c, s, actions), a), b)
  {
    var all := actions + [a, b];
    assert all[..|all| - 1] == actions + [a];
    assert (actions + [a])[..|actions|] == actions;
  }

  /** Where `RunOnce` stands after its first `n` events. */
  function Remaining(w: nat, batch: seq<nat>, n: nat): map<nat, Dispatcher>
    requires n <= |batch|
  {
    if n == |batch| then map[] else map[w := Sending(batch[n..])]
  }

  lemma {:induction false} RunOnceStep(c: Config, start: State, s: State, w: nat, batch: seq<nat>, replies: seq<Reply>,
                                       jitters: seq<nat>, n: nat)
    requires n < |batch| <= |replies| && |batch| <= |jitters|
    requires s == Exec(c, start, RunOnceActions(w, batch, replies, jitters, n))
    requires s.dispatchers == Remaining(w, batch, n)
    requires batch[n] in s.events && s.events[batch[n]].HeldBy(w)
    ensures var e := batch[n];
      Exec(c, start, RunOnceActions(w, batch, replies, jitters, n + 1))
      == s.(stream := StreamAfter(s.stream, e, s.events[e].run, replies[n]),
            events := s.events[e := RowAfter(c, s.events[e], replies[n], s.now, jitters[n])],
            dispatchers := Remaining(w, batch, n + 1))
  {
    SendOne(c, s, w, batch[n..], replies[n], jitters[n]);
    ExecTwo(c, start, RunOnceActions(w, batch, replies, jitters, n), XAdd(w, replies[n]),
            Recording(w, replies[n], jitters[n]));
    assert batch[n..][1..] == batch[n + 1..];
  }

  ghost predicate AllTaken(runs: map<nat, Run>, keys: seq<DedupKey>, n: nat)
    requires n <= |keys|
  {
    forall i :: 0 <= i < n ==> KeyTaken(runs, keys[i])
  }

  /** Runs are never removed, so their keys stay taken. */
  ghost predicate RunsGrow(runs: map<nat, Run>, runs': map<nat, Run>) {
    forall r :: r in runs ==> r in runs' && runs'[r] == runs[r]
  }

  lemma TakenNext(runs: map<nat, Run>, runs': map<nat, Run>, keys: seq<DedupKey>, n: nat)
    requires n < |keys| && AllTaken(runs, keys, n) && RunsGrow(runs, runs') && KeyTaken(runs', keys[n])
    ensures AllTaken(runs', keys, n + 1)
  {
    forall i | 0 <= i < n ensures KeyTaken(runs', keys[i]) {
      assert KeyTaken(runs, keys[i]);
      var r :| r in runs && runs[r].key == keys[i];
      assert runs'[r].key == keys[i];
    }
  }

  lemma SlotTaken(runs: map<nat, Run>, s: Schedule, version: string, key: DedupKey)
    requires key == SlotKey(s, version) && KeyTaken(runs, key)
    ensures HasRun(runs, s, version)
  {
    var r :| r in runs && runs[r].key == key;
    assert runs[r].key == Slot(s.domain, key.at, version);
  }

  /** Held by a dispatcher whose lease has lapsed. */
  predicate Abandoned(c: Config, e: Event, now: int) {
    e.status.Dispatching? && e.lockedAt.Some? && e.lockedAt.value < now - c.outboxLease
  }

  /** The events that ought to be sent: pending or abandoned, due, and with attempts left. */
  ghost function WaitingSet(c: Config, events: map<nat, Event>, now: int): set<nat> {
    set e | e in events && (events[e].status.Pending? || Abandoned(c, events[e], now))
            && events[e].availableAt <= now && events[e].attempts < c.maxAttempts
  }

  /** The same once the abandoned events have been requeued. */
  ghost function PendingSet(c: Config, events: map<nat, Event>, now: int): set<nat> {
    set e | e in events && events[e].status.Pending? && events[e].availableAt <= now
            && events[e].attempts < c.maxAttempts
  }

  /** What a claim makes of an event: leased to `w`, taken back from its holder, or left alone. */
  ghost predicate ClaimedAs(c: Config, e: Event, e': Event, now: int, w: nat, taken: bool) {
    && e'.run == e.run && e'.key == e.key && e'.attempts == e.attempts && e'.availableAt == e.availableAt
    && if taken then e'.status.Dispatching? && e'.lockedBy == Some(w) && e'.lockedAt == Some(now)
       else if Abandoned(c, e, now) then e'.status.Pending? && e'.lockedBy.None? && e'.lockedAt.None?
       else e' == e
  }

  ghost predicate BatchClaimed(c: Config, events: map<nat, Event>, events': map<nat, Event>, now: int, w: nat,
                               batch: seq<nat>) {
    && events'.Keys == events.Keys
    && forall e :: e in events ==> ClaimedAs(c, events[e], events'[e], now, w, e in batch)
  }

  lemma ClaimIsBatch(c: Config, events: map<nat, Event>, now: int, w: nat, visited: seq<nat>, batch: seq<nat>)
    requires c.Valid() && FirstOf(visited, WaitingSet(c, events, now), batch, c.outboxBatch)
    ensures BatchOk(c, events, now, batch)
    ensures BatchClaimed(c, events, EventsAfterClaim(c, events, now, w, batch), now, w, batch)
  {
    FirstOfMembers(visited, WaitingSet(c, events, now), batch, c.outboxBatch);
    var events' := EventsAfterClaim(c, events, now, w, batch);
    forall e | e in events ensures ClaimedAs(c, events[e], events'[e], now, w, e in batch) {
      assert events'[e] == LeasedRow(c, events[e], now, w, e in batch);
    }
  }

  /** What a whole turn makes of an event it claimed: sent for good, or one attempt less and a pause. */
  ghost predicate SettledAs(c: Config, e: Event, e': Event, reply: Reply, now: int, jitter: nat) {
    && e'.run == e.run && e'.key == e.key && e'.lockedAt.None? && e'.lockedBy.None?
    && if reply.Appended? then e'.status.Dispatched? && e'.attempts == e.attempts && e'.availableAt == e.availableAt
       else
         && e'.attempts == e.attempts + 1
         && e'.status == (if e'.attempts >= c.maxAttempts then Undeliverable else Pending)
         && 2000 <= e'.availableAt - now - jitter <= 300000
  }

  /** The messages that reach the stream: one for each append that was not refused, in order. */
  function Sendings(events: map<nat, Event>, batch: seq<nat>, replies: seq<Reply>, n: nat): seq<Message>
    requires n <= |batch| <= |replies| && forall i :: 0 <= i < n ==> batch[i] in events
  {
    if n == 0 then []
    else
      Sendings(events, batch, replies, n - 1)
      + if replies[n - 1] == Refused then [] else [Message(batch[n - 1], events[batch[n - 1]].run)]
  }

  lemma RowSettles(c: Config, e: Event, claimed: Event, w: nat, reply: Reply, now: int, jitter: nat)
    requires ClaimedAs(c, e, claimed, now, w, true)
    ensures SettledAs(c, e, RowAfter(c, claimed, reply, now, jitter), reply, now, jitter)
  {
    BackoffDoubles(c, claimed, now, jitter);
  }

  /** Distinct events, all held by `w`. */
  ghost predicate Held(events: map<nat, Event>, w: nat, batch: seq<nat>) {
    && (forall i, j :: 0 <= i < j < |batch| ==> batch[i] != batch[j])
    && (forall j :: 0 <= j < |batch| ==> batch[j] in events && events[batch[j]].HeldBy(w))
  }

  /** The outbox once the first `n` events of the batch have been recorded. */
  function RowsAfter(c: Config, events: map<nat, Event>, batch: seq<nat>, replies: seq<Reply>, jitters: seq<nat>,
                     now: int, n: nat): (r: map<nat, Event>)
    requires n <= |batch| <= |replies| && |batch| <= |jitters| && forall i :: 0 <= i < |batch| ==> batch[i] in events
    ensures r.Keys == events.Keys
  {
    if n == 0 then events
    else
      var e := batch[n - 1];
      RowsAfter(c, events, batch, replies, jitters, now, n - 1)[
        e := RowAfter(c, events[e], replies[n - 1], now, jitters[n - 1])]
  }

  lemma {:induction false} RowUntouched(c: Config, events: map<nat, Event>, batch: seq<nat>, replies: seq<Reply>,
                                        jitters: seq<nat>, now: int, n: nat, e: nat)
    requires n <= |batch| <= |replies| && |batch| <= |jitters| && forall i :: 0 <= i < |batch| ==> batch[i] in events
    requires e in events && forall i :: 0 <= i < n ==> batch[i] != e
    ensures RowsAfter(c, events, batch, replies, jitters, now, n)[e] == events[e]
  {
    if n > 0 { RowUntouched(c, events, batch, replies, jitters, now, n - 1, e); }
  }

  lemma {:induction false} RowTouched(c: Config, events: map<nat, Event>, batch: seq<nat>, replies: seq<Reply>,
                                      jitters: seq<nat>, now: int, n: nat, j: nat, w: nat)
    requires j < n <= |batch| <= |replies| && |batch| <= |jitters| && Held(events, w, batch)
    ensures RowsAfter(c, events, batch, replies, jitters, now, n)[batch[j]] ==
              RowAfter(c, events[batch[j]], replies[j], now, jitters[j])
  {
    if j < n - 1 { RowTouched(c, events, batch, replies, jitters, now, n - 1, j, w); }
  }

  lemma NextRow(c: Config, events: map<nat, Event>, batch: seq<nat>, replies: seq<Reply>, jitters: seq<nat>, now: int,
                n: nat, w: nat)
    requires n < |batch| <= |replies| && |batch| <= |jitters| && Held(events, w, batch)
    ensures RowsAfter(c, events, batch, replies, jitters, now, n)[batch[n]] == events[batch[n]]
  {
    RowUntouched(c, events, batch, replies, jitters, now, n, batch[n]);
  }

  /** Where the machine stands after the claim and `n` events. */
  ghost function Standing(c: Config, claimed: State, w: nat, batch: seq<nat>, replies: seq<Reply>, jitters: seq<nat>,
                          n: nat): State
    requires n <= |batch| <= |replies| && |batch| <= |jitters|
    requires forall i :: 0 <= i < |batch| ==> batch[i] in claimed.events
  {
    claimed.(stream := claimed.stream + Sendings(claimed.events, batch, replies, n),
             events := RowsAfter(c, claimed.events, batch, replies, jitters, claimed.now, n),
             dispatchers := Remaining(w, batch, n))
  }

  lemma {:induction false} TurnIsExec(c: Config, s: State, claimed: State, w: nat, batch: seq<nat>,
                                      replies: seq<Reply>, jitters: seq<nat>, n: nat)
    requires n <= |batch| <= |replies| && |batch| <= |jitters| && Held(claimed.events, w, batch)
    requires Exec(c, s, RunOnceActions(w, batch, replies, jitters, 0)) ==
               Standing(c, claimed, w, batch, replies, jitters, 0)
    ensures Exec(c, s, RunOnceActions(w, batch, replies, jitters, n)) ==
              Standing(c, claimed, w, batch, replies, jitters, n)
  {
    if n > 0 {
      TurnIsExec(c, s, claimed, w, batch, replies, jitters, n - 1);
      TurnStep(c, s, claimed, w, batch, replies, jitters, n - 1);
    }
  }

  lemma TurnStep(c: Config, s: State, claimed: State, w: nat, batch: seq<nat>, replies: seq<Reply>, jitters: seq<nat>,
                 n: nat)
    requires n < |batch| <= |replies| && |batch| <= |jitters| && Held(claimed.events, w, batch)
    requires Exec(c, s, RunOnceActions(w, batch, replies, jitters, n)) ==
               Standing(c, claimed, w, batch, replies, jitters, n)
    ensures Exec(c, s, RunOnceActions(w, batch, replies, jitters, n + 1)) ==
              Standing(c, claimed, w, batch, replies, jitters, n + 1)
  {
    NextRow(c, claimed.events, batch, replies, jitters, claimed.now, n, w);
    RunOnceStep(c, s, Standing(c, claimed, w, batch, replies, jitters, n), w, batch, replies, jitters, n);
    StandingNext(c, claimed, w, batch, replies, jitters, n);
  }

  lemma ClaimIsExec(c: Config, s: State, claimed: State, w: nat, batch: seq<nat>, replies: seq<Reply>,
                    jitters: seq<nat>)
    requires |batch| <= |replies| && |batch| <= |jitters| && Held(claimed.events, w, batch)
    requires s.dispatchers == map[] && BatchOk(c, s.events, s.now, batch)
    requires claimed == s.(events := EventsAfterClaim(c, s.events, s.now, w, batch))
    ensures Exec(c, s, RunOnceActions(w, batch, replies, jitters, 0)) ==
              Standing(c, claimed, w, batch, replies, jitters, 0)
  {
    assert [ClaimBatch(w, batch)][..0] == [] && batch[0..] == batch;
    assert Exec(c, s, [ClaimBatch(w, batch)]) == Next(c, s, ClaimBatch(w, batch));
  }

  lemma StandingNext(c: Config, claimed: State, w: nat, batch: seq<nat>, replies: seq<Reply>, jitters: seq<nat>, n: nat)
    requires n < |batch| <= |replies| && |batch| <= |jitters| && Held(claimed.events, w, batch)
    requires RowsAfter(c, claimed.events, batch, replies, jitters, claimed.now, n)[batch[n]] == claimed.events[batch[n]]
    ensures var s, e := Standing(c, claimed, w, batch, replies, jitters, n), batch[n];
      s.(stream := StreamAfter(s.stream, e, s.events[e].run, replies[n]),
         events := s.events[e := RowAfter(c, s.events[e], replies[n], s.now, jitters[n])],
         dispatchers := Remaining(w, batch, n + 1)) == Standing(c, claimed, w, batch, replies, jitters, n + 1)
  {
  }

  lemma ClaimHolds(c: Config, events: map<nat, Event>, now: int, w: nat, batch: seq<nat>)
    requires BatchOk(c, events, now, batch)
    ensures Held(EventsAfterClaim(c, events, now, w, batch), w, batch)
  {
  }

  lemma TurnSettles(c: Config, events: map<nat, Event>, claimed: map<nat, Event>, batch: seq<nat>,
                    replies: seq<Reply>, jitters: seq<nat>, now: int, w: nat)
    requires |batch| <= |replies| && |batch| <= |jitters|
    requires BatchClaimed(c, events, claimed, now, w, batch) && Held(claimed, w, batch)
    ensures TurnDone(c, events, RowsAfter(c, claimed, batch, replies, jitters, now, |batch|), batch, replies, jitters,
                     now, w)
  {
    var events' := RowsAfter(c, claimed, batch, replies, jitters, now, |batch|);
    forall e | e in events && e !in batch ensures ClaimedAs(c, events[e], events'[e], now, w, false) {
      RowUntouched(c, claimed, batch, replies, jitters, now, |batch|, e);
    }
    forall i | 0 <= i < |batch|
      ensures batch[i] in events && SettledAs(c, events[batch[i]], events'[batch[i]], replies[i], now, jitters[i])
    {
      assert ClaimedAs(c, events[batch[i]], claimed[batch[i]], now, w, true);
      RowTouched(c, claimed, batch, replies, jitters, now, |batch|, i, w);
      RowSettles(c, events[batch[i]], claimed[batch[i]], w, replies[i], now, jitters[i]);
    }
  }

  /** After a turn every event of the batch is settled by its reply, and the others are at most requeued. */
  ghost predicate TurnDone(c: Config, events: map<nat, Event>, events': map<nat, Event>, batch: seq<nat>,
                           replies: seq<Reply>, jitters: seq<nat>, now: int, w: nat)
    requires |batch| <= |replies| && |batch| <= |jitters|
  {
    && events'.Keys == events.Keys
    && (forall i :: 0 <= i < |batch| ==>
          batch[i] in events && SettledAs(c, events[batch[i]], events'[batch[i]], replies[i], now, jitters[i]))
    && (forall e :: e in events && e !in batch ==> ClaimedAs(c, events[e], events'[e], now, w, false))
  }

  /** Another run of the same domain is running inside its lease. */
  ghost predicate OtherLive(c: Config, runs: map<nat, Run>, id: nat, now: int)
    requires id in runs
  {
    exists other ::
      && other in runs && other != id && runs[other].key.domain == runs[id].key.domain
      && runs[other].status == Running && runs[other].heartbeat.Some?
      && now - runs[other].heartbeat.value < c.queueLease
  }

  /** Nobody else is at work on the run or its domain. */
  ghost predicate Unclaimed(c: Config, runs: map<nat, Run>, id: nat, now: int, lockFree: bool)
    requires id in runs
  {
    && lockFree && !OtherLive(c, runs, id, now)
    && (runs[id].status == Running && runs[id].heartbeat.Some? ==> now - runs[id].heartbeat.value >= c.queueLease)
  }

  class Database {
    var now: int
    var runs: map<nat, Run>
    var events: map<nat, Event>
    var stream: seq<Message>
    var domains: map<nat, DomainState>
    var flags: map<nat, Flags>
    var schedules: map<nat, Schedule>

    constructor ()
      ensures runs == map[] && events == map[] && stream == [] && domains == map[] && flags == map[]
      ensures schedules == map[]
    {
      now, runs, events, stream, domains, flags, schedules := 0, map[], map[], [], map[], map[], map[];
    }

    /** The part of the pipeline's state that lives in the database. */
    ghost function View(): State
      reads this
    {
      State(now, runs, events, map[], stream, map[], {}, [])
    }

    // ---- Runs ----------------------------------------------------------------------

    method ClaimExecution(c: Config, id: nat, worker: nat, lockFree: bool) returns (outcome: ClaimOutcome)
      modifies this`runs
      ensures outcome == Verdict(c, old(runs), id, now, lockFree)
      ensures runs == RunsAfterClaim(c, old(runs), id, now, worker, lockFree)
      ensures outcome.Claimed? <==>
                && id in old(runs) && !old(runs)[id].status.Completed? && !old(runs)[id].status.Cancelled?
                && old(runs)[id].deadline > now && Unclaimed(c, old(runs), id, now, lockFree)
                && old(runs)[id].attempts < c.maxAttempts
      ensures outcome.Claimed? ==>
                var r := old(runs)[id];
                var started := if r.startedAt.Some? then r.startedAt else Some(now);
                runs == old(runs)[id := Run(r.key, Running, r.deadline, started, r.completedAt, Some(now), Some(worker),
                                            r.attempts + 1)]
      ensures outcome.Expired? <==>
                && id in old(runs) && !old(runs)[id].status.Completed? && !old(runs)[id].status.Cancelled?
                && old(runs)[id].startedAt.Some?
                && (old(runs)[id].deadline <= now
                    || (Unclaimed(c, old(runs), id, now, lockFree) && old(runs)[id].attempts >= c.maxAttempts))
      ensures outcome.Expired? ==>
                && runs.Keys == old(runs).Keys && (forall q :: q in runs && q != id ==> runs[q] == old(runs)[q])
                && var r, overdue := old(runs)[id], old(runs)[id].deadline <= now;
                   runs[id] == Run(r.key, Failed, r.deadline, r.startedAt, Some(now),
                                   if overdue then None else r.heartbeat, if overdue then None else r.worker,
                                   r.attempts)
      ensures !outcome.Claimed? && !outcome.Expired? ==> runs == old(runs)
    {
      if id !in runs { return NotFound; }
      var run := runs[id];
      if run.status == Completed || run.status == Cancelled { return AlreadyDone; }
      if run.deadline <= now {
        var failed := run.(status := Failed, completedAt := Some(now), worker := None, heartbeat := None);
        if !failed.Storable() { return Rejected; }
        runs := runs[id := failed];
        return Expired;
      }
      if run.status == Running && run.heartbeat.Some? && run.heartbeat.value > now - c.queueLease { return Busy; }
      if !lockFree { return Busy; }
      if exists other ::
           && other in runs && other != id && runs[other].Domain() == run.Domain()
           && runs[other].status == Running && runs[other].heartbeat.Some?
           && runs[other].heartbeat.value > now - c.queueLease {
        return Busy;
      }
      if run.attempts >= c.maxAttempts {
        var failed := run.(status := Failed, completedAt := Some(now));
        if !failed.Storable() { return Rejected; }
        runs := runs[id := failed];
        return Expired;
      }
      run := run.(status := Running, startedAt := if run.startedAt.Some? then run.startedAt else Some(now));
      run := run.(worker := Some(worker), heartbeat := Some(now), attempts := run.attempts + 1);
      runs := runs[id := run];
      return Claimed;
    }

    method FailRun(id: nat) returns (ok: bool)
      modifies this`runs
      ensures runs == RunsAfterFail(old(runs), id, now)
      ensures !ok ==> runs == old(runs)
    {
      ok := true;
      if id in runs && runs[id].status != Completed {
        var failed := runs[id].(status := Failed, completedAt := Some(now), worker := None, heartbeat := None);
        if !failed.Storable() { return false; }
        runs := runs[id := failed];
      }
    }

    /** One history row per changed dimension. */
    method PersistHistory(d: nat, run: nat, before: DomainRow, after: EffectiveState)
      requires d in domains
      modifies this`domains
      ensures var base := old(domains[d]);
        domains == old(domains)[d := base.(history := base.history + EntriesFor(after.changed, run, before, after.row))]
    {
      var base := domains[d];
      var log := base.history;
      for i := 0 to |after.changed|
        invariant log == base.history + EntriesFor(after.changed[..i], run, before, after.row)
      {
        var dim := after.changed[i];
        log := log
            + [HistoryEntry(dim, Nullable(ValueOf(before, dim)), ValueOf(after.row, dim), after.row.confidence, run)];
        assert after.changed[..i + 1][..i] == after.changed[..i];
      }
      assert after.changed[..|after.changed|] == after.changed;
      domains := domains[d := base.(history := log)];
    }

    method ApplyIncident(c: Config, d: nat, o: Observation, row: DomainRow)
      requires d in domains
      modifies this`domains
      ensures var base := old(domains[d]);
        domains == old(domains)[d := base.(incidents := IncidentsAfter(c.policy, base.incidents, o, row))]
    {
      var incidents, decision := domains[d].incidents, o.decision;
      var i := 0;
      while i < |incidents| && !incidents[i].active
        invariant i <= |incidents| && forall k :: 0 <= k < i ==> !incidents[k].active
      {
        i := i + 1;
      }
      ghost var found := incidents;
      assert i == FirstActive(found);
      var hasIncident := i < |incidents|;
      if decision.availability == Active && hasIncident {
        incidents := incidents[i := incidents[i].(closeCount := row.successStreak)];
        if row.availability == Active && row.successStreak >= c.policy.closeSuccesses {
          incidents := incidents[i := incidents[i].(active := false, closedBy := Some(o.run))];
        }
      } else if decision.availability == Unavailable || decision.availability == Degraded {
        if hasIncident {
          incidents := incidents[i := incidents[i].(
            openCount := Max(incidents[i].openCount, row.failureStreak), failureStage := decision.failureStage,
            errorCode := decision.errorCode, closeCount := 0)];
        } else if !(row.availability != Unavailable || row.failureStreak < c.policy.openFailures) {
          incidents := incidents
              + [Incident(true, o.run, None, row.failureStreak, 0, decision.failureStage, decision.errorCode)];
        }
      }
      assert incidents == IncidentsAfter(c.policy, found, o, row);
      domains := domains[d := domains[d].(incidents := incidents)];
    }

    /** The effective row, its history and the incident. */
    method WriteEffects(c: Config, d: nat, o: Observation)
      requires d in domains
      modifies this`domains
      ensures domains == old(domains)[d := Commit(c.policy, old(domains)[d], Local(o))]
    {
      var current := domains[d].row;
      var effective := Advance(c.policy, current, o);
      domains := domains[d := domains[d].(row := effective.row)];
      PersistHistory(d, o.run, current, effective);
      if o.qualifying {
        ApplyIncident(c, d, o, effective.row);
      }
    }

    /** Everything is written before the status is checked; losing the lease rolls all of it back. The run decides
        the domain and whether the check qualifies. Seen from any state of the pipeline in which a delivery is
        executing this run, this is the completion action. */
    method CompleteRun(c: Config, id: nat, decision: Decision, ghost s: State, ghost t: nat) returns (ok: bool)
      requires id in runs && forall r :: r in runs ==> runs[r].Domain() in domains
      requires s.runs == runs && s.now == now && t in s.tasks && s.tasks[t].Executing?
      requires s.tasks[t].m < |s.stream| && s.stream[s.tasks[t].m].run == id
      modifies this`runs, this`domains
      ensures ok <==> old(runs)[id].status.Running? && InSchema(decision)
      ensures runs == AfterComplete(s, t, decision).runs
      ensures var o := Observation(id, !old(runs)[id].Manual(), decision); var d := old(runs)[id].Domain();
        && AfterComplete(s, t, decision).commits == s.commits + (if ok then [Completion(d, o)] else [])
        && domains == if ok then old(domains)[d := Commit(c.policy, old(domains)[d], Local(o))] else old(domains)
      ensures ok ==>
                var r := old(runs)[id];
                var done := Run(r.key, Completed, r.deadline, r.startedAt, Some(now), None, None, r.attempts);
                runs == old(runs)[id := done]
      ensures !ok ==> runs == old(runs)
    {
      var saved := domains;
      if !InSchema(decision) { return false; }
      WriteEffects(c, runs[id].Domain(), Observation(id, !runs[id].Manual(), decision));
      if runs[id].status != Running {
        domains := saved;
        return false;
      }
      runs := runs[id := runs[id].(status := Completed, completedAt := Some(now), worker := None, heartbeat := None)];
      return true;
    }

    // ---- Creation ------------------------------------------------------------------

    /** The insert shared by both creators, with its event. */
    method InsertRun(c: Config, key: DedupKey, ids: Fresh) returns (created: bool, failed: bool)
      modifies this`runs, this`events
      ensures View() == AfterCreate(c, old(View()), ids.run, ids.event, key)
      ensures created <==> !KeyTaken(old(runs), key) && ids.run !in old(runs) && ids.event !in old(events)
      ensures failed <==> !created && !KeyTaken(old(runs), key)
      ensures |runs| == |old(runs)| + if created then 1 else 0
      ensures RunsGrow(old(runs), runs) && (!failed ==> KeyTaken(runs, key))
    {
      if exists r :: r in runs && runs[r].key == key { return false, false; }
      if ids.run in runs || ids.event in events { return false, true; }
      runs := runs[ids.run := NewRun(c, key, now)];
      assert runs[ids.run].key == key;
      events := events[ids.event := NewEvent(ids.run, key, now)];
      return true, false;
    }

    /** `createManualRun`: the same user, domain and key always name the same run. */
    method CreateManualRun(c: Config, d: nat, user: nat, rawKey: string, ids: Fresh) returns (r: ManualOutcome)
      modifies this`runs, this`events
      ensures var key := Request(d, user, TrimSpace(rawKey));
        && (r.Created? || r.Existing? ==> r.run in runs && runs[r.run].key == key)
        && (r.Created? ==> View() == AfterCreate(c, old(View()), ids.run, ids.event, key))
        && (r.Created? ==> r.run == ids.run && r.run !in old(runs))
        && (r.Existing? ==> KeyTaken(old(runs), key))
        && (r.Created? <==>
              && TrimSpace(rawKey) != "" && ByteLength(TrimSpace(rawKey)) <= 200
              && d in flags && flags[d].lifecycleActive
              && !KeyTaken(old(runs), key) && ids.run !in old(runs) && ids.event !in old(events))
      ensures !r.Created? ==> View() == old(View())
      ensures r.Created? ==> BrandNew(c, runs[r.run], now)
      ensures var valid := TrimSpace(rawKey) != "" && ByteLength(TrimSpace(rawKey)) <= 200;
        && (r.InvalidKey? <==> !valid) && (r.DomainNotFound? <==> valid && d !in flags)
        && (r.DomainInactive? <==> valid && d in flags && !flags[d].lifecycleActive)
        && (r.Existing? <==>
              && valid && d in flags && flags[d].lifecycleActive
              && KeyTaken(old(runs), Request(d, user, TrimSpace(rawKey))))
    {
      var idempotencyKey := TrimSpace(rawKey);
      if idempotencyKey == "" || ByteLength(idempotencyKey) > 200 { return InvalidKey; }
      if d !in flags { return DomainNotFound; }
      if !flags[d].lifecycleActive { return DomainInactive; }
      var key := Request(d, user, idempotencyKey);
      var created, failed := InsertRun(c, key, ids);
      if failed { return Conflict; }
      if created { return Created(ids.run); }
      var existing :| existing in runs && runs[existing].key == key;
      return Existing(existing);
    }

    /** The scheduler's query: `visited` lists the rows it reaches in its order, those locked by other
        schedulers left out. */
    method SelectDue(visited: seq<nat>, limit: nat) returns (due: seq<nat>)
      ensures FirstOf(visited, DueSet(flags, schedules, now), due, limit)
    {
      due := [];
      ghost var wanted := DueSet(flags, schedules, now);
      FirstOfNone(visited, wanted, limit);
      for i := 0 to |visited|
        invariant FirstOf(visited[..i], wanted, due, limit)
      {
        FirstOfNext(visited, wanted, due, limit, i);
        var k := visited[i];
        if k in schedules && schedules[k].enabled && schedules[k].nextDue <= now && schedules[k].domain in flags
           && flags[schedules[k].domain].monitoring && flags[schedules[k].domain].lifecycleActive
           && k !in due && |due| < limit {
          due := due + [k];
        }
      }
      assert visited[..|visited|] == visited;
    }

    /** One due schedule: its run and event, then its next due time. */
    method ProcessSlot(c: Config, k: nat, key: DedupKey, ids: Fresh) returns (inserted: bool, failed: bool)
      requires k in schedules
      modifies this`runs, this`events, this`schedules
      ensures View() == AfterCreate(c, old(View()), ids.run, ids.event, key)
      ensures |runs| == |old(runs)| + if inserted then 1 else 0
      ensures RunsGrow(old(runs), runs) && (!failed ==> KeyTaken(runs, key))
      ensures !failed ==> schedules == old(schedules)[k := Rescheduled(old(schedules)[k], now)]
    {
      inserted, failed := InsertRun(c, key, ids);
      if failed { return; }
      var s := schedules[k];
      schedules := schedules[k := s.(nextDue := now + 1000 * s.intervalSeconds + 1000 * s.jitterSeconds)];
    }

    /** The loop over the due schedules; it stops at the first failed insert. */
    method ProcessAll(c: Config, due: seq<nat>, keys: seq<DedupKey>, ids: seq<Fresh>) returns (created: nat, ok: bool)
      requires |keys| == |due| == |ids| && forall i :: 0 <= i < |due| ==> due[i] in schedules
      requires forall i, j :: 0 <= i < j < |due| ==> due[i] != due[j]
      modifies this`runs, this`events, this`schedules
      ensures ok ==> View() == CreatedMany(c, old(View()), keys, ids) && created == |runs| - |old(runs)|
      ensures ok ==> AllTaken(runs, keys, |keys|)
      ensures ok ==> AdvancedSchedules(old(schedules), schedules, due, now)
    {
      created := 0;
      for i := 0 to |due|
        invariant View() == CreatedMany(c, old(View()), keys[..i], ids[..i])
        invariant created == |runs| - |old(runs)|
        invariant AllTaken(runs, keys, i)
        invariant AdvancedSchedules(old(schedules), schedules, due[..i], now)
      {
        ghost var before, taken := schedules, runs;
        var inserted, failed := ProcessSlot(c, due[i], keys[i], ids[i]);
        if failed { return created, false; }
        if inserted { created := created + 1; }
        TakenNext(taken, runs, keys, i);
        AdvancedOne(old(schedules), before, due, i, now);
        assert keys[..i + 1][..i] == keys[..i] && ids[..i + 1][..i] == ids[..i];
      }
      assert keys[..|due|] == keys && due[..|due|] == due && ids[..|due|] == ids;
      ok := true;
    }

    /** `ScheduleDue`: the first `limit` due schedules in the query's order; one run per due slot and one event per
        new run, then every processed schedule moves past the present. */
    method ScheduleDue(c: Config, visited: seq<nat>, ids: seq<Fresh>, limit: nat, version: string)
        returns (due: seq<nat>, created: nat, ok: bool)
      requires |ids| == |visited|
      modifies this`runs, this`events, this`schedules
      ensures FirstOf(visited, DueSet(flags, old(schedules), now), due, limit) && |due| <= |visited|
      ensures forall i :: 0 <= i < |due| ==> due[i] in old(schedules)
      ensures ok ==> View() == CreatedMany(c, old(View()), SlotKeys(old(schedules), due, version), ids[..|due|])
      ensures ok ==> OnlyNew(c, old(View()), View(), SlotKeys(old(schedules), due, version))
      ensures ok ==> forall i :: 0 <= i < |due| ==> HasRun(runs, old(schedules)[due[i]], version)
      ensures ok ==> created == |runs| - |old(runs)| && AdvancedSchedules(old(schedules), schedules, due, now)
      ensures !ok ==> View() == old(View()) && schedules == old(schedules)
    {
      due := SelectDue(visited, limit);
      FirstOfMembers(visited, DueSet(flags, schedules, now), due, limit);
      var savedRuns, savedEvents, savedSchedules := runs, events, schedules;
      var keys := SlotKeys(schedules, due, version);
      CreatedManyMeans(c, View(), keys, ids[..|due|]);
      created, ok := ProcessAll(c, due, keys, ids[..|due|]);
      if !ok {
        runs, events, schedules := savedRuns, savedEvents, savedSchedules;
        created := 0;
      } else {
        forall i | 0 <= i < |due| ensures HasRun(runs, savedSchedules[due[i]], version) {
          SlotTaken(runs, savedSchedules[due[i]], version, keys[i]);
        }
      }
    }

    // ---- Outbox --------------------------------------------------------------------

    /** The query that picks the batch, in its order; rows locked by others are left out of `visited`. */
    method SelectEvents(c: Config, visited: seq<nat>) returns (batch: seq<nat>)
      requires c.Valid()
      ensures FirstOf(visited, PendingSet(c, events, now), batch, c.outboxBatch)
    {
      batch := [];
      ghost var wanted := PendingSet(c, events, now);
      FirstOfNone(visited, wanted, c.outboxBatch);
      for i := 0 to |visited|
        invariant FirstOf(visited[..i], wanted, batch, c.outboxBatch)
      {
        FirstOfNext(visited, wanted, batch, c.outboxBatch, i);
        var e := visited[i];
        if e in events && events[e].status == Pending && events[e].availableAt <= now
           && events[e].attempts < c.maxAttempts && e !in batch && |batch| < c.outboxBatch {
          batch := batch + [e];
        }
      }
      assert visited[..|visited|] == visited;
    }

    /** `claim`: requeue what other dispatchers let lapse, then lease a batch of the due events. */
    method ClaimEvents(c: Config, w: nat, visited: seq<nat>) returns (batch: seq<nat>)
      requires c.Valid()
      modifies this`events
      ensures FirstOf(visited, WaitingSet(c, old(events), now), batch, c.outboxBatch)
      ensures BatchOk(c, old(events), now, batch) && events == EventsAfterClaim(c, old(events), now, w, batch)
      ensures BatchClaimed(c, old(events), events, now, w, batch)
    {
      events := map e | e in events ::
        if events[e].status == Dispatching && events[e].lockedAt.Some? && events[e].lockedAt.value < now - c.outboxLease
        then events[e].(status := Pending, lockedAt := None, lockedBy := None) else events[e];
      ghost var requeued := events;
      batch := SelectEvents(c, visited);
      assert PendingSet(c, requeued, now) == WaitingSet(c, old(events), now);
      events := map e | e in events ::
        if e in batch then events[e].(status := Dispatching, lockedAt := Some(now), lockedBy := Some(w)) else events[e];
      assert events == EventsAfterClaim(c, old(events), now, w, batch);
      ClaimIsBatch(c, old(events), now, w, visited, batch);
    }

    method RecordDispatched(w: nat, id: nat) returns (ok: bool)
      modifies this`events
      ensures ok <==> id in old(events) && old(events)[id].HeldBy(w)
      ensures events == if ok then old(events)[id := EventDispatched(old(events)[id])] else old(events)
    {
      if id !in events || events[id].status != Dispatching || events[id].lockedBy != Some(w) { return false; }
      events := events[id := events[id].(status := Dispatched, lockedAt := None, lockedBy := None)];
      return true;
    }

    method RecordFailure(c: Config, w: nat, id: nat, jitter: nat) returns (ok: bool)
      modifies this`events
      ensures ok <==> id in old(events) && old(events)[id].HeldBy(w)
      ensures events == if ok then old(events)[id := EventRetried(c, old(events)[id], now, jitter)] else old(events)
    {
      if id !in events || events[id].status != Dispatching || events[id].lockedBy != Some(w) { return false; }
      var e := events[id];
      var status := if e.attempts + 1 >= c.maxAttempts then Undeliverable else Pending;
      var delay := if Pow2(e.attempts + 1) < 300 then Pow2(e.attempts + 1) else 300;
      events := events[id := e.(attempts := e.attempts + 1, status := status,
                                availableAt := now + 1000 * delay + jitter,
                                lockedAt := None, lockedBy := None)];
      return true;
    }

    /** One turn of `RunOnce`'s loop for an event it holds. */
    method Send(c: Config, w: nat, e: nat, reply: Reply, jitter: nat) returns (dispatched: bool)
      requires e in events && events[e].HeldBy(w)
      modifies this`events, this`stream
      ensures stream == StreamAfter(old(stream), e, old(events)[e].run, reply)
      ensures events == old(events)[e := RowAfter(c, old(events)[e], reply, now, jitter)]
      ensures dispatched <==> reply.Appended?
    {
      if !reply.Refused? {
        stream := stream + [Message(e, events[e].run)];
      }
      if !reply.Appended? {
        var marked := RecordFailure(c, w, e, jitter);
        return false;
      }
      dispatched := RecordDispatched(w, e);
    }

    /** The loop of `RunOnce` over the batch it claimed: event by event, until every one is settled. */
    method SendAll(c: Config, w: nat, batch: seq<nat>, replies: seq<Reply>, jitters: seq<nat>)
        returns (dispatched: nat)
      requires |batch| <= |replies| && |batch| <= |jitters| && Held(events, w, batch)
      modifies this`events, this`stream
      ensures events == RowsAfter(c, old(events), batch, replies, jitters, now, |batch|)
      ensures stream == old(stream) + Sendings(old(events), batch, replies, |batch|)
      ensures dispatched == SentCount(replies, |batch|)
    {
      dispatched := 0;
      ghost var claimed := events;
      for i := 0 to |batch|
        invariant events == RowsAfter(c, claimed, batch, replies, jitters, now, i)
        invariant stream == old(stream) + Sendings(claimed, batch, replies, i)
        invariant dispatched == SentCount(replies, i)
      {
        NextRow(c, claimed, batch, replies, jitters, now, i, w);
        var sent := Send(c, w, batch[i], replies[i], jitters[i]);
        if sent { dispatched := dispatched + 1; }
      }
    }

    /** `RunOnce` without interruption is the execution of its actions. It leases the first waiting events in the
        query's order, sends each, settles each by its reply, and counts what it sent. */
    method RunOnce(c: Config, w: nat, visited: seq<nat>, replies: seq<Reply>, jitters: seq<nat>)
        returns (batch: seq<nat>, dispatched: nat)
      requires c.Valid() && |replies| == |jitters| == |visited|
      modifies this`events, this`stream
      ensures FirstOf(visited, WaitingSet(c, old(events), now), batch, c.outboxBatch) && |batch| <= |visited|
      ensures View() == Exec(c, old(View()), RunOnceActions(w, batch, replies, jitters, |batch|))
      ensures dispatched == SentCount(replies, |batch|)
      ensures TurnDone(c, old(events), events, batch, replies, jitters, now, w)
      ensures stream == old(stream) + Sendings(old(events), batch, replies, |batch|)
    {
      batch := ClaimEvents(c, w, visited);
      FirstOfMembers(visited, WaitingSet(c, old(events), now), batch, c.outboxBatch);
      ghost var start, claimed := old(View()), View();
      ClaimHolds(c, start.events, now, w, batch);
      dispatched := SendAll(c, w, batch, replies, jitters);
      ClaimIsExec(c, start, claimed, w, batch, replies, jitters);
      TurnIsExec(c, start, claimed, w, batch, replies, jitters, |batch|);
      TurnSettles(c, start.events, claimed.events, batch, replies, jitters, now, w);
      SendingsKept(start.events, claimed.events, batch, replies, |batch|);
    }
  }

  lemma {:induction false} SendingsKept(events: map<nat, Event>, claimed: map<nat, Event>, batch: seq<nat>,
                                        replies: seq<Reply>, n: nat)
    requires n <= |batch| <= |replies|
    requires forall i :: 0 <= i < n ==>
               batch[i] in events && batch[i] in claimed && events[batch[i]].run == claimed[batch[i]].run
    ensures Sendings(events, batch, replies, n) == Sendings(claimed, batch, replies, n)
  {
    if n > 0 { SendingsKept(events, claimed, batch, replies, n - 1); }
  }
}
