/**
 The durable queue of instant updates. A task that is being sent keeps later payloads for its key
 in a second slot, so whatever interleaving of requests, runs and crashes, the newest is not lost.
 */
module AsyncQueue {
  import opened Catalog
  import opened Numbers

  const MAX_AUTOMATIC_ATTEMPTS := 12

  datatype Payload = Payload(
    source: nat, externalId: string, watchedAt: int, progress: Option<nat>, completed: bool, library: Option<string>)

  /** Completions are kept per date, resume positions only once per item. */
  datatype TaskKey = WatchKey(source: nat, externalId: string, watchedAt: int) | ProgressKey(source: nat, externalId: string)

  datatype Status = Pending | Processing | Blocked

  datatype Task = Task(id: nat, payload: Payload, waiting: Option<Payload>, status: Status, attempts: nat, nextAttempt: int)

  /** The unique deduplication key is the key of the table. */
  type Tasks = map<TaskKey, Task>

  function KeyOf(p: Payload): TaskKey {
    if p.completed then WatchKey(p.source, p.externalId, p.watchedAt) else ProgressKey(p.source, p.externalId)
  }

  // ----- The statements -----

  /** A payload for a task that is being sent waits; any other task starts over with it. */
  function Enqueued(rows: Tasks, next: nat, p: Payload, now: int): Tasks {
    var key := KeyOf(p);
    if key !in rows then rows[key := Task(next, p, None, Pending, 0, now)]
    else if rows[key].status == Processing then rows[key := rows[key].(waiting := Some(p), nextAttempt := now)]
    else rows[key := rows[key].(payload := p, status := Pending, attempts := 0, nextAttempt := now)]
  }

  predicate Due(task: Task, now: int) {
    task.status == Pending && task.nextAttempt <= now
  }

  predicate Sooner(a: Task, b: Task) {
    a.nextAttempt < b.nextAttempt || (a.nextAttempt == b.nextAttempt && a.id <= b.id)
  }

  /** The due task that has waited longest; ties go to the oldest. */
  ghost predicate IsNext(rows: Tasks, key: TaskKey, now: int) {
    key in rows && Due(rows[key], now)
    && forall k :: k in rows && Due(rows[k], now) ==> Sooner(rows[key], rows[k])
  }

  function Claimed(rows: Tasks, key: TaskKey): Tasks
    requires key in rows
  {
    rows[key := rows[key].(status := Processing)]
  }

  /** Delete the task, unless a payload arrived meanwhile: that one is due at once, with a clean record. */
  function Succeeded(rows: Tasks, key: TaskKey, now: int): Tasks
    requires key in rows
  {
    var task := rows[key];
    if task.waiting.None? then rows - {key}
    else rows[key := task.(payload := task.waiting.value, waiting := None, status := Pending, attempts := 0, nextAttempt := now)]
  }

  /** Seconds until the next attempt after this many failures. */
  function Backoff(attempts: nat): int
    requires attempts > 0
  {
    Least(3600, 15 * PowerOfTwo(Least(attempts - 1, 8)))
  }

  function Failed(rows: Tasks, key: TaskKey, now: int): Tasks
    requires key in rows
  {
    var task := rows[key];
    var attempts := task.attempts + 1;
    rows[key := task.(
      attempts := attempts,
      status := if attempts >= MAX_AUTOMATIC_ATTEMPTS then Blocked else Pending,
      nextAttempt := now + Backoff(attempts),
      payload := task.waiting.GetOr(task.payload), waiting := None)]
  }

  function Recovered(rows: Tasks): Tasks {
    map k | k in rows ::
      if rows[k].status != Processing then rows[k]
      else rows[k].(status := Pending, payload := rows[k].waiting.GetOr(rows[k].payload), waiting := None)
  }

  function Retried(rows: Tasks, now: int): Tasks {
    map k | k in rows ::
      if rows[k].status == Processing then rows[k] else rows[k].(status := Pending, attempts := 0, nextAttempt := now)
  }

  // ----- The history -----

  /** A run of the executor: its task, and how many payloads had been enqueued when it began. */
  datatype Run = Run(key: TaskKey, began: nat)

  /** Where the stored payloads come from in the log of everything ever enqueued. */
  datatype Marks = Marks(payload: nat, waiting: Option<nat>)

  datatype Queue = Queue(
    rows: Tasks, next: nat, running: Option<Run>,
    log: seq<Payload>, marks: map<TaskKey, Marks>, consumed: map<TaskKey, (nat, nat)>)

  const EMPTY := Queue(map[], 0, None, [], map[], map[])

  datatype Op =
    | Enqueue(payload: Payload, now: int)
    | Claim(now: int)
    | Succeed(now: int)
    | Drop(now: int)
    | Fail(now: int)
    | Crash
    | Recover
    | RetryAll(now: int)

  function Newest(m: Marks): nat {
    m.waiting.GetOr(m.payload)
  }

  function Promoted(m: Marks): Marks {
    Marks(Newest(m), None)
  }

  /** The run is over, and its payload will not be sent again. */
  ghost predicate Finished(q: Queue, now: int, next: Queue) {
    q.running.Some? && q.running.value.key in q.rows && q.running.value.key in q.marks &&
    var (key, began) := (q.running.value.key, q.running.value.began);
    next == q.(rows := Succeeded(q.rows, key, now), running := None,
               marks := if q.rows[key].waiting.None? then q.marks - {key} else q.marks[key := Promoted(q.marks[key])],
               consumed := q.consumed[key := (q.marks[key].payload, began)])
  }

  /** Another task is a completion of the item whose position this is. */
  predicate Overrides(key: TaskKey, p: Payload, other: TaskKey, task: Task) {
    other != key && task.payload.completed && task.payload.source == p.source && task.payload.externalId == p.externalId
  }

  /** The task reports a position of an item whose completion is queued as well. */
  predicate Superseded(rows: Tasks, key: TaskKey) {
    key in rows && !rows[key].payload.completed && exists k :: k in rows && Overrides(key, rows[key].payload, k, rows[k])
  }

  /** One committed transaction. One executor runs at a time; recovery happens before it starts. */
  ghost predicate Step(q: Queue, op: Op, next: Queue) {
    match op
    case Enqueue(p, now) =>
      var (key, n) := (KeyOf(p), |q.log|);
      var mark := if key in q.rows && key in q.marks && q.rows[key].status == Processing
                  then q.marks[key].(waiting := Some(n)) else Marks(n, None);
      next == q.(rows := Enqueued(q.rows, q.next, p, now), next := if key in q.rows then q.next else q.next + 1,
                 log := q.log + [p], marks := q.marks[key := mark])
    case Claim(now) =>
      q.running == None &&
      if exists key :: key in q.rows && Due(q.rows[key], now) then
        next.running.Some? && IsNext(q.rows, next.running.value.key, now)
        && next == q.(rows := Claimed(q.rows, next.running.value.key), running := Some(Run(next.running.value.key, |q.log|)))
      else next == q
    case Succeed(now) => Finished(q, now, next)
    case Drop(now) => q.running.Some? && Superseded(q.rows, q.running.value.key) && Finished(q, now, next)
    case Fail(now) =>
      q.running.Some? && q.running.value.key in q.rows && q.running.value.key in q.marks &&
      var key := q.running.value.key;
      next == q.(rows := Failed(q.rows, key, now), running := None, marks := q.marks[key := Promoted(q.marks[key])])
    case Crash => next == q.(running := None)
    case Recover =>
      q.running == None && next == q.(rows := Recovered(q.rows), marks := map k | k in q.marks :: Promoted(q.marks[k]))
    case RetryAll(now) => next == q.(rows := Retried(q.rows, now))
  }

  // ----- The invariant -----

  /** The position of the last payload enqueued for a key. */
  ghost function LastEntry(log: seq<Payload>, key: TaskKey): (n: Option<nat>)
    ensures n.Some? ==> n.value < |log| && KeyOf(log[n.value]) == key
    ensures forall j :: (if n.Some? then n.value else -1) < j < |log| ==> KeyOf(log[j]) != key
  {
    if log == [] then None
    else
      var n := |log| - 1;
      if KeyOf(log[n]) == key then Some(n) else LastEntry(log[..n], key)
  }

  /** The row stores the payloads its marks point at, and the newest of them is the latest enqueued for its key. */
  ghost predicate RowHolds(q: Queue, key: TaskKey) {
    key in q.rows && key in q.marks &&
    var (task, m) := (q.rows[key], q.marks[key]);
    && m.payload < |q.log| && task.payload == q.log[m.payload] && KeyOf(task.payload) == key
    && (task.waiting.Some? <==> m.waiting.Some?) && (task.waiting.Some? ==> task.status == Processing)
    && (m.waiting.Some? ==> m.waiting.value < |q.log| && task.waiting == Some(q.log[m.waiting.value]))
    && LastEntry(q.log, key) == Some(Newest(m))
  }

  /** Automatic retries stop at the twelfth failure, and only those tasks are blocked. */
  ghost predicate RetriesBounded(task: Task) {
    if task.status == Blocked then task.attempts == MAX_AUTOMATIC_ATTEMPTS else task.attempts < MAX_AUTOMATIC_ATTEMPTS
  }

  /** The latest payload is stored, or a run that began after it was enqueued has consumed it. */
  ghost predicate NotLost(q: Queue, key: TaskKey) {
    var latest := LastEntry(q.log, key);
    latest.Some? ==>
      || (key in q.rows && key in q.marks && Newest(q.marks[key]) == latest.value)
      || (key in q.consumed && q.consumed[key].0 == latest.value < q.consumed[key].1)
  }

  ghost predicate Good(q: Queue, key: TaskKey) {
    && (key in q.rows <==> key in q.marks)
    && (key in q.rows ==> RowHolds(q, key) && RetriesBounded(q.rows[key]))
    && NotLost(q, key)
  }

  ghost predicate Invariant(q: Queue) {
    && (forall key: TaskKey {:trigger Good(q, key)} :: Good(q, key))
    && (q.running.Some? ==>
          var r := q.running.value;
          r.key in q.rows && r.key in q.marks && q.rows[r.key].status == Processing
          && q.marks[r.key].payload < r.began <= |q.log|)
  }

  lemma LatestGrows(log: seq<Payload>, p: Payload, key: TaskKey)
    ensures LastEntry(log + [p], key) == if KeyOf(p) == key then Some(|log|) else LastEntry(log, key)
  {
    assert (log + [p])[..|log|] == log;
  }

  lemma EnqueueKeepsGood(q: Queue, p: Payload, now: int, next: Queue, key: TaskKey)
    requires Good(q, key) && Step(q, Enqueue(p, now), next)
    ensures Good(next, key)
  {
    LatestGrows(q.log, p, key);
    if key != KeyOf(p) {
      assert (key in q.rows <==> key in next.rows) && (key in q.marks <==> key in next.marks);
    }
  }

  lemma StepKeepsInvariant(q: Queue, op: Op, next: Queue)
    requires Invariant(q) && Step(q, op, next)
    ensures Invariant(next)
  {
    forall key: TaskKey
      ensures Good(next, key)
    {
      assert Good(q, key);
      if op.Enqueue? {
        EnqueueKeepsGood(q, op.payload, op.now, next, key);
      }
    }
    if op.Enqueue? && q.running.Some? {
      assert Good(q, q.running.value.key);
    }
    if op.Claim? && next.running.Some? {
      assert Good(q, next.running.value.key);
    }
  }

  ghost predicate StepAt(run: seq<Queue>, ops: seq<Op>, i: nat)
    requires |run| == |ops| + 1 && i < |ops|
  {
    Step(run[i], ops[i], run[i + 1])
  }

  ghost predicate IsRun(run: seq<Queue>, ops: seq<Op>) {
    |run| == |ops| + 1 && run[0] == EMPTY && forall i: nat {:trigger StepAt(run, ops, i)} :: i < |ops| ==> StepAt(run, ops, i)
  }

  lemma {:induction false} InvariantAlways(run: seq<Queue>, ops: seq<Op>, i: nat)
    requires IsRun(run, ops) && i < |run|
    ensures Invariant(run[i])
  {
    if i == 0 {
      forall key: TaskKey
        ensures Good(run[0], key)
      {
      }
    } else {
      InvariantAlways(run, ops, i - 1);
      assert StepAt(run, ops, i - 1);
      StepKeepsInvariant(run[i - 1], ops[i - 1], run[i]);
    }
  }

  /**
   In every interleaving, for every key ever enqueued: the latest payload is in the table, in the
   waiting slot if that is filled, or it was consumed by a run that began after it was enqueued.
   */
  lemma LatestPayloadIsNeverLost(run: seq<Queue>, ops: seq<Op>, i: nat, key: TaskKey)
    requires IsRun(run, ops) && i < |run| && LastEntry(run[i].log, key).Some?
    ensures
      var (q, n) := (run[i], LastEntry(run[i].log, key).value);
      || (key in q.rows && q.rows[key].waiting.GetOr(q.rows[key].payload) == q.log[n])
      || (key !in q.rows && key in q.consumed && q.consumed[key].0 == n < q.consumed[key].1)
  {
    InvariantAlways(run, ops, i);
    assert Good(run[i], key);
  }

  /** Every waiting row has retries left; a blocked row has used all twelve. */
  lemma PendingHasRetriesLeft(run: seq<Queue>, ops: seq<Op>, i: nat, key: TaskKey)
    requires IsRun(run, ops) && i < |run| && key in run[i].rows
    ensures run[i].rows[key].status != Blocked ==> run[i].rows[key].attempts < MAX_AUTOMATIC_ATTEMPTS
    ensures run[i].rows[key].status == Blocked ==> run[i].rows[key].attempts == MAX_AUTOMATIC_ATTEMPTS
    ensures run[i].rows[key].waiting.Some? ==> run[i].rows[key].status == Processing
  {
    InvariantAlways(run, ops, i);
    assert Good(run[i], key);
  }

  /** The pauses grow with every failure, from fifteen seconds to at most an hour. */
  lemma BackoffGrows(attempts: nat, more: nat)
    requires 0 < attempts <= more
    ensures 15 <= Backoff(attempts) <= Backoff(more) <= 3600
  {
    PowersGrow(Least(attempts - 1, 8), Least(more - 1, 8));
  }

  // ----- Superseded positions -----

  /** While the run lasts, the completion stays queued, whatever else is enqueued or retried. */
  lemma SupersededLasts(q: Queue, op: Op, next: Queue)
    requires Invariant(q) && Step(q, op, next) && q.running.Some? && next.running == q.running
    requires Superseded(q.rows, q.running.value.key)
    ensures Superseded(next.rows, q.running.value.key)
    ensures next.rows[q.running.value.key].payload == q.rows[q.running.value.key].payload
  {
    var key := q.running.value.key;
    var k :| k in q.rows && Overrides(key, q.rows[key].payload, k, q.rows[k]);
    assert Good(q, key) && Good(q, k);
    assert k in next.rows && Overrides(key, next.rows[key].payload, k, next.rows[k]);
  }

  ghost predicate SameRun(run: seq<Queue>, i: nat, j: nat) {
    i <= j < |run| && run[i].running.Some? && forall m :: i <= m <= j ==> run[m].running == run[i].running
  }

  lemma {:induction false} StaysSuperseded(run: seq<Queue>, ops: seq<Op>, i: nat, j: nat)
    requires IsRun(run, ops) && SameRun(run, i, j) && Superseded(run[i].rows, run[i].running.value.key)
    ensures Superseded(run[j].rows, run[i].running.value.key)
    ensures run[j].rows[run[i].running.value.key].payload == run[i].rows[run[i].running.value.key].payload
    decreases j
  {
    if i < j {
      StaysSuperseded(run, ops, i, j - 1);
      InvariantAlways(run, ops, j - 1);
      assert StepAt(run, ops, j - 1);
      SupersededLasts(run[j - 1], ops[j - 1], run[j]);
    }
  }

  /** A key under which completions of the item are queued. */
  predicate CompletionOf(key: TaskKey, p: Payload) {
    key.WatchKey? && key.source == p.source && key.externalId == p.externalId
  }

  /**
   A position that was found superseded and is dropped, however much later in the same run, leaves a
   completion of its item in the table.
   */
  lemma DropLeavesCompletion(run: seq<Queue>, ops: seq<Op>, i: nat, j: nat) returns (k: TaskKey)
    requires IsRun(run, ops) && SameRun(run, i, j) && j < |ops| && (ops[j].Drop? || ops[j].Succeed?)
    requires Superseded(run[i].rows, run[i].running.value.key)
    ensures CompletionOf(k, run[i].rows[run[i].running.value.key].payload)
    ensures k in run[j + 1].rows && run[j + 1].rows[k].payload.completed
  {
    var key := run[i].running.value.key;
    StaysSuperseded(run, ops, i, j);
    var q := run[j];
    k :| k in q.rows && Overrides(key, q.rows[key].payload, k, q.rows[k]);
    InvariantAlways(run, ops, j);
    assert Good(q, k) && StepAt(run, ops, j);
  }

  lemma {:induction false} LogGrows(run: seq<Queue>, ops: seq<Op>, i: nat, j: nat)
    requires IsRun(run, ops) && i <= j < |run|
    ensures run[i].log <= run[j].log
    decreases j
  {
    if i < j {
      LogGrows(run, ops, i, j - 1);
      assert StepAt(run, ops, j - 1);
    }
  }

  /** And at every later moment a completion of the item is still queued, or a run has consumed it. */
  lemma DroppedIsMadeUpFor(run: seq<Queue>, ops: seq<Op>, i: nat, j: nat, later: nat) returns (k: TaskKey)
    requires IsRun(run, ops) && SameRun(run, i, j) && j < later < |run| && ops[j].Drop?
    requires Superseded(run[i].rows, run[i].running.value.key)
    ensures CompletionOf(k, run[i].rows[run[i].running.value.key].payload)
    ensures k in run[later].rows || (k in run[later].consumed && LastEntry(run[later].log, k) == Some(run[later].consumed[k].0))
  {
    k := DropLeavesCompletion(run, ops, i, j);
    InvariantAlways(run, ops, j + 1);
    assert Good(run[j + 1], k);
    LogGrows(run, ops, j + 1, later);
    var n := LastEntry(run[j + 1].log, k).value;
    assert KeyOf(run[later].log[n]) == k;
    LatestPayloadIsNeverLost(run, ops, later, k);
  }

  /** A resume position is dropped exactly while a completion of the same item is still queued. */
  method IsSuperseded(rows: Tasks, key: TaskKey, p: Payload) returns (superseded: bool)
    ensures superseded <==> !p.completed && exists k :: k in rows && Overrides(key, p, k, rows[k])
  {
    if p.completed {
      return false;
    }
    var pending := rows.Keys;
    while pending != {}
      invariant pending <= rows.Keys
      invariant forall k :: k in rows && k !in pending ==> !Overrides(key, p, k, rows[k])
      decreases pending
    {
      var k :| k in pending;
      if Overrides(key, p, k, rows[k]) {
        return true;
      }
      pending := pending - {k};
    }
    return false;
  }

  // ----- The table and its executor -----

  class TaskTable {
    var rows: Tasks
    var next: nat
    ghost var running: Option<Run>
    ghost var log: seq<Payload>
    ghost var marks: map<TaskKey, Marks>
    ghost var consumed: map<TaskKey, (nat, nat)>

    ghost function Now(): Queue
      reads this
    {
      Queue(rows, next, running, log, marks, consumed)
    }

    constructor ()
      ensures Now() == EMPTY && Invariant(Now())
    {
      rows, next, running, log, marks, consumed := map[], 0, None, [], map[], map[];
      new;
      forall key: TaskKey
        ensures Good(Now(), key)
      {
      }
    }

    method EnqueueWatchUpdate(p: Payload, now: int)
      requires Invariant(Now())
      modifies this
      ensures Step(old(Now()), Enqueue(p, now), Now()) && Invariant(Now())
    {
      ghost var before := Now();
      var key := KeyOf(p);
      assert Good(before, key);
      if key in rows {
        var existing := rows[key];
        if existing.status == Processing {
          marks := marks[key := marks[key].(waiting := Some(|log|))];
          rows := rows[key := existing.(waiting := Some(p), nextAttempt := now)];
        } else {
          marks := marks[key := Marks(|log|, None)];
          rows := rows[key := existing.(payload := p, status := Pending, attempts := 0, nextAttempt := now)];
        }
      } else {
        marks := marks[key := Marks(|log|, None)];
        rows := rows[key := Task(next, p, None, Pending, 0, now)];
        next := next + 1;
      }
      log := log + [p];
      StepKeepsInvariant(before, Enqueue(p, now), Now());
    }

    /** Claims the due task that has waited longest, if there is one. */
    method ClaimDue(now: int) returns (claimed: Option<TaskKey>)
      requires Invariant(Now()) && running == None
      modifies this
      ensures Step(old(Now()), Claim(now), Now()) && Invariant(Now())
      ensures claimed == (if running.Some? then Some(running.value.key) else None)
      ensures claimed.None? <==> forall k :: k in old(rows) ==> !Due(old(rows)[k], now)
    {
      ghost var before := Now();
      claimed := None;
      var pending := rows.Keys;
      while pending != {}
        invariant pending <= rows.Keys && Now() == before
        invariant claimed.None? ==> forall k :: k in rows && k !in pending ==> !Due(rows[k], now)
        invariant claimed.Some? ==>
          claimed.value in rows && Due(rows[claimed.value], now)
          && forall k :: k in rows && k !in pending && Due(rows[k], now) ==> Sooner(rows[claimed.value], rows[k])
        decreases pending
      {
        var k :| k in pending;
        if Due(rows[k], now) && (claimed.None? || Sooner(rows[k], rows[claimed.value])) {
          claimed := Some(k);
        }
        pending := pending - {k};
      }
      if claimed.Some? {
        rows := Claimed(rows, claimed.value);
        running := Some(Run(claimed.value, |log|));
      }
      StepKeepsInvariant(before, Claim(now), Now());
    }

    /** Looked up when a run begins: a position is not sent when a completion of its item is queued. */
    method DropIfSuperseded(key: TaskKey, now: int) returns (dropped: bool)
      requires Invariant(Now()) && running.Some? && running.value.key == key
      modifies this
      ensures dropped <==> Superseded(old(rows), key)
      ensures if dropped then Step(old(Now()), Drop(now), Now()) && Invariant(Now()) else Now() == old(Now())
    {
      assert Good(Now(), key);
      dropped := IsSuperseded(rows, key, rows[key].payload);
      if dropped {
        FinishRun(key, now);
      }
    }

    /** After a run that succeeded or found its position superseded. */
    method FinishRun(key: TaskKey, now: int)
      requires Invariant(Now()) && running.Some? && running.value.key == key
      modifies this
      ensures Step(old(Now()), Succeed(now), Now()) && Invariant(Now())
    {
      ghost var before := Now();
      assert Good(before, key);
      consumed := consumed[key := (marks[key].payload, running.value.began)];
      if rows[key].waiting.None? {
        rows := rows - {key};
        marks := marks - {key};
      } else {
        var task := rows[key];
        rows := rows[key := task.(payload := task.waiting.value, waiting := None, status := Pending, attempts := 0, nextAttempt := now)];
        marks := marks[key := Promoted(marks[key])];
      }
      running := None;
      StepKeepsInvariant(before, Succeed(now), Now());
    }

    method FailRun(key: TaskKey, now: int)
      requires Invariant(Now()) && running.Some? && running.value.key == key
      modifies this
      ensures Step(old(Now()), Fail(now), Now()) && Invariant(Now())
    {
      ghost var before := Now();
      assert Good(before, key);
      var task := rows[key];
      var attempts := task.attempts + 1;
      var status := if attempts >= MAX_AUTOMATIC_ATTEMPTS then Blocked else Pending;
      task := task.(attempts := attempts, status := status, nextAttempt := now + Backoff(attempts));
      if task.waiting.Some? {
        task := task.(payload := task.waiting.value, waiting := None);
      }
      rows := rows[key := task];
      marks := marks[key := Promoted(marks[key])];
      running := None;
      StepKeepsInvariant(before, Fail(now), Now());
    }

    /** At start-up, before any executor: tasks left in processing are due again with their newest payload. */
    method RecoverTasks()
      requires Invariant(Now()) && running == None
      modifies this
      ensures Step(old(Now()), Recover, Now()) && Invariant(Now())
      ensures forall k :: k in rows ==> rows[k].status != Processing
    {
      ghost var before := Now();
      rows := Recovered(rows);
      marks := map k | k in marks :: Promoted(marks[k]);
      StepKeepsInvariant(before, Recover, Now());
    }

    method RetryEverything(now: int)
      requires Invariant(Now())
      modifies this
      ensures Step(old(Now()), RetryAll(now), Now()) && Invariant(Now())
      ensures forall k :: k in rows ==> rows[k].status != Blocked
    {
      ghost var before := Now();
      rows := Retried(rows, now);
      StepKeepsInvariant(before, RetryAll(now), Now());
    }
  }
}
