/**
 What becomes of a task of the instant queue, told from its row and the operations alone: when it is
 tried, how long it waits after a failure, and what unblocks it.
 */
module TaskFates {
  import opened Catalog
  import opened Numbers
  import opened AsyncQueue

  /** Payloads share a task exactly if they complete one item at one date, or both report a position of one item. */
  lemma OneTaskIff(p: Payload, q: Payload)
    ensures KeyOf(p) == KeyOf(q) <==>
      && p.source == q.source && p.externalId == q.externalId && p.completed == q.completed
      && (p.completed ==> p.watchedAt == q.watchedAt)
  {
  }

  // ----- Failures -----

  /** Seconds: doubling from fifteen, and an hour from the ninth failure on. */
  function Pause(failures: nat): int {
    if failures < 9 then [15, 15, 30, 60, 120, 240, 480, 960, 1920][failures] else 3600
  }

  lemma BackoffIsPause(failures: nat)
    requires failures > 0
    ensures Backoff(failures) == Pause(failures)
  {
    assert PowerOfTwo(8) == 256;
  }

  /** The waiting payload takes over; the twelfth failure blocks the task, any other makes it wait. */
  ghost predicate AfterFailure(task: Task, after: Task, now: int) {
    && after.id == task.id && after.attempts == task.attempts + 1 && after.waiting == None
    && after.payload == (if task.waiting.Some? then task.waiting.value else task.payload)
    && after.status == (if task.attempts == 11 then Blocked else Pending)
    && after.nextAttempt == now + Pause(task.attempts + 1)
  }

  /** Over every run: what a failure makes of the task that was sent, and of no other. */
  lemma FailureDecides(run: seq<Queue>, ops: seq<Op>, i: nat)
    requires IsRun(run, ops) && i < |ops| && ops[i].Fail?
    ensures run[i].running.Some? && run[i + 1].running == None
    ensures var key := run[i].running.value.key;
      && key in run[i].rows && key in run[i + 1].rows
      && AfterFailure(run[i].rows[key], run[i + 1].rows[key], ops[i].now)
      && run[i + 1].rows == run[i].rows[key := run[i + 1].rows[key]]
  {
    assert StepAt(run, ops, i);
    InvariantAlways(run, ops, i);
    var key := run[i].running.value.key;
    assert Good(run[i], key);
    BackoffIsPause(run[i].rows[key].attempts + 1);
  }

  // ----- Nothing is sent before its time -----

  /** Nobody enqueues anything for the task, and nobody asks for everything again. */
  predicate Patient(op: Op, key: TaskKey) {
    && (op.Enqueue? ==> KeyOf(op.payload) != key)
    && !op.RetryAll?
  }

  ghost predicate WaitsUntil(q: Queue, key: TaskKey, time: int) {
    key in q.rows && q.rows[key].status != Processing && q.rows[key].nextAttempt == time
  }

  lemma StillWaits(q: Queue, op: Op, next: Queue, key: TaskKey, time: int)
    requires Invariant(q) && Step(q, op, next) && Patient(op, key) && WaitsUntil(q, key, time)
    ensures WaitsUntil(next, key, time)
      || (op.Claim? && next.running.Some? && next.running.value.key == key && q.rows[key].status == Pending && time <= op.now)
  {
    assert Good(q, key);
  }

  /**
   After a failure the task is not sent again before the pause is over, whatever else happens: at any
   later moment it still waits, or a run was started for it in time.
   */
  lemma {:induction false} WaitsOutThePause(run: seq<Queue>, ops: seq<Op>, i: nat, j: nat)
    requires IsRun(run, ops) && i < j < |run| && ops[i].Fail?
    requires run[i].running.Some? && forall k :: i < k < j ==> Patient(ops[k], run[i].running.value.key)
    ensures run[i].running.value.key in run[i].rows
    ensures var (key, time) := (run[i].running.value.key, ops[i].now + Pause(run[i].rows[run[i].running.value.key].attempts + 1));
      || WaitsUntil(run[j], key, time)
      || exists k :: i < k < j && ops[k].Claim? && ops[k].now >= time && run[k].running == None
           && run[k + 1].running.Some? && run[k + 1].running.value.key == key
    decreases j
  {
    FailureDecides(run, ops, i);
    if j > i + 1 {
      var (key, time) := (run[i].running.value.key, ops[i].now + Pause(run[i].rows[run[i].running.value.key].attempts + 1));
      WaitsOutThePause(run, ops, i, j - 1);
      if WaitsUntil(run[j - 1], key, time) {
        InvariantAlways(run, ops, j - 1);
        assert StepAt(run, ops, j - 1);
        StillWaits(run[j - 1], ops[j - 1], run[j], key, time);
      }
    }
  }

  // ----- What makes a task due -----

  /** A payload for a task that is not being sent makes it due at once, with a clean record, blocked or not. */
  lemma EnqueuedIsDue(run: seq<Queue>, ops: seq<Op>, i: nat)
    requires IsRun(run, ops) && i < |ops| && ops[i].Enqueue?
    ensures var (key, p, now) := (KeyOf(ops[i].payload), ops[i].payload, ops[i].now);
      && key in run[i + 1].rows && run[i + 1].rows == run[i].rows[key := run[i + 1].rows[key]]
      && var after := run[i + 1].rows[key];
         if key in run[i].rows && run[i].rows[key].status == Processing then
           after == run[i].rows[key].(waiting := Some(p), nextAttempt := now)
         else
           && after.payload == p && after.waiting == None && after.status == Pending && after.attempts == 0
           && after.nextAttempt == now && (key in run[i].rows ==> after.id == run[i].rows[key].id)
  {
    assert StepAt(run, ops, i);
    InvariantAlways(run, ops, i);
    assert Good(run[i], KeyOf(ops[i].payload));
  }

  /** A run that ends well removes its task, unless a payload arrived meanwhile: that is due at once, as if it were new. */
  lemma SuccessDecides(run: seq<Queue>, ops: seq<Op>, i: nat)
    requires IsRun(run, ops) && i < |ops| && (ops[i].Succeed? || ops[i].Drop?)
    ensures run[i].running.Some? && run[i + 1].running == None
    ensures var key := run[i].running.value.key;
      && key in run[i].rows && run[i + 1].rows.Keys - {key} == run[i].rows.Keys - {key}
      && (forall k :: k in run[i].rows && k != key ==> k in run[i + 1].rows && run[i + 1].rows[k] == run[i].rows[k])
      && (key in run[i + 1].rows <==> run[i].rows[key].waiting.Some?)
      && (key in run[i + 1].rows ==>
            run[i + 1].rows[key] == Task(run[i].rows[key].id, run[i].rows[key].waiting.value, None, Pending, 0, ops[i].now))
  {
    assert StepAt(run, ops, i);
  }

  /** After a crash every interrupted task is pending with its newest payload, at the time it was due before, and no other changes. */
  lemma RecoveryDecides(run: seq<Queue>, ops: seq<Op>, i: nat, key: TaskKey)
    requires IsRun(run, ops) && i < |ops| && ops[i].Recover? && key in run[i].rows
    ensures key in run[i + 1].rows
    ensures var (task, after) := (run[i].rows[key], run[i + 1].rows[key]);
      if task.status == Processing then
        && after.status == Pending && after.id == task.id && after.attempts == task.attempts
        && after.nextAttempt == task.nextAttempt && after.waiting == None
        && LastEntry(run[i].log, key).Some? && after.payload == run[i].log[LastEntry(run[i].log, key).value]
      else after == task
  {
    assert StepAt(run, ops, i);
    InvariantAlways(run, ops, i);
    assert Good(run[i], key);
  }

  /** Asking for everything again makes every task due that is not being sent. */
  lemma RetryDecides(run: seq<Queue>, ops: seq<Op>, i: nat, key: TaskKey)
    requires IsRun(run, ops) && i < |ops| && ops[i].RetryAll? && key in run[i].rows
    ensures key in run[i + 1].rows
    ensures var (task, after) := (run[i].rows[key], run[i + 1].rows[key]);
      if task.status == Processing then after == task
      else after.status == Pending && after.attempts == 0 && after.nextAttempt == ops[i].now && after.payload == task.payload
  {
    assert StepAt(run, ops, i);
  }

  /** The task that is started was due, and no other due task has waited longer or, as long, is older. */
  lemma ClaimDecides(run: seq<Queue>, ops: seq<Op>, i: nat)
    requires IsRun(run, ops) && i < |ops| && ops[i].Claim?
    ensures run[i + 1].running.None? <==>
      forall k :: k in run[i].rows ==> run[i].rows[k].status != Pending || run[i].rows[k].nextAttempt > ops[i].now
    ensures run[i + 1].running.None? ==> run[i + 1] == run[i]
    ensures run[i + 1].running.Some? ==>
      var key := run[i + 1].running.value.key;
      && key in run[i].rows && run[i].rows[key].status == Pending && run[i].rows[key].nextAttempt <= ops[i].now
      && run[i + 1].rows == run[i].rows[key := run[i].rows[key].(status := Processing)]
      && (forall k :: k in run[i].rows && run[i].rows[k].status == Pending && run[i].rows[k].nextAttempt <= ops[i].now ==>
            run[i].rows[key].nextAttempt < run[i].rows[k].nextAttempt
            || (run[i].rows[key].nextAttempt == run[i].rows[k].nextAttempt && run[i].rows[key].id <= run[i].rows[k].id))
  {
    assert StepAt(run, ops, i);
  }
}
