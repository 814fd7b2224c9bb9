/**
 The durable job queue: leased runs with retries, dependencies, cancellation, crash recovery and
 rotation. Every committed transaction is one step.
 */
module JobQueue {
  import opened Catalog
  import opened Numbers

  datatype Job =
    | SyncPlex | WatchedPlexToJellyfin | WatchedJellyfinToPlex | SyncJellyfin | Metadata
    | CatalogImages | CatalogReconcile | AsyncTasks | Maintenance

  datatype Status = Queued | Running | Succeeded | Failed | Interrupted

  /** What a started run waits for: a library scan, or one of the in-memory executors. */
  datatype Reference = Scan(id: nat) | Executor

  datatype Run = Run(
    job: Job, status: Status, created: int, available: Option<int>, owner: Option<nat>, expires: Option<int>,
    cancelled: bool, attempts: nat, limit: nat, reference: Option<Reference>)

  type Rows = map<nat, Run>

  predicate Active(r: Run) {
    r.status == Queued || r.status == Running
  }

  predicate Terminal(s: Status) {
    s != Queued && s != Running
  }

  const LEASE_SECONDS := 45

  function Priority(job: Job): nat {
    match job
    case SyncPlex => 10
    case WatchedPlexToJellyfin => 20
    case WatchedJellyfinToPlex => 30
    case SyncJellyfin => 40
    case Metadata => 50
    case CatalogImages => 60
    case CatalogReconcile => 70
    case AsyncTasks => 80
    case Maintenance => 90
  }

  function Dependencies(job: Job): set<Job> {
    match job
    case WatchedPlexToJellyfin => {SyncPlex}
    case WatchedJellyfinToPlex => {SyncPlex, WatchedPlexToJellyfin}
    case SyncJellyfin => {SyncPlex, WatchedPlexToJellyfin, WatchedJellyfinToPlex}
    case _ => {}
  }

  /** Seconds before a failed attempt is repeated. */
  function Delay(attempts: nat): (d: int)
    ensures 5 <= d <= 300
  {
    var exponent := if attempts == 0 then 0 else attempts - 1;
    PowersGrow(0, exponent);
    Least(300, 5 * PowerOfTwo(exponent))
  }

  // ----- What one statement makes of a row -----

  function Submitted(job: Job, now: int, limit: nat): Run {
    Run(job, Queued, now, Some(now), None, None, false, 0, limit, None)
  }

  function Leased(r: Run, worker: nat, now: int): Run {
    r.(status := Running, owner := Some(worker), expires := Some(now + LEASE_SECONDS), attempts := r.attempts + 1)
  }

  function Released(r: Run, status: Status): Run {
    r.(status := status, owner := None, expires := None)
  }

  function Requeued(r: Run, available: int): Run {
    Released(r, Queued).(available := Some(available), reference := None)
  }

  /** A failed attempt: a cancelled run ends, a run with attempts left waits, any other fails. */
  function Retried(r: Run, now: int): Run {
    if r.cancelled then Released(r, Interrupted)
    else if r.attempts < r.limit then Requeued(r, now + Delay(r.attempts))
    else Released(r, Failed)
  }

  /** A run whose owner vanished: the same, but available at once. */
  function Recovered(r: Run, now: int): Run {
    if r.cancelled then Released(r, Interrupted)
    else if r.attempts >= r.limit then Released(r, Failed)
    else Requeued(r, now)
  }

  predicate Lost(r: Run, force: bool, now: int) {
    || (r.status == Running && (force || r.expires.None? || r.expires.value < now))
    || (r.status == Queued && r.owner.Some?)
  }

  /** One look at the executor: still active, or finished with an outcome. */
  function Polled(r: Run, worker: nat, finding: Option<Status>, now: int): Run {
    if finding.None? then r.(status := Running, owner := Some(worker), expires := Some(now + LEASE_SECONDS))
    else Released(r, if r.cancelled then Interrupted else finding.value)
  }

  function CancelRequested(r: Run): Run {
    if r.status == Queued then Released(r, Interrupted).(cancelled := true) else r.(cancelled := true)
  }

  // ----- Which row is claimed -----

  predicate Ready(r: Run, now: int) {
    r.status == Queued && (r.available.None? || r.available.value <= now)
  }

  /** Some queued run it depends on was submitted earlier. */
  predicate BlockedBy(rows: Rows, id: nat, d: nat)
    requires id in rows && d in rows
  {
    rows[d].status == Queued && rows[d].job in Dependencies(rows[id].job) && d < id
  }

  predicate Blocked(rows: Rows, id: nat)
    requires id in rows
  {
    exists d :: d in rows && BlockedBy(rows, id, d)
  }

  predicate Candidate(rows: Rows, id: nat, now: int) {
    id in rows && Ready(rows[id], now) && !Blocked(rows, id)
  }

  /** By priority, then by availability with missing dates first, then by id. */
  predicate Precedes(rows: Rows, a: nat, b: nat)
    requires a in rows && b in rows
  {
    var (x, y) := (rows[a], rows[b]);
    if Priority(x.job) != Priority(y.job) then Priority(x.job) < Priority(y.job)
    else if x.available != y.available then
      x.available.None? || (y.available.Some? && x.available.value < y.available.value)
    else a <= b
  }

  ghost predicate IsNext(rows: Rows, id: nat, now: int) {
    Candidate(rows, id, now) && forall other :: other in rows && Candidate(rows, other, now) ==> Precedes(rows, id, other)
  }

  ghost predicate Busy(rows: Rows) {
    exists id :: id in rows && rows[id].status == Running
  }

  // ----- Rotation -----

  predicate Newer(rows: Rows, a: nat, b: nat)
    requires a in rows && b in rows
  {
    rows[a].created > rows[b].created || (rows[a].created == rows[b].created && a > b)
  }

  ghost function NewerOfJob(rows: Rows, id: nat): set<nat>
    requires id in rows
  {
    set other | other in rows && rows[other].job == rows[id].job && Newer(rows, other, id)
  }

  /** All but the `keep` newest runs of the job go. */
  ghost predicate Rotated(rows: Rows, job: Job, keep: nat, next: Rows) {
    && next.Keys == (set id | id in rows && (rows[id].job != job || |NewerOfJob(rows, id)| < keep))
    && forall id :: id in next ==> next[id] == rows[id]
  }

  // ----- Steps -----

  datatype Op =
    | Submit(id: nat, job: Job, now: int, limit: nat)
    | Claim(worker: nat, now: int)
    | Renew(id: nat, worker: nat, now: int)
    | FailOrRetry(id: nat, worker: nat, now: int)
    | Recover(force: bool, now: int)
    | CancelBeforeStart(id: nat, worker: nat)
    | Dispatched(id: nat, worker: nat, reference: Reference)
    | Poll(id: nat, worker: nat, finding: Option<Status>, now: int)
    | CloseFinishedScan(id: nat, scans: map<nat, Status>)
    | RequestCancel(id: nat)
    | Rotate(job: Job, keep: nat)
    | EnterInline(id: nat, worker: nat)
    | FinishInline(id: nat, worker: nat, outcome: Status)

  predicate Holds(rows: Rows, id: nat, worker: nat) {
    id in rows && rows[id].owner == Some(worker)
  }

  predicate HoldsRunning(rows: Rows, id: nat, worker: nat) {
    Holds(rows, id, worker) && rows[id].status == Running
  }

  predicate JobActive(rows: Rows, job: Job) {
    exists id :: id in rows && rows[id].job == job && Active(rows[id])
  }

  /** The run waits for a library scan that has reached a terminal state. */
  predicate ScanFinished(rows: Rows, id: nat, scans: map<nat, Status>) {
    && id in rows && Active(rows[id]) && rows[id].reference.Some? && rows[id].reference.value.Scan?
    && rows[id].reference.value.id in scans && Terminal(scans[rows[id].reference.value.id])
  }

  ghost predicate Step(rows: Rows, op: Op, next: Rows) {
    match op
    case Submit(id, job, now, limit) =>
      if JobActive(rows, job) then next == rows
      else limit >= 1 && (forall other :: other in rows ==> other < id) && next == rows[id := Submitted(job, now, limit)]
    case Claim(worker, now) =>
      if Busy(rows) || !exists id :: id in rows && Candidate(rows, id, now) then next == rows
      else exists id :: id in rows && IsNext(rows, id, now) && next == rows[id := Leased(rows[id], worker, now)]
    case Renew(id, worker, now) =>
      next == if HoldsRunning(rows, id, worker) then rows[id := rows[id].(expires := Some(now + LEASE_SECONDS))] else rows
    case FailOrRetry(id, worker, now) =>
      next == if Holds(rows, id, worker) then rows[id := Retried(rows[id], now)] else rows
    case Recover(force, now) =>
      next == map id | id in rows :: if Lost(rows[id], force, now) then Recovered(rows[id], now) else rows[id]
    case CancelBeforeStart(id, worker) =>
      next == if HoldsRunning(rows, id, worker) && rows[id].cancelled then rows[id := Released(rows[id], Interrupted)] else rows
    case Dispatched(id, worker, reference) =>
      next == if HoldsRunning(rows, id, worker) then rows[id := rows[id].(reference := Some(reference))] else rows
    case Poll(id, worker, finding, now) =>
      (finding.Some? ==> Terminal(finding.value))
      && next == if Holds(rows, id, worker) then rows[id := Polled(rows[id], worker, finding, now)] else rows
    case CloseFinishedScan(id, scans) =>
      next == if ScanFinished(rows, id, scans) then rows[id := Released(rows[id], scans[rows[id].reference.value.id])] else rows
    case RequestCancel(id) =>
      next == if id in rows && Active(rows[id]) then rows[id := CancelRequested(rows[id])] else rows
    case Rotate(job, keep) => keep >= 1 && Rotated(rows, job, keep, next)
    case EnterInline(id, worker) =>
      next == if Holds(rows, id, worker) && rows[id].cancelled then rows[id := Released(rows[id], Interrupted)] else rows
    case FinishInline(id, worker, outcome) =>
      Terminal(outcome) && next == if id in rows then rows[id := Released(rows[id], outcome)] else rows
  }

  // ----- The invariant -----

  ghost predicate RowOk(rows: Rows, id: nat)
    requires id in rows
  {
    var r := rows[id];
    && r.limit >= 1 && r.attempts <= r.limit
    && (r.status == Queued ==>
          r.owner.None? && r.expires.None? && !r.cancelled && r.attempts < r.limit && r.reference.None?)
    && (r.status == Running ==> r.owner.Some? && r.attempts >= 1)
    && (Terminal(r.status) ==> r.owner.None? && r.expires.None?)
  }

  ghost predicate Exclusive(rows: Rows, a: nat, b: nat)
    requires a in rows && b in rows
  {
    && (rows[a].status == Running && rows[b].status == Running ==> a == b)
    && (rows[a].job == rows[b].job && Active(rows[a]) && Active(rows[b]) ==> a == b)
  }

  ghost predicate Invariant(rows: Rows) {
    && (forall id {:trigger RowOk(rows, id)} :: id in rows ==> RowOk(rows, id))
    && (forall a, b {:trigger Exclusive(rows, a, b)} :: a in rows && b in rows ==> Exclusive(rows, a, b))
  }

  lemma StepKeepsRows(rows: Rows, op: Op, next: Rows, id: nat)
    requires Invariant(rows) && Step(rows, op, next) && id in next
    ensures RowOk(next, id)
  {
    if id in rows {
      assert RowOk(rows, id);
    }
  }

  lemma StepKeepsExclusive(rows: Rows, op: Op, next: Rows, a: nat, b: nat)
    requires Invariant(rows) && Step(rows, op, next) && a in next && b in next
    ensures Exclusive(next, a, b)
  {
    if a in rows && b in rows {
      assert Exclusive(rows, a, b) && RowOk(rows, a) && RowOk(rows, b);
    }
  }

  lemma StepKeepsInvariant(rows: Rows, op: Op, next: Rows)
    requires Invariant(rows) && Step(rows, op, next)
    ensures Invariant(next)
  {
    forall id | id in next
      ensures RowOk(next, id)
    {
      StepKeepsRows(rows, op, next, id);
    }
    forall a, b | a in next && b in next
      ensures Exclusive(next, a, b)
    {
      StepKeepsExclusive(rows, op, next, a, b);
    }
  }

  ghost predicate StepAt(run: seq<Rows>, ops: seq<Op>, i: nat)
    requires |run| == |ops| + 1 && i < |ops|
  {
    Step(run[i], ops[i], run[i + 1])
  }

  ghost predicate IsRun(run: seq<Rows>, ops: seq<Op>) {
    |run| == |ops| + 1 && run[0] == map[] && forall i: nat {:trigger StepAt(run, ops, i)} :: i < |ops| ==> StepAt(run, ops, i)
  }

  /**
   In every reachable state at most one run is running, at most one per job is active, queued runs
   have attempts left and neither lease nor cancellation, and finished runs have no lease.
   */
  lemma {:induction false} InvariantAlways(run: seq<Rows>, ops: seq<Op>, i: nat)
    requires IsRun(run, ops) && i < |run|
    ensures Invariant(run[i])
  {
    if i > 0 {
      InvariantAlways(run, ops, i - 1);
      assert StepAt(run, ops, i - 1);
      StepKeepsInvariant(run[i - 1], ops[i - 1], run[i]);
    }
  }

  // ----- The life of one run -----

  function Rank(s: Status): nat {
    match s
    case Running => 2
    case Queued => 1
    case _ => 0
  }

  /** What any step may do to a row that survives it. */
  ghost predicate Follows(a: Run, b: Run) {
    && b.job == a.job && b.created == a.created && b.limit == a.limit
    && (Terminal(a.status) ==> b == a)
    && (a.cancelled ==> b.cancelled && b.status != Queued && b.attempts == a.attempts)
    && (a.status == b.status ==> a.attempts == b.attempts)
    && (a.status != b.status ==>
          a.attempts < b.attempts == a.attempts + 1 || (a.attempts == b.attempts && Rank(b.status) < Rank(a.status)))
  }

  /** The one write that does not look at the lease finds the run unfinished. */
  ghost predicate FinishFindsActive(rows: Rows, op: Op) {
    op.FinishInline? && op.id in rows ==> Active(rows[op.id])
  }

  lemma StepFollows(rows: Rows, op: Op, next: Rows, id: nat)
    requires Invariant(rows) && Step(rows, op, next) && FinishFindsActive(rows, op)
    requires id in rows && id in next
    ensures Follows(rows[id], next[id])
    ensures next[id].attempts > rows[id].attempts <==> rows[id].status != Running && next[id].status == Running
  {
    assert RowOk(rows, id);
  }

  lemma LastStepFollows(run: seq<Rows>, ops: seq<Op>, j: nat, id: nat)
    requires IsRun(run, ops) && 0 < j < |run| && FinishFindsActive(run[j - 1], ops[j - 1])
    requires id in run[j - 1] && id in run[j]
    ensures Follows(run[j - 1][id], run[j][id]) && run[j][id].attempts <= run[j][id].limit
    ensures run[j][id].attempts > run[j - 1][id].attempts <==>
      run[j - 1][id].status != Running && run[j][id].status == Running
  {
    InvariantAlways(run, ops, j);
    InvariantAlways(run, ops, j - 1);
    assert RowOk(run[j], id) && StepAt(run, ops, j - 1);
    StepFollows(run[j - 1], ops[j - 1], run[j], id);
  }

  /** Over any stretch of a run: finished stays finished, cancelled stays cancelled and is never tried again. */
  lemma {:induction false} LifeFollows(run: seq<Rows>, ops: seq<Op>, i: nat, j: nat, id: nat)
    requires IsRun(run, ops) && i <= j < |run|
    requires forall k :: i <= k < j ==> FinishFindsActive(run[k], ops[k])
    requires forall k :: i <= k <= j ==> id in run[k]
    ensures Terminal(run[i][id].status) ==> run[j][id] == run[i][id]
    ensures run[i][id].cancelled ==>
      run[j][id].cancelled && run[j][id].status != Queued && run[j][id].attempts == run[i][id].attempts
    ensures run[i][id].attempts <= run[j][id].attempts <= run[j][id].limit == run[i][id].limit
    decreases j
  {
    if i < j {
      LastStepFollows(run, ops, j, id);
      LifeFollows(run, ops, i, j - 1, id);
    } else {
      InvariantAlways(run, ops, j);
      assert RowOk(run[j], id);
    }
  }

  /** How often the run is started between two moments. */
  ghost function Starts(run: seq<Rows>, i: nat, j: nat, id: nat): nat
    requires i <= j < |run| && forall k :: i <= k <= j ==> id in run[k]
  {
    if i == j then 0
    else
      Starts(run, i, j - 1, id) +
      if run[j - 1][id].status != Running && run[j][id].status == Running then 1 else 0
  }

  /** Attempts count the starts, so from submission on a run is started at most `limit` times. */
  lemma {:induction false} StartsAreAttempts(run: seq<Rows>, ops: seq<Op>, i: nat, j: nat, id: nat)
    requires IsRun(run, ops) && i <= j < |run|
    requires forall k :: i <= k < j ==> FinishFindsActive(run[k], ops[k])
    requires forall k :: i <= k <= j ==> id in run[k]
    ensures run[i][id].attempts + Starts(run, i, j, id) == run[j][id].attempts <= run[j][id].limit
    decreases j
  {
    if i < j {
      LastStepFollows(run, ops, j, id);
      StartsAreAttempts(run, ops, i, j - 1, id);
    } else {
      InvariantAlways(run, ops, j);
      assert RowOk(run[j], id);
    }
  }

  // ----- Leases -----

  predicate ByWorker(op: Op, id: nat, worker: nat) {
    match op
    case Renew(i, w, _) => i == id && w == worker
    case FailOrRetry(i, w, _) => i == id && w == worker
    case CancelBeforeStart(i, w) => i == id && w == worker
    case Dispatched(i, w, _) => i == id && w == worker
    case Poll(i, w, _, _) => i == id && w == worker
    case EnterInline(i, w) => i == id && w == worker
    case FinishInline(i, w, _) => i == id && w == worker
    case _ => false
  }

  /** The worker is given the lease of a run: the run is started for it. */
  ghost predicate StartedFor(rows: Rows, op: Op, next: Rows, id: nat, worker: nat) {
    op.Claim? && op.worker == worker && id in rows && rows[id].status == Queued && id in next
    && next[id] == Leased(rows[id], worker, op.now)
  }

  /** A lease is gained by a claim and in no other way, and without it no operation that looks at it has an effect. */
  lemma LeaseOnlyByClaim(rows: Rows, op: Op, next: Rows, id: nat, worker: nat)
    requires Step(rows, op, next) && !Holds(rows, id, worker)
    ensures Holds(next, id, worker) ==> StartedFor(rows, op, next, id, worker)
    ensures ByWorker(op, id, worker) && !op.FinishInline? ==> next == rows
  {
  }

  /**
   From the moment its lease is taken away, a worker changes nothing through renew, fail/retry,
   dispatch, monitor or entry, however long it goes on, until the run is started for it again.
   */
  lemma {:induction false} StaleWorkerIsPowerless(run: seq<Rows>, ops: seq<Op>, i: nat, j: nat, id: nat, worker: nat)
    requires IsRun(run, ops) && i <= j < |run| && !Holds(run[i], id, worker)
    requires forall k :: i <= k < j ==> !StartedFor(run[k], ops[k], run[k + 1], id, worker)
    ensures !Holds(run[j], id, worker)
    ensures forall k :: i <= k < j && ByWorker(ops[k], id, worker) && !ops[k].FinishInline? ==> run[k + 1] == run[k]
    decreases j
  {
    if i < j {
      StaleWorkerIsPowerless(run, ops, i, j - 1, id, worker);
      assert StepAt(run, ops, j - 1);
      LeaseOnlyByClaim(run[j - 1], ops[j - 1], run[j], id, worker);
    }
  }

  /** No worker holds two leases, and no run is held by two workers. */
  lemma LeaseIsExclusive(rows: Rows, a: nat, b: nat, v: nat, w: nat)
    requires Invariant(rows) && Holds(rows, a, v) && Holds(rows, b, w)
    ensures a == b && v == w && rows[a].status == Running
  {
    assert RowOk(rows, a) && RowOk(rows, b) && Exclusive(rows, a, b);
  }

  /** Every run that is not leased to the worker is as it was. */
  ghost predicate OthersUntouched(rows: Rows, next: Rows, worker: nat) {
    forall id :: id in rows && !Holds(rows, id, worker) ==> id in next && next[id] == rows[id]
  }

  ghost predicate FinishRespectsLease(rows: Rows, id: nat, worker: nat, outcome: Status) {
    forall next :: Step(rows, FinishInline(id, worker, outcome), next) ==> OthersUntouched(rows, next, worker)
  }

  /** Maintenance and reconciliation finish without looking at the lease: safe exactly for who still holds it. */
  lemma InlineFinishRespectsLeaseIff(rows: Rows, id: nat, worker: nat)
    ensures (forall outcome :: FinishRespectsLease(rows, id, worker, outcome)) <==> id !in rows || Holds(rows, id, worker)
  {
    if id in rows && !Holds(rows, id, worker) {
      var outcome := if rows[id].status == Succeeded then Failed else Succeeded;
      var next := rows[id := Released(rows[id], outcome)];
      assert Step(rows, FinishInline(id, worker, outcome), next) && next[id] != rows[id];
      assert !FinishRespectsLease(rows, id, worker, outcome);
    }
  }

  /** Nor does it look whether the run is finished already: its life goes on as it should exactly if it is not. */
  lemma InlineFinishFollowsIff(rows: Rows, id: nat)
    requires Invariant(rows) && id in rows
    ensures (forall outcome :: Terminal(outcome) ==> Follows(rows[id], rows[id := Released(rows[id], outcome)][id]))
      <==> Active(rows[id])
  {
    assert RowOk(rows, id);
    assert Terminal(Succeeded) && Terminal(Failed);
    assert Released(rows[id], Succeeded).status != Released(rows[id], Failed).status;
  }

  /** The one run of the examples. */
  function Only(r: Run): Rows {
    map[1 := r]
  }

  lemma OnlyRunIsClaimed(r: Run, worker: nat, now: int)
    requires Ready(r, now)
    ensures Step(Only(r), Claim(worker, now), Only(Leased(r, worker, now)))
  {
    var rows := Only(r);
    forall d | d in rows
      ensures !BlockedBy(rows, 1, d)
    {
    }
    assert Candidate(rows, 1, now) && IsNext(rows, 1, now);
    assert rows[1 := Leased(r, worker, now)] == Only(Leased(r, worker, now));
  }

  /**
   A worker that lost its lease closes the run of another: it claims the run and enters, its lease
   runs out, the run is recovered and claimed by a second worker, and the first finishes.
   */
  lemma InlineFinishClosesAnothersRun() returns (run: seq<Rows>, ops: seq<Op>)
    ensures IsRun(run, ops) && |ops| == 6
    ensures ops[1] == Claim(7, 0) && ops[2] == EnterInline(1, 7) && HoldsRunning(run[3], 1, 7)
    ensures ops[3] == Recover(false, 60) && !Holds(run[4], 1, 7)
    ensures ops[4] == Claim(8, 60) && HoldsRunning(run[5], 1, 8)
    ensures ops[5] == FinishInline(1, 7, Succeeded) && 1 in run[6] && !Active(run[6][1]) && !Holds(run[6], 1, 8)
  {
    var back := Recovered(Leased(Submitted(Maintenance, 0, 3), 7, 0), 60);
    var second := Leased(back, 8, 60);
    run, ops := LeaseRunsOut();
    OnlyRunIsClaimed(back, 8, 60);
    run, ops := RunGrows(run, ops, Claim(8, 60), Only(second));
    run, ops := RunGrows(run, ops, FinishInline(1, 7, Succeeded), Only(second)[1 := Released(second, Succeeded)]);
  }

  /** The same two workers, and the second finishes first: its outcome is overwritten by the first. */
  lemma InlineFinishOverwritesOutcome() returns (run: seq<Rows>, ops: seq<Op>)
    ensures IsRun(run, ops) && |ops| == 8 && HoldsRunning(run[3], 1, 7) && HoldsRunning(run[5], 1, 8)
    ensures ops[5] == EnterInline(1, 8) && ops[6] == FinishInline(1, 8, Succeeded) && ops[7] == FinishInline(1, 7, Failed)
    ensures 1 in run[7] && run[7][1].status == Succeeded && 1 in run[8] && run[8][1].status == Failed
  {
    var second := Leased(Recovered(Leased(Submitted(Maintenance, 0, 3), 7, 0), 60), 8, 60);
    run, ops := SecondWorkerEnters();
    run, ops := RunGrows(run, ops, FinishInline(1, 8, Succeeded), Only(second)[1 := Released(second, Succeeded)]);
    run, ops := RunGrows(run, ops, FinishInline(1, 7, Failed), run[7][1 := Released(run[7][1], Failed)]);
  }

  lemma SecondWorkerEnters() returns (run: seq<Rows>, ops: seq<Op>)
    ensures IsRun(run, ops) && |ops| == 6 && HoldsRunning(run[3], 1, 7) && HoldsRunning(run[5], 1, 8) && ops[5] == EnterInline(1, 8)
    ensures run[6] == Only(Leased(Recovered(Leased(Submitted(Maintenance, 0, 3), 7, 0), 60), 8, 60))
  {
    var back := Recovered(Leased(Submitted(Maintenance, 0, 3), 7, 0), 60);
    run, ops := LeaseRunsOut();
    OnlyRunIsClaimed(back, 8, 60);
    run, ops := RunGrows(run, ops, Claim(8, 60), Only(Leased(back, 8, 60)));
    run, ops := RunGrows(run, ops, EnterInline(1, 8), Only(Leased(back, 8, 60)));
  }

  lemma LeaseRunsOut() returns (run: seq<Rows>, ops: seq<Op>)
    ensures IsRun(run, ops) && |ops| == 4 && ops[1] == Claim(7, 0) && ops[2] == EnterInline(1, 7) && ops[3] == Recover(false, 60)
    ensures HoldsRunning(run[3], 1, 7) && run[4] == Only(Recovered(Leased(Submitted(Maintenance, 0, 3), 7, 0), 60))
  {
    var newcomer := Submitted(Maintenance, 0, 3);
    var first := Leased(newcomer, 7, 0);
    run, ops := OnlyRunStarts(newcomer, 7, 0);
    run, ops := RunGrows(run, ops, EnterInline(1, 7), Only(first));
    OnlyRunIsRecovered(first, 60);
    run, ops := RunGrows(run, ops, Recover(false, 60), Only(Recovered(first, 60)));
  }

  lemma RunGrows(run: seq<Rows>, ops: seq<Op>, op: Op, next: Rows) returns (longer: seq<Rows>, more: seq<Op>)
    requires IsRun(run, ops) && Step(run[|ops|], op, next)
    ensures longer == run + [next] && more == ops + [op] && IsRun(longer, more)
  {
    longer, more := run + [next], ops + [op];
    forall i: nat | i < |more|
      ensures StepAt(longer, more, i)
    {
      assert i < |ops| ==> StepAt(run, ops, i);
    }
  }

  lemma OnlyRunIsRecovered(r: Run, now: int)
    requires Lost(r, false, now)
    ensures Step(Only(r), Recover(false, now), Only(Recovered(r, now)))
  {
    assert (map id | id in Only(r) :: if Lost(Only(r)[id], false, now) then Recovered(Only(r)[id], now) else Only(r)[id])
        == Only(Recovered(r, now));
  }

  /** Submitted to an empty table and claimed. */
  lemma OnlyRunStarts(r: Run, worker: nat, now: int) returns (run: seq<Rows>, ops: seq<Op>)
    requires r == Submitted(r.job, now, r.limit) && r.limit >= 1
    ensures IsRun(run, ops) && run == [map[], Only(r), Only(Leased(r, worker, now))]
    ensures ops == [Submit(1, r.job, now, r.limit), Claim(worker, now)]
  {
    var none: Rows := map[];
    assert IsRun([none], []);
    assert none[1 := r] == Only(r);
    run, ops := RunGrows([none], [], Submit(1, r.job, now, r.limit), Only(r));
    OnlyRunIsClaimed(r, worker, now);
    run, ops := RunGrows(run, ops, Claim(worker, now), Only(Leased(r, worker, now)));
  }

  // ----- Order and progress -----

  /** Started: at this step the run goes from not running to running. */
  ghost predicate Starting(run: seq<Rows>, i: nat, id: nat)
    requires i + 1 < |run|
  {
    id in run[i] && id in run[i + 1] && run[i][id].status != Running && run[i + 1][id].status == Running
  }

  lemma StartFindsDependenciesDone(rows: Rows, op: Op, next: Rows, id: nat, d: nat)
    requires Invariant(rows) && Step(rows, op, next) && id in rows && id in next
    requires rows[id].status != Running && next[id].status == Running
    requires d in rows && d < id && rows[d].job in Dependencies(rows[id].job)
    ensures Terminal(rows[d].status)
  {
    assert RowOk(rows, id);
    assert BlockedBy(rows, id, d) <==> rows[d].status == Queued;
  }

  /** A finished run may get another outcome from an unguarded finish, but never becomes active again. */
  lemma {:induction false} FinishedForGood(run: seq<Rows>, ops: seq<Op>, i: nat, j: nat, id: nat)
    requires IsRun(run, ops) && i <= j < |run|
    requires forall k :: i <= k <= j ==> id in run[k]
    requires Terminal(run[i][id].status)
    ensures Terminal(run[j][id].status)
    decreases j
  {
    if i < j {
      FinishedForGood(run, ops, i, j - 1, id);
      InvariantAlways(run, ops, j - 1);
      assert StepAt(run, ops, j - 1) && RowOk(run[j - 1], id);
    }
  }

  /**
   Whenever a run is started, by whatever step, every earlier run it depends on is finished, and it
   stays finished for as long as it is kept.
   */
  lemma StartsWaitForDependencies(run: seq<Rows>, ops: seq<Op>, i: nat, j: nat, id: nat, d: nat)
    requires IsRun(run, ops) && i < |ops| && Starting(run, i, id)
    requires d in run[i] && d < id && run[i][d].job in Dependencies(run[i][id].job)
    requires i <= j < |run| && forall k :: i <= k <= j ==> d in run[k]
    ensures Terminal(run[j][d].status)
  {
    InvariantAlways(run, ops, i);
    assert StepAt(run, ops, i);
    StartFindsDependenciesDone(run[i], ops[i], run[i + 1], id, d);
    FinishedForGood(run, ops, i, j, d);
  }

  lemma {:induction false} LeastExists(ids: set<nat>) returns (least: nat)
    requires ids != {}
    ensures least in ids && forall id :: id in ids ==> least <= id
    decreases |ids|
  {
    var first: nat :| first in ids;
    least := first;
    if ids != {first} {
      var other := LeastExists(ids - {first});
      assert forall id :: id in ids ==> id == first || id in ids - {first};
      least := if other < first then other else first;
    }
  }

  /** When nothing runs, something waits and every waiting run is due, a claim starts a run. */
  lemma ClaimSucceeds(rows: Rows, worker: nat, now: int, next: Rows, waiting: nat)
    requires Step(rows, Claim(worker, now), next) && !Busy(rows)
    requires waiting in rows && rows[waiting].status == Queued
    requires forall id :: id in rows && rows[id].status == Queued ==> Ready(rows[id], now)
    ensures exists id :: id in rows && id in next && rows[id].status == Queued && next[id] == Leased(rows[id], worker, now)
  {
    var queued := set id | id in rows && rows[id].status == Queued;
    assert waiting in queued;
    var least := LeastExists(queued);
    forall d | d in rows
      ensures !BlockedBy(rows, least, d)
    {
      assert rows[d].status == Queued ==> d in queued;
    }
    assert Candidate(rows, least, now);
  }

  // ----- Rotation keeps what is active -----

  /** Submissions are stamped by a clock that does not go back. */
  ghost predicate OnTime(rows: Rows, op: Op) {
    op.Submit? ==> forall id :: id in rows ==> rows[id].created <= op.now
  }

  ghost predicate InOrder(rows: Rows, a: nat, b: nat)
    requires a in rows && b in rows
  {
    && (a < b ==> rows[a].created <= rows[b].created)
    && (Active(rows[b]) && rows[a].job == rows[b].job ==> a <= b)
  }

  /** Ids and dates agree, and the active run of a job is its newest. */
  ghost predicate ActiveIsNewest(rows: Rows) {
    forall a, b {:trigger InOrder(rows, a, b)} :: a in rows && b in rows ==> InOrder(rows, a, b)
  }

  lemma StepKeepsActiveNewest(rows: Rows, op: Op, next: Rows)
    requires Invariant(rows) && ActiveIsNewest(rows) && Step(rows, op, next) && OnTime(rows, op)
    ensures ActiveIsNewest(next)
  {
    forall a, b | a in next && b in next
      ensures InOrder(next, a, b)
    {
      if a in rows && b in rows {
        RunKeepsIdentity(rows, op, next, a);
        RunKeepsIdentity(rows, op, next, b);
        assert InOrder(rows, a, b);
      }
    }
  }

  ghost predicate SameRun(rows: Rows, next: Rows, id: nat)
    requires id in rows && id in next
  {
    && next[id].job == rows[id].job && next[id].created == rows[id].created
    && (Active(next[id]) ==> Active(rows[id]))
  }

  lemma RunKeepsIdentity(rows: Rows, op: Op, next: Rows, id: nat)
    requires Invariant(rows) && Step(rows, op, next) && id in rows && id in next
    ensures SameRun(rows, next, id)
  {
    assert RowOk(rows, id);
  }

  lemma {:induction false} ActiveAlwaysNewest(run: seq<Rows>, ops: seq<Op>, i: nat)
    requires IsRun(run, ops) && i < |run|
    requires forall k :: 0 <= k < i ==> OnTime(run[k], ops[k])
    ensures ActiveIsNewest(run[i])
  {
    if i > 0 {
      ActiveAlwaysNewest(run, ops, i - 1);
      InvariantAlways(run, ops, i - 1);
      assert StepAt(run, ops, i - 1);
      StepKeepsActiveNewest(run[i - 1], ops[i - 1], run[i]);
    }
  }

  /** With a clock that does not go back, rotation never deletes a queued or running run. */
  lemma RotationKeepsActive(run: seq<Rows>, ops: seq<Op>, i: nat, id: nat)
    requires IsRun(run, ops) && i < |ops| && ops[i].Rotate?
    requires forall k :: 0 <= k < i ==> OnTime(run[k], ops[k])
    requires id in run[i] && Active(run[i][id])
    ensures id in run[i + 1] && run[i + 1][id] == run[i][id]
  {
    ActiveAlwaysNewest(run, ops, i);
    assert StepAt(run, ops, i);
    forall other | other in run[i] && run[i][other].job == run[i][id].job
      ensures !Newer(run[i], other, id)
    {
      assert InOrder(run[i], other, id);
    }
    assert NewerOfJob(run[i], id) == {};
  }

  ghost predicate SurvivesRotation(rows: Rows, id: nat, keep: nat)
    requires id in rows
  {
    forall next :: Rotated(rows, rows[id].job, keep, next) ==> id in next
  }

  lemma RotationExists(rows: Rows, job: Job, keep: nat) returns (next: Rows)
    ensures Rotated(rows, job, keep, next)
  {
    next := map id | id in rows && (rows[id].job != job || |NewerOfJob(rows, id)| < keep) :: rows[id];
  }

  lemma SurvivesIffFewNewer(rows: Rows, id: nat, keep: nat)
    requires id in rows
    ensures SurvivesRotation(rows, id, keep) <==> |NewerOfJob(rows, id)| < keep
  {
    var next := RotationExists(rows, rows[id].job, keep);
    if SurvivesRotation(rows, id, keep) {
      assert id in next;
    }
  }

  /** A run is safe under every allowed retention exactly if no run of its job is dated after it. */
  lemma SurvivesAlwaysIffNewest(rows: Rows, id: nat)
    requires id in rows
    ensures (forall keep: nat :: keep >= 1 ==> SurvivesRotation(rows, id, keep)) <==> NewerOfJob(rows, id) == {}
  {
    SurvivesIffFewNewer(rows, id, 1);
    if NewerOfJob(rows, id) == {} {
      forall keep: nat | keep >= 1
        ensures SurvivesRotation(rows, id, keep)
      {
        SurvivesIffFewNewer(rows, id, keep);
      }
    }
  }

  /** A new run is the newest of its job exactly if the clock is not behind a run of that job. */
  lemma SubmittedIsNewestIff(rows: Rows, id: nat, job: Job, now: int, limit: nat, next: Rows)
    requires Step(rows, Submit(id, job, now, limit), next) && !JobActive(rows, job)
    ensures NewerOfJob(next, id) == {} <==> forall other :: other in rows && rows[other].job == job ==> rows[other].created <= now
  {
    if other :| other in rows && rows[other].job == job && rows[other].created > now {
      assert other in NewerOfJob(next, id);
    }
  }

  ghost predicate StaysActive(run: seq<Rows>, from: nat, to: nat, id: nat) {
    to < |run| && forall k :: from <= k <= to ==> id in run[k] && Active(run[k][id])
  }

  /** The two runs agree up to and including step `i`. */
  ghost predicate SameStart(run: seq<Rows>, ops: seq<Op>, other: seq<Rows>, more: seq<Op>, i: nat) {
    |run| > i + 1 && |ops| > i && |other| > i + 1 && |more| > i && other[..i + 2] == run[..i + 2] && more[..i + 1] == ops[..i + 1]
  }

  /** Rotation at step `k` keeps the run if it has been active since step `i`. */
  ghost predicate KeptAt(run: seq<Rows>, ops: seq<Op>, i: nat, k: nat, id: nat) {
    IsRun(run, ops) && i < k < |ops| && ops[k].Rotate? && StaysActive(run, i + 1, k, id) ==> id in run[k + 1]
  }

  /** Whatever happens after step `i`, no rotation deletes the run while it is active. */
  ghost predicate NeverRotatedAway(run: seq<Rows>, ops: seq<Op>, i: nat, id: nat) {
    forall other, more, k: nat :: SameStart(run, ops, other, more, i) ==> KeptAt(other, more, i, k, id)
  }

  lemma StepKeepsNewest(rows: Rows, op: Op, next: Rows, id: nat)
    requires Invariant(rows) && Step(rows, op, next) && id in rows && Active(rows[id]) && id in next
    requires NewerOfJob(rows, id) == {}
    ensures NewerOfJob(next, id) == {}
  {
    RunKeepsIdentity(rows, op, next, id);
    forall other | other in NewerOfJob(next, id)
      ensures other in NewerOfJob(rows, id)
    {
      if other in rows {
        RunKeepsIdentity(rows, op, next, other);
      }
    }
  }

  lemma {:induction false} NewestWhileActive(run: seq<Rows>, ops: seq<Op>, from: nat, k: nat, id: nat)
    requires IsRun(run, ops) && from <= k && StaysActive(run, from, k, id) && NewerOfJob(run[from], id) == {}
    ensures NewerOfJob(run[k], id) == {}
    decreases k
  {
    if from < k {
      NewestWhileActive(run, ops, from, k - 1, id);
      InvariantAlways(run, ops, k - 1);
      assert StepAt(run, ops, k - 1);
      StepKeepsNewest(run[k - 1], ops[k - 1], run[k], id);
    }
  }

  lemma NewestIsKept(run: seq<Rows>, ops: seq<Op>, i: nat, k: nat, id: nat)
    requires |run| > i + 1 && id in run[i + 1] && NewerOfJob(run[i + 1], id) == {}
    ensures KeptAt(run, ops, i, k, id)
  {
    if IsRun(run, ops) && i < k < |ops| && ops[k].Rotate? && StaysActive(run, i + 1, k, id) {
      NewestWhileActive(run, ops, i + 1, k, id);
      assert StepAt(run, ops, k);
    }
  }

  /** The run up to step `i`, and then a rotation that keeps one run. */
  lemma RotatedNext(run: seq<Rows>, ops: seq<Op>, i: nat, job: Job) returns (other: seq<Rows>, more: seq<Op>)
    requires IsRun(run, ops) && i < |ops|
    ensures SameStart(run, ops, other, more, i) && IsRun(other, more) && |more| == i + 2 && more[i + 1] == Rotate(job, 1)
    ensures Rotated(run[i + 1], job, 1, other[i + 2])
  {
    var next := RotationExists(run[i + 1], job, 1);
    var (front, early) := (run[..i + 2], ops[..i + 1]);
    forall k: nat | k < |early|
      ensures StepAt(front, early, k)
    {
      assert StepAt(run, ops, k);
    }
    other, more := RunGrows(front, early, Rotate(job, 1), next);
  }

  /**
   A submitted run is safe from rotation, for as long as it is active and whatever happens, exactly if
   the clock was not behind any run of its job when it was submitted.
   */
  lemma NeverRotatedAwayIff(run: seq<Rows>, ops: seq<Op>, i: nat)
    requires IsRun(run, ops) && i < |ops| && ops[i].Submit? && !JobActive(run[i], ops[i].job)
    ensures NeverRotatedAway(run, ops, i, ops[i].id) <==>
      forall other :: other in run[i] && run[i][other].job == ops[i].job ==> run[i][other].created <= ops[i].now
  {
    var (id, job) := (ops[i].id, ops[i].job);
    assert StepAt(run, ops, i);
    SubmittedIsNewestIff(run[i], id, job, ops[i].now, ops[i].limit, run[i + 1]);
    if NewerOfJob(run[i + 1], id) == {} {
      forall other, more, k: nat | SameStart(run, ops, other, more, i)
        ensures KeptAt(other, more, i, k, id)
      {
        assert other[i + 1] == other[..i + 2][i + 1] == run[i + 1];
        NewestIsKept(other, more, i, k, id);
      }
    } else {
      var other, more := RotatedNext(run, ops, i, job);
      assert other[i + 1] == other[..i + 2][i + 1] == run[i + 1];
      SurvivesIffFewNewer(run[i + 1], id, 1);
      assert |NewerOfJob(run[i + 1], id)| != 0;
      assert StaysActive(other, i + 1, i + 1, id);
      assert !KeptAt(other, more, i, i + 1, id);
    }
  }

  /** With a clock that went back rotation deletes a queued run: submitted at 9, finished, submitted at 5. */
  lemma RotationMayDeleteActive() returns (run: seq<Rows>, ops: seq<Op>)
    ensures IsRun(run, ops) && |ops| == 5
    ensures ops[0] == Submit(1, Metadata, 9, 3) && ops[3] == Submit(2, Metadata, 5, 3) && ops[4] == Rotate(Metadata, 1)
    ensures 2 in run[4] && run[4][2].status == Queued && 2 !in run[5] && 1 in run[5]
  {
    run, ops := MetadataFinishes();
    var both := run[3][2 := Submitted(Metadata, 5, 3)];
    run, ops := RunGrows(run, ops, Submit(2, Metadata, 5, 3), both);
    OlderRunIsRotated(both);
    run, ops := RunGrows(run, ops, Rotate(Metadata, 1), map[1 := both[1]]);
  }

  lemma MetadataFinishes() returns (run: seq<Rows>, ops: seq<Op>)
    ensures IsRun(run, ops) && |ops| == 3 && ops[0] == Submit(1, Metadata, 9, 3)
    ensures run[3] == Only(Released(Leased(Submitted(Metadata, 9, 3), 7, 9), Succeeded))
  {
    var newcomer := Submitted(Metadata, 9, 3);
    var done := Released(Leased(newcomer, 7, 9), Succeeded);
    run, ops := OnlyRunStarts(newcomer, 7, 9);
    assert Only(Leased(newcomer, 7, 9))[1 := done] == Only(done);
    run, ops := RunGrows(run, ops, Poll(1, 7, Some(Succeeded), 9), Only(done));
  }

  lemma OlderRunIsRotated(rows: Rows)
    requires rows.Keys == {1, 2} && rows[1].job == rows[2].job && rows[1].created > rows[2].created
    ensures Rotated(rows, rows[1].job, 1, map[1 := rows[1]])
  {
    assert NewerOfJob(rows, 2) == {1} && NewerOfJob(rows, 1) == {};
  }

  // ----- The table -----

  /** The configured number of attempts, between one and ten; three when it cannot be read. */
  function MaxAttempts(setting: Option<int>): (limit: nat)
    ensures 1 <= limit <= 10
  {
    var value := setting.GetOr(3);
    if value < 1 then 1 else if value > 10 then 10 else value
  }

  class JobTable {
    var rows: Rows
    /** The runs a worker has entered to finish them without looking at the lease again. */
    ghost var entered: set<(nat, nat)>

    constructor ()
      ensures rows == map[] && Invariant(rows) && entered == {}
    {
      rows, entered := map[], {};
    }

    /** The next rowid. */
    method FreshId() returns (id: nat)
      ensures forall other :: other in rows ==> other < id
    {
      id := 1;
      var pending := rows.Keys;
      while pending != {}
        invariant pending <= rows.Keys && forall other :: other in rows && other !in pending ==> other < id
        decreases pending
      {
        var other: nat :| other in pending;
        if other >= id {
          id := other + 1;
        }
        pending := pending - {other};
      }
    }

    /** At most one active run per job: a second request is refused. */
    method SubmitJob(job: Job, now: int, setting: Option<int>) returns (id: nat, accepted: bool)
      requires Invariant(rows)
      modifies `rows
      ensures Invariant(rows) && Step(old(rows), Submit(id, job, now, MaxAttempts(setting)), rows)
      ensures accepted <==> !JobActive(old(rows), job)
      ensures accepted ==> id in rows && rows[id].status == Queued
    {
      ghost var before := rows;
      id := FreshId();
      accepted := !JobActive(rows, job);
      if accepted {
        rows := rows[id := Submitted(job, now, MaxAttempts(setting))];
      }
      StepKeepsInvariant(before, Submit(id, job, now, MaxAttempts(setting)), rows);
    }

    method NextCandidate(now: int) returns (found: Option<nat>)
      ensures found.None? ==> forall id :: id in rows ==> !Candidate(rows, id, now)
      ensures found.Some? ==> IsNext(rows, found.value, now)
    {
      found := None;
      var pending := rows.Keys;
      while pending != {}
        invariant pending <= rows.Keys
        invariant found.None? ==> forall id :: id in rows && id !in pending ==> !Candidate(rows, id, now)
        invariant found.Some? ==>
          Candidate(rows, found.value, now)
          && forall id :: id in rows && id !in pending && Candidate(rows, id, now) ==> Precedes(rows, found.value, id)
        decreases pending
      {
        var id: nat :| id in pending;
        if Candidate(rows, id, now) && (found.None? || Precedes(rows, id, found.value)) {
          found := Some(id);
        }
        pending := pending - {id};
      }
    }

    method AnyRunning() returns (busy: bool)
      ensures busy <==> Busy(rows)
    {
      busy := exists id :: id in rows && rows[id].status == Running;
    }

    method ClaimNextJob(worker: nat, now: int) returns (claimed: Option<nat>)
      requires Invariant(rows)
      modifies `rows
      ensures Invariant(rows) && Step(old(rows), Claim(worker, now), rows)
      ensures if claimed.Some? then HoldsRunning(rows, claimed.value, worker) else rows == old(rows)
    {
      ghost var before := rows;
      var found := NextCandidate(now);
      var busy := AnyRunning();
      claimed := if busy then None else found;
      if claimed.Some? {
        rows := rows[claimed.value := Leased(rows[claimed.value], worker, now)];
      }
      StepKeepsInvariant(before, Claim(worker, now), rows);
    }

    method RenewLease(id: nat, worker: nat, now: int) returns (renewed: bool)
      requires Invariant(rows)
      modifies `rows
      ensures Invariant(rows) && Step(old(rows), Renew(id, worker, now), rows)
      ensures renewed <==> HoldsRunning(old(rows), id, worker)
    {
      ghost var before := rows;
      renewed := HoldsRunning(rows, id, worker);
      if renewed {
        rows := rows[id := rows[id].(expires := Some(now + LEASE_SECONDS))];
      }
      StepKeepsInvariant(before, Renew(id, worker, now), rows);
    }

    method FailOrRetryJob(id: nat, worker: nat, now: int)
      requires Invariant(rows)
      modifies `rows
      ensures Invariant(rows) && Step(old(rows), FailOrRetry(id, worker, now), rows)
    {
      ghost var before := rows;
      if !Holds(rows, id, worker) {
        return;
      }
      var run := rows[id];
      if run.cancelled {
        run := run.(status := Interrupted);
      } else if run.attempts < run.limit {
        run := run.(status := Queued, available := Some(now + Delay(run.attempts)), reference := None);
      } else {
        run := run.(status := Failed);
      }
      rows := rows[id := run.(owner := None, expires := None)];
      StepKeepsInvariant(before, FailOrRetry(id, worker, now), rows);
    }

    /** Every lost run, one by one; with `force` every running one. */
    method RecoverJobRuns(force: bool, now: int) returns (count: nat)
      requires Invariant(rows)
      modifies `rows
      ensures Invariant(rows) && Step(old(rows), Recover(force, now), rows)
      ensures count == |set id | id in old(rows) && Lost(old(rows)[id], force, now)|
    {
      ghost var before := rows;
      var lost := set id | id in rows && Lost(rows[id], force, now);
      count := |lost|;
      var pending := lost;
      while pending != {}
        invariant pending <= lost <= before.Keys && rows.Keys == before.Keys
        invariant forall id {:trigger rows[id]} :: id in before ==>
          rows[id] == if id in lost && id !in pending then Recovered(before[id], now) else before[id]
        decreases pending
      {
        var id :| id in pending;
        var run := rows[id];
        if run.cancelled {
          run := run.(status := Interrupted);
        } else if run.attempts >= run.limit {
          run := run.(status := Failed);
        } else {
          run := run.(status := Queued, available := Some(now), reference := None);
        }
        rows := rows[id := run.(owner := None, expires := None)];
        pending := pending - {id};
      }
      assert lost == set id | id in before && Lost(before[id], force, now);
      StepKeepsInvariant(before, Recover(force, now), rows);
    }

    /** The first half of an execution: a run cancelled in the meantime is not started. */
    method StartClaimed(id: nat, worker: nat) returns (go: bool)
      requires Invariant(rows)
      modifies `rows
      ensures Invariant(rows) && Step(old(rows), CancelBeforeStart(id, worker), rows)
      ensures go <==> HoldsRunning(rows, id, worker)
    {
      ghost var before := rows;
      go := HoldsRunning(rows, id, worker);
      if go && rows[id].cancelled {
        rows := rows[id := rows[id].(status := Interrupted, owner := None, expires := None)];
        go := false;
      }
      StepKeepsInvariant(before, CancelBeforeStart(id, worker), rows);
    }

    /** Records what the run waits for, unless the lease was lost while it was being dispatched. */
    method RecordDispatch(id: nat, worker: nat, reference: Reference) returns (kept: bool)
      requires Invariant(rows)
      modifies `rows
      ensures Invariant(rows) && Step(old(rows), Dispatched(id, worker, reference), rows)
      ensures kept <==> HoldsRunning(old(rows), id, worker)
    {
      ghost var before := rows;
      kept := HoldsRunning(rows, id, worker);
      if kept {
        rows := rows[id := rows[id].(reference := Some(reference))];
      }
      StepKeepsInvariant(before, Dispatched(id, worker, reference), rows);
    }

    method PollOnce(id: nat, worker: nat, finding: Option<Status>, now: int) returns (go: bool)
      requires Invariant(rows) && (finding.Some? ==> Terminal(finding.value))
      modifies `rows
      ensures Invariant(rows) && Step(old(rows), Poll(id, worker, finding, now), rows)
      ensures go <==> HoldsRunning(rows, id, worker)
    {
      ghost var before := rows;
      if !Holds(rows, id, worker) {
        return false;
      }
      assert RowOk(rows, id);
      var run := rows[id];
      var status := if finding.None? then Running else finding.value;
      if finding.Some? && run.cancelled {
        status := Interrupted;
      }
      run := run.(status := status, owner := Some(worker), expires := Some(now + LEASE_SECONDS));
      if finding.Some? {
        run := run.(owner := None, expires := None);
      }
      rows := rows[id := run];
      go := finding.None?;
      StepKeepsInvariant(before, Poll(id, worker, finding, now), rows);
    }

    /**
     Closes a run whose library scan has already finished. Rows older than the queue are running
     without attempts and are closed by `legacy`; no row of a valid table is one.
     */
    method CloseFinished(id: nat, scans: map<nat, Status>, legacy: Option<Status>) returns (closed: bool)
      requires Invariant(rows)
      modifies `rows
      ensures Invariant(rows) && Step(old(rows), CloseFinishedScan(id, scans), rows)
      ensures closed <==> ScanFinished(old(rows), id, scans)
    {
      ghost var before := rows;
      closed := false;
      if id in rows && Active(rows[id]) {
        assert RowOk(rows, id);
        var run := rows[id];
        var outcome: Option<Status> := None;
        if run.reference.Some? && run.reference.value.Scan? {
          var scan := run.reference.value.id;
          outcome := if scan in scans && Terminal(scans[scan]) then Some(scans[scan]) else None;
        } else if run.status == Running && run.attempts == 0 {
          outcome := legacy;
        }
        if outcome.Some? {
          rows := rows[id := run.(status := outcome.value, owner := None, expires := None)];
          closed := true;
        }
      }
      StepKeepsInvariant(before, CloseFinishedScan(id, scans), rows);
    }

    method RequestCancellation(id: nat) returns (accepted: bool)
      requires Invariant(rows)
      modifies `rows
      ensures Invariant(rows) && Step(old(rows), RequestCancel(id), rows)
      ensures accepted <==> id in old(rows) && Active(old(rows)[id])
    {
      ghost var before := rows;
      accepted := id in rows && Active(rows[id]);
      if accepted {
        var run := rows[id].(cancelled := true);
        if run.status == Queued {
          run := run.(status := Interrupted, owner := None, expires := None);
        }
        rows := rows[id := run];
      }
      StepKeepsInvariant(before, RequestCancel(id), rows);
    }

    /** Maintenance and reconciliation look at the lease and at a cancellation once, before they begin. */
    method EnterInlineJob(id: nat, worker: nat) returns (go: bool)
      requires Invariant(rows)
      modifies `rows, `entered
      ensures Invariant(rows) && Step(old(rows), EnterInline(id, worker), rows)
      ensures go <==> Holds(old(rows), id, worker) && !old(rows)[id].cancelled
      ensures entered == old(entered) + if go then {(id, worker)} else {}
    {
      ghost var before := rows;
      go := Holds(rows, id, worker);
      if go && rows[id].cancelled {
        rows := rows[id := rows[id].(status := Interrupted, owner := None, expires := None)];
        go := false;
      }
      if go {
        entered := entered + {(id, worker)};
      }
      StepKeepsInvariant(before, EnterInline(id, worker), rows);
    }

    method FinishInlineJob(id: nat, worker: nat, outcome: Status)
      requires Invariant(rows) && Terminal(outcome) && (id, worker) in entered
      modifies `rows
      ensures Invariant(rows) && Step(old(rows), FinishInline(id, worker, outcome), rows)
    {
      ghost var before := rows;
      if id in rows {
        rows := rows[id := rows[id].(status := outcome, owner := None, expires := None)];
      }
      StepKeepsInvariant(before, FinishInline(id, worker, outcome), rows);
    }

    /** NewestRun first, skip `keep`, delete the rest. */
    method RotateJobRuns(job: Job, keep: nat)
      requires Invariant(rows) && keep >= 1
      modifies `rows
      ensures Invariant(rows) && Step(old(rows), Rotate(job, keep), rows)
    {
      ghost var before := rows;
      var surplus := Surplus(rows, job, keep);
      rows := map id | id in rows && id !in surplus :: rows[id];
      assert Rotated(before, job, keep, rows);
      StepKeepsInvariant(before, Rotate(job, keep), rows);
    }
  }

  /** The newest run among some. */
  method NewestRun(rows: Rows, ids: set<nat>) returns (newest: nat)
    requires ids != {} && ids <= rows.Keys
    ensures newest in ids && forall id :: id in ids && id != newest ==> Newer(rows, newest, id)
  {
    newest :| newest in ids;
    var pending := ids - {newest};
    while pending != {}
      invariant pending <= ids && newest in ids && newest !in pending
      invariant forall id :: id in ids && id !in pending && id != newest ==> Newer(rows, newest, id)
      decreases pending
    {
      var id: nat :| id in pending;
      pending := pending - {id};
      if Newer(rows, id, newest) {
        newest := id;
      }
    }
  }

  ghost function RunsOf(rows: Rows, job: Job): set<nat> {
    set id | id in rows && rows[id].job == job
  }

  /** The runs of the job split into the newest so far, all within the first `keep`, and the rest. */
  ghost predicate Split(rows: Rows, job: Job, keep: nat, kept: set<nat>, rest: set<nat>) {
    && kept !! rest && kept + rest == RunsOf(rows, job)
    && (forall a, b :: a in kept && b in rest ==> a in rows && b in rows && Newer(rows, a, b))
    && (forall a :: a in kept ==> a in rows && |NewerOfJob(rows, a)| < keep)
  }

  lemma SplitGrows(rows: Rows, job: Job, keep: nat, kept: set<nat>, rest: set<nat>, newest: nat)
    requires Split(rows, job, keep, kept, rest) && |kept| < keep && newest in rest && rest <= rows.Keys
    requires forall id :: id in rest && id != newest ==> Newer(rows, newest, id)
    ensures Split(rows, job, keep, kept + {newest}, rest - {newest})
  {
    forall other | other in NewerOfJob(rows, newest)
      ensures other in kept
    {
      assert other in RunsOf(rows, job);
    }
    SubsetIsSmaller(NewerOfJob(rows, newest), kept);
  }

  lemma SplitComplete(rows: Rows, job: Job, keep: nat, kept: set<nat>, rest: set<nat>)
    requires Split(rows, job, keep, kept, rest) && (|kept| == keep || rest == {})
    ensures rest == set id | id in rows && rows[id].job == job && |NewerOfJob(rows, id)| >= keep
  {
    forall id | id in RunsOf(rows, job)
      ensures id in rest <==> |NewerOfJob(rows, id)| >= keep
    {
      if id in rest {
        assert kept <= NewerOfJob(rows, id);
        SubsetIsSmaller(kept, NewerOfJob(rows, id));
      }
    }
  }

  /** The runs of a job beyond its `keep` newest. */
  method Surplus(rows: Rows, job: Job, keep: nat) returns (rest: set<nat>)
    ensures rest == set id | id in rows && rows[id].job == job && |NewerOfJob(rows, id)| >= keep
  {
    rest := set id | id in rows && rows[id].job == job;
    ghost var kept: set<nat> := {};
    var taken := 0;
    while taken < keep && rest != {}
      invariant Split(rows, job, keep, kept, rest) && taken == |kept| <= keep
      decreases rest
    {
      var newest := NewestRun(rows, rest);
      SplitGrows(rows, job, keep, kept, rest, newest);
      rest := rest - {newest};
      kept := kept + {newest};
      taken := taken + 1;
    }
    SplitComplete(rows, job, keep, kept, rest);
  }

  lemma {:induction false} SubsetIsSmaller(a: set<nat>, b: set<nat>)
    requires a <= b
    ensures |a| <= |b|
    decreases |a|
  {
    if a != {} {
      var x :| x in a;
      SubsetIsSmaller(a - {x}, b - {x});
    }
  }
}
