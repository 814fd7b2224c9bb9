/**
 How a run of the job queue ends, told from its rows and the operations alone: what every final
 status was caused by, what a failed or abandoned attempt leads to, and how long a lease protects.
 */
module RunOutcomes {
  import opened Catalog
  import opened Numbers
  import opened JobQueue

  // ----- What every end was caused by -----

  /** The operation finds the run and gives it this final status. */
  ghost predicate Ends(rows: Rows, op: Op, id: nat, end: Status) {
    id in rows && EndsRow(rows[id], op, id, end)
  }

  /** A failure or a lost lease ends a run if it was cancelled, or has no attempt left. */
  predicate GivenUp(r: Run, end: Status) {
    if r.cancelled then end == Interrupted else r.attempts == r.limit && end == Failed
  }

  predicate Abandoned(r: Run, force: bool, now: int) {
    r.status == Running && (force || r.expires.None? || r.expires.value < now)
  }

  ghost predicate EndsRow(r: Run, op: Op, id: nat, end: Status) {
    match op
    case Poll(i, worker, finding, _) =>
      i == id && r.owner == Some(worker) && finding.Some? && end == if r.cancelled then Interrupted else finding.value
    case CloseFinishedScan(i, scans) =>
      i == id && r.reference.Some? && r.reference.value.Scan? && r.reference.value.id in scans && end == scans[r.reference.value.id]
    case FinishInline(i, _, outcome) => i == id && end == outcome
    case FailOrRetry(i, worker, _) => i == id && r.owner == Some(worker) && GivenUp(r, end)
    case Recover(force, now) => Abandoned(r, force, now) && GivenUp(r, end)
    case CancelBeforeStart(i, worker) => i == id && r.owner == Some(worker) && r.cancelled && end == Interrupted
    case EnterInline(i, worker) => i == id && r.owner == Some(worker) && r.cancelled && end == Interrupted
    case RequestCancel(i) => i == id && r.status == Queued && end == Interrupted
    case _ => false
  }

  lemma StepEnds(rows: Rows, op: Op, next: Rows, id: nat)
    requires Invariant(rows) && Step(rows, op, next) && id in next && Terminal(next[id].status)
    ensures (id in rows && next[id] == rows[id]) || Ends(rows, op, id, next[id].status)
  {
    if id in rows {
      assert RowOk(rows, id);
    }
  }

  /** Every final status was caused at some moment by an operation that gives it, and was kept from then on. */
  lemma {:induction false} EndIsCaused(run: seq<Rows>, ops: seq<Op>, j: nat, id: nat) returns (k: nat)
    requires IsRun(run, ops) && j < |run| && id in run[j] && Terminal(run[j][id].status)
    ensures k < j && Ends(run[k], ops[k], id, run[j][id].status)
    ensures forall m :: k < m <= j ==> id in run[m] && run[m][id] == run[j][id]
    decreases j
  {
    assert j > 0;
    k := j - 1;
    assert StepAt(run, ops, k);
    InvariantAlways(run, ops, k);
    StepEnds(run[k], ops[k], run[j], id);
    if !Ends(run[k], ops[k], id, run[j][id].status) {
      k := EndIsCaused(run, ops, k, id);
    }
  }

  /** Somebody said that it succeeded: the executor, the library scan, or the job itself. */
  ghost predicate SuccessReported(op: Op, id: nat) {
    match op
    case Poll(i, _, finding, _) => i == id && finding == Some(Succeeded)
    case CloseFinishedScan(i, scans) => i == id && exists s :: s in scans && scans[s] == Succeeded
    case FinishInline(i, _, outcome) => i == id && outcome == Succeeded
    case _ => false
  }

  /** No run succeeds unless somebody reported that it did, and a cancelled one not by its executor. */
  lemma SuccessIsReported(run: seq<Rows>, ops: seq<Op>, j: nat, id: nat) returns (k: nat)
    requires IsRun(run, ops) && j < |run| && id in run[j] && run[j][id].status == Succeeded
    ensures k < j && id in run[k] && SuccessReported(ops[k], id)
    ensures ops[k].Poll? ==> run[k][id].owner == Some(ops[k].worker) && !run[k][id].cancelled
  {
    k := EndIsCaused(run, ops, j, id);
  }

  // ----- Failed and abandoned attempts -----

  /** Doubling from five seconds to five minutes. */
  function Pause(attempts: nat): int {
    if attempts < 7 then [5, 5, 10, 20, 40, 80, 160][attempts] else 300
  }

  lemma DelayIsPause(attempts: nat)
    ensures Delay(attempts) == Pause(attempts)
  {
    if attempts >= 7 {
      PowersGrow(6, attempts - 1);
    }
    assert PowerOfTwo(6) == 64;
  }

  /** Same run, without a lease. */
  predicate Freed(r: Run, n: Run) {
    && n.job == r.job && n.created == r.created && n.attempts == r.attempts && n.limit == r.limit && n.cancelled == r.cancelled
    && n.owner == None && n.expires == None
  }

  /** Interrupted if it was cancelled, failed if that was its last attempt, and queued again otherwise. */
  predicate AfterFailure(r: Run, n: Run, due: int) {
    && Freed(r, n)
    && n.status == (if r.cancelled then Interrupted else if r.attempts == r.limit then Failed else Queued)
    && (n.status == Queued ==> n.available == Some(due) && n.reference == None)
  }

  /** The worker that holds the lease reports a failure: next try after the pause. Nobody else has an effect. */
  lemma FailureDecides(run: seq<Rows>, ops: seq<Op>, k: nat, id: nat)
    requires IsRun(run, ops) && k < |ops| && ops[k].FailOrRetry? && id in run[k]
    ensures id in run[k + 1]
    ensures if id == ops[k].id && run[k][id].owner == Some(ops[k].worker) then
        AfterFailure(run[k][id], run[k + 1][id], ops[k].now + Pause(run[k][id].attempts))
      else run[k + 1][id] == run[k][id]
  {
    assert StepAt(run, ops, k);
    InvariantAlways(run, ops, k);
    assert RowOk(run[k], id);
    DelayIsPause(run[k][id].attempts);
  }

  /** Recovery does the same to exactly the running runs whose lease has run out, without a pause. */
  lemma RecoveryDecides(run: seq<Rows>, ops: seq<Op>, k: nat, id: nat)
    requires IsRun(run, ops) && k < |ops| && ops[k].Recover? && id in run[k]
    ensures id in run[k + 1]
    ensures if Abandoned(run[k][id], ops[k].force, ops[k].now) then AfterFailure(run[k][id], run[k + 1][id], ops[k].now)
      else run[k + 1][id] == run[k][id]
  {
    assert StepAt(run, ops, k);
    InvariantAlways(run, ops, k);
    assert RowOk(run[k], id);
  }

  // ----- How long a lease protects -----

  /** A start, a renewal, or a look at an executor that is still at work: the lease is counted from this moment. */
  ghost predicate LeasedAt(rows: Rows, op: Op, next: Rows, id: nat, worker: nat, now: int) {
    && id in next && next[id].owner == Some(worker) && next[id].status == Running
    && match op
       case Claim(w, at) => w == worker && at == now && !(id in rows && rows[id].status == Running)
       case Renew(i, w, at) => i == id && w == worker && at == now
       case Poll(i, w, finding, at) => i == id && w == worker && at == now && finding.None?
       case _ => false
  }

  /** The run goes on: nothing ends it or gives it up, and who recovers does so by the clock and in time. */
  predicate LeavesLease(op: Op, id: nat, until: int) {
    match op
    case Recover(force, now) => !force && now <= until
    case Renew(i, _, now) => i == id ==> now + 45 >= until
    case Poll(i, _, finding, now) => i == id ==> finding.None? && now + 45 >= until
    case FailOrRetry(i, _, _) => i != id
    case CancelBeforeStart(i, _) => i != id
    case CloseFinishedScan(i, _) => i != id
    case EnterInline(i, _) => i != id
    case FinishInline(i, _, _) => i != id
    case Rotate(_, _) => false
    case _ => true
  }

  /** For forty-five seconds nobody takes a lease away, and no other worker starts anything. */
  lemma {:induction false} LeaseProtects(run: seq<Rows>, ops: seq<Op>, i: nat, j: nat, id: nat, worker: nat, now: int)
    requires IsRun(run, ops) && i < j < |run| && LeasedAt(run[i], ops[i], run[i + 1], id, worker, now)
    requires forall k :: i < k < j ==> LeavesLease(ops[k], id, now + 45)
    ensures id in run[j] && run[j][id].status == Running && run[j][id].owner == Some(worker)
    ensures run[j][id].expires.Some? && run[j][id].expires.value >= now + 45
    ensures forall other :: other in run[j] && other != id ==> run[j][other].status != Running
    decreases j
  {
    InvariantAlways(run, ops, j);
    assert StepAt(run, ops, j - 1);
    if j > i + 1 {
      LeaseProtects(run, ops, i, j - 1, id, worker, now);
    } else {
      LeaseBegins(run[i], ops[i], run[j], id, worker, now);
    }
    forall other | other in run[j] && other != id
      ensures run[j][other].status != Running
    {
      assert Exclusive(run[j], id, other);
    }
  }

  lemma LeaseBegins(rows: Rows, op: Op, next: Rows, id: nat, worker: nat, now: int)
    requires Step(rows, op, next) && LeasedAt(rows, op, next, id, worker, now)
    ensures next[id].expires == Some(now + 45)
  {
  }

  // ----- A new run -----

  /** A new run that waits for nobody may be started from the moment it was submitted, and not before. */
  lemma SubmittedIsDueAtOnce(rows: Rows, op: Op, next: Rows, later: int)
    requires Step(rows, op, next) && op.Submit? && !JobActive(rows, op.job)
    requires forall d :: d in rows && rows[d].status == Queued ==> rows[d].job !in Dependencies(op.job)
    ensures Candidate(next, op.id, later) <==> op.now <= later
    ensures next[op.id].limit == op.limit && next[op.id].job == op.job && next[op.id].attempts == 0 && !next[op.id].cancelled
  {
  }

  /** Queued, due, and no run submitted before it is queued that it depends on. */
  predicate MayStart(rows: Rows, id: nat, now: int) {
    && id in rows && rows[id].status == Queued && (rows[id].available.None? || rows[id].available.value <= now)
    && forall d :: d in rows && d < id && rows[d].status == Queued ==> rows[d].job !in Dependencies(rows[id].job)
  }

  /** Of two runs of one priority the one that has been due for longer goes first, and the older one of those due alike. */
  predicate NotAfter(x: Run, y: Run, older: bool) {
    || Priority(x.job) < Priority(y.job)
    || (Priority(x.job) == Priority(y.job)
        && ((x.available.None? && y.available.Some?)
            || (x.available.Some? && y.available.Some? && x.available.value < y.available.value)
            || (x.available == y.available && older)))
  }

  ghost predicate StartsOne(rows: Rows, next: Rows, worker: nat, now: int) {
    exists id: nat :: Started(rows, next, id, worker, now)
  }

  /** A claim starts exactly one run that may start, before which no other has to go, if nothing is running. */
  lemma ClaimDecides(run: seq<Rows>, ops: seq<Op>, k: nat)
    requires IsRun(run, ops) && k < |ops| && ops[k].Claim?
    ensures if (exists id :: id in run[k] && run[k][id].status == Running) || forall id: nat :: !MayStart(run[k], id, ops[k].now)
      then run[k + 1] == run[k]
      else StartsOne(run[k], run[k + 1], ops[k].worker, ops[k].now)
  {
    assert StepAt(run, ops, k);
    ClaimIsTold(run[k], ops[k].worker, ops[k].now, run[k + 1]);
  }

  lemma ClaimIsTold(rows: Rows, worker: nat, now: int, next: Rows)
    requires Step(rows, Claim(worker, now), next)
    ensures if (exists id :: id in rows && rows[id].status == Running) || forall id: nat :: !MayStart(rows, id, now)
      then next == rows
      else StartsOne(rows, next, worker, now)
  {
    forall id: nat
      ensures MayStart(rows, id, now) <==> Candidate(rows, id, now)
    {
      MayStartIsCandidate(rows, id, now);
    }
    if !Busy(rows) && exists id :: id in rows && Candidate(rows, id, now) {
      var id :| id in rows && IsNext(rows, id, now) && next == rows[id := Leased(rows[id], worker, now)];
      NextIsStarted(rows, id, worker, now);
    }
  }

  lemma NextIsStarted(rows: Rows, id: nat, worker: nat, now: int)
    requires IsNext(rows, id, now) && forall other: nat :: MayStart(rows, other, now) <==> Candidate(rows, other, now)
    ensures Started(rows, rows[id := Leased(rows[id], worker, now)], id, worker, now)
  {
  }

  lemma MayStartIsCandidate(rows: Rows, id: nat, now: int)
    ensures MayStart(rows, id, now) <==> Candidate(rows, id, now)
  {
    if id in rows && Ready(rows[id], now) {
      if d :| d in rows && d < id && rows[d].status == Queued && rows[d].job in Dependencies(rows[id].job) {
        assert BlockedBy(rows, id, d);
      }
    }
  }

  /** The run is leased to the worker for forty-five seconds and has one attempt less; no other row changes. */
  ghost predicate Started(rows: Rows, next: Rows, id: nat, worker: nat, now: int) {
    && MayStart(rows, id, now) && next.Keys == rows.Keys
    && (forall other :: other in rows && other != id ==> next[other] == rows[other])
    && (forall other :: MayStart(rows, other, now) ==> NotAfter(rows[id], rows[other], id <= other))
    && var (r, n) := (rows[id], next[id]);
       && n.status == Running && n.owner == Some(worker) && n.expires == Some(now + 45) && n.attempts == r.attempts + 1
       && n.job == r.job && n.created == r.created && n.limit == r.limit && n.cancelled == r.cancelled
       && n.available == r.available && n.reference == r.reference
  }

  /** A request to cancel ends a queued run at once, marks a running one and leaves it at work, and nothing else. */
  lemma CancellationDecides(run: seq<Rows>, ops: seq<Op>, k: nat, id: nat)
    requires IsRun(run, ops) && k < |ops| && ops[k].RequestCancel? && id in run[k]
    ensures id in run[k + 1]
    ensures var (r, n) := (run[k][id], run[k + 1][id]);
      if id == ops[k].id && r.status == Queued then n.status == Interrupted && n.cancelled && n.owner == None && n.expires == None
      else if id == ops[k].id && r.status == Running then n.cancelled && n.(cancelled := r.cancelled) == r
      else n == r
  {
    assert StepAt(run, ops, k);
  }

  /** A renewal by the holder moves the end of the lease, and by anybody else does nothing. */
  lemma RenewalDecides(run: seq<Rows>, ops: seq<Op>, k: nat, id: nat)
    requires IsRun(run, ops) && k < |ops| && ops[k].Renew? && id in run[k]
    ensures id in run[k + 1]
    ensures var (r, n) := (run[k][id], run[k + 1][id]);
      if id == ops[k].id && r.owner == Some(ops[k].worker) && r.status == Running then
        n.expires == Some(ops[k].now + 45) && n.(expires := r.expires) == r
      else n == r
  {
    assert StepAt(run, ops, k);
  }

  /** A run that was cancelled meanwhile is closed when its holder is about to start it, or enters it. */
  lemma EntryDecides(run: seq<Rows>, ops: seq<Op>, k: nat, id: nat)
    requires IsRun(run, ops) && k < |ops| && (ops[k].CancelBeforeStart? || ops[k].EnterInline?) && id in run[k]
    ensures id in run[k + 1]
    ensures var (r, n) := (run[k][id], run[k + 1][id]);
      if id == ops[k].id && r.owner == Some(ops[k].worker) && r.cancelled then Freed(r, n) && n.status == Interrupted
      else n == r
  {
    assert StepAt(run, ops, k);
    InvariantAlways(run, ops, k);
    assert RowOk(run[k], id);
  }

  /** What the holder started is noted, and its end is taken from the library scan as soon as that has one. */
  lemma ScanDecides(run: seq<Rows>, ops: seq<Op>, k: nat, id: nat)
    requires IsRun(run, ops) && k < |ops| && (ops[k].Dispatched? || ops[k].CloseFinishedScan?) && id in run[k]
    ensures id in run[k + 1]
    ensures var (r, n) := (run[k][id], run[k + 1][id]);
      if ops[k].Dispatched? && id == ops[k].id && r.owner == Some(ops[k].worker) && r.status == Running then
        n.reference == Some(ops[k].reference) && n.(reference := r.reference) == r
      else if ops[k].CloseFinishedScan? && id == ops[k].id && r.status in {Queued, Running}
              && exists s :: r.reference == Some(Scan(s)) && s in ops[k].scans && ops[k].scans[s] !in {Queued, Running} then
        exists s :: r.reference == Some(Scan(s)) && s in ops[k].scans && Freed(r, n) && n.status == ops[k].scans[s]
      else n == r
  {
    assert StepAt(run, ops, k);
  }

  /** A look at an executor that is still at work renews the lease; one that has finished ends the run. */
  lemma PollDecides(run: seq<Rows>, ops: seq<Op>, k: nat, id: nat)
    requires IsRun(run, ops) && k < |ops| && ops[k].Poll? && id in run[k]
    ensures id in run[k + 1]
    ensures var (r, n) := (run[k][id], run[k + 1][id]);
      if id != ops[k].id || r.owner != Some(ops[k].worker) then n == r
      else if ops[k].finding.None? then
        n.status == Running && n.owner == r.owner && n.expires == Some(ops[k].now + 45) && n.(expires := r.expires) == r
      else Freed(r, n) && n.status == (if r.cancelled then Interrupted else ops[k].finding.value)
  {
    assert StepAt(run, ops, k);
    InvariantAlways(run, ops, k);
    assert RowOk(run[k], id);
  }

  /** What a setting out of range is read as. */
  lemma AttemptsAreClamped(setting: Option<int>)
    ensures setting == None ==> MaxAttempts(setting) == 3
    ensures setting.Some? && 1 <= setting.value <= 10 ==> MaxAttempts(setting) == setting.value
    ensures setting.Some? && setting.value < 1 ==> MaxAttempts(setting) == 1
    ensures setting.Some? && setting.value > 10 ==> MaxAttempts(setting) == 10
  {
  }

  /** Whatever waits for another job comes after it in the order of starting. */
  lemma DependenciesComeFirst(job: Job, other: Job)
    requires other in Dependencies(job)
    ensures Priority(other) < Priority(job) && Dependencies(other) < Dependencies(job)
  {
  }
}
