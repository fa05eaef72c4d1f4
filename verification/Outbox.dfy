/**
  The projection outbox: job rows claimed by workers under leases.

  A table is a map from row id to row.  Every transaction is one `Step`, given by a function on
  tables; `ProjectionOutbox` holds the table and its methods are proved to perform those steps.
  Times are integers (seconds).
 */
module Outbox {
  import opened Options

  const MAX_ATTEMPTS: nat := 5
  const RETRY_DELAYS: seq<nat> := [5, 30, 120, 600]

  datatype Target = Rag | GBrain

  datatype Status = Pending | Running | Succeeded | Failed | Superseded

  datatype Job = Job(
    key: string,
    target: Target,
    operation: string,
    pageId: Option<string>,
    revisionId: Option<string>,
    epoch: nat,
    status: Status,
    attempts: nat,
    availableAt: int,
    createdAt: int,
    leaseOwner: Option<string>,
    leaseExpiresAt: Option<int>
  )

  type Jobs = map<string, Job>

  // ---------- Keys ----------

  function Digits(n: nat): string {
    if n < 10 then ["0123456789"[n]] else Digits(n / 10) + ["0123456789"[n % 10]]
  }

  function OrDash(id: Option<string>): string {
    if id.Some? && id.value != "" then id.value else "-"
  }

  function TargetName(target: Target): string {
    match target
    case Rag => "rag"
    case GBrain => "gbrain"
  }

  function IdempotencyKey(
    target: Target, operation: string, pageId: Option<string>, revisionId: Option<string>, epoch: nat): string
  {
    TargetName(target) + ":" + operation + ":" + OrDash(pageId) + ":" + OrDash(revisionId) + ":" + Digits(epoch)
  }

  lemma {:induction false} DigitsHaveNoColon(n: nat)
    ensures ':' !in Digits(n) && |Digits(n)| >= 1
    ensures |Digits(n)| == 1 <==> n < 10
  {
    if n >= 10 {
      DigitsHaveNoColon(n / 10);
    }
  }

  lemma {:induction false} DigitsTellNumbers(m: nat, n: nat)
    requires Digits(m) == Digits(n)
    ensures m == n
  {
    DigitsHaveNoColon(m);
    DigitsHaveNoColon(n);
    var a, b := Digits(m), Digits(n);
    if m >= 10 {
      assert a[..|a| - 1] == Digits(m / 10) && b[..|b| - 1] == Digits(n / 10);
      DigitsTellNumbers(m / 10, n / 10);
      assert a[|a| - 1] == "0123456789"[m % 10] && b[|b| - 1] == "0123456789"[n % 10];
    }
  }

  // A text is cut in one way at its last colon.
  lemma LastColon(a: string, x: string, b: string, y: string)
    requires a + ":" + x == b + ":" + y && ':' !in x && ':' !in y
    ensures a == b && x == y
  {
    var whole, same := a + ":" + x, b + ":" + y;
    assert whole[|a|] == ':' && same[|b|] == ':';
    assert forall i :: |a| < i < |whole| ==> whole[i] == x[i - |a| - 1];
    assert forall i :: |b| < i < |same| ==> same[i] == y[i - |b| - 1];
    assert |a| == |b|;
    assert whole[..|a|] == a && same[..|b|] == b && whole[|a| + 1..] == x && same[|b| + 1..] == y;
  }

  /** Jobs of different epochs have different keys, whatever else they are about. */
  lemma KeysTellEpochs(
    t: Target, o: string, p: Option<string>, r: Option<string>, e: nat,
    t': Target, o': string, p': Option<string>, r': Option<string>, e': nat)
    requires IdempotencyKey(t, o, p, r, e) == IdempotencyKey(t', o', p', r', e')
    ensures e == e'
    ensures TargetName(t) + ":" + o + ":" + OrDash(p) + ":" + OrDash(r)
            == TargetName(t') + ":" + o' + ":" + OrDash(p') + ":" + OrDash(r')
  {
    DigitsHaveNoColon(e);
    DigitsHaveNoColon(e');
    LastColon(TargetName(t) + ":" + o + ":" + OrDash(p) + ":" + OrDash(r), Digits(e),
              TargetName(t') + ":" + o' + ":" + OrDash(p') + ":" + OrDash(r'), Digits(e'));
    DigitsTellNumbers(e, e');
  }

  predicate NoColon(id: Option<string>) {
    id.Some? ==> ':' !in id.value
  }

  /** The id is there and not empty, nor the dash that stands for a missing one. */
  predicate IsGiven(id: Option<string>) {
    id.Some? && id.value != "" && id.value != "-"
  }

  /** If no name has a colon, two keys are equal if and only if everything they are made of is. */
  lemma KeysTellJobs(
    t: Target, o: string, p: Option<string>, r: Option<string>, e: nat,
    t': Target, o': string, p': Option<string>, r': Option<string>, e': nat)
    requires ':' !in o && ':' !in o' && NoColon(p) && NoColon(p') && NoColon(r) && NoColon(r')
    ensures IdempotencyKey(t, o, p, r, e) == IdempotencyKey(t', o', p', r', e')
            <==> t == t' && o == o' && e == e'
                 && (IsGiven(p) || IsGiven(p') ==> p == p') && (IsGiven(r) || IsGiven(r') ==> r == r')
  {
    if IdempotencyKey(t, o, p, r, e) == IdempotencyKey(t', o', p', r', e') {
      KeysTellEpochs(t, o, p, r, e, t', o', p', r', e');
      LastColon(TargetName(t) + ":" + o + ":" + OrDash(p), OrDash(r),
                TargetName(t') + ":" + o' + ":" + OrDash(p'), OrDash(r'));
      LastColon(TargetName(t) + ":" + o, OrDash(p), TargetName(t') + ":" + o', OrDash(p'));
      LastColon(TargetName(t), o, TargetName(t'), o');
      assert "rag"[0] != "gbrain"[0];
    }
  }

  // ---------- Steps ----------

  predicate Terminal(status: Status) {
    status in {Succeeded, Failed, Superseded}
  }

  function Max(a: int, b: int): int {
    if a < b then b else a
  }

  predicate HasKey(jobs: Jobs, key: string) {
    exists id :: id in jobs && jobs[id].key == key
  }

  function NewJob(
    target: Target, operation: string, pageId: Option<string>, revisionId: Option<string>, epoch: nat, now: int): Job
  {
    Job(IdempotencyKey(target, operation, pageId, revisionId, epoch), target, operation, pageId, revisionId, epoch,
        Pending, 0, now, now, None, None)
  }

  // INSERT .. ON CONFLICT(idempotency_key) DO NOTHING.  A primary-key clash aborts the transaction.
  function Insert(jobs: Jobs, newId: string, job: Job): Jobs {
    if newId in jobs || HasKey(jobs, job.key) then jobs else jobs[newId := job]
  }

  predicate LeaseBefore(job: Job, now: int) {
    job.leaseExpiresAt.Some? && job.leaseExpiresAt.value < now
  }

  // The WHERE clause under which a row may be claimed.
  predicate Claimable(job: Job, now: int) {
    job.attempts < MAX_ATTEMPTS &&
    match job.status
    case Pending => job.availableAt <= now
    case Failed => job.availableAt <= now
    case Running => LeaseBefore(job, now)
    case Succeeded => false
    case Superseded => false
  }

  predicate Exhausted(job: Job, target: Target, now: int) {
    job.target == target && job.status == Running && job.attempts >= MAX_ATTEMPTS && LeaseBefore(job, now)
  }

  function Released(job: Job, status: Status): Job {
    job.(status := status, leaseOwner := None, leaseExpiresAt := None)
  }

  function SweepExhausted(jobs: Jobs, target: Target, now: int): Jobs {
    map id | id in jobs :: if Exhausted(jobs[id], target, now) then Released(jobs[id], Failed) else jobs[id]
  }

  function ClaimOne(jobs: Jobs, id: string, worker: string, lease: int, now: int): Jobs {
    if id in jobs && Claimable(jobs[id], now) then
      jobs[id := jobs[id].(status := Running, attempts := jobs[id].attempts + 1,
                           leaseOwner := Some(worker), leaseExpiresAt := Some(lease))]
    else jobs
  }

  function ClaimRows(jobs: Jobs, rows: seq<string>, worker: string, lease: int, now: int): Jobs {
    if rows == [] then jobs
    else
      var last := |rows| - 1;
      ClaimOne(ClaimRows(jobs, rows[..last], worker, lease, now), rows[last], worker, lease, now)
  }

  function ClaimTransaction(
    jobs: Jobs, target: Target, worker: string, rows: seq<string>, leaseSeconds: int, now: int): Jobs
  {
    ClaimRows(SweepExhausted(jobs, target, now), rows, worker, now + Max(1, leaseSeconds), now)
  }

  predicate Owns(jobs: Jobs, id: string, worker: string) {
    id in jobs && jobs[id].status == Running && jobs[id].leaseOwner == Some(worker)
  }

  function Renew(jobs: Jobs, id: string, worker: string, lease: int): Jobs {
    if Owns(jobs, id, worker) then jobs[id := jobs[id].(leaseExpiresAt := Some(lease))] else jobs
  }

  function Finish(jobs: Jobs, id: string, worker: string, status: Status, availableAt: Option<int>): Jobs {
    if Terminal(status) && Owns(jobs, id, worker) then
      var job := jobs[id];
      jobs[id := Released(job, status).(
        availableAt := if availableAt.Some? then availableAt.value else job.availableAt)]
    else jobs
  }

  function RetryAt(attempts: nat, now: int): Option<int> {
    if 1 <= attempts <= |RETRY_DELAYS| then Some(now + RETRY_DELAYS[attempts - 1]) else None
  }

  function MarkFailed(jobs: Jobs, id: string, worker: string, now: int): Jobs {
    if Owns(jobs, id, worker) then Finish(jobs, id, worker, Failed, RetryAt(jobs[id].attempts, now)) else jobs
  }

  predicate Stale(job: Job, pageId: string, epoch: nat) {
    job.pageId == Some(pageId) && job.epoch < epoch && job.status in {Pending, Failed, Running}
  }

  function SupersedeStale(jobs: Jobs, pageId: string, epoch: nat): Jobs {
    map id | id in jobs :: if Stale(jobs[id], pageId, epoch) then Released(jobs[id], Superseded) else jobs[id]
  }

  function Retry(jobs: Jobs, id: string, now: int): Jobs {
    if id in jobs && jobs[id].status == Failed then
      jobs[id := Released(jobs[id], Pending).(attempts := 0, availableAt := now)]
    else jobs
  }

  /** One committed transaction on the outbox, by any process, in any order. */
  datatype Step =
    | EnqueueStep(newId: string, target: Target, operation: string, pageId: Option<string>,
                  revisionId: Option<string>, epoch: nat, now: int)
    | ClaimStep(target: Target, worker: string, rows: seq<string>, leaseSeconds: int, now: int)
    | RenewStep(id: string, worker: string, leaseSeconds: int, now: int)
    | FinishStep(id: string, worker: string, status: Status, availableAt: Option<int>)
    | MarkFailedStep(id: string, worker: string, now: int)
    | SupersedeStep(page: string, epoch: nat)
    | RetryStep(id: string, now: int)

  function Apply(jobs: Jobs, step: Step): Jobs {
    match step
    case EnqueueStep(newId, target, operation, pageId, revisionId, epoch, now) =>
      Insert(jobs, newId, NewJob(target, operation, pageId, revisionId, epoch, now))
    case ClaimStep(target, worker, rows, leaseSeconds, now) =>
      ClaimTransaction(jobs, target, worker, rows, leaseSeconds, now)
    case RenewStep(id, worker, leaseSeconds, now) => Renew(jobs, id, worker, now + Max(1, leaseSeconds))
    case FinishStep(id, worker, status, availableAt) => Finish(jobs, id, worker, status, availableAt)
    case MarkFailedStep(id, worker, now) => MarkFailed(jobs, id, worker, now)
    case SupersedeStep(page, epoch) => SupersedeStale(jobs, page, epoch)
    case RetryStep(id, now) => Retry(jobs, id, now)
  }

  function Run(jobs: Jobs, steps: seq<Step>): Jobs
    decreases |steps|
  {
    if steps == [] then jobs else Run(Apply(jobs, steps[0]), steps[1..])
  }

  // ---------- What one step may do to one row ----------

  ghost predicate JobInv(job: Job) {
    && job.attempts <= MAX_ATTEMPTS
    && (job.status == Running <==> job.leaseOwner.Some?)
    && (job.status == Running <==> job.leaseExpiresAt.Some?)
    && (job.status == Running ==> 1 <= job.attempts)
    && job.key == IdempotencyKey(job.target, job.operation, job.pageId, job.revisionId, job.epoch)
  }

  ghost predicate OneJobPerKey(jobs: Jobs) {
    forall i, j :: i in jobs && j in jobs && jobs[i].key == jobs[j].key ==> i == j
  }

  ghost predicate Inv(jobs: Jobs) {
    && (forall id :: id in jobs ==> JobInv(jobs[id]))
    && OneJobPerKey(jobs)
  }

  // What a job is about never changes.
  predicate SameWork(a: Job, b: Job) {
    && a.key == b.key && a.target == b.target && a.operation == b.operation
    && a.pageId == b.pageId && a.revisionId == b.revisionId && a.epoch == b.epoch
  }

  // The only ways one transaction can change the row `a` into `b`.
  ghost predicate RowStep(a: Job, b: Job, step: Step) {
    || a == b
    || (&& SameWork(a, b)
        && match step
           case EnqueueStep(_, _, _, _, _, _, _) => false
           case ClaimStep(target, worker, _, _, now) =>
             || (Exhausted(a, target, now) && b == Released(a, Failed))
             || (&& Claimable(a, now) && b.status == Running && b.attempts == a.attempts + 1
                 && b.leaseOwner == Some(worker) && b.leaseExpiresAt.Some?)
           case RenewStep(_, worker, _, _) =>
             && a.status == b.status == Running && a.leaseOwner == b.leaseOwner == Some(worker)
             && a.attempts == b.attempts && b.leaseExpiresAt.Some?
           case FinishStep(_, worker, status, _) =>
             && a.status == Running && a.leaseOwner == Some(worker) && Terminal(status)
             && a.attempts == b.attempts && b.status == status && b.leaseOwner == None && b.leaseExpiresAt == None
           case MarkFailedStep(_, worker, _) =>
             && a.status == Running && a.leaseOwner == Some(worker)
             && a.attempts == b.attempts && b.status == Failed && b.leaseOwner == None && b.leaseExpiresAt == None
           case SupersedeStep(page, epoch) =>
             Stale(a, page, epoch) && b == Released(a, Superseded)
           case RetryStep(_, _) =>
             && a.status == Failed && b.status == Pending && b.attempts == 0
             && b.leaseOwner == None && b.leaseExpiresAt == None)
  }

  lemma {:induction false} ClaimRowsRow(jobs: Jobs, rows: seq<string>, worker: string, lease: int, now: int, id: string)
    requires now < lease
    ensures ClaimRows(jobs, rows, worker, lease, now).Keys == jobs.Keys
    ensures id in jobs ==>
      var b := ClaimRows(jobs, rows, worker, lease, now)[id];
      b == (if id in rows && Claimable(jobs[id], now)
            then jobs[id].(status := Running, attempts := jobs[id].attempts + 1,
                           leaseOwner := Some(worker), leaseExpiresAt := Some(lease))
            else jobs[id])
  {
    if rows != [] {
      var last := |rows| - 1;
      assert rows == rows[..last] + [rows[last]];
      ClaimRowsRow(jobs, rows[..last], worker, lease, now, id);
    }
  }

  // Rows are never removed, and each row moves by `RowStep`.
  lemma StepRow(jobs: Jobs, step: Step, id: string)
    requires id in jobs
    ensures id in Apply(jobs, step)
    ensures RowStep(jobs[id], Apply(jobs, step)[id], step)
    ensures (step.RenewStep? || step.FinishStep? || step.MarkFailedStep? || step.RetryStep?) && step.id != id ==>
      Apply(jobs, step)[id] == jobs[id]
  {
    if step.ClaimStep? {
      ClaimRowsRow(SweepExhausted(jobs, step.target, step.now), step.rows, step.worker,
                   step.now + Max(1, step.leaseSeconds), step.now, id);
    }
  }

  lemma StepKeys(jobs: Jobs, step: Step)
    ensures jobs.Keys <= Apply(jobs, step).Keys
    ensures !step.EnqueueStep? ==> Apply(jobs, step).Keys == jobs.Keys
  {
    if step.ClaimStep? {
      ClaimRowsRow(SweepExhausted(jobs, step.target, step.now), step.rows, step.worker,
                   step.now + Max(1, step.leaseSeconds), step.now, "");
    }
  }

  // ---------- The outbox bounds ----------

  lemma RowStepKeepsInv(a: Job, b: Job, step: Step)
    requires JobInv(a) && RowStep(a, b, step)
    ensures JobInv(b)
  {
  }

  lemma StepKeepsInv(jobs: Jobs, step: Step)
    requires Inv(jobs)
    ensures Inv(Apply(jobs, step))
  {
    var after := Apply(jobs, step);
    StepKeys(jobs, step);
    forall id | id in after ensures JobInv(after[id]) {
      if id in jobs {
        StepRow(jobs, step, id);
        RowStepKeepsInv(jobs[id], after[id], step);
      }
    }
    forall i, j | i in after && j in after && after[i].key == after[j].key ensures i == j {
      if i in jobs { StepRow(jobs, step, i); }
      if j in jobs { StepRow(jobs, step, j); }
    }
  }

  /** In every reachable table: one job per key, at most five attempts, running exactly when leased. */
  lemma {:induction false} RunKeepsInv(jobs: Jobs, steps: seq<Step>)
    requires Inv(jobs)
    ensures Inv(Run(jobs, steps))
    decreases |steps|
  {
    if steps != [] {
      StepKeepsInv(jobs, steps[0]);
      RunKeepsInv(Apply(jobs, steps[0]), steps[1..]);
    }
  }

  /** A succeeded or superseded row is never touched again. */
  lemma {:induction false} EndedIsAbsorbing(jobs: Jobs, steps: seq<Step>, id: string)
    requires id in jobs && jobs[id].status in {Succeeded, Superseded}
    ensures id in Run(jobs, steps) && Run(jobs, steps)[id] == jobs[id]
    decreases |steps|
  {
    if steps != [] {
      StepRow(jobs, steps[0], id);
      EndedIsAbsorbing(Apply(jobs, steps[0]), steps[1..], id);
    }
  }

  // ---------- Counting claims, retries and finishes along a run ----------

  predicate ClaimTakesEffect(jobs: Jobs, step: Step, id: string) {
    var after := Apply(jobs, step);
    step.ClaimStep? && id in jobs && id in after && after[id].attempts > jobs[id].attempts
  }

  predicate RetrySucceeds(jobs: Jobs, step: Step, id: string) {
    step.RetryStep? && step.id == id && id in jobs && jobs[id].status == Failed
  }

  predicate FinishTakesEffect(jobs: Jobs, step: Step, id: string) {
    var after := Apply(jobs, step);
    id in jobs && id in after && jobs[id].status == Running && after[id].status != Running
  }

  function Claims(jobs: Jobs, steps: seq<Step>, id: string): nat
    decreases |steps|
  {
    if steps == [] then 0
    else (if ClaimTakesEffect(jobs, steps[0], id) then 1 else 0) + Claims(Apply(jobs, steps[0]), steps[1..], id)
  }

  function Retries(jobs: Jobs, steps: seq<Step>, id: string): nat
    decreases |steps|
  {
    if steps == [] then 0
    else (if RetrySucceeds(jobs, steps[0], id) then 1 else 0) + Retries(Apply(jobs, steps[0]), steps[1..], id)
  }

  function Finishes(jobs: Jobs, steps: seq<Step>, id: string): nat
    decreases |steps|
  {
    if steps == [] then 0
    else (if FinishTakesEffect(jobs, steps[0], id) then 1 else 0) + Finishes(Apply(jobs, steps[0]), steps[1..], id)
  }

  function Attempts(jobs: Jobs, id: string): nat {
    if id in jobs then jobs[id].attempts else 0
  }

  lemma {:induction false} ClaimsAreAccounted(jobs: Jobs, steps: seq<Step>, id: string)
    requires Inv(jobs)
    ensures Attempts(jobs, id) + Claims(jobs, steps, id)
         <= MAX_ATTEMPTS * Retries(jobs, steps, id) + Attempts(Run(jobs, steps), id)
    decreases |steps|
  {
    if steps != [] {
      var next := Apply(jobs, steps[0]);
      StepKeepsInv(jobs, steps[0]);
      ClaimsAreAccounted(next, steps[1..], id);
      if id in jobs {
        StepRow(jobs, steps[0], id);
      }
    }
  }

  /** A job is claimed at most five times, and five times more after each manual retry. */
  lemma ClaimsAreBounded(steps: seq<Step>, id: string)
    ensures Claims(map[], steps, id) <= MAX_ATTEMPTS * (1 + Retries(map[], steps, id))
  {
    ClaimsAreAccounted(map[], steps, id);
    RunKeepsInv(map[], steps);
  }

  // ---------- Lease exclusion and fencing ----------

  /** Along any run, a running job passes to another worker only by a claim made after its lease expired. */
  lemma OwnerChangesOnlyAfterExpiry(steps: seq<Step>, step: Step, id: string)
    requires var jobs := Run(map[], steps); var after := Apply(jobs, step);
      id in jobs && jobs[id].status == Running &&
      id in after && after[id].status == Running && after[id].leaseOwner != jobs[id].leaseOwner
    ensures var job := Run(map[], steps)[id];
      step.ClaimStep? && id in step.rows && job.leaseExpiresAt.Some? && job.leaseExpiresAt.value < step.now
  {
    var jobs := Run(map[], steps);
    StepRow(jobs, step, id);
    ClaimRowsRow(SweepExhausted(jobs, step.target, step.now), step.rows, step.worker,
                 step.now + Max(1, step.leaseSeconds), step.now, id);
  }

  /** The step does not end the lease: it is no claim after it, and nothing its owner or an edit of the page does. */
  predicate LeavesLease(step: Step, id: string, job: Job, until: int) {
    match step
    case ClaimStep(_, _, _, _, now) => now <= until
    case RenewStep(other, worker, _, _) => other != id || Some(worker) != job.leaseOwner
    case FinishStep(other, worker, _, _) => other != id || Some(worker) != job.leaseOwner
    case MarkFailedStep(other, worker, _) => other != id || Some(worker) != job.leaseOwner
    case SupersedeStep(page, epoch) => job.pageId != Some(page) || epoch <= job.epoch
    case _ => true
  }

  /** Up to the instant at which a lease expires no claim of anybody takes effect on the row, nor any other step. */
  lemma {:induction false} LeaseHolds(jobs: Jobs, steps: seq<Step>, id: string, until: int)
    requires id in jobs && jobs[id].status == Running && jobs[id].leaseExpiresAt == Some(until)
    requires forall step :: step in steps ==> LeavesLease(step, id, jobs[id], until)
    ensures id in Run(jobs, steps) && Run(jobs, steps)[id] == jobs[id]
    decreases |steps|
  {
    if steps != [] {
      assert steps[0] in steps;
      StepRow(jobs, steps[0], id);
      LeaseHolds(Apply(jobs, steps[0]), steps[1..], id, until);
    }
  }

  /**
    A lease just renewed holds for the seconds asked for, at least one, against whatever others do; right after
    it anyone may claim the row, if an attempt is left.
   */
  lemma RenewedLeaseHolds(
    jobs: Jobs, id: string, worker: string, leaseSeconds: int, now: int, steps: seq<Step>, other: string)
    requires id in jobs && jobs[id].status == Running && jobs[id].leaseOwner == Some(worker)
    requires var until := now + if leaseSeconds < 1 then 1 else leaseSeconds;
      forall step :: step in steps ==> LeavesLease(step, id, jobs[id], until)
    ensures var until := now + if leaseSeconds < 1 then 1 else leaseSeconds;
      var after := Run(Apply(jobs, RenewStep(id, worker, leaseSeconds, now)), steps);
      && id in after && after[id] == jobs[id].(leaseExpiresAt := Some(until))
      && var next := Apply(after, ClaimStep(jobs[id].target, other, [id], leaseSeconds, until + 1));
         id in next && (jobs[id].attempts < 5 ==> next[id].leaseOwner == Some(other))
  {
    var until := now + if leaseSeconds < 1 then 1 else leaseSeconds;
    var renewed := Apply(jobs, RenewStep(id, worker, leaseSeconds, now));
    LeaseHolds(renewed, steps, id, until);
    ClaimOneRow(Run(renewed, steps), id, other, leaseSeconds, until + 1);
  }

  /** And so does the lease of a job just claimed. */
  lemma ClaimedLeaseHolds(
    jobs: Jobs, id: string, worker: string, leaseSeconds: int, now: int, steps: seq<Step>)
    requires id in jobs && Claimable(jobs[id], now)
    requires var until := now + if leaseSeconds < 1 then 1 else leaseSeconds;
      forall step :: step in steps ==> LeavesLease(step, id, jobs[id].(leaseOwner := Some(worker)), until)
    ensures var after := Run(Apply(jobs, ClaimStep(jobs[id].target, worker, [id], leaseSeconds, now)), steps);
      && id in after && after[id] == jobs[id].(
           status := Running, attempts := jobs[id].attempts + 1, leaseOwner := Some(worker),
           leaseExpiresAt := Some(now + if leaseSeconds < 1 then 1 else leaseSeconds))
  {
    ClaimOneRow(jobs, id, worker, leaseSeconds, now);
    LeaseHolds(Apply(jobs, ClaimStep(jobs[id].target, worker, [id], leaseSeconds, now)), steps, id,
               now + if leaseSeconds < 1 then 1 else leaseSeconds);
  }

  lemma ClaimOneRow(jobs: Jobs, id: string, worker: string, leaseSeconds: int, now: int)
    requires id in jobs
    ensures var after := Apply(jobs, ClaimStep(jobs[id].target, worker, [id], leaseSeconds, now));
      && id in after
      && (Claimable(jobs[id], now) ==>
            after[id] == jobs[id].(status := Running, attempts := jobs[id].attempts + 1, leaseOwner := Some(worker),
                                   leaseExpiresAt := Some(now + Max(1, leaseSeconds))))
  {
    ClaimRowsRow(SweepExhausted(jobs, jobs[id].target, now), [id], worker, now + Max(1, leaseSeconds), now, id);
  }

  /** While nobody claims a job, it leaves `Running` at most once, and only if it was running. */
  lemma {:induction false} OneFinishPerClaim(jobs: Jobs, steps: seq<Step>, id: string)
    requires id in jobs && Claims(jobs, steps, id) == 0
    ensures Finishes(jobs, steps, id) <= if jobs[id].status == Running then 1 else 0
    decreases |steps|
  {
    if steps != [] {
      StepRow(jobs, steps[0], id);
      OneFinishPerClaim(Apply(jobs, steps[0]), steps[1..], id);
    }
  }

  function LatestClaimer(jobs: Jobs, steps: seq<Step>, id: string, before: Option<string>): Option<string>
    decreases |steps|
  {
    if steps == [] then before
    else LatestClaimer(Apply(jobs, steps[0]), steps[1..], id,
                       if ClaimTakesEffect(jobs, steps[0], id) then Some(steps[0].worker) else before)
  }

  lemma {:induction false} OwnerIsLatestClaimer(jobs: Jobs, steps: seq<Step>, id: string, before: Option<string>)
    requires id in jobs && jobs[id].status == Running ==> jobs[id].leaseOwner == before
    ensures id in Run(jobs, steps) && Run(jobs, steps)[id].status == Running ==>
      Run(jobs, steps)[id].leaseOwner == LatestClaimer(jobs, steps, id, before)
    decreases |steps|
  {
    if steps != [] {
      var claimer := if ClaimTakesEffect(jobs, steps[0], id) then Some(steps[0].worker) else before;
      StepKeys(jobs, steps[0]);
      if id in jobs {
        StepRow(jobs, steps[0], id);
      }
      OwnerIsLatestClaimer(Apply(jobs, steps[0]), steps[1..], id, claimer);
    }
  }

  /** `finish_claimed` can only succeed for the worker whose claim of the job was the last to take effect. */
  lemma FinishIsFenced(steps: seq<Step>, id: string, worker: string)
    requires Owns(Run(map[], steps), id, worker)
    ensures LatestClaimer(map[], steps, id, None) == Some(worker)
  {
    OwnerIsLatestClaimer(map[], steps, id, None);
  }

  // ---------- The class ----------

  predicate Earlier(jobs: Jobs, a: string, b: string)
    requires a in jobs && b in jobs
  {
    jobs[a].availableAt < jobs[b].availableAt ||
    (jobs[a].availableAt == jobs[b].availableAt && jobs[a].createdAt <= jobs[b].createdAt)
  }

  // ORDER BY available_at, created_at LIMIT limit
  ghost predicate IsSelection(jobs: Jobs, target: Target, now: int, limit: nat, rows: seq<string>) {
    && |rows| <= limit
    && (forall i :: 0 <= i < |rows| ==>
          rows[i] in jobs && jobs[rows[i]].target == target && Claimable(jobs[rows[i]], now))
    && (forall i, j :: 0 <= i < j < |rows| ==> rows[i] != rows[j] && Earlier(jobs, rows[i], rows[j]))
    && (forall id :: id in jobs && jobs[id].target == target && Claimable(jobs[id], now) && id !in rows ==>
          |rows| == limit && forall i :: 0 <= i < |rows| ==> Earlier(jobs, rows[i], id))
  }

  method Earliest(jobs: Jobs, ids: set<string>) returns (best: string)
    requires ids != {} && ids <= jobs.Keys
    ensures best in ids && forall id :: id in ids ==> Earlier(jobs, best, id)
  {
    best :| best in ids;
    var left := ids - {best};
    while left != {}
      invariant best in ids && left <= ids
      invariant forall id :: id in ids && id !in left ==> Earlier(jobs, best, id)
    {
      var id :| id in left;
      if !Earlier(jobs, best, id) {
        best := id;
      }
      left := left - {id};
    }
  }

  /** The row waits and its time has come, or its lease has expired; and it has an attempt left. */
  predicate MayBeClaimed(job: Job, target: Target, now: int) {
    && job.target == target && job.attempts < 5
    && ((job.status in {Pending, Failed} && job.availableAt <= now)
        || (job.status == Running && job.leaseExpiresAt.Some? && job.leaseExpiresAt.value < now))
  }

  /** What a claim makes of a row: it is leased, or failed for good after its last attempt, or left as it is. */
  function ClaimedRow(job: Job, claimed: bool, target: Target, worker: string, leaseSeconds: int, now: int): Job {
    if claimed then
      job.(status := Running, attempts := job.attempts + 1, leaseOwner := Some(worker),
           leaseExpiresAt := Some(now + if leaseSeconds < 1 then 1 else leaseSeconds))
    else if job.target == target && job.status == Running && job.attempts >= 5 && job.leaseExpiresAt.Some?
            && job.leaseExpiresAt.value < now then
      job.(status := Failed, leaseOwner := None, leaseExpiresAt := None)
    else job
  }

  // From the table `a` these rows were claimed: up to the limit all that may be, and only such.
  ghost predicate AreClaimed(
    a: Jobs, b: Jobs, target: Target, limit: nat, worker: string, rows: seq<string>, leaseSeconds: int, now: int)
  {
    && b.Keys == a.Keys
    && (forall id :: id in a ==> b[id] == ClaimedRow(a[id], id in rows, target, worker, leaseSeconds, now))
    && (forall id :: id in rows ==> id in a && MayBeClaimed(a[id], target, now))
    && (forall id :: id in a && MayBeClaimed(a[id], target, now) && id !in rows ==>
          |rows| == limit && forall first :: first in rows ==> WaitsLonger(a[first], a[id]))
  }

  /** The job became available earlier, or at the same time and is older. */
  predicate WaitsLonger(a: Job, b: Job) {
    a.availableAt < b.availableAt || (a.availableAt == b.availableAt && a.createdAt <= b.createdAt)
  }

  lemma ClaimedRows(
    jobs: Jobs, target: Target, limit: nat, worker: string, rows: seq<string>, leaseSeconds: int, now: int)
    requires IsSelection(SweepExhausted(jobs, target, now), target, now, limit, rows)
    ensures AreClaimed(jobs, ClaimTransaction(jobs, target, worker, rows, leaseSeconds, now), target, limit, worker,
                       rows, leaseSeconds, now)
  {
    var swept := SweepExhausted(jobs, target, now);
    ClaimRowsRow(swept, rows, worker, now + Max(1, leaseSeconds), now, "");
    forall id | id in jobs
      ensures var b := ClaimTransaction(jobs, target, worker, rows, leaseSeconds, now);
        id in b && b[id] == ClaimedRow(jobs[id], id in rows, target, worker, leaseSeconds, now)
      ensures MayBeClaimed(jobs[id], target, now) && id !in rows ==>
        |rows| == limit && forall first :: first in rows ==> first in jobs && WaitsLonger(jobs[first], jobs[id])
    {
      RowIsClaimed(jobs, target, limit, worker, rows, leaseSeconds, now, id);
      SelectedRow(jobs, target, limit, rows, now, id);
    }
    forall id | id in rows ensures id in jobs && MayBeClaimed(jobs[id], target, now) {
      var i :| 0 <= i < |rows| && rows[i] == id;
      SelectedRow(jobs, target, limit, rows, now, rows[i]);
    }
  }

  lemma RowIsClaimed(
    jobs: Jobs, target: Target, limit: nat, worker: string, rows: seq<string>, leaseSeconds: int, now: int, id: string)
    requires IsSelection(SweepExhausted(jobs, target, now), target, now, limit, rows) && id in jobs
    ensures var b := ClaimTransaction(jobs, target, worker, rows, leaseSeconds, now);
      id in b && b[id] == ClaimedRow(jobs[id], id in rows, target, worker, leaseSeconds, now)
  {
    SelectedRow(jobs, target, limit, rows, now, id);
    ClaimRowsRow(SweepExhausted(jobs, target, now), rows, worker, now + Max(1, leaseSeconds), now, id);
  }

  lemma SelectedRow(jobs: Jobs, target: Target, limit: nat, rows: seq<string>, now: int, id: string)
    requires IsSelection(SweepExhausted(jobs, target, now), target, now, limit, rows)
    ensures id in rows ==>
      id in jobs && MayBeClaimed(jobs[id], target, now) && SweepExhausted(jobs, target, now)[id] == jobs[id]
      && Claimable(jobs[id], now)
    ensures id in jobs && MayBeClaimed(jobs[id], target, now) && id !in rows ==>
      |rows| == limit && forall first :: first in rows ==> first in jobs && WaitsLonger(jobs[first], jobs[id])
  {
    var swept := SweepExhausted(jobs, target, now);
    if id in rows {
      var i :| 0 <= i < |rows| && rows[i] == id;
      assert rows[i] in swept && Claimable(swept[rows[i]], now);
    } else if id in jobs && MayBeClaimed(jobs[id], target, now) {
      assert Claimable(swept[id], now);
      forall first | first in rows ensures first in jobs && WaitsLonger(jobs[first], jobs[id]) {
        var i :| 0 <= i < |rows| && rows[i] == first;
        assert Earlier(swept, rows[i], id);
      }
    }
  }

  class ProjectionOutbox {
    var jobs: Jobs

    constructor ()
      ensures jobs == map[] && Inv(jobs)
    {
      jobs := map[];
    }

    method Enqueue(newId: string, target: Target, operation: string, pageId: Option<string>,
                   revisionId: Option<string>, epoch: nat, now: int) returns (id: string)
      requires newId !in jobs
      modifies this
      ensures jobs == Apply(old(jobs), EnqueueStep(newId, target, operation, pageId, revisionId, epoch, now))
      ensures id in jobs && jobs[id].key == IdempotencyKey(target, operation, pageId, revisionId, epoch)
      ensures id in old(jobs) ==> jobs == old(jobs)
      ensures id !in old(jobs) ==>
        && id == newId && !HasKey(old(jobs), jobs[id].key)
        && jobs == old(jobs)[id := Job(jobs[id].key, target, operation, pageId, revisionId, epoch, Pending, 0, now, now,
                                       None, None)]
    {
      var job := NewJob(target, operation, pageId, revisionId, epoch, now);
      if !HasKey(jobs, job.key) {
        jobs := jobs[newId := job];
        assert jobs[newId].key == job.key;
      }
      id :| id in jobs && jobs[id].key == job.key;
    }

    method SelectClaimable(target: Target, limit: nat, now: int) returns (rows: seq<string>)
      ensures IsSelection(jobs, target, now, limit, rows)
    {
      var left := set id | id in jobs && jobs[id].target == target && Claimable(jobs[id], now);
      rows := [];
      while |rows| < limit && left != {}
        invariant |rows| <= limit && left <= jobs.Keys
        invariant forall id :: id in left <==>
          id in jobs && jobs[id].target == target && Claimable(jobs[id], now) && id !in rows
        invariant forall i :: 0 <= i < |rows| ==>
          rows[i] in jobs && jobs[rows[i]].target == target && Claimable(jobs[rows[i]], now)
        invariant forall i, id :: 0 <= i < |rows| && id in left ==> Earlier(jobs, rows[i], id)
        invariant forall i, j :: 0 <= i < j < |rows| ==> rows[i] != rows[j] && Earlier(jobs, rows[i], rows[j])
        decreases left
      {
        var next := Earliest(jobs, left);
        rows := rows + [next];
        left := left - {next};
      }
    }

    /** Claims up to `limit` rows; `claimed` are the ids whose rows this worker now holds. */
    method Claim(target: Target, worker: string, limit: int, leaseSeconds: int, now: int)
      returns (claimed: seq<string>)
      modifies this
      ensures limit <= 0 ==> claimed == [] && jobs == old(jobs)
      ensures 0 < limit ==>
        && IsSelection(SweepExhausted(old(jobs), target, now), target, now, limit, claimed)
        && jobs == Apply(old(jobs), ClaimStep(target, worker, claimed, leaseSeconds, now))
        && forall i :: 0 <= i < |claimed| ==> Owns(jobs, claimed[i], worker)
      ensures 0 < limit ==> AreClaimed(old(jobs), jobs, target, limit, worker, claimed, leaseSeconds, now)
    {
      claimed := [];
      if limit <= 0 {
        return;
      }
      jobs := SweepExhausted(jobs, target, now);
      var rows := SelectClaimable(target, limit, now);
      claimed := ClaimSelected(rows, worker, now + Max(1, leaseSeconds), now);
      ClaimedRows(old(jobs), target, limit, worker, rows, leaseSeconds, now);
    }

    method ClaimSelected(rows: seq<string>, worker: string, lease: int, now: int) returns (claimed: seq<string>)
      requires forall i :: 0 <= i < |rows| ==> rows[i] in jobs && Claimable(jobs[rows[i]], now)
      requires forall i, j :: 0 <= i < j < |rows| ==> rows[i] != rows[j]
      modifies this
      ensures jobs == ClaimRows(old(jobs), rows, worker, lease, now)
      ensures claimed == rows && forall i :: 0 <= i < |rows| ==> Owns(jobs, rows[i], worker)
    {
      claimed := [];
      var i := 0;
      while i < |rows|
        invariant 0 <= i <= |rows| && claimed == rows[..i]
        invariant jobs == ClaimRows(old(jobs), rows[..i], worker, lease, now)
        invariant jobs.Keys == old(jobs).Keys
        invariant forall k :: 0 <= k < i ==> Owns(jobs, rows[k], worker)
        invariant forall k :: i <= k < |rows| ==> jobs[rows[k]] == old(jobs)[rows[k]]
      {
        assert rows[..i + 1][..i] == rows[..i];
        var id := rows[i];
        if id in jobs && Claimable(jobs[id], now) {
          jobs := jobs[id := jobs[id].(status := Running, attempts := jobs[id].attempts + 1,
                                       leaseOwner := Some(worker), leaseExpiresAt := Some(lease))];
          claimed := claimed + [id];
        }
        i := i + 1;
      }
      assert rows[..i] == rows;
    }

    method RenewLease(id: string, worker: string, leaseSeconds: int, now: int) returns (ok: bool)
      modifies this
      ensures jobs == Apply(old(jobs), RenewStep(id, worker, leaseSeconds, now))
      ensures ok <==> id in old(jobs) && (Terminal(old(jobs)[id].status) || Owns(old(jobs), id, worker))
      ensures jobs ==
        if id in old(jobs) && old(jobs)[id].status == Running && old(jobs)[id].leaseOwner == Some(worker) then
          old(jobs)[id := old(jobs)[id].(
            leaseExpiresAt := Some(now + if leaseSeconds < 1 then 1 else leaseSeconds))]
        else old(jobs)
    {
      if id !in jobs {
        return false;
      }
      if Terminal(jobs[id].status) {
        return true;
      }
      if jobs[id].status != Running || jobs[id].leaseOwner != Some(worker) {
        return false;
      }
      jobs := jobs[id := jobs[id].(leaseExpiresAt := Some(now + Max(1, leaseSeconds)))];
      return true;
    }

    method FinishClaimed(id: string, worker: string, status: Status, availableAt: Option<int>) returns (ok: bool)
      requires Terminal(status)
      modifies this
      ensures jobs == Apply(old(jobs), FinishStep(id, worker, status, availableAt))
      ensures ok <==> Owns(old(jobs), id, worker)
      ensures !ok ==> jobs == old(jobs)
      ensures ok ==> jobs == old(jobs)[id := old(jobs)[id].(
        status := status, leaseOwner := None, leaseExpiresAt := None,
        availableAt := if availableAt.Some? then availableAt.value else old(jobs)[id].availableAt)]
    {
      ok := Owns(jobs, id, worker);
      if ok {
        var job := jobs[id];
        jobs := jobs[id := job.(
          status := status, leaseOwner := None, leaseExpiresAt := None,
          availableAt := if availableAt.Some? then availableAt.value else job.availableAt)];
      }
    }

    method FailClaimed(id: string, worker: string, now: int) returns (ok: bool)
      modifies this
      ensures jobs == Apply(old(jobs), MarkFailedStep(id, worker, now))
      ensures ok <==> Owns(old(jobs), id, worker)
      ensures !ok ==> jobs == old(jobs)
      ensures ok ==> jobs == old(jobs)[id := old(jobs)[id].(
        status := Failed, leaseOwner := None, leaseExpiresAt := None, availableAt := jobs[id].availableAt)]
      ensures ok ==> var attempts := old(jobs)[id].attempts;
        jobs[id].status == Failed &&
        jobs[id].availableAt == if 1 <= attempts <= 4 then now + [5, 30, 120, 600][attempts - 1]
                                else old(jobs)[id].availableAt
    {
      if !Owns(jobs, id, worker) {
        return false;
      }
      var attempts := jobs[id].attempts;
      var availableAt: Option<int> := None;
      if 1 <= attempts <= |RETRY_DELAYS| {
        availableAt := Some(now + RETRY_DELAYS[attempts - 1]);
      }
      ok := FinishClaimed(id, worker, Failed, availableAt);
    }

    method SupersedeOlder(pageId: string, epoch: nat)
      modifies this
      ensures jobs == Apply(old(jobs), SupersedeStep(pageId, epoch))
      ensures forall id :: id in jobs ==> !Stale(jobs[id], pageId, epoch)
      ensures jobs.Keys == old(jobs).Keys
      ensures forall id :: id in jobs ==> var job := old(jobs)[id];
        jobs[id] == if job.pageId == Some(pageId) && job.epoch < epoch && job.status in {Pending, Failed, Running} then
                      job.(status := Superseded, leaseOwner := None, leaseExpiresAt := None)
                    else job
    {
      jobs := SupersedeStale(jobs, pageId, epoch);
    }

    /** The manual retry: `conflict` unless the job exists and has failed. */
    method RetryJob(id: string, now: int) returns (found: bool, conflict: bool)
      modifies this
      ensures jobs == Apply(old(jobs), RetryStep(id, now))
      ensures found <==> id in old(jobs)
      ensures conflict <==> id in old(jobs) && old(jobs)[id].status != Failed
      ensures found && !conflict ==> jobs == old(jobs)[id := old(jobs)[id].(
        status := Pending, attempts := 0, availableAt := now, leaseOwner := None, leaseExpiresAt := None)]
      ensures !found || conflict ==> jobs == old(jobs)
    {
      var updated := id in jobs && jobs[id].status == Failed;
      if updated {
        jobs := jobs[id := Released(jobs[id], Pending).(attempts := 0, availableAt := now)];
      }
      found := id in jobs;
      conflict := found && !updated;
    }
  }
}
