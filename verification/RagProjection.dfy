/**
  Epoch-fenced projection of wiki revisions into RAG chunk rows.

  Several workers claim jobs, write the chunk rows of a revision in one transaction and publish the
  page's visible pair in another, while pages are edited and rows of dead epochs are removed.  Each
  database transaction is one `Action`; `Apply` says what it does.  `WikiRagProjector` performs them.
 */
module RagProjection {
  import opened Options
  import Outbox

  datatype Lifecycle = Active | Deleted | Invalid

  datatype Page = Page(
    current: Option<string>,
    epoch: nat,
    lifecycle: Lifecycle,
    visibleRevision: Option<string>,
    visibleEpoch: Option<nat>
  )

  /** An immutable revision: the page it belongs to and the texts of its chunks, in order. */
  datatype Revision = Revision(pageId: string, chunks: seq<string>)

  datatype ChunkKey = ChunkKey(pageId: string, revisionId: string, epoch: nat, index: nat)

  /** The copy of a job row a worker keeps after claiming it. */
  datatype Work = Work(id: string, operation: string, pageId: Option<string>, revisionId: Option<string>, epoch: nat)

  /** Where a worker stands in the projection of one job. */
  datatype Phase =
    | Idle
    | Starting(work: Work)     // claimed, snapshot not loaded
    | Loaded(work: Work)       // snapshot matched the job
    | Written(work: Work)      // rows committed, not published
    | Doomed(work: Work)       // snapshot did not match
    | Cleaning(work: Work)     // lease lost, rows of the epoch to be removed
    | Deleting(work: Work)     // a delete job

  datatype Worker = Worker(queue: seq<Work>, phase: Phase)

  datatype Db = Db(
    pages: map<string, Page>,
    revisions: map<string, Revision>,
    chunks: map<ChunkKey, string>,
    jobs: Outbox.Jobs,
    workers: map<string, Worker>
  )

  const EMPTY: Db := Db(map[], map[], map[], map[], map[])

  function WorkOf(id: string, job: Outbox.Job): Work {
    Work(id, job.operation, job.pageId, job.revisionId, job.epoch)
  }

  function PhaseOf(db: Db, w: string): Phase {
    if w in db.workers then db.workers[w].phase else Idle
  }

  function QueueOf(db: Db, w: string): seq<Work> {
    if w in db.workers then db.workers[w].queue else []
  }

  function Move(db: Db, w: string, phase: Phase): Db {
    db.(workers := db.workers[w := Worker(QueueOf(db, w), phase)])
  }

  // ---------- What readers see ----------

  predicate Shown(page: Page, key: ChunkKey) {
    && page.lifecycle == Active
    && page.current == Some(key.revisionId)
    && page.visibleRevision == Some(key.revisionId)
    && page.visibleEpoch == Some(key.epoch)
    && page.epoch == key.epoch
  }

  function VisibleRows(db: Db): map<ChunkKey, string> {
    map k | k in db.chunks && k.pageId in db.pages && Shown(db.pages[k.pageId], k) :: db.chunks[k]
  }

  function VisibleRowsOf(db: Db, pageId: string): map<ChunkKey, string> {
    map k | k in VisibleRows(db) && k.pageId == pageId :: db.chunks[k]
  }

  /** All chunk rows of one revision at one epoch. */
  function FullRows(pageId: string, revisionId: string, epoch: nat, texts: seq<string>): map<ChunkKey, string> {
    map k | k in (set i | 0 <= i < |texts| :: ChunkKey(pageId, revisionId, epoch, i)) :: texts[k.index]
  }

  // ---------- Transactions ----------

  predicate PageMatches(db: Db, work: Work) {
    && work.pageId.Some? && work.revisionId.Some?
    && work.pageId.value in db.pages
    && var page := db.pages[work.pageId.value];
       page.current == work.revisionId && page.epoch == work.epoch && page.lifecycle == Active
  }

  // The snapshot query also joins the current revision of that page.
  predicate SnapshotMatches(db: Db, work: Work) {
    && PageMatches(db, work)
    && work.revisionId.value in db.revisions
    && db.revisions[work.revisionId.value].pageId == work.pageId.value
  }

  /** The job names a revision of its page, and the page is active with that revision and the job's epoch. */
  ghost predicate IsWanted(db: Db, work: Work) {
    exists p, r :: work.pageId == Some(p) && work.revisionId == Some(r) && p in db.pages && r in db.revisions
                   && db.revisions[r].pageId == p && db.pages[p].lifecycle == Active && db.pages[p].current == Some(r)
                   && db.pages[p].epoch == work.epoch
  }

  // What the two transactions look at comes to that.
  lemma WantedMatches(db: Db, work: Work)
    ensures SnapshotMatches(db, work) <==> IsWanted(db, work)
    ensures Grounded(db, work) ==> (PageMatches(db, work) <==> IsWanted(db, work))
  {
  }

  function WriteRows(db: Db, work: Work): Db
    requires work.pageId.Some? && work.revisionId.Some? && work.revisionId.value in db.revisions
  {
    db.(chunks := db.chunks + FullRows(work.pageId.value, work.revisionId.value, work.epoch,
                                       db.revisions[work.revisionId.value].chunks))
  }

  predicate RunningOwner(db: Db, pageId: string, epoch: nat) {
    exists id :: id in db.jobs && db.jobs[id].target == Outbox.Rag && db.jobs[id].pageId == Some(pageId)
                 && db.jobs[id].epoch == epoch && db.jobs[id].status == Outbox.Running
  }

  predicate SucceededOwner(db: Db, pageId: string, epoch: nat, revision: Option<string>) {
    exists id :: id in db.jobs && db.jobs[id].target == Outbox.Rag && db.jobs[id].pageId == Some(pageId)
                 && db.jobs[id].epoch == epoch && db.jobs[id].status == Outbox.Succeeded
                 && db.jobs[id].operation == "upsert" && db.jobs[id].revisionId == revision
  }

  predicate EpochInUse(db: Db, pageId: string, epoch: nat) {
    || (&& pageId in db.pages
        && var page := db.pages[pageId];
           && page.lifecycle == Active && page.epoch == epoch
           && (|| (&& page.current.Some? && page.visibleRevision == page.current
                   && (if page.visibleEpoch.Some? then page.visibleEpoch.value else 0) == epoch)
               || SucceededOwner(db, pageId, epoch, page.current)))
    || RunningOwner(db, pageId, epoch)
  }

  function CleanupEpoch(db: Db, pageId: string, epoch: nat): Db {
    if EpochInUse(db, pageId, epoch) then db
    else db.(chunks := map k | k in db.chunks && !(k.pageId == pageId && k.epoch == epoch) :: db.chunks[k])
  }

  /** No chunk row of the page and epoch is left. */
  ghost predicate NoRows(db: Db, pageId: string, epoch: nat) {
    forall k :: k in db.chunks ==> !(k.pageId == pageId && k.epoch == epoch)
  }

  /** The page is not active at the epoch, and no job of the epoch is running. */
  ghost predicate IsDead(db: Db, pageId: string, epoch: nat) {
    && (pageId in db.pages ==> db.pages[pageId].lifecycle != Active || db.pages[pageId].epoch != epoch)
    && forall id :: id in db.jobs ==>
         !(db.jobs[id].target == Outbox.Rag && db.jobs[id].pageId == Some(pageId) && db.jobs[id].epoch == epoch
           && db.jobs[id].status == Outbox.Running)
  }

  /**
    A clean-up removes the rows of the epoch, and no others, unless a job of the epoch is running, or the page is
    active at the epoch and its current revision is visible there or was projected there.
   */
  lemma CleanupRemoves(db: Db, pageId: string, epoch: nat)
    ensures var after := CleanupEpoch(db, pageId, epoch);
      if || (exists id :: id in db.jobs && db.jobs[id].target == Outbox.Rag && db.jobs[id].pageId == Some(pageId)
                          && db.jobs[id].epoch == epoch && db.jobs[id].status == Outbox.Running)
         || (&& pageId in db.pages && db.pages[pageId].lifecycle == Active && db.pages[pageId].epoch == epoch
             && var page := db.pages[pageId];
                (|| (&& page.current.Some? && page.visibleRevision == page.current
                     && (page.visibleEpoch == Some(epoch) || (epoch == 0 && page.visibleEpoch.None?)))
                 || (exists id :: id in db.jobs && db.jobs[id].target == Outbox.Rag
                                  && db.jobs[id].pageId == Some(pageId) && db.jobs[id].epoch == epoch
                                  && db.jobs[id].status == Outbox.Succeeded
                                  && db.jobs[id].operation == "upsert" && db.jobs[id].revisionId == page.current)))
      then after == db
      else
        && NoRows(after, pageId, epoch) && after == db.(chunks := after.chunks)
        && forall k :: k in db.chunks && !(k.pageId == pageId && k.epoch == epoch) ==>
             k in after.chunks && after.chunks[k] == db.chunks[k]
  {
    assert RunningOwner(db, pageId, epoch)
      <==> exists id :: id in db.jobs && db.jobs[id].target == Outbox.Rag && db.jobs[id].pageId == Some(pageId)
                        && db.jobs[id].epoch == epoch && db.jobs[id].status == Outbox.Running;
  }

  /** So it leaves no row of a dead epoch. */
  lemma DeadEpochGoes(db: Db, pageId: string, epoch: nat)
    ensures IsDead(db, pageId, epoch) ==> NoRows(CleanupEpoch(db, pageId, epoch), pageId, epoch)
  {
  }

  // The page name `cleanup_epoch` receives: a missing id is rendered as "None".
  function PageName(work: Work): string {
    if work.pageId.Some? then work.pageId.value else "None"
  }

  function FinishJob(db: Db, id: string, w: string, status: Outbox.Status): Db {
    db.(jobs := Outbox.Finish(db.jobs, id, w, status, None))
  }

  function SetVisible(db: Db, pageId: string, revision: Option<string>, epoch: Option<nat>): Db
    requires pageId in db.pages
  {
    db.(pages := db.pages[pageId := db.pages[pageId].(visibleRevision := revision, visibleEpoch := epoch)])
  }

  /** The second transaction of a projection.  Losing the lease rolls it back and leads to cleaning. */
  function Publish(db: Db, w: string, work: Work): Db {
    if !Outbox.Owns(db.jobs, work.id, w) then Move(db, w, Cleaning(work))
    else if PageMatches(db, work) then
      Move(FinishJob(SetVisible(db, work.pageId.value, work.revisionId, Some(work.epoch)), work.id, w,
        Outbox.Succeeded),
           w, Idle)
    else
      Move(CleanupEpoch(FinishJob(db, work.id, w, Outbox.Superseded), PageName(work), work.epoch), w, Idle)
  }

  function FinishSuperseded(db: Db, w: string, work: Work): Db {
    if !Outbox.Owns(db.jobs, work.id, w) then Move(db, w, Cleaning(work))
    else Move(CleanupEpoch(FinishJob(db, work.id, w, Outbox.Superseded), PageName(work), work.epoch), w, Idle)
  }

  predicate MatchesDelete(db: Db, work: Work) {
    && work.pageId.Some? && work.pageId.value in db.pages
    && db.pages[work.pageId.value].lifecycle in {Deleted, Invalid}
    && db.pages[work.pageId.value].epoch == work.epoch
  }

  function ProjectDelete(db: Db, w: string, work: Work): Db {
    if !Outbox.Owns(db.jobs, work.id, w) then Move(db, w, Idle)
    else if !MatchesDelete(db, work) then Move(FinishJob(db, work.id, w, Outbox.Superseded), w, Idle)
    else
      var cleared := SetVisible(db, work.pageId.value, None, None);
      var removed := cleared.(chunks := map k | k in db.chunks && k.pageId != work.pageId.value :: db.chunks[k]);
      Move(FinishJob(removed, work.id, w, Outbox.Succeeded), w, Idle)
  }

  // ---------- Actions ----------

  datatype Action =
    | ClaimJobs(w: string, rows: seq<string>, leaseSeconds: int, now: int)
    | Begin(w: string)
    | Proceed(w: string)                    // the next transaction of the worker's projection
    | Abandon(w: string, now: int)          // an exception: the job is marked failed
    | DropQueue(w: string)                  // renewal failed: remaining claims are forgotten
    | OutboxAction(step: Outbox.Step)
    | EditPage(pageId: string, current: Option<string>, lifecycle: Lifecycle, clear: bool, raise: nat)
    | CreatePage(pageId: string, current: Option<string>, lifecycle: Lifecycle, epoch: nat)
    | AddRevision(revisionId: string, revision: Revision)

  // Outbox transactions of other parties: rag jobs are claimed and finished only by the workers above.
  predicate Foreign(db: Db, step: Outbox.Step) {
    match step
    case ClaimStep(target, _, rows, _, _) =>
      target == Outbox.GBrain && forall i :: 0 <= i < |rows| && rows[i] in db.jobs ==> db.jobs[rows[i]].target == target
    case FinishStep(id, _, _, _) => id in db.jobs ==> db.jobs[id].target == Outbox.GBrain
    case _ => true
  }

  function ClaimedWork(before: Outbox.Jobs, after: Outbox.Jobs, rows: seq<string>): seq<Work> {
    if rows == [] then []
    else
      (if rows[0] in before && rows[0] in after && after[rows[0]].attempts > before[rows[0]].attempts
       then [WorkOf(rows[0], after[rows[0]])] else [])
      + ClaimedWork(before, after, rows[1..])
  }

  predicate OnlyRag(jobs: Outbox.Jobs, rows: seq<string>) {
    forall i :: 0 <= i < |rows| ==> rows[i] in jobs && jobs[rows[i]].target == Outbox.Rag
  }

  function Advance(db: Db, w: string): Db {
    match PhaseOf(db, w)
    case Idle => db
    case Starting(work) => Move(db, w, if SnapshotMatches(db, work) then Loaded(work) else Doomed(work))
    case Loaded(work) =>
      if work.pageId.Some? && work.revisionId.Some? && work.revisionId.value in db.revisions
      then Move(WriteRows(db, work), w, Written(work)) else db
    case Written(work) => Publish(db, w, work)
    case Doomed(work) => FinishSuperseded(db, w, work)
    case Cleaning(work) => Move(CleanupEpoch(db, PageName(work), work.epoch), w, Idle)
    case Deleting(work) => ProjectDelete(db, w, work)
  }

  function Apply(db: Db, action: Action): Db {
    match action
    case ClaimJobs(w, rows, leaseSeconds, now) =>
      if PhaseOf(db, w) == Idle && QueueOf(db, w) == [] && OnlyRag(db.jobs, rows) then
        var jobs := Outbox.Apply(db.jobs, Outbox.ClaimStep(Outbox.Rag, w, rows, leaseSeconds, now));
        db.(jobs := jobs, workers := db.workers[w := Worker(ClaimedWork(db.jobs, jobs, rows), Idle)])
      else db
    case Begin(w) =>
      if PhaseOf(db, w) == Idle && QueueOf(db, w) != [] then
        var work := QueueOf(db, w)[0];
        db.(workers := db.workers[w := Worker(QueueOf(db, w)[1..],
                                              if work.operation == "delete" then Deleting(work) else Starting(work))])
      else db
    case Proceed(w) => Advance(db, w)
    case Abandon(w, now) =>
      if PhaseOf(db, w) == Idle then db
      else Move(db.(jobs := Outbox.MarkFailed(db.jobs, PhaseOf(db, w).work.id, w, now)), w, Idle)
    case DropQueue(w) =>
      if PhaseOf(db, w) == Idle then db.(workers := db.workers[w := Worker([], Idle)]) else db
    case OutboxAction(step) =>
      if Foreign(db, step) then db.(jobs := Outbox.Apply(db.jobs, step)) else db
    case EditPage(pageId, current, lifecycle, clear, raise) =>
      if pageId in db.pages then
        var page := db.pages[pageId];
        db.(pages := db.pages[pageId := Page(current, page.epoch + 1 + raise, lifecycle,
                                             if clear then None else page.visibleRevision,
                                             if clear then None else page.visibleEpoch)])
      else db
    case CreatePage(pageId, current, lifecycle, epoch) =>
      if pageId in db.pages then db
      else db.(pages := db.pages[pageId := Page(current, epoch, lifecycle, None, None)])
    case AddRevision(revisionId, revision) =>
      if revisionId in db.revisions then db else db.(revisions := db.revisions[revisionId := revision])
  }

  function Run(db: Db, actions: seq<Action>): Db
    decreases |actions|
  {
    if actions == [] then db else Run(Apply(db, actions[0]), actions[1..])
  }

  // ---------- The invariant ----------

  ghost predicate RowsAreRight(db: Db) {
    forall k :: k in db.chunks ==>
      && k.revisionId in db.revisions
      && db.revisions[k.revisionId].pageId == k.pageId
      && k.index < |db.revisions[k.revisionId].chunks|
      && db.chunks[k] == db.revisions[k.revisionId].chunks[k.index]
  }

  ghost predicate Complete(db: Db, pageId: string, revisionId: string, epoch: nat) {
    && revisionId in db.revisions
    && db.revisions[revisionId].pageId == pageId
    && forall i :: 0 <= i < |db.revisions[revisionId].chunks| ==> ChunkKey(pageId, revisionId, epoch, i) in db.chunks
  }

  predicate IsVisible(page: Page) {
    && page.lifecycle == Active && page.current.Some?
    && page.visibleRevision == page.current && page.visibleEpoch == Some(page.epoch)
  }

  ghost predicate PageOk(db: Db, p: string)
    requires p in db.pages
  {
    var page := db.pages[p];
    && (page.visibleEpoch.Some? ==> page.visibleEpoch.value <= page.epoch)
    && (IsVisible(page) ==> Complete(db, p, page.current.value, page.epoch))
  }

  ghost predicate IsWork(db: Db, work: Work) {
    work.id in db.jobs && db.jobs[work.id].target == Outbox.Rag && work == WorkOf(work.id, db.jobs[work.id])
  }

  // A snapshot was seen: the page had reached the job's epoch, and the revision exists.
  ghost predicate Grounded(db: Db, work: Work) {
    && work.pageId.Some? && work.revisionId.Some?
    && work.pageId.value in db.pages && work.epoch <= db.pages[work.pageId.value].epoch
    && work.revisionId.value in db.revisions
    && db.revisions[work.revisionId.value].pageId == work.pageId.value
  }

  ghost predicate PhaseOk(db: Db, w: string, phase: Phase) {
    match phase
    case Idle => true
    case Starting(work) => IsWork(db, work) && work.operation != "delete"
    case Doomed(work) => IsWork(db, work) && work.operation != "delete"
    case Cleaning(work) => IsWork(db, work) && work.operation != "delete"
    case Deleting(work) => IsWork(db, work) && work.operation == "delete"
    case Loaded(work) => IsWork(db, work) && work.operation != "delete" && Grounded(db, work)
    case Written(work) =>
      && IsWork(db, work) && work.operation != "delete" && Grounded(db, work)
      && (Outbox.Owns(db.jobs, work.id, w) && PageMatches(db, work) ==>
            Complete(db, work.pageId.value, work.revisionId.value, work.epoch))
  }

  ghost predicate WorkerOk(db: Db, w: string)
    requires w in db.workers
  {
    && PhaseOk(db, w, db.workers[w].phase)
    && forall i :: 0 <= i < |db.workers[w].queue| ==> IsWork(db, db.workers[w].queue[i])
  }

  ghost predicate SuccessOk(db: Db, job: Outbox.Job) {
    job.target == Outbox.Rag && job.operation != "delete" && job.status == Outbox.Succeeded ==>
      && job.pageId.Some? && job.revisionId.Some?
      && job.pageId.value in db.pages
      && var page := db.pages[job.pageId.value];
         && job.epoch <= page.epoch
         && (page.lifecycle == Active && page.epoch == job.epoch && page.current == job.revisionId ==> IsVisible(page))
  }

  ghost predicate Inv(db: Db) {
    && RowsAreRight(db)
    && (forall p :: p in db.pages ==> PageOk(db, p))
    && (forall w :: w in db.workers ==> WorkerOk(db, w))
    && (forall id :: id in db.jobs ==> SuccessOk(db, db.jobs[id]))
  }

  // ---------- Every action keeps the invariant ----------

  // A change of the job table that moves no ownership towards a worker with rows in flight.
  ghost predicate JobsMove(db: Db, jobs: Outbox.Jobs) {
    && (forall id :: id in db.jobs ==> id in jobs && Outbox.SameWork(db.jobs[id], jobs[id]))
    && (forall w :: w in db.workers && db.workers[w].phase.Written? ==>
          var id := db.workers[w].phase.work.id; Outbox.Owns(jobs, id, w) ==> Outbox.Owns(db.jobs, id, w))
    && (forall id :: id in jobs ==> SuccessOk(db, jobs[id]))
  }

  lemma JobsMoveKeepsInv(db: Db, jobs: Outbox.Jobs)
    requires Inv(db) && JobsMove(db, jobs)
    ensures Inv(db.(jobs := jobs))
  {
    var after := db.(jobs := jobs);
    forall p | p in after.pages ensures PageOk(after, p) {
      assert PageOk(db, p);
    }
    forall w | w in after.workers ensures WorkerOk(after, w) {
      assert WorkerOk(db, w);
    }
    forall id | id in after.jobs ensures SuccessOk(after, after.jobs[id]) {
      assert SuccessOk(db, jobs[id]);
    }
  }

  lemma FinishKeepsInv(db: Db, id: string, w: string, status: Outbox.Status)
    requires Inv(db)
    requires status == Outbox.Succeeded && Outbox.Owns(db.jobs, id, w) ==>
      SuccessOk(db, db.jobs[id].(status := Outbox.Succeeded))
    ensures Inv(FinishJob(db, id, w, status))
  {
    JobsMoveKeepsInv(db, Outbox.Finish(db.jobs, id, w, status, None));
  }

  lemma OutboxActionKeepsInv(db: Db, step: Outbox.Step)
    requires Inv(db) && Foreign(db, step)
    ensures Inv(db.(jobs := Outbox.Apply(db.jobs, step)))
  {
    var jobs := Outbox.Apply(db.jobs, step);
    forall id | id in db.jobs
      ensures id in jobs && Outbox.SameWork(db.jobs[id], jobs[id])
    {
      Outbox.StepRow(db.jobs, step, id);
    }
    forall w | w in db.workers && db.workers[w].phase.Written?
      ensures var id := db.workers[w].phase.work.id; Outbox.Owns(jobs, id, w) ==> Outbox.Owns(db.jobs, id, w)
    {
      assert WorkerOk(db, w);
      ForeignKeepsOwner(db, step, db.workers[w].phase.work.id, w);
    }
    Outbox.StepKeys(db.jobs, step);
    forall id | id in jobs ensures SuccessOk(db, jobs[id]) {
      if id in db.jobs {
        Outbox.StepRow(db.jobs, step, id);
        assert SuccessOk(db, db.jobs[id]);
      }
    }
    JobsMoveKeepsInv(db, jobs);
  }

  lemma ForeignKeepsOwner(db: Db, step: Outbox.Step, id: string, w: string)
    requires Foreign(db, step)
    requires id in db.jobs && db.jobs[id].target == Outbox.Rag
    ensures Outbox.Owns(Outbox.Apply(db.jobs, step), id, w) ==> Outbox.Owns(db.jobs, id, w)
  {
    Outbox.StepRow(db.jobs, step, id);
    if step.ClaimStep? {
      Outbox.ClaimRowsRow(Outbox.SweepExhausted(db.jobs, step.target, step.now), step.rows, step.worker,
                          step.now + Outbox.Max(1, step.leaseSeconds), step.now, id);
    }
  }

  lemma MarkFailedKeepsInv(db: Db, id: string, w: string, now: int)
    requires Inv(db)
    ensures Inv(db.(jobs := Outbox.MarkFailed(db.jobs, id, w, now)))
  {
    OutboxActionKeepsInv(db, Outbox.MarkFailedStep(id, w, now));
  }

  lemma {:induction false} ClaimedWorkIsWork(db: Db, jobs: Outbox.Jobs, rows: seq<string>)
    requires OnlyRag(db.jobs, rows)
    requires forall id :: id in db.jobs ==> id in jobs && Outbox.SameWork(db.jobs[id], jobs[id])
    ensures forall i :: 0 <= i < |ClaimedWork(db.jobs, jobs, rows)| ==>
      var work := ClaimedWork(db.jobs, jobs, rows)[i];
      work.id in jobs && jobs[work.id].target == Outbox.Rag && work == WorkOf(work.id, jobs[work.id])
  {
    if rows != [] {
      assert rows[0] in db.jobs && db.jobs[rows[0]].target == Outbox.Rag;
      assert OnlyRag(db.jobs, rows[1..]);
      ClaimedWorkIsWork(db, jobs, rows[1..]);
    }
  }

  lemma ClaimKeepsInv(db: Db, w: string, rows: seq<string>, leaseSeconds: int, now: int)
    requires Inv(db) && PhaseOf(db, w) == Idle && OnlyRag(db.jobs, rows)
    ensures Inv(Apply(db, ClaimJobs(w, rows, leaseSeconds, now)))
  {
    var step := Outbox.ClaimStep(Outbox.Rag, w, rows, leaseSeconds, now);
    var jobs := Outbox.Apply(db.jobs, step);
    forall id | id in db.jobs
      ensures id in jobs && Outbox.SameWork(db.jobs[id], jobs[id]) && SuccessOk(db, jobs[id])
      ensures forall v :: v != w && Outbox.Owns(jobs, id, v) ==> Outbox.Owns(db.jobs, id, v)
    {
      Outbox.StepRow(db.jobs, step, id);
      assert SuccessOk(db, db.jobs[id]);
    }
    Outbox.StepKeys(db.jobs, step);
    forall v | v in db.workers && db.workers[v].phase.Written?
      ensures var id := db.workers[v].phase.work.id; Outbox.Owns(jobs, id, v) ==> Outbox.Owns(db.jobs, id, v)
    {
      assert WorkerOk(db, v);
    }
    JobsMoveKeepsInv(db, jobs);
    ClaimedWorkIsWork(db, jobs, rows);
    var mid := db.(jobs := jobs);
    var after := mid.(workers := db.workers[w := Worker(ClaimedWork(db.jobs, jobs, rows), Idle)]);
    WorkersKeepInv(mid, w, after.workers[w]);
  }

  // Nothing but the workers differs.
  predicate SameTables(db: Db, after: Db) {
    after == db.(workers := after.workers)
  }

  lemma SameTablesKeepPage(db: Db, after: Db, p: string)
    requires SameTables(db, after) && p in db.pages && PageOk(db, p)
    ensures PageOk(after, p)
  {
  }

  lemma SameTablesKeepPhase(db: Db, after: Db, w: string, phase: Phase)
    requires SameTables(db, after) && PhaseOk(db, w, phase)
    ensures PhaseOk(after, w, phase)
  {
  }

  lemma SameTablesKeepWorker(db: Db, after: Db, v: string)
    requires SameTables(db, after) && v in db.workers && WorkerOk(db, v)
    requires v in after.workers && after.workers[v] == db.workers[v]
    ensures WorkerOk(after, v)
  {
    SameTablesKeepPhase(db, after, v, db.workers[v].phase);
  }

  lemma WorkersKeepInv(db: Db, w: string, worker: Worker)
    requires Inv(db) && PhaseOk(db, w, worker.phase)
    requires forall i :: 0 <= i < |worker.queue| ==> IsWork(db, worker.queue[i])
    ensures Inv(db.(workers := db.workers[w := worker]))
  {
    var after := db.(workers := db.workers[w := worker]);
    forall p | p in after.pages ensures PageOk(after, p) {
      SameTablesKeepPage(db, after, p);
    }
    forall v | v in after.workers ensures WorkerOk(after, v) {
      if v == w {
        SameTablesKeepPhase(db, after, w, worker.phase);
      } else {
        SameTablesKeepWorker(db, after, v);
      }
    }
    forall id | id in after.jobs ensures SuccessOk(after, after.jobs[id]) {
      assert SuccessOk(db, db.jobs[id]);
    }
  }

  // A worker may take any phase whose own condition holds.
  lemma MoveKeepsInv(db: Db, w: string, phase: Phase)
    requires Inv(db) && PhaseOk(db, w, phase)
    ensures Inv(Move(db, w, phase))
  {
    if w in db.workers {
      assert WorkerOk(db, w);
    }
    WorkersKeepInv(db, w, Worker(QueueOf(db, w), phase));
  }

  // Rows that are visible, or that an owner is about to publish, are never cleaned up.
  lemma CleanupKeepsComplete(db: Db, pageId: string, epoch: nat, p: string, revisionId: string, e: nat)
    requires Complete(db, p, revisionId, e)
    requires p == pageId && e == epoch ==> EpochInUse(db, pageId, epoch)
    ensures Complete(CleanupEpoch(db, pageId, epoch), p, revisionId, e)
  {
  }

  lemma CleanupKeepsWorker(db: Db, pageId: string, epoch: nat, w: string)
    requires w in db.workers && WorkerOk(db, w)
    ensures WorkerOk(CleanupEpoch(db, pageId, epoch), w)
  {
    var phase := db.workers[w].phase;
    if phase.Written? && Outbox.Owns(db.jobs, phase.work.id, w) && PageMatches(db, phase.work) {
      var work := phase.work;
      assert RunningOwner(db, work.pageId.value, work.epoch);
      CleanupKeepsComplete(db, pageId, epoch, work.pageId.value, work.revisionId.value, work.epoch);
    }
  }

  lemma CleanupKeepsPage(db: Db, pageId: string, epoch: nat, p: string)
    requires p in db.pages && PageOk(db, p)
    ensures PageOk(CleanupEpoch(db, pageId, epoch), p)
  {
    var page := db.pages[p];
    if IsVisible(page) {
      CleanupKeepsComplete(db, pageId, epoch, p, page.current.value, page.epoch);
    }
  }

  lemma CleanupKeepsInv(db: Db, pageId: string, epoch: nat)
    requires Inv(db)
    ensures Inv(CleanupEpoch(db, pageId, epoch))
  {
    var after := CleanupEpoch(db, pageId, epoch);
    forall p | p in after.pages ensures PageOk(after, p) {
      CleanupKeepsPage(db, pageId, epoch, p);
    }
    forall w | w in after.workers ensures WorkerOk(after, w) {
      CleanupKeepsWorker(db, pageId, epoch, w);
    }
    forall id | id in after.jobs ensures SuccessOk(after, after.jobs[id]) {
      assert SuccessOk(db, db.jobs[id]);
    }
  }

  lemma WriteKeepsInv(db: Db, work: Work)
    requires Inv(db) && Grounded(db, work)
    ensures Inv(WriteRows(db, work))
    ensures Complete(WriteRows(db, work), work.pageId.value, work.revisionId.value, work.epoch)
  {
    var after := WriteRows(db, work);
    forall p | p in after.pages ensures PageOk(after, p) { assert PageOk(db, p); }
    forall w | w in after.workers ensures WorkerOk(after, w) { assert WorkerOk(db, w); }
    forall id | id in after.jobs ensures SuccessOk(after, after.jobs[id]) { assert SuccessOk(db, db.jobs[id]); }
  }

  // Any rewrite of one page row that keeps its epoch from falling.
  lemma PageChangeKeepsInv(db: Db, p: string, page: Page)
    requires Inv(db)
    requires p in db.pages ==> db.pages[p].epoch <= page.epoch
    requires p in db.pages && db.pages[p].epoch == page.epoch ==>
      db.pages[p].current == page.current && db.pages[p].lifecycle == page.lifecycle
    requires p in db.pages && db.pages[p].epoch == page.epoch && IsVisible(db.pages[p]) ==> IsVisible(page)
    requires page.visibleEpoch.Some? ==> page.visibleEpoch.value <= page.epoch
    requires IsVisible(page) ==> Complete(db, p, page.current.value, page.epoch)
    ensures Inv(db.(pages := db.pages[p := page]))
  {
    var after := db.(pages := db.pages[p := page]);
    forall q | q in after.pages ensures PageOk(after, q) {
      if q in db.pages { assert PageOk(db, q); }
    }
    forall w | w in after.workers ensures WorkerOk(after, w) { assert WorkerOk(db, w); }
    forall id | id in after.jobs ensures SuccessOk(after, after.jobs[id]) { assert SuccessOk(db, db.jobs[id]); }
  }

  lemma PublishKeepsInv(db: Db, w: string, work: Work)
    requires Inv(db) && PhaseOf(db, w) == Written(work)
    ensures Inv(Publish(db, w, work))
  {
    assert WorkerOk(db, w);
    if !Outbox.Owns(db.jobs, work.id, w) {
      MoveKeepsInv(db, w, Cleaning(work));
    } else if PageMatches(db, work) {
      var p := work.pageId.value;
      assert PageOk(db, p);
      var page := db.pages[p].(visibleRevision := work.revisionId, visibleEpoch := Some(work.epoch));
      PageChangeKeepsInv(db, p, page);
      var shown := SetVisible(db, p, work.revisionId, Some(work.epoch));
      FinishKeepsInv(shown, work.id, w, Outbox.Succeeded);
      MoveKeepsInv(FinishJob(shown, work.id, w, Outbox.Succeeded), w, Idle);
    } else {
      SupersedeAndCleanKeepsInv(db, w, work);
    }
  }

  lemma SupersedeAndCleanKeepsInv(db: Db, w: string, work: Work)
    requires Inv(db)
    ensures Inv(Move(CleanupEpoch(FinishJob(db, work.id, w, Outbox.Superseded), PageName(work), work.epoch), w, Idle))
  {
    var finished := FinishJob(db, work.id, w, Outbox.Superseded);
    FinishKeepsInv(db, work.id, w, Outbox.Superseded);
    CleanupKeepsInv(finished, PageName(work), work.epoch);
    MoveKeepsInv(CleanupEpoch(finished, PageName(work), work.epoch), w, Idle);
  }

  // Deleting every row of an inactive page cannot touch a visible page or a matching projection.
  lemma RemovePageRowsKeepsInv(db: Db, p: string)
    requires Inv(db) && p in db.pages && db.pages[p].lifecycle != Active
    ensures Inv(db.(chunks := map k | k in db.chunks && k.pageId != p :: db.chunks[k]))
  {
    var after := db.(chunks := map k | k in db.chunks && k.pageId != p :: db.chunks[k]);
    forall q | q in after.pages ensures PageOk(after, q) { assert PageOk(db, q); }
    forall w | w in after.workers ensures WorkerOk(after, w) { assert WorkerOk(db, w); }
    forall id | id in after.jobs ensures SuccessOk(after, after.jobs[id]) { assert SuccessOk(db, db.jobs[id]); }
  }

  lemma DeleteKeepsInv(db: Db, w: string, work: Work)
    requires Inv(db) && PhaseOf(db, w) == Deleting(work)
    ensures Inv(ProjectDelete(db, w, work))
  {
    assert WorkerOk(db, w);
    if !Outbox.Owns(db.jobs, work.id, w) {
      MoveKeepsInv(db, w, Idle);
    } else if !MatchesDelete(db, work) {
      FinishKeepsInv(db, work.id, w, Outbox.Superseded);
      MoveKeepsInv(FinishJob(db, work.id, w, Outbox.Superseded), w, Idle);
    } else {
      var p := work.pageId.value;
      PageChangeKeepsInv(db, p, db.pages[p].(visibleRevision := None, visibleEpoch := None));
      var cleared := SetVisible(db, p, None, None);
      RemovePageRowsKeepsInv(cleared, p);
      var removed := cleared.(chunks := map k | k in db.chunks && k.pageId != p :: db.chunks[k]);
      FinishKeepsInv(removed, work.id, w, Outbox.Succeeded);
      MoveKeepsInv(FinishJob(removed, work.id, w, Outbox.Succeeded), w, Idle);
    }
  }

  lemma AdvanceKeepsInv(db: Db, w: string)
    requires Inv(db)
    ensures Inv(Advance(db, w))
  {
    if w in db.workers {
      assert WorkerOk(db, w);
      match db.workers[w].phase
      case Idle =>
      case Starting(work) =>
        MoveKeepsInv(db, w, if SnapshotMatches(db, work) then Loaded(work) else Doomed(work));
      case Loaded(work) =>
        WriteKeepsInv(db, work);
        MoveKeepsInv(WriteRows(db, work), w, Written(work));
      case Written(work) => PublishKeepsInv(db, w, work);
      case Doomed(work) =>
        if Outbox.Owns(db.jobs, work.id, w) {
          SupersedeAndCleanKeepsInv(db, w, work);
        } else {
          MoveKeepsInv(db, w, Cleaning(work));
        }
      case Cleaning(work) =>
        CleanupKeepsInv(db, PageName(work), work.epoch);
        MoveKeepsInv(CleanupEpoch(db, PageName(work), work.epoch), w, Idle);
      case Deleting(work) => DeleteKeepsInv(db, w, work);
    }
  }

  lemma AddRevisionKeepsInv(db: Db, revisionId: string, revision: Revision)
    requires Inv(db) && revisionId !in db.revisions
    ensures Inv(db.(revisions := db.revisions[revisionId := revision]))
  {
    var after := db.(revisions := db.revisions[revisionId := revision]);
    forall p | p in after.pages ensures PageOk(after, p) { assert PageOk(db, p); }
    forall w | w in after.workers ensures WorkerOk(after, w) { assert WorkerOk(db, w); }
    forall id | id in after.jobs ensures SuccessOk(after, after.jobs[id]) { assert SuccessOk(db, db.jobs[id]); }
  }

  lemma ActionKeepsInv(db: Db, action: Action)
    requires Inv(db)
    ensures Inv(Apply(db, action))
  {
    match action
    case ClaimJobs(w, rows, leaseSeconds, now) =>
      if PhaseOf(db, w) == Idle && OnlyRag(db.jobs, rows) {
        ClaimKeepsInv(db, w, rows, leaseSeconds, now);
      }
    case Begin(w) =>
      if PhaseOf(db, w) == Idle && QueueOf(db, w) != [] {
        assert WorkerOk(db, w);
        WorkersKeepInv(db, w, Apply(db, action).workers[w]);
      }
    case Proceed(w) => AdvanceKeepsInv(db, w);
    case Abandon(w, now) =>
      if PhaseOf(db, w) != Idle {
        MarkFailedKeepsInv(db, PhaseOf(db, w).work.id, w, now);
        MoveKeepsInv(db.(jobs := Outbox.MarkFailed(db.jobs, PhaseOf(db, w).work.id, w, now)), w, Idle);
      }
    case DropQueue(w) =>
      if PhaseOf(db, w) == Idle {
        WorkersKeepInv(db, w, Worker([], Idle));
      }
    case OutboxAction(step) =>
      if Foreign(db, step) {
        OutboxActionKeepsInv(db, step);
      }
    case EditPage(pageId, current, lifecycle, clear, raise) =>
      if pageId in db.pages {
        assert PageOk(db, pageId);
        PageChangeKeepsInv(db, pageId, Apply(db, action).pages[pageId]);
      }
    case CreatePage(pageId, current, lifecycle, epoch) =>
      if pageId !in db.pages {
        PageChangeKeepsInv(db, pageId, Page(current, epoch, lifecycle, None, None));
      }
    case AddRevision(revisionId, revision) =>
      if revisionId !in db.revisions {
        AddRevisionKeepsInv(db, revisionId, revision);
      }
  }

  lemma {:induction false} RunKeepsInv(db: Db, actions: seq<Action>)
    requires Inv(db)
    ensures Inv(Run(db, actions))
    decreases |actions|
  {
    if actions != [] {
      ActionKeepsInv(db, actions[0]);
      RunKeepsInv(Apply(db, actions[0]), actions[1..]);
    }
  }

  // ---------- Results over all runs ----------

  /**
    Visible rows are all or nothing: in every interleaving of edits, claims, lease expiries,
    projections, cleanups and deletes, a page shows no row, or exactly the chunks of its current
    revision at its current epoch.
   */
  lemma VisibleRowsAreAllOrNothing(actions: seq<Action>, p: string)
    requires p in Run(EMPTY, actions).pages
    ensures var db := Run(EMPTY, actions); var page := db.pages[p];
      || VisibleRowsOf(db, p) == map[]
      || (&& page.lifecycle == Active && page.current.Some? && page.current.value in db.revisions
          && VisibleRowsOf(db, p)
             == FullRows(p, page.current.value, page.epoch, db.revisions[page.current.value].chunks))
  {
    RunKeepsInv(EMPTY, actions);
    VisibleRowsByInv(Run(EMPTY, actions), p);
  }

  lemma VisibleRowsByInv(db: Db, p: string)
    requires Inv(db) && p in db.pages
    ensures var page := db.pages[p];
      if IsVisible(page) then
        && page.current.value in db.revisions
        && VisibleRowsOf(db, p)
           == FullRows(p, page.current.value, page.epoch, db.revisions[page.current.value].chunks)
      else VisibleRowsOf(db, p) == map[]
  {
    var page := db.pages[p];
    assert PageOk(db, p);
    var rows := VisibleRowsOf(db, p);
    if IsVisible(page) {
      var full := FullRows(p, page.current.value, page.epoch, db.revisions[page.current.value].chunks);
      forall k ensures k in rows <==> k in full {
        if k in rows {
          assert k == ChunkKey(p, page.current.value, page.epoch, k.index);
        }
      }
      assert rows.Keys == full.Keys;
    } else {
      assert forall k :: k !in rows;
    }
  }

  /** In every state whatsoever, removing the rows of an epoch changes nothing a reader sees. */
  lemma CleanupIsInvisible(db: Db, pageId: string, epoch: nat)
    ensures VisibleRows(CleanupEpoch(db, pageId, epoch)) == VisibleRows(db)
  {
    var after := CleanupEpoch(db, pageId, epoch);
    forall k ensures k in VisibleRows(db) <==> k in VisibleRows(after) {
    }
  }

  /**
    A worker that still owns its job when it publishes either finds every row it wrote, and they
    become the visible rows, or takes the superseded branch.
   */
  lemma OwnerFindsItsRows(actions: seq<Action>, w: string, work: Work)
    requires var db := Run(EMPTY, actions); PhaseOf(db, w) == Written(work) && Outbox.Owns(db.jobs, work.id, w)
    ensures var db := Run(EMPTY, actions); var after := Apply(db, Proceed(w));
      if PageMatches(db, work) then
        && work.revisionId.value in db.revisions
        && after.jobs[work.id].status == Outbox.Succeeded
        && VisibleRowsOf(after, work.pageId.value)
           == FullRows(work.pageId.value, work.revisionId.value, work.epoch, db.revisions[work.revisionId.value].chunks)
      else
        && after.jobs[work.id].status == Outbox.Superseded
        && after.pages == db.pages
        && VisibleRows(after) == VisibleRows(db)
  {
    RunKeepsInv(EMPTY, actions);
    PublishOutcome(Run(EMPTY, actions), w, work);
  }

  /**
    A projection job that succeeded at the epoch and revision an active page still has made exactly
    that revision and epoch visible; and a visible epoch never exceeds the page's.
   */
  lemma SuccessMeansVisible(actions: seq<Action>, id: string)
    requires var db := Run(EMPTY, actions);
      id in db.jobs && db.jobs[id].target == Outbox.Rag && db.jobs[id].operation != "delete" &&
      db.jobs[id].status == Outbox.Succeeded
    ensures var db := Run(EMPTY, actions); var job := db.jobs[id];
      && job.pageId.Some? && job.revisionId.Some? && job.pageId.value in db.pages
      && var page := db.pages[job.pageId.value];
         page.lifecycle == Active && page.epoch == job.epoch && page.current == job.revisionId ==>
           page.visibleRevision == job.revisionId && page.visibleEpoch == Some(job.epoch)
  {
    RunKeepsInv(EMPTY, actions);
    var db := Run(EMPTY, actions);
    assert SuccessOk(db, db.jobs[id]);
  }

  lemma CleanupFrame(db: Db, pageId: string, epoch: nat)
    ensures var after := CleanupEpoch(db, pageId, epoch);
      after.pages == db.pages && after.jobs == db.jobs && after.workers == db.workers && after.revisions == db.revisions
  {
  }

  // The page row `p` as one action may leave it.
  ghost predicate VisiblePairStep(db: Db, action: Action, p: string, a: Page, b: Page) {
    || a == b
    || (&& action.Proceed? && PhaseOf(db, action.w).Written?
        && b == a.(visibleRevision := b.visibleRevision, visibleEpoch := Some(a.epoch)))
    || (&& action.Proceed? && PhaseOf(db, action.w).Deleting? && a.lifecycle != Active
        && b == a.(visibleRevision := None, visibleEpoch := None))
    || (&& action.EditPage? && a.epoch < b.epoch
        && (b.visibleEpoch == None || b.visibleEpoch == a.visibleEpoch))
  }

  lemma AdvancePage(db: Db, w: string, p: string)
    requires p in db.pages
    ensures p in Advance(db, w).pages
    ensures VisiblePairStep(db, Proceed(w), p, db.pages[p], Advance(db, w).pages[p])
  {
    match PhaseOf(db, w)
    case Written(work) => CleanupFrame(FinishJob(db, work.id, w, Outbox.Superseded), PageName(work), work.epoch);
    case Doomed(work) => CleanupFrame(FinishJob(db, work.id, w, Outbox.Superseded), PageName(work), work.epoch);
    case Cleaning(work) => CleanupFrame(db, PageName(work), work.epoch);
    case _ =>
  }

  lemma ActionPage(db: Db, action: Action, p: string)
    requires p in db.pages
    ensures p in Apply(db, action).pages
    ensures VisiblePairStep(db, action, p, db.pages[p], Apply(db, action).pages[p])
  {
    if action.Proceed? {
      AdvancePage(db, action.w, p);
    }
  }

  /**
    The visible epoch is bounded by the page epoch and never falls; it is unset only by the delete
    transaction of an inactive page or by an edit that raises the page epoch.
   */
  lemma VisibleEpochNeverFalls(actions: seq<Action>, action: Action, p: string)
    requires p in Run(EMPTY, actions).pages
    requires Run(EMPTY, actions).pages[p].visibleEpoch.Some?
    ensures var db := Run(EMPTY, actions); var after := Apply(db, action);
      var page := db.pages[p];
      && p in after.pages
      && page.visibleEpoch.value <= page.epoch <= after.pages[p].epoch
      && (after.pages[p].visibleEpoch.Some? ==> page.visibleEpoch.value <= after.pages[p].visibleEpoch.value)
      && (after.pages[p].visibleEpoch.None? ==>
            || (action.Proceed? && PhaseOf(db, action.w).Deleting? && page.lifecycle != Active)
            || (action.EditPage? && page.epoch < after.pages[p].epoch))
  {
    RunKeepsInv(EMPTY, actions);
    var db := Run(EMPTY, actions);
    assert PageOk(db, p);
    ActionPage(db, action, p);
  }

  // ---------- The projector ----------

  predicate By(action: Action, w: string) {
    match action
    case ClaimJobs(v, _, _, _) => v == w
    case Begin(v) => v == w
    case Proceed(v) => v == w
    case Abandon(v, _) => v == w
    case DropQueue(v) => v == w
    case _ => false
  }

  predicate ByOthers(actions: seq<Action>, w: string) {
    forall i :: 0 <= i < |actions| ==> !By(actions[i], w)
  }

  // A worker's own transaction changes at most one job row, which leaves `Running`.
  ghost predicate JobsAfter(before: Outbox.Jobs, after: Outbox.Jobs, v: string) {
    || after == before
    || exists id, status :: Outbox.Terminal(status) && after == Outbox.Finish(before, id, v, status, None)
  }

  lemma AdvanceJobs(db: Db, v: string)
    ensures JobsAfter(db.jobs, Advance(db, v).jobs, v)
  {
    match PhaseOf(db, v)
    case Written(work) =>
      CleanupFrame(FinishJob(db, work.id, v, Outbox.Superseded), PageName(work), work.epoch);
      var status := if PageMatches(db, work) then Outbox.Succeeded else Outbox.Superseded;
      assert Outbox.Owns(db.jobs, work.id, v) ==>
        Advance(db, v).jobs == Outbox.Finish(db.jobs, work.id, v, status, None);
    case Doomed(work) =>
      CleanupFrame(FinishJob(db, work.id, v, Outbox.Superseded), PageName(work), work.epoch);
      assert Outbox.Owns(db.jobs, work.id, v) ==>
        Advance(db, v).jobs == Outbox.Finish(db.jobs, work.id, v, Outbox.Superseded, None);
    case Cleaning(work) => CleanupFrame(db, PageName(work), work.epoch);
    case Deleting(work) =>
      var status := if MatchesDelete(db, work) then Outbox.Succeeded else Outbox.Superseded;
      assert Outbox.Owns(db.jobs, work.id, v) ==>
        Advance(db, v).jobs == Outbox.Finish(db.jobs, work.id, v, status, None);
    case _ =>
  }

  lemma AdvanceWorkers(db: Db, v: string, w: string)
    requires v != w
    ensures PhaseOf(Advance(db, v), w) == PhaseOf(db, w)
  {
    match PhaseOf(db, v)
    case Written(work) => CleanupFrame(FinishJob(db, work.id, v, Outbox.Superseded), PageName(work), work.epoch);
    case Doomed(work) => CleanupFrame(FinishJob(db, work.id, v, Outbox.Superseded), PageName(work), work.epoch);
    case Cleaning(work) => CleanupFrame(db, PageName(work), work.epoch);
    case _ =>
  }

  ghost predicate KeepsRag(before: Outbox.Jobs, after: Outbox.Jobs, w: string, id: string) {
    && (Outbox.Owns(after, id, w) ==> Outbox.Owns(before, id, w))
    && (id in before && before[id].target == Outbox.Rag ==> id in after && after[id].target == Outbox.Rag)
  }

  lemma OthersKeepJobs(db: Db, action: Action, w: string, id: string)
    requires !By(action, w) && id in db.jobs && db.jobs[id].target == Outbox.Rag
    ensures KeepsRag(db.jobs, Apply(db, action).jobs, w, id)
  {
    match action
    case ClaimJobs(v, rows, leaseSeconds, now) =>
      Outbox.StepRow(db.jobs, Outbox.ClaimStep(Outbox.Rag, v, rows, leaseSeconds, now), id);
    case Proceed(v) => AdvanceJobs(db, v);
    case OutboxAction(step) =>
      if Foreign(db, step) {
        Outbox.StepRow(db.jobs, step, id);
        ForeignKeepsOwner(db, step, id, w);
      }
    case _ =>
  }

  lemma OthersKeepPhase(db: Db, action: Action, w: string)
    requires !By(action, w)
    ensures PhaseOf(Apply(db, action), w) == PhaseOf(db, w)
  {
    if action.Proceed? {
      AdvanceWorkers(db, action.w, w);
    }
  }

  lemma {:induction false} OthersKeepWorkerAlong(db: Db, actions: seq<Action>, w: string, id: string)
    requires ByOthers(actions, w) && id in db.jobs && db.jobs[id].target == Outbox.Rag
    ensures PhaseOf(Run(db, actions), w) == PhaseOf(db, w)
    ensures Outbox.Owns(Run(db, actions).jobs, id, w) ==> Outbox.Owns(db.jobs, id, w)
    decreases |actions|
  {
    if actions != [] {
      OthersKeepPhase(db, actions[0], w);
      OthersKeepJobs(db, actions[0], w, id);
      OthersKeepWorkerAlong(Apply(db, actions[0]), actions[1..], w, id);
    }
  }

  lemma {:induction false} RunConcat(db: Db, a: seq<Action>, b: seq<Action>)
    ensures Run(db, a + b) == Run(Run(db, a), b)
    decreases |a|
  {
    if a == [] {
      assert a + b == b;
    } else {
      assert (a + b)[1..] == a[1..] + b;
      RunConcat(Apply(db, a[0]), a[1..], b);
    }
  }

  lemma RunThen(db: Db, actions: seq<Action>, action: Action)
    ensures Run(db, actions + [action]) == Apply(Run(db, actions), action)
  {
    RunConcat(db, actions, [action]);
  }

  lemma FullRowsGrow(p: string, r: string, e: nat, texts: seq<string>, index: nat)
    requires index < |texts|
    ensures FullRows(p, r, e, texts[..index + 1])
            == FullRows(p, r, e, texts[..index])[ChunkKey(p, r, e, index) := texts[index]]
  {
    var before := FullRows(p, r, e, texts[..index]);
    var after := FullRows(p, r, e, texts[..index + 1]);
    var key := ChunkKey(p, r, e, index);
    assert key == ChunkKey(p, r, e, index) && key in after;
    forall k ensures k in after <==> k in before[key := texts[index]] {
      if k in after {
        assert k == ChunkKey(p, r, e, k.index);
      }
    }
  }

  lemma AddRow(chunks: map<ChunkKey, string>, p: string, r: string, e: nat, texts: seq<string>, index: nat)
    requires index < |texts|
    ensures chunks + FullRows(p, r, e, texts[..index + 1])
            == (chunks + FullRows(p, r, e, texts[..index]))[ChunkKey(p, r, e, index) := texts[index]]
  {
    FullRowsGrow(p, r, e, texts, index);
  }

  datatype Outcome = Published | SupersededJob | LeaseLost

  class WikiRagProjector {
    var pages: map<string, Page>
    var revisions: map<string, Revision>
    var chunks: map<ChunkKey, string>
    var jobs: Outbox.Jobs
    var workers: map<string, Worker>

    function View(): Db
      reads this
    {
      Db(pages, revisions, chunks, jobs, workers)
    }

    constructor ()
      ensures View() == EMPTY && Inv(View())
    {
      pages, revisions, chunks, jobs, workers := map[], map[], map[], map[], map[];
    }

    method SetPhase(w: string, phase: Phase)
      modifies this`workers
      ensures View() == Move(old(View()), w, phase)
    {
      var queue := if w in workers then workers[w].queue else [];
      workers := workers[w := Worker(queue, phase)];
    }

    method LoadSnapshot(w: string, work: Work) returns (matches: bool)
      requires PhaseOf(View(), w) == Starting(work)
      modifies this`workers
      ensures View() == Apply(old(View()), Proceed(w))
      ensures matches <==> IsWanted(old(View()), work)
    {
      WantedMatches(View(), work);
      matches := false;
      if work.pageId.Some? && work.revisionId.Some? && work.pageId.value in pages {
        var page := pages[work.pageId.value];
        if page.current.Some? && page.current.value in revisions
          && revisions[page.current.value].pageId == work.pageId.value {
          matches := page.current == work.revisionId && page.epoch == work.epoch && page.lifecycle == Active;
        }
      }
      SetPhase(w, if matches then Loaded(work) else Doomed(work));
    }

    method WritePhysicalRows(w: string, work: Work)
      requires PhaseOf(View(), w) == Loaded(work)
      requires work.pageId.Some? && work.revisionId.Some? && work.revisionId.value in revisions
      modifies this`chunks, this`workers
      ensures View() == Apply(old(View()), Proceed(w))
    {
      InsertRows(work.pageId.value, work.revisionId.value, work.epoch, revisions[work.revisionId.value].chunks);
      SetPhase(w, Written(work));
    }

    method InsertRows(pageId: string, revisionId: string, epoch: nat, texts: seq<string>)
      modifies this`chunks
      ensures chunks == old(chunks) + FullRows(pageId, revisionId, epoch, texts)
    {
      var index := 0;
      while index < |texts|
        invariant 0 <= index <= |texts|
        invariant chunks == old(chunks) + FullRows(pageId, revisionId, epoch, texts[..index])
      {
        AddRow(old(chunks), pageId, revisionId, epoch, texts, index);
        chunks := chunks[ChunkKey(pageId, revisionId, epoch, index) := texts[index]];
        index := index + 1;
      }
      assert texts[..index] == texts;
    }

    method RemoveEpochRows(pageId: string, epoch: nat) returns (removed: bool)
      modifies this`chunks
      ensures View() == CleanupEpoch(old(View()), pageId, epoch)
      ensures VisibleRows(View()) == VisibleRows(old(View()))
      ensures removed <==> !EpochInUse(old(View()), pageId, epoch)
      ensures if removed then NoRows(View(), pageId, epoch) else chunks == old(chunks)
      ensures forall k :: k in old(chunks) && !(k.pageId == pageId && k.epoch == epoch) ==>
        k in chunks && chunks[k] == old(chunks)[k]
      ensures IsDead(View(), pageId, epoch) ==> NoRows(View(), pageId, epoch)
    {
      CleanupIsInvisible(View(), pageId, epoch);
      var currentEpoch := pageId in pages && pages[pageId].lifecycle == Active && pages[pageId].epoch == epoch;
      var visibleOwner := currentEpoch && pages[pageId].current.Some?
        && pages[pageId].visibleRevision == pages[pageId].current
        && (if pages[pageId].visibleEpoch.Some? then pages[pageId].visibleEpoch.value else 0) == epoch;
      var succeededOwner := currentEpoch && SucceededOwner(View(), pageId, epoch, pages[pageId].current);
      if visibleOwner || succeededOwner || RunningOwner(View(), pageId, epoch) {
        return false;
      }
      chunks := map k | k in chunks && !(k.pageId == pageId && k.epoch == epoch) :: chunks[k];
      return true;
    }

    method Finish(id: string, w: string, status: Outbox.Status) returns (ok: bool)
      requires Outbox.Terminal(status)
      modifies this`jobs
      ensures View() == FinishJob(old(View()), id, w, status)
      ensures ok <==> Outbox.Owns(old(jobs), id, w)
    {
      ok := Outbox.Owns(jobs, id, w);
      jobs := Outbox.Finish(jobs, id, w, status, None);
    }

    // If the epoch of the job is dead, its rows have gone.
    ghost predicate IsCleaned(work: Work)
      reads this
    {
      IsDead(View(), PageName(work), work.epoch) ==> NoRows(View(), PageName(work), work.epoch)
    }

    method PublishRows(w: string, work: Work) returns (outcome: Outcome)
      requires PhaseOf(View(), w) == Written(work)
      modifies this
      ensures View() == Apply(old(View()), Proceed(w))
      ensures outcome == if !Outbox.Owns(old(jobs), work.id, w) then LeaseLost
                         else if PageMatches(old(View()), work) then Published else SupersededJob
      ensures outcome == SupersededJob ==> IsCleaned(work)
    {
      if !Outbox.Owns(jobs, work.id, w) {
        SetPhase(w, Cleaning(work));
        return LeaseLost;
      }
      if !PageMatches(View(), work) {
        var ok := Finish(work.id, w, Outbox.Superseded);
        var removed := RemoveEpochRows(PageName(work), work.epoch);
        SetPhase(w, Idle);
        return SupersededJob;
      }
      var page := pages[work.pageId.value];
      pages := pages[work.pageId.value := page.(visibleRevision := work.revisionId, visibleEpoch := Some(work.epoch))];
      var ok := Finish(work.id, w, Outbox.Succeeded);
      SetPhase(w, Idle);
      return Published;
    }

    method GiveUp(w: string, work: Work) returns (outcome: Outcome)
      requires PhaseOf(View(), w) == Doomed(work)
      modifies this
      ensures View() == Apply(old(View()), Proceed(w))
      ensures outcome == if Outbox.Owns(old(jobs), work.id, w) then SupersededJob else LeaseLost
      ensures outcome == SupersededJob ==> IsCleaned(work)
    {
      var ok := Finish(work.id, w, Outbox.Superseded);
      if !ok {
        SetPhase(w, Cleaning(work));
        return LeaseLost;
      }
      var removed := RemoveEpochRows(PageName(work), work.epoch);
      SetPhase(w, Idle);
      return SupersededJob;
    }

    method CleanUp(w: string, work: Work)
      requires PhaseOf(View(), w) == Cleaning(work)
      modifies this
      ensures View() == Apply(old(View()), Proceed(w))
      ensures VisibleRows(View()) == VisibleRows(old(View()))
      ensures IsCleaned(work)
    {
      var removed := RemoveEpochRows(PageName(work), work.epoch);
      SetPhase(w, Idle);
    }

    method ProjectRagDelete(w: string, work: Work) returns (outcome: Outcome)
      requires PhaseOf(View(), w) == Deleting(work)
      modifies this
      ensures View() == Apply(old(View()), Proceed(w))
      ensures outcome == if !Outbox.Owns(old(jobs), work.id, w) then LeaseLost
                         else if MatchesDelete(old(View()), work) then Published else SupersededJob
      ensures outcome == Published <==>
        && (exists p :: work.pageId == Some(p) && p in old(pages) && old(pages)[p].lifecycle != Active
                        && old(pages)[p].epoch == work.epoch)
        && work.id in old(jobs) && old(jobs)[work.id].status == Outbox.Running
        && old(jobs)[work.id].leaseOwner == Some(w)
      ensures outcome == Published ==>
        && work.pageId.Some? && work.id in jobs && jobs[work.id].status == Outbox.Succeeded
        && (forall k :: k in chunks ==> k.pageId != work.pageId.value)
        && (forall k :: k in old(chunks) && k.pageId != work.pageId.value ==>
            k in chunks && chunks[k] == old(chunks)[k])
      ensures outcome == SupersededJob ==>
        work.id in jobs && jobs[work.id].status == Outbox.Superseded && chunks == old(chunks) && pages == old(pages)
      ensures outcome == LeaseLost ==> jobs == old(jobs) && chunks == old(chunks) && pages == old(pages)
    {
      if !Outbox.Owns(jobs, work.id, w) {
        SetPhase(w, Idle);
        return LeaseLost;
      }
      if !MatchesDelete(View(), work) {
        var ok := Finish(work.id, w, Outbox.Superseded);
        SetPhase(w, Idle);
        return SupersededJob;
      }
      var page := pages[work.pageId.value];
      pages := pages[work.pageId.value := page.(visibleRevision := None, visibleEpoch := None)];
      chunks := map k | k in chunks && k.pageId != work.pageId.value :: chunks[k];
      var ok := Finish(work.id, w, Outbox.Succeeded);
      SetPhase(w, Idle);
      return Published;
    }

    // What every other party commits between two transactions of this worker.
    method Interfere(actions: seq<Action>)
      modifies this
      ensures View() == Run(old(View()), actions)
    {
      var db := Run(View(), actions);
      pages, revisions, chunks, jobs, workers := db.pages, db.revisions, db.chunks, db.jobs, db.workers;
    }

    method Turn(w: string, id: string, actions: seq<Action>, ghost start: Db, ghost trace: seq<Action>)
      returns (ghost longer: seq<Action>)
      requires ByOthers(actions, w) && id in jobs && jobs[id].target == Outbox.Rag
      requires View() == Run(start, trace) && Inv(View())
      modifies this
      ensures View() == Run(start, longer) && Inv(View()) && longer == trace + actions
      ensures View() == Run(old(View()), actions)
      ensures PhaseOf(View(), w) == PhaseOf(old(View()), w)
      ensures Outbox.Owns(jobs, id, w) ==> Outbox.Owns(old(jobs), id, w)
    {
      RunConcat(start, trace, actions);
      OthersKeepWorkerAlong(View(), actions, w, id);
      RunKeepsInv(View(), actions);
      Interfere(actions);
      longer := trace + actions;
    }

    // The worker's next transaction, prepared: it is about to act in `phase`.
    ghost predicate Ready(start: Db, trace: seq<Action>, w: string, phase: Phase)
      reads this
    {
      View() == Run(start, trace) && Inv(View()) && PhaseOf(View(), w) == phase
    }

    // What an outcome means, in the state in which it is returned.
    ghost predicate Means(outcome: Outcome, w: string, work: Work)
      reads this
    {
      match outcome
      case Published =>
        && work.pageId.Some? && work.revisionId.Some? && work.revisionId.value in revisions
        && work.id in jobs && jobs[work.id].status == Outbox.Succeeded
        && VisibleRowsOf(View(), work.pageId.value)
           == FullRows(work.pageId.value, work.revisionId.value, work.epoch, revisions[work.revisionId.value].chunks)
      case SupersededJob => work.id in jobs && jobs[work.id].status == Outbox.Superseded
      case LeaseLost => !Outbox.Owns(jobs, work.id, w)
    }

    method ProjectDoomed(w: string, work: Work, others: seq<Action>, ghost start: Db, ghost before: seq<Action>)
      returns (outcome: Outcome, ghost trace: seq<Action>)
      requires Ready(start, before, w, Doomed(work)) && ByOthers(others, w)
      modifies this
      ensures Ready(start, trace, w, if outcome == LeaseLost then Cleaning(work) else Idle)
      ensures Means(outcome, w, work) && trace == before + others + [Proceed(w)]
      ensures outcome == DoomedOutcomeAt(Run(start, before + others), w, work)
      ensures outcome == SupersededJob ==> IsCleaned(work)
    {
      PhaseIsWork(View(), w);
      trace := Turn(w, work.id, others, start, before);
      PhaseIsWork(View(), w);
      Extend(start, trace, w);
      DoomedOutcome(View(), w, work);
      outcome := GiveUp(w, work);
      trace := trace + [Proceed(w)];
    }

    method ProjectLoaded(w: string, work: Work, others: seq<Action>, later: seq<Action>,
                         ghost start: Db, ghost before: seq<Action>)
      returns (outcome: Outcome, ghost trace: seq<Action>)
      requires Ready(start, before, w, Loaded(work)) && ByOthers(others, w) && ByOthers(later, w)
      modifies this
      ensures Ready(start, trace, w, if outcome == LeaseLost then Cleaning(work) else Idle)
      ensures Means(outcome, w, work) && trace == before + others + [Proceed(w)] + later + [Proceed(w)]
      ensures outcome == OutcomeAt(Run(start, before + others + [Proceed(w)] + later), w, work)
      ensures outcome == SupersededJob ==> IsCleaned(work)
    {
      PhaseIsWork(View(), w);
      trace := Turn(w, work.id, others, start, before);
      PhaseIsWork(View(), w);
      Extend(start, trace, w);
      WritePhysicalRows(w, work);
      trace := trace + [Proceed(w)];
      outcome, trace := ProjectWritten(w, work, later, start, trace);
    }

    method ProjectWritten(w: string, work: Work, others: seq<Action>, ghost start: Db, ghost before: seq<Action>)
      returns (outcome: Outcome, ghost trace: seq<Action>)
      requires Ready(start, before, w, Written(work)) && ByOthers(others, w)
      modifies this
      ensures Ready(start, trace, w, if outcome == LeaseLost then Cleaning(work) else Idle)
      ensures Means(outcome, w, work) && trace == before + others + [Proceed(w)]
      ensures outcome == OutcomeAt(Run(start, before + others), w, work)
      ensures outcome == SupersededJob ==> IsCleaned(work)
    {
      PhaseIsWork(View(), w);
      trace := Turn(w, work.id, others, start, before);
      Extend(start, trace, w);
      ghost var state := View();
      PhaseIsWork(state, w);
      WantedMatches(state, work);
      outcome := PublishRows(w, work);
      if outcome != LeaseLost {
        PublishOutcome(state, w, work);
      }
      trace := trace + [Proceed(w)];
    }

    method ProjectCleaning(w: string, work: Work, others: seq<Action>, ghost start: Db, ghost before: seq<Action>)
      returns (ghost trace: seq<Action>)
      requires Ready(start, before, w, Cleaning(work)) && ByOthers(others, w) && Means(LeaseLost, w, work)
      modifies this
      ensures Ready(start, trace, w, Idle) && Means(LeaseLost, w, work) && IsCleaned(work)
      ensures trace == before + others + [Proceed(w)]
    {
      PhaseIsWork(View(), w);
      trace := Turn(w, work.id, others, start, before);
      Extend(start, trace, w);
      CleanUp(w, work);
      trace := trace + [Proceed(w)];
    }

    method ProjectToOutcome(w: string, work: Work, others: seq<seq<Action>>)
      returns (outcome: Outcome, ghost trace: seq<Action>)
      requires Inv(View()) && PhaseOf(View(), w) == Starting(work)
      requires |others| == 4 && forall i :: 0 <= i < 4 ==> ByOthers(others[i], w)
      modifies this
      ensures Ready(old(View()), trace, w, if outcome == LeaseLost then Cleaning(work) else Idle)
      ensures Means(outcome, w, work)
      ensures trace == Interleaved(TurnsToOutcome(old(View()), work, others), w)
      ensures outcome == ProjectOutcome(old(View()), w, work, others)
      ensures outcome == SupersededJob ==> IsCleaned(work)
    {
      ghost var start := View();
      PhaseIsWork(View(), w);
      trace := Turn(w, work.id, others[0], start, []);
      Extend(start, trace, w);
      WantedMatches(View(), work);
      assert trace == [] + others[0] && [] + others[0] == others[0];
      var matches := LoadSnapshot(w, work);
      trace := trace + [Proceed(w)];
      if matches {
        outcome, trace := ProjectLoaded(w, work, others[1], others[2], start, trace);
        InterleavedThree(others[0], others[1], others[2], w);
      } else {
        outcome, trace := ProjectDoomed(w, work, others[1], start, trace);
        InterleavedTwo(others[0], others[1], w);
      }
    }

    /**
      One whole projection, with arbitrary transactions of all other parties before each of its own.  It is
      the run in which the worker's transactions alternate with the given ones of the others, and nothing
      else, so the results above hold for it; and its outcome means what it says.  A job that is wanted
      when the snapshot is loaded and when it is published, and that the worker then owns, is published; and
      if the job is not published, no row of its epoch is left behind once the epoch is dead.
     */
    method Project(w: string, work: Work, others: seq<seq<Action>>) returns (outcome: Outcome, ghost trace: seq<Action>)
      requires Inv(View()) && PhaseOf(View(), w) == Starting(work)
      requires |others| == 4 && forall i :: 0 <= i < 4 ==> ByOthers(others[i], w)
      modifies this
      ensures View() == Run(old(View()), trace) && Inv(View())
      ensures trace == Interleaved(Turns(old(View()), work, others, outcome), w)
      ensures PhaseOf(View(), w) == Idle
      ensures Means(outcome, w, work)
      ensures outcome == ProjectOutcome(old(View()), w, work, others)
      ensures outcome != Published ==> IsCleaned(work)
    {
      ghost var start := View();
      outcome, trace := ProjectToOutcome(w, work, others);
      if outcome == LeaseLost {
        trace := ProjectCleaning(w, work, others[3], start, trace);
        InterleavedOneMore(TurnsToOutcome(start, work, others), others[3], w);
      }
    }
  }

  /** Each turn of the others followed by the worker's next transaction. */
  function Interleaved(turns: seq<seq<Action>>, w: string): seq<Action> {
    if turns == [] then [] else Interleaved(turns[..|turns| - 1], w) + turns[|turns| - 1] + [Proceed(w)]
  }

  lemma InterleavedOneMore(turns: seq<seq<Action>>, turn: seq<Action>, w: string)
    ensures Interleaved(turns + [turn], w) == Interleaved(turns, w) + turn + [Proceed(w)]
  {
    assert (turns + [turn])[..|turns|] == turns;
  }

  lemma InterleavedTwo(a: seq<Action>, b: seq<Action>, w: string)
    ensures Interleaved([a, b], w) == [] + a + [Proceed(w)] + b + [Proceed(w)]
  {
    InterleavedOneMore([], a, w);
    InterleavedOneMore([a], b, w);
    assert [] + [a] == [a] && [a] + [b] == [a, b];
  }

  lemma InterleavedThree(a: seq<Action>, b: seq<Action>, c: seq<Action>, w: string)
    ensures Interleaved([a, b, c], w) == [] + a + [Proceed(w)] + b + [Proceed(w)] + c + [Proceed(w)]
  {
    InterleavedTwo(a, b, w);
    InterleavedOneMore([a, b], c, w);
    assert [a, b] + [c] == [a, b, c];
  }

  /** The turns of others before the transactions of a projection: a third when the snapshot matches. */
  function TurnsToOutcome(start: Db, work: Work, others: seq<seq<Action>>): seq<seq<Action>>
    requires |others| == 4
  {
    if SnapshotMatches(Run(start, others[0]), work) then [others[0], others[1], others[2]] else [others[0], others[1]]
  }

  /** The worker holds the job. */
  predicate Holds(db: Db, w: string, id: string) {
    id in db.jobs && db.jobs[id].status == Outbox.Running && db.jobs[id].leaseOwner == Some(w)
  }

  /** How a projection ends that is about to publish. */
  ghost function OutcomeAt(db: Db, w: string, work: Work): Outcome {
    if !Holds(db, w, work.id) then LeaseLost else if IsWanted(db, work) then Published else SupersededJob
  }

  /** How a projection ends that was not wanted when its snapshot was loaded. */
  function DoomedOutcomeAt(db: Db, w: string, work: Work): Outcome {
    if Holds(db, w, work.id) then SupersededJob else LeaseLost
  }

  /** The outcome, decided by what is wanted and held after the turns of the others. */
  ghost function ProjectOutcome(start: Db, w: string, work: Work, others: seq<seq<Action>>): Outcome
    requires |others| == 4
  {
    var loaded := others[0] + [Proceed(w)] + others[1];
    if IsWanted(Run(start, others[0]), work) then
      OutcomeAt(Run(start, loaded + [Proceed(w)] + others[2]), w, work)
    else DoomedOutcomeAt(Run(start, loaded), w, work)
  }

  /** And one more to clean up after a lost lease. */
  function Turns(start: Db, work: Work, others: seq<seq<Action>>, outcome: Outcome): seq<seq<Action>>
    requires |others| == 4
  {
    var turns := TurnsToOutcome(start, work, others);
    if outcome == LeaseLost then turns + [others[3]] else turns
  }

  lemma PhaseIsWork(db: Db, w: string)
    requires Inv(db)
    ensures PhaseOk(db, w, PhaseOf(db, w))
  {
    if w in db.workers {
      assert WorkerOk(db, w);
    }
  }

  lemma Extend(start: Db, trace: seq<Action>, w: string)
    requires Inv(Run(start, trace))
    ensures Run(start, trace + [Proceed(w)]) == Apply(Run(start, trace), Proceed(w))
    ensures Inv(Run(start, trace + [Proceed(w)]))
  {
    RunThen(start, trace, Proceed(w));
    ActionKeepsInv(Run(start, trace), Proceed(w));
  }

  lemma DoomedOutcome(db: Db, w: string, work: Work)
    requires PhaseOf(db, w) == Doomed(work) && work.id in db.jobs
    ensures var after := Apply(db, Proceed(w));
      && work.id in after.jobs
      && if Outbox.Owns(db.jobs, work.id, w) then
           PhaseOf(after, w) == Idle && after.jobs[work.id].status == Outbox.Superseded
         else PhaseOf(after, w) == Cleaning(work) && after.jobs == db.jobs
  {
  }

  lemma PublishOutcome(db: Db, w: string, work: Work)
    requires Inv(db) && PhaseOf(db, w) == Written(work) && Outbox.Owns(db.jobs, work.id, w)
    ensures var after := Apply(db, Proceed(w));
      if PageMatches(db, work) then
        && work.revisionId.value in db.revisions
        && after.revisions == db.revisions
        && work.id in after.jobs && after.jobs[work.id].status == Outbox.Succeeded
        && VisibleRowsOf(after, work.pageId.value)
           == FullRows(work.pageId.value, work.revisionId.value, work.epoch, db.revisions[work.revisionId.value].chunks)
      else
        && work.id in after.jobs && after.jobs[work.id].status == Outbox.Superseded
        && after.pages == db.pages
        && VisibleRows(after) == VisibleRows(db)
  {
    var after := Apply(db, Proceed(w));
    assert WorkerOk(db, w);
    if PageMatches(db, work) {
      ActionKeepsInv(db, Proceed(w));
      VisibleRowsByInv(after, work.pageId.value);
    } else {
      CleanupIsInvisible(FinishJob(db, work.id, w, Outbox.Superseded), PageName(work), work.epoch);
    }
  }
}
