/**
  Attributing the results of a remote GBrain batch to pages, mappings, jobs and protections.

  A batch is executed segment by segment; each page result and each reported deletion is attributed in a
  transaction of its own, which commits or leaves no trace.  Between transactions other processes may change
  pages, jobs and batches in any way.  A remote result is an arbitrary value.
 */
module Attribution {
  import opened Options
  import Outbox
  import Rag = RagProjection

  /** A page with the hashes of its current revision. */
  datatype Page = Page(
    path: string,
    lifecycle: Rag.Lifecycle,
    revision: Option<string>,
    epoch: nat,
    fileHash: Option<string>,
    semanticHash: Option<string>
  )

  datatype MappingStatus = Current | Stale | Deleted

  /** A row of the mapping table: the remote document (source, slug) shows a revision of a page. */
  datatype Mapping = Mapping(
    page: string,
    revision: string,
    epoch: nat,
    path: string,
    fileHash: string,
    semanticHash: string,
    source: string,
    slug: string,
    sourcePath: string,
    contentHash: string,
    generation: int,
    status: MappingStatus,
    importedAt: Option<int>,
    invalidatedAt: Option<int>,
    lastJob: string
  )

  type Mappings = map<string, Mapping>

  datatype ProtectedMapping = ProtectedMapping(
    source: string, slug: Option<string>, sourcePath: Option<string>, reason: string)

  /** A row of the protection table. */
  datatype Protection = Protection(mapping: ProtectedMapping, page: Option<string>, active: bool)

  datatype Member = Member(job: string, page: Option<string>, operation: string)

  /** A batch: the worker it runs under, the workers of its running segments, and its member jobs. */
  datatype Batch = Batch(runner: Option<string>, segments: map<string, string>, members: seq<Member>)

  datatype State = State(
    mappings: Mappings,
    generation: nat,
    pages: map<string, Page>,
    jobs: Outbox.Jobs,
    batches: map<string, Batch>,
    protections: seq<Protection>
  )

  datatype ExpectedPage = ExpectedPage(page: string, revision: string, epoch: nat, path: string, fileHash: string)

  datatype PageResult = PageResult(
    source: string,
    slug: Option<string>,
    sourcePath: string,
    contentHash: Option<string>,
    generation: Option<int>,
    protected: seq<ProtectedMapping>,
    superseded: bool,
    error: string
  )

  datatype MappingSnapshot = MappingSnapshot(id: string, row: Mapping)

  datatype JobSnapshot = JobSnapshot(
    id: string, page: Option<string>, revision: Option<string>, epoch: nat, operation: string)

  datatype Snapshot = Snapshot(mappings: seq<MappingSnapshot>, jobs: seq<JobSnapshot>)

  datatype Deletion = Deletion(source: string, slug: string)

  /** Who attributes: a worker, for a segment of a batch, with the ids it would give to new rows. */
  datatype Call = Call(
    batch: string, segment: string, worker: string, source: string, newMapping: string, newJob: string, now: int)

  // ---------- Guards ----------

  predicate Runs(st: State, call: Call) {
    && call.batch in st.batches
    && st.batches[call.batch].runner == Some(call.worker)
    && call.segment in st.batches[call.batch].segments
    && st.batches[call.batch].segments[call.segment] == call.worker
  }

  predicate AllOwned(jobs: Outbox.Jobs, ids: seq<string>, worker: string) {
    forall i :: 0 <= i < |ids| ==> Outbox.Owns(jobs, ids[i], worker)
  }

  function PageOf(st: State, id: string): Option<Page> {
    if id in st.pages then Some(st.pages[id]) else None
  }

  predicate Gone(page: Option<Page>) {
    page.Some? && !page.value.lifecycle.Active?
  }

  predicate MatchesExpected(page: Option<Page>, expected: ExpectedPage) {
    && page.Some? && page.value.lifecycle.Active?
    && page.value.revision == Some(expected.revision)
    && page.value.epoch == expected.epoch
    && page.value.fileHash == Some(expected.fileHash)
    && page.value.semanticHash.Some? && page.value.semanticHash.value != ""
  }

  predicate MatchesDeleteJob(page: Option<Page>, job: Outbox.Job) {
    && Gone(page) && page.value.epoch == job.epoch
    && (job.revisionId == None || page.value.revision == job.revisionId)
  }

  predicate JobMatchesSnapshot(id: string, job: Outbox.Job, snapshot: JobSnapshot) {
    && snapshot.id == id && snapshot.page == job.pageId && snapshot.revision == job.revisionId
    && snapshot.epoch == job.epoch && snapshot.operation == job.operation
  }

  predicate OnPage(operation: string) {
    operation in {"upsert", "rename", "restore"}
  }

  function PageJobs(st: State, members: seq<Member>, page: string): (ids: seq<string>)
    ensures forall id :: id in ids ==>
              id in st.jobs && exists m :: m in members && m.job == id && m.page == Some(page) && OnPage(m.operation)
  {
    if members == [] then []
    else
      var m := members[|members| - 1];
      PageJobs(st, members[..|members| - 1], page)
      + if m.page == Some(page) && OnPage(m.operation) && m.job in st.jobs then [m.job] else []
  }

  function DeleteJobs(st: State, members: seq<Member>, pages: set<string>): (ids: seq<string>)
    ensures forall id :: id in ids ==> id in st.jobs && st.jobs[id].pageId.Some? && st.jobs[id].pageId.value in pages
    ensures forall id :: id in ids ==> exists m :: m in members && m.job == id && m.operation == "delete"
  {
    if members == [] then []
    else
      var m := members[|members| - 1];
      DeleteJobs(st, members[..|members| - 1], pages)
      + if m.operation == "delete" && m.job in st.jobs && st.jobs[m.job].pageId.Some?
           && st.jobs[m.job].pageId.value in pages then [m.job] else []
  }

  // ---------- Effects on each table ----------

  /** Ends the jobs one by one; None when one of them is not the worker's. */
  function FinishAll(jobs: Outbox.Jobs, ids: seq<string>, n: nat, worker: string, status: Outbox.Status):
      Option<Outbox.Jobs>
    requires n <= |ids|
  {
    if n == 0 then Some(jobs)
    else
      match FinishAll(jobs, ids, n - 1, worker, status)
      case None => None
      case Some(before) =>
        if Outbox.Owns(before, ids[n - 1], worker) then Some(Outbox.Finish(before, ids[n - 1], worker, status, None))
        else None
  }

  function Text(value: Option<string>): string {
    if value.Some? then value.value else ""
  }

  predicate Persisted(rows: seq<Protection>, mapping: ProtectedMapping, page: Option<string>) {
    exists i :: 0 <= i < |rows| && rows[i].active && rows[i].page == page && rows[i].mapping.source == mapping.source
      && Text(rows[i].mapping.slug) == Text(mapping.slug)
        && Text(rows[i].mapping.sourcePath) == Text(mapping.sourcePath)
      && rows[i].mapping.reason == mapping.reason
  }

  function Persist(rows: seq<Protection>, mappings: seq<ProtectedMapping>, n: nat, page: Option<string>):
      seq<Protection>
    requires n <= |mappings|
  {
    if n == 0 then rows
    else
      var before := Persist(rows, mappings, n - 1, page);
      if Persisted(before, mappings[n - 1], page) then before else before + [Protection(mappings[n - 1], page, true)]
  }

  function PersistOne(rows: seq<Protection>, mapping: ProtectedMapping, page: Option<string>): seq<Protection> {
    if Persisted(rows, mapping, page) then rows else rows + [Protection(mapping, page, true)]
  }

  predicate Covers(row: Protection, source: string, page: string, slug: string, sourcePath: string) {
    && row.active && row.mapping.source == source && row.page == Some(page)
    && (row.mapping.slug == Some(slug) || row.mapping.sourcePath == Some(sourcePath))
  }

  function Release(rows: seq<Protection>, source: string, page: string, slug: string, sourcePath: string):
      (after: seq<Protection>)
    ensures |after| == |rows|
    ensures forall i :: 0 <= i < |rows| ==>
              after[i] == if Covers(rows[i], source, page, slug, sourcePath) then rows[i].(active := false) else rows[i]
  {
    seq(|rows|, i requires 0 <= i < |rows| =>
      if Covers(rows[i], source, page, slug, sourcePath) then rows[i].(active := false) else rows[i])
  }

  function EnqueueCurrent(st: State, page: string, newJob: string, now: int): State {
    if page !in st.pages || !st.pages[page].lifecycle.Active? || Text(st.pages[page].revision) == "" then st
    else
      st.(jobs := Outbox.Insert(st.jobs, newJob,
                                Outbox.NewJob(Outbox.GBrain, "upsert", Some(page), st.pages[page].revision,
                                              st.pages[page].epoch, now)))
  }

  predicate InSlot(row: Mapping, source: string, slug: string) {
    row.source == source && row.slug == slug
  }

  function StaleOthers(mappings: Mappings, source: string, page: string, slug: string, now: int): Mappings {
    map id | id in mappings ::
      if mappings[id].source == source && mappings[id].page == page && mappings[id].status == Current
         && mappings[id].slug != slug
      then mappings[id].(status := Stale, invalidatedAt := Some(now))
      else mappings[id]
  }

  predicate SlotTaken(mappings: Mappings, source: string, slug: string) {
    exists id :: id in mappings && InSlot(mappings[id], source, slug)
  }

  // INSERT .. ON CONFLICT(gbrain_source_id, slug) DO UPDATE.
  function Upsert(mappings: Mappings, newId: string, row: Mapping): Mappings {
    if SlotTaken(mappings, row.source, row.slug) then
      map id | id in mappings :: if InSlot(mappings[id], row.source, row.slug) then row else mappings[id]
    else mappings[newId := row]
  }

  predicate Unchanged(mappings: Mappings, snapshot: MappingSnapshot) {
    snapshot.id in mappings && mappings[snapshot.id] == snapshot.row
  }

  /** Sets the status of the snapshot's rows; None when one of them is no longer as it was. */
  function SetStatus(mappings: Mappings, rows: seq<MappingSnapshot>, n: nat, status: MappingStatus, now: int):
      Option<Mappings>
    requires n <= |rows|
  {
    if n == 0 then Some(mappings)
    else
      match SetStatus(mappings, rows, n - 1, status, now)
      case None => None
      case Some(before) =>
        if Unchanged(before, rows[n - 1]) then
          Some(before[rows[n - 1].id := rows[n - 1].row.(status := status, invalidatedAt := Some(now))])
        else None
  }

  // ---------- The transactions ----------

  function Supersede(st: State, call: Call, ids: seq<string>, page: string): Option<State> {
    match FinishAll(st.jobs, ids, |ids|, call.worker, Outbox.Superseded)
    case None => None
    case Some(jobs) => Some(EnqueueCurrent(st.(jobs := jobs), page, call.newJob, call.now))
  }

  function FailPage(st: State, call: Call, ids: seq<string>, page: string, result: PageResult, reason: string):
      Option<State> {
    var protection := ProtectedMapping(result.source, result.slug, Some(result.sourcePath), reason);
    match FinishAll(st.jobs, ids, |ids|, call.worker, Outbox.Failed)
    case None => None
    case Some(jobs) => Some(st.(jobs := jobs, protections := PersistOne(st.protections, protection, Some(page))))
  }

  predicate Identified(result: PageResult) {
    Text(result.slug) != "" && Text(result.contentHash) != "" && result.generation.Some?
  }

  predicate OccupiedByOther(mappings: Mappings, source: string, slug: string, page: string) {
    exists id :: id in mappings && InSlot(mappings[id], source, slug) && mappings[id].status != Deleted
                 && mappings[id].page != page
  }

  /** All the page's jobs want the expected revision at the expected epoch. */
  predicate Wanted(jobs: Outbox.Jobs, ids: seq<string>, expected: ExpectedPage) {
    forall i :: 0 <= i < |ids| && ids[i] in jobs ==>
      && jobs[ids[i]].pageId == Some(expected.page) && jobs[ids[i]].revisionId == Some(expected.revision)
      && jobs[ids[i]].epoch == expected.epoch
  }

  function NewRow(call: Call, page: Page, expected: ExpectedPage, result: PageResult, lastJob: string): Mapping
    requires Identified(result)
  {
    Mapping(expected.page, expected.revision, expected.epoch, page.path, expected.fileHash, Text(page.semanticHash),
            call.source, result.slug.value, result.sourcePath, result.contentHash.value, result.generation.value,
            Current, Some(call.now), None, lastJob)
  }

  function WriteMapping(st: State, call: Call, ids: seq<string>, page: Page, expected: ExpectedPage,
      result: PageResult):
      Option<State>
    requires Identified(result)
  {
    var row := NewRow(call, page, expected, result, if ids == [] then call.batch else ids[|ids| - 1]);
    var others := StaleOthers(st.mappings, call.source, expected.page, row.slug, call.now);
    match FinishAll(st.jobs, ids, |ids|, call.worker, Outbox.Succeeded)
    case None => None
    case Some(jobs) =>
      if call.newMapping in others && !SlotTaken(others, row.source, row.slug) then None
      else
        Some(st.(mappings := Upsert(others, call.newMapping, row),
                 generation := st.generation + 1,
                 jobs := jobs,
                 protections := Release(st.protections, call.source, expected.page, row.slug, row.sourcePath)))
  }

  /** What becomes of a page result that says imported or skipped. */
  datatype Branch = Moved | Refused(reason: string) | Written

  function PageBranch(st: State, ids: seq<string>, source: string, expected: ExpectedPage, result: PageResult): Branch {
    if !MatchesExpected(PageOf(st, expected.page), expected) then Moved
    else if !Identified(result) then Refused("GBrain page result omitted mapping identity")
    else if OccupiedByOther(st.mappings, source, result.slug.value, expected.page) then
      Refused("ambiguous GBrain slug attribution")
    else if !Wanted(st.jobs, ids, expected) then Refused("ambiguous GBrain page job attribution")
    else Written
  }

  function AttributePage(st: State, call: Call, ids: seq<string>, expected: ExpectedPage, result: PageResult):
      Option<State>
  {
    match PageBranch(st, ids, call.source, expected, result)
    case Moved => Supersede(st, call, ids, expected.page)
    case Refused(reason) => FailPage(st, call, ids, expected.page, result, reason)
    case Written => WriteMapping(st, call, ids, PageOf(st, expected.page).value, expected, result)
  }

  /** A page result that says imported or skipped. */
  function PageSuccess(st: State, call: Call, expected: ExpectedPage, result: PageResult): Option<State> {
    if !Runs(st, call) then None
    else
      var ids := PageJobs(st, st.batches[call.batch].members, expected.page);
      if !AllOwned(st.jobs, ids, call.worker) then None
      else
        var rows := Persist(st.protections, result.protected, |result.protected|, Some(expected.page));
        AttributePage(st.(protections := rows), call, ids, expected, result)
  }

  /** Any other page result. */
  function PageFailure(st: State, call: Call, expected: ExpectedPage, result: PageResult): Option<State> {
    if !Runs(st, call) then None
    else
      var ids := PageJobs(st, st.batches[call.batch].members, expected.page);
      if !AllOwned(st.jobs, ids, call.worker) then None
      else
        var protections := if result.protected != [] then result.protected
                           else [ProtectedMapping(result.source, result.slug, Some(result.sourcePath), result.error)];
        var stale := !MatchesExpected(PageOf(st, expected.page), expected) || result.superseded;
        match FinishAll(st.jobs, ids, |ids|, call.worker, if stale then Outbox.Superseded else Outbox.Failed)
        case None => None
        case Some(jobs) =>
          var kept := st.(jobs := jobs,
                          protections := Persist(st.protections, protections, |protections|, Some(expected.page)));
          Some(if stale then EnqueueCurrent(kept, expected.page, call.newJob, call.now) else kept)
  }

  function Candidates(rows: seq<MappingSnapshot>, deletion: Deletion): (found: seq<MappingSnapshot>)
    ensures forall snapshot :: snapshot in found ==>
        snapshot in rows && InSlot(snapshot.row, deletion.source, deletion.slug)
  {
    if rows == [] then []
    else
      var last := rows[|rows| - 1];
      Candidates(rows[..|rows| - 1], deletion)
      + if InSlot(last.row, deletion.source, deletion.slug) then [last] else []
  }

  function PagesOf(rows: seq<MappingSnapshot>): set<string> {
    set snapshot | snapshot in rows :: snapshot.row.page
  }

  function JobMatches(id: string, job: Outbox.Job, snapshots: seq<JobSnapshot>): nat {
    if snapshots == [] then 0
    else
      JobMatches(id, job, snapshots[..|snapshots| - 1])
      + if JobMatchesSnapshot(id, job, snapshots[|snapshots| - 1]) then 1 else 0
  }

  predicate SnapshotsMatch(jobs: Outbox.Jobs, ids: seq<string>, snapshots: seq<JobSnapshot>) {
    forall i :: 0 <= i < |ids| && ids[i] in jobs ==> JobMatches(ids[i], jobs[ids[i]], snapshots) == 1
  }

  /** The one mapping a deletion speaks of is marked deleted, and its page's delete job, if any, is done. */
  function MarkDeleted(st: State, call: Call, owners: seq<string>, candidate: MappingSnapshot, deletion: Deletion):
      Option<State> {
    match (SetStatus(st.mappings, [candidate], 1, Deleted, call.now),
           FinishAll(st.jobs, owners, |owners|, call.worker, Outbox.Succeeded))
    case (Some(mappings), Some(jobs)) =>
      var protections :=
        if owners != [] && owners[0] in st.jobs && st.jobs[owners[0]].pageId.Some? then
          Release(st.protections, deletion.source, st.jobs[owners[0]].pageId.value, deletion.slug,
            candidate.row.sourcePath)
        else st.protections;
      Some(st.(mappings := mappings, generation := st.generation + 1, jobs := jobs, protections := protections))
    case _ => None
  }

  /** Several mappings or several jobs fit: all of them are left for repair. */
  function MarkAmbiguous(st: State, call: Call, owners: seq<string>, candidates: seq<MappingSnapshot>,
      deletion: Deletion):
      Option<State>
    requires candidates != []
  {
    var protection := ProtectedMapping(deletion.source, Some(deletion.slug), Some(candidates[0].row.sourcePath),
                                       "ambiguous GBrain delete attribution");
    match (SetStatus(st.mappings, candidates, |candidates|, Stale, call.now),
           FinishAll(st.jobs, owners, |owners|, call.worker, Outbox.Failed))
    case (Some(mappings), Some(jobs)) =>
      Some(st.(mappings := mappings, generation := st.generation + 1, jobs := jobs,
               protections := PersistOne(st.protections, protection, Some(candidates[0].row.page))))
    case _ => None
  }

  function DeleteCandidates(st: State, call: Call, owners: seq<string>, candidates: seq<MappingSnapshot>,
      deletion: Deletion):
      Option<State>
    requires forall id :: id in owners ==> id in st.jobs
  {
    if candidates == [] then Some(st)
    else if |candidates| == 1 && |owners| <= 1 then
      var page := PageOf(st, candidates[0].row.page);
      if owners != [] && !MatchesDeleteJob(page, st.jobs[owners[0]]) then
        Supersede(st, call, owners, candidates[0].row.page)
      else if owners == [] && !Gone(page) then
        Some(EnqueueCurrent(st, candidates[0].row.page, call.newJob, call.now))
      else MarkDeleted(st, call, owners, candidates[0], deletion)
    else MarkAmbiguous(st, call, owners, candidates, deletion)
  }

  /** One reported deletion. */
  function AttributeDeletion(st: State, call: Call, snapshot: Snapshot, deletion: Deletion): Option<State> {
    if !Runs(st, call) then None
    else
      var candidates := Candidates(snapshot.mappings, deletion);
      var owners := DeleteJobs(st, st.batches[call.batch].members, PagesOf(candidates));
      if !AllOwned(st.jobs, owners, call.worker) || !SnapshotsMatch(st.jobs, owners, snapshot.jobs) then None
      else DeleteCandidates(st, call, owners, candidates, deletion)
  }

  /** Protections reported for a whole segment. */
  function ProtectSegment(st: State, call: Call, protections: seq<ProtectedMapping>, jobs: seq<string>): Option<State> {
    if protections == [] then Some(st)
    else if !Runs(st, call) || !AllOwned(st.jobs, jobs, call.worker) then None
    else Some(st.(protections := Persist(st.protections, protections, |protections|, None)))
  }

  datatype Step =
    | PageSuccessStep(call: Call, expected: ExpectedPage, result: PageResult)
    | PageFailureStep(call: Call, expected: ExpectedPage, result: PageResult)
    | DeletionStep(call: Call, snapshot: Snapshot, deletion: Deletion)
    | ProtectStep(call: Call, protections: seq<ProtectedMapping>, jobs: seq<string>)
    | OutboxStep(step: Outbox.Step)
    | PageStep(pageId: string, page: Page)
    | BatchStep(batchId: string, batch: Batch)

  function Try(st: State, s: Step): Option<State> {
    match s
    case PageSuccessStep(call, expected, result) => PageSuccess(st, call, expected, result)
    case PageFailureStep(call, expected, result) => PageFailure(st, call, expected, result)
    case DeletionStep(call, snapshot, deletion) => AttributeDeletion(st, call, snapshot, deletion)
    case ProtectStep(call, protections, jobs) => ProtectSegment(st, call, protections, jobs)
    case OutboxStep(step) => Some(st.(jobs := Outbox.Apply(st.jobs, step)))
    case PageStep(id, page) => Some(st.(pages := st.pages[id := page]))
    case BatchStep(id, batch) => Some(st.(batches := st.batches[id := batch]))
  }

  /** A transaction that cannot go through leaves no trace. */
  function Apply(st: State, s: Step): State {
    match Try(st, s)
    case None => st
    case Some(after) => after
  }

  function Run(st: State, steps: seq<Step>): State
    decreases |steps|
  {
    if steps == [] then st else Run(Apply(st, steps[0]), steps[1..])
  }

  // ---------- The mapping table over every run ----------

  predicate SameDocument(a: Mapping, b: Mapping) {
    a.source == b.source && a.slug == b.slug
  }

  predicate BothCurrent(a: Mapping, b: Mapping) {
    a.status == Current && b.status == Current && a.source == b.source && a.page == b.page
  }

  /** One row per remote document, and at most one current row per page of a source. */
  ghost predicate Unique(mappings: Mappings) {
    && (forall i, j :: i in mappings && j in mappings && SameDocument(mappings[i], mappings[j]) ==> i == j)
    && (forall i, j :: i in mappings && j in mappings && BothCurrent(mappings[i], mappings[j]) ==> i == j)
  }

  /** What a transaction may do to a row: it keeps its document, and its page unless it was deleted before. */
  predicate RowMove(a: Mapping, b: Mapping, pages: map<string, Page>) {
    && a.source == b.source && a.slug == b.slug
    && (a.status != Deleted ==> a.page == b.page)
    && (b.status == Deleted && a.status != Deleted ==> b.page in pages && !pages[b.page].lifecycle.Active?)
  }

  ghost predicate TableMove(a: Mappings, b: Mappings, pages: map<string, Page>) {
    && (forall id :: id in a ==> id in b && RowMove(a[id], b[id], pages))
    && (forall id :: id in b && id !in a ==> b[id].status == Current)
  }

  // What writing `row` makes of a row that is there.
  function Rewritten(was: Mapping, row: Mapping, now: int): Mapping {
    if SameDocument(was, row) then row
    else if BothCurrent(was, row) then was.(status := Stale, invalidatedAt := Some(now))
    else was
  }

  lemma StaleOthersKeepSlots(mappings: Mappings, source: string, page: string, slug: string, now: int)
    ensures var others := StaleOthers(mappings, source, page, slug, now);
            others.Keys == mappings.Keys && (SlotTaken(others, source, slug) <==> SlotTaken(mappings, source, slug))
  {
    var others := StaleOthers(mappings, source, page, slug, now);
    if SlotTaken(mappings, source, slug) {
      var id :| id in mappings && InSlot(mappings[id], source, slug);
      assert InSlot(others[id], source, slug);
    }
    if SlotTaken(others, source, slug) {
      var id :| id in others && InSlot(others[id], source, slug);
      assert InSlot(mappings[id], source, slug);
    }
  }

  lemma UpsertRewrites(mappings: Mappings, newId: string, row: Mapping, now: int)
    requires row.status == Current && (newId in mappings ==> SlotTaken(mappings, row.source, row.slug))
    ensures var others := StaleOthers(mappings, row.source, row.page, row.slug, now);
            var after := Upsert(others, newId, row);
            && (forall id :: id in mappings ==> id in after && after[id] == Rewritten(mappings[id], row, now))
            && (forall id :: id in after && id !in mappings ==>
                  id == newId && after[id] == row
                  && forall other :: other in mappings ==> !SameDocument(mappings[other], row))
  {
    StaleOthersKeepSlots(mappings, row.source, row.page, row.slug, now);
    if !SlotTaken(mappings, row.source, row.slug) {
      assert forall id :: id in mappings ==> !InSlot(mappings[id], row.source, row.slug);
    }
  }

  lemma UpsertKeepsUnique(mappings: Mappings, newId: string, row: Mapping, now: int)
    requires Unique(mappings) && row.status == Current
    requires newId in mappings ==> SlotTaken(mappings, row.source, row.slug)
    ensures Unique(Upsert(StaleOthers(mappings, row.source, row.page, row.slug, now), newId, row))
  {
    UpsertRewrites(mappings, newId, row, now);
    var after := Upsert(StaleOthers(mappings, row.source, row.page, row.slug, now), newId, row);
    forall i, j | i in after && j in after && (SameDocument(after[i], after[j]) || BothCurrent(after[i], after[j]))
      ensures i == j
    {
      if i in mappings && j in mappings {
        RewrittenPair(mappings, row, now, i, j);
      }
    }
  }

  lemma RewrittenPair(mappings: Mappings, row: Mapping, now: int, i: string, j: string)
    requires Unique(mappings) && row.status == Current && i in mappings && j in mappings
    requires var a, b := Rewritten(mappings[i], row, now), Rewritten(mappings[j], row, now);
             SameDocument(a, b) || BothCurrent(a, b)
    ensures i == j
  {
    if SameDocument(mappings[i], row) && SameDocument(mappings[j], row) {
      assert SameDocument(mappings[i], mappings[j]);
    } else if SameDocument(mappings[i], mappings[j]) {
    } else {
      assert BothCurrent(mappings[i], mappings[j]);
    }
  }

  lemma UpsertMoves(mappings: Mappings, newId: string, row: Mapping, now: int, pages: map<string, Page>)
    requires row.status == Current && !OccupiedByOther(mappings, row.source, row.slug, row.page)
    requires newId in mappings ==> SlotTaken(mappings, row.source, row.slug)
    ensures TableMove(mappings, Upsert(StaleOthers(mappings, row.source, row.page, row.slug, now), newId, row), pages)
  {
    UpsertRewrites(mappings, newId, row, now);
    forall id | id in mappings ensures RowMove(mappings[id], Rewritten(mappings[id], row, now), pages) {
      if InSlot(mappings[id], row.source, row.slug) && mappings[id].status != Deleted {
        assert mappings[id].page == row.page;
      }
    }
  }

  lemma SetOneKeepsUnique(mappings: Mappings, id: string, status: MappingStatus, now: int)
    requires Unique(mappings) && id in mappings && status != Current
    ensures Unique(mappings[id := mappings[id].(status := status, invalidatedAt := Some(now))])
  {
    var after := mappings[id := mappings[id].(status := status, invalidatedAt := Some(now))];
    forall i, j | i in after && j in after && (SameDocument(after[i], after[j]) || BothCurrent(after[i], after[j]))
      ensures i == j
    {
      assert SameDocument(mappings[i], mappings[j]) || BothCurrent(mappings[i], mappings[j]);
    }
  }

  lemma {:induction false} SetStatusKeepsUnique(
      mappings: Mappings, rows: seq<MappingSnapshot>, n: nat, status: MappingStatus, now: int, pages: map<string, Page>)
    requires n <= |rows| && Unique(mappings) && status != Current && SetStatus(mappings, rows, n, status, now).Some?
    requires status == Deleted ==> forall i :: 0 <= i < n ==>
        rows[i].row.page in pages && !pages[rows[i].row.page].lifecycle.Active?
    ensures Unique(SetStatus(mappings, rows, n, status, now).value)
    ensures TableMove(mappings, SetStatus(mappings, rows, n, status, now).value, pages)
    ensures n > 0 ==> SetStatus(mappings, rows, n, status, now).value.Keys == mappings.Keys
  {
    if n > 0 {
      SetStatusKeepsUnique(mappings, rows, n - 1, status, now, pages);
      SetOneKeepsUnique(SetStatus(mappings, rows, n - 1, status, now).value, rows[n - 1].id, status, now);
    }
  }

  /** A transaction on the mapping table raises the generation by one; any other leaves both alone. */
  ghost predicate Move(a: State, b: State) {
    && TableMove(a.mappings, b.mappings, a.pages)
    && (b.generation == a.generation + 1 || (b.generation == a.generation && b.mappings == a.mappings))
  }

  /** Mappings stay unique, and change only together with the generation. */
  ghost predicate Kept(a: State, after: Option<State>) {
    after.Some? ==> Unique(after.value.mappings) && Move(a, after.value)
  }

  lemma StayingMoves(a: State, b: State)
    requires Unique(a.mappings) && b.mappings == a.mappings && b.generation == a.generation
    ensures Kept(a, Some(b))
  {
  }

  lemma WriteMappingKeeps(st: State, call: Call, ids: seq<string>, page: Page, expected: ExpectedPage,
      result: PageResult)
    requires Unique(st.mappings) && Identified(result)
    requires !OccupiedByOther(st.mappings, call.source, result.slug.value, expected.page)
    ensures Kept(st, WriteMapping(st, call, ids, page, expected, result))
  {
    var row := NewRow(call, page, expected, result, if ids == [] then call.batch else ids[|ids| - 1]);
    var others := StaleOthers(st.mappings, call.source, expected.page, row.slug, call.now);
    if WriteMapping(st, call, ids, page, expected, result).Some? {
      StaleOthersKeepSlots(st.mappings, call.source, expected.page, row.slug, call.now);
      UpsertKeepsUnique(st.mappings, call.newMapping, row, call.now);
      UpsertMoves(st.mappings, call.newMapping, row, call.now, st.pages);
    }
  }

  lemma SupersedeKeeps(st: State, call: Call, ids: seq<string>, page: string)
    requires Unique(st.mappings)
    ensures Kept(st, Supersede(st, call, ids, page))
  {
    if Supersede(st, call, ids, page).Some? {
      StayingMoves(st, Supersede(st, call, ids, page).value);
    }
  }

  lemma FailPageKeeps(st: State, call: Call, ids: seq<string>, page: string, result: PageResult, reason: string)
    requires Unique(st.mappings)
    ensures Kept(st, FailPage(st, call, ids, page, result, reason))
  {
    if FailPage(st, call, ids, page, result, reason).Some? {
      StayingMoves(st, FailPage(st, call, ids, page, result, reason).value);
    }
  }

  lemma AttributePageKeeps(st: State, call: Call, ids: seq<string>, expected: ExpectedPage, result: PageResult)
    requires Unique(st.mappings)
    ensures Kept(st, AttributePage(st, call, ids, expected, result))
  {
    match PageBranch(st, ids, call.source, expected, result)
    case Moved => SupersedeKeeps(st, call, ids, expected.page);
    case Refused(reason) => FailPageKeeps(st, call, ids, expected.page, result, reason);
    case Written => WriteMappingKeeps(st, call, ids, PageOf(st, expected.page).value, expected, result);
  }

  lemma MarkDeletedKeeps(st: State, call: Call, owners: seq<string>, candidate: MappingSnapshot, deletion: Deletion)
    requires Unique(st.mappings) && Gone(PageOf(st, candidate.row.page))
    ensures Kept(st, MarkDeleted(st, call, owners, candidate, deletion))
  {
    if SetStatus(st.mappings, [candidate], 1, Deleted, call.now).Some? {
      SetStatusKeepsUnique(st.mappings, [candidate], 1, Deleted, call.now, st.pages);
    }
  }

  lemma MarkAmbiguousKeeps(st: State, call: Call, owners: seq<string>, candidates: seq<MappingSnapshot>,
      deletion: Deletion)
    requires Unique(st.mappings) && candidates != []
    ensures Kept(st, MarkAmbiguous(st, call, owners, candidates, deletion))
  {
    if SetStatus(st.mappings, candidates, |candidates|, Stale, call.now).Some? {
      SetStatusKeepsUnique(st.mappings, candidates, |candidates|, Stale, call.now, st.pages);
    }
  }

  lemma DeleteCandidatesKeeps(
      st: State, call: Call, owners: seq<string>, candidates: seq<MappingSnapshot>, deletion: Deletion)
    requires Unique(st.mappings) && forall id :: id in owners ==> id in st.jobs
    ensures Kept(st, DeleteCandidates(st, call, owners, candidates, deletion))
  {
    if candidates != [] {
      var page := PageOf(st, candidates[0].row.page);
      if |candidates| != 1 || |owners| > 1 {
        MarkAmbiguousKeeps(st, call, owners, candidates, deletion);
      } else if Gone(page) {
        MarkDeletedKeeps(st, call, owners, candidates[0], deletion);
      }
    }
  }

  lemma StepKeepsMappings(st: State, s: Step)
    requires Unique(st.mappings)
    ensures Unique(Apply(st, s).mappings) && Move(st, Apply(st, s))
  {
    match s
    case PageSuccessStep(call, expected, result) =>
      if Runs(st, call) {
        var ids := PageJobs(st, st.batches[call.batch].members, expected.page);
        var rows := Persist(st.protections, result.protected, |result.protected|, Some(expected.page));
        AttributePageKeeps(st.(protections := rows), call, ids, expected, result);
      }
    case DeletionStep(call, snapshot, deletion) =>
      if Runs(st, call) {
        var candidates := Candidates(snapshot.mappings, deletion);
        var owners := DeleteJobs(st, st.batches[call.batch].members, PagesOf(candidates));
        DeleteCandidatesKeeps(st, call, owners, candidates, deletion);
      }
    case _ => StayingMoves(st, Apply(st, s));
  }

  /** In every run: one row per document, one current row per page, and no row is ever lost. */
  lemma {:induction false} MappingsStayUnique(st: State, steps: seq<Step>)
    requires Unique(st.mappings)
    ensures Unique(Run(st, steps).mappings)
    ensures forall id :: id in st.mappings ==>
              id in Run(st, steps).mappings && SameDocument(st.mappings[id], Run(st, steps).mappings[id])
    decreases |steps|
  {
    if steps != [] {
      StepKeepsMappings(st, steps[0]);
      MappingsStayUnique(Apply(st, steps[0]), steps[1..]);
    }
  }

  /** The row is not deleted in any state of the run before the last. */
  ghost predicate LivesThrough(st: State, steps: seq<Step>, id: string)
    decreases |steps|
  {
    steps == [] || (id in st.mappings && st.mappings[id].status != Deleted
                    && LivesThrough(Apply(st, steps[0]), steps[1..], id))
  }

  /** A document that is not deleted never moves to another page. */
  lemma {:induction false} LiveDocumentKeepsPage(st: State, steps: seq<Step>, id: string)
    requires Unique(st.mappings) && id in st.mappings && LivesThrough(st, steps, id)
    ensures id in Run(st, steps).mappings && Run(st, steps).mappings[id].page == st.mappings[id].page
    decreases |steps|
  {
    if steps != [] {
      StepKeepsMappings(st, steps[0]);
      LiveDocumentKeepsPage(Apply(st, steps[0]), steps[1..], id);
    }
  }

  /** A row that becomes deleted does so in a transaction that finds its page deleted or invalid. */
  lemma {:induction false} DeletedOnlyWhileGone(st: State, steps: seq<Step>, id: string) returns (k: nat)
    requires Unique(st.mappings) && id in st.mappings && st.mappings[id].status != Deleted
    requires id in Run(st, steps).mappings && Run(st, steps).mappings[id].status == Deleted
    ensures k < |steps|
    ensures var before, after := Run(st, steps[..k]), Run(st, steps[..k + 1]);
            && id in before.mappings && before.mappings[id].status != Deleted
            && id in after.mappings && after.mappings[id].status == Deleted
            && Gone(PageOf(before, after.mappings[id].page))
    decreases |steps|
  {
    var next := Apply(st, steps[0]);
    StepKeepsMappings(st, steps[0]);
    if next.mappings[id].status == Deleted {
      k := 0;
      assert steps[..1][1..] == [];
      assert Run(st, steps[..1]) == Run(next, []);
    } else {
      k := DeletedOnlyWhileGone(next, steps[1..], id);
      assert steps[..k + 1][1..] == steps[1..][..k] && steps[..k + 2][1..] == steps[1..][..k + 1];
      k := k + 1;
    }
  }

  /** The generation never falls, and while it stays the mapping table stays. */
  lemma {:induction false} GenerationCountsChanges(st: State, steps: seq<Step>)
    requires Unique(st.mappings)
    ensures st.generation <= Run(st, steps).generation
    ensures st.generation == Run(st, steps).generation ==> st.mappings == Run(st, steps).mappings
    decreases |steps|
  {
    if steps != [] {
      StepKeepsMappings(st, steps[0]);
      GenerationCountsChanges(Apply(st, steps[0]), steps[1..]);
    }
  }
}
