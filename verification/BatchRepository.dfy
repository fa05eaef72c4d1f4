/**
  The repository of GBrain batches: its transactions, statement by statement.

  A transaction works on `conn`, a copy of the tables; assigning it to `tables` commits, and returning
  without doing so rolls back.  A failure inside a loop is carried to its end and rolls back there.  What the
  transactions leave behind is stated in `Effects` and `Requeue`.
 */
module BatchRepository {
  import opened Options
  import opened Lists
  import opened Attribution
  import opened ReconcileRequest
  import opened Segments
  import Batches
  import Outbox

  /** Ends the jobs one by one, until one is not the worker's. */
  method FinishJobs(jobs: Outbox.Jobs, ids: seq<string>, worker: string, status: Outbox.Status)
      returns (finished: Option<Outbox.Jobs>)
    ensures finished == FinishAll(jobs, ids, |ids|, worker, status)
  {
    finished := Some(jobs);
    for i := 0 to |ids|
      invariant finished == FinishAll(jobs, ids, i, worker, status)
    {
      if finished.Some? && Outbox.Owns(finished.value, ids[i], worker) {
        finished := Some(Outbox.Finish(finished.value, ids[i], worker, status, None));
      } else {
        finished := None;
      }
    }
  }

  method PersistProtections(rows: seq<Protection>, mappings: seq<ProtectedMapping>, page: Option<string>)
      returns (after: seq<Protection>)
    ensures after == Persist(rows, mappings, |mappings|, page)
  {
    after := rows;
    for i := 0 to |mappings|
      invariant after == Persist(rows, mappings, i, page)
    {
      if Persisted(after, mappings[i], page) {
        continue;
      }
      after := after + [Protection(mappings[i], page, true)];
    }
  }

  method SetMappingStatusFromSnapshot(mappings: Mappings, rows: seq<MappingSnapshot>, status: MappingStatus, now: int)
      returns (updated: Option<Mappings>)
    ensures updated == SetStatus(mappings, rows, |rows|, status, now)
  {
    updated := Some(mappings);
    for i := 0 to |rows|
      invariant updated == SetStatus(mappings, rows, i, status, now)
    {
      if updated.Some? && Attribution.Unchanged(updated.value, rows[i]) {
        var row := updated.value[rows[i].id].(status := status, invalidatedAt := Some(now));
        updated := Some(updated.value[rows[i].id := row]);
      } else {
        updated := None;
      }
    }
  }

  class GBrainBatchRepository {
    var tables: State

    constructor (tables: State)
      ensures this.tables == tables
    {
      this.tables := tables;
    }

    /** Makes a batch from claimed jobs; `expected` are its pages, if there is a batch. */
    method CreateBatch(claimed: seq<string>, call: Call, newJobs: seq<string>)
        returns (committed: bool, expected: Option<map<string, ExpectedPage>>)
      requires |claimed| <= |newJobs|
      modifies this
      ensures committed <==> Batches.CreateBatch(old(tables), claimed, call, newJobs).Some?
      ensures committed ==>
                Batches.CreateBatch(old(tables), claimed, call, newJobs).value == Batches.Creation(tables, expected)
      ensures committed && expected.Some? ==>
                Batches.Made(old(tables), claimed, call, newJobs, Batches.Creation(tables, expected))
      ensures !committed ==> tables == old(tables) && expected.None?
    {
      expected := None;
      if claimed == [] {
        return true, None;
      }
      var kept := Some(Batches.Retained(tables, []));
      for i := 0 to |claimed|
        invariant kept == Batches.Retain(tables, claimed, i, call.worker, newJobs, call.now)
      {
        var id := claimed[i];
        if kept.None? || !Outbox.Owns(kept.value.st.jobs, id, call.worker) {
          kept := None;
        } else if Batches.IsRetained(kept.value.st, kept.value.st.jobs[id]) {
          kept := Some(Batches.Retained(kept.value.st, kept.value.ids + [id]));
        } else {
          var conn := Batches.SupersedeOne(kept.value.st, id, call.worker, newJobs[i], call.now);
          kept := Some(Batches.Retained(conn, kept.value.ids));
        }
      }
      if kept.None? {
        return false, None;
      }
      var conn, retained := kept.value.st, kept.value.ids;
      var reconcile := Batches.Reconcile(tables, claimed);
      if retained == [] && !reconcile {
        tables := conn;
        return true, None;
      }
      var pages := Batches.ExpectedPages(conn, retained, reconcile);
      if pages.None? {
        return false, None;
      }
      if pages.value == map[] && !reconcile {
        tables := conn;
        return true, None;
      }
      Batches.RetainKeeps(tables, claimed, |claimed|, call.worker, newJobs, call.now);
      if Distinct(retained) != retained || call.batch in conn.batches {
        return false, None;
      }
      tables := conn.(batches :=
        conn.batches[call.batch := Batch(Some(call.worker), map[], Batches.Members(conn, retained))]);
      return true, pages;
    }

    /** Attributes a page result that says imported or skipped. */
    method AttributePageSuccess(call: Call, expected: ExpectedPage, result: PageResult) returns (committed: bool)
      modifies this
      ensures committed <==> PageSuccess(old(tables), call, expected, result).Some?
      ensures tables == Apply(old(tables), PageSuccessStep(call, expected, result))
    {
      var conn := tables;
      if !Runs(conn, call) {
        return false;
      }
      var ids := PageJobs(conn, conn.batches[call.batch].members, expected.page);
      if !AllOwned(conn.jobs, ids, call.worker) {
        return false;
      }
      var rows := PersistProtections(conn.protections, result.protected, Some(expected.page));
      conn := conn.(protections := rows);
      var page := PageOf(conn, expected.page);
      if !MatchesExpected(page, expected) {
        committed := SupersedeJobs(conn, call, ids, expected.page);
        return;
      }
      if !Identified(result) {
        committed := FailPageAttribution(conn, call, ids, expected.page, result,
                                         "GBrain page result omitted mapping identity");
        return;
      }
      if OccupiedByOther(conn.mappings, call.source, result.slug.value, expected.page) {
        committed := FailPageAttribution(conn, call, ids, expected.page, result, "ambiguous GBrain slug attribution");
        return;
      }
      if !Wanted(conn.jobs, ids, expected) {
        committed := FailPageAttribution(conn, call, ids, expected.page, result,
          "ambiguous GBrain page job attribution");
        return;
      }
      committed := StoreMapping(conn, call, ids, page.value, expected, result);
    }

    method SupersedeJobs(conn: State, call: Call, ids: seq<string>, page: string) returns (committed: bool)
      modifies this
      ensures committed <==> Supersede(conn, call, ids, page).Some?
      ensures tables == if committed then Supersede(conn, call, ids, page).value else old(tables)
    {
      var finished := FinishJobs(conn.jobs, ids, call.worker, Outbox.Superseded);
      if finished.None? {
        return false;
      }
      tables := EnqueueCurrent(conn.(jobs := finished.value), page, call.newJob, call.now);
      return true;
    }

    method FailPageAttribution(conn: State, call: Call, ids: seq<string>, page: string, result: PageResult,
        reason: string)
        returns (committed: bool)
      modifies this
      ensures committed <==> FailPage(conn, call, ids, page, result, reason).Some?
      ensures tables == if committed then FailPage(conn, call, ids, page, result, reason).value else old(tables)
    {
      var protection := ProtectedMapping(result.source, result.slug, Some(result.sourcePath), reason);
      var finished := FinishJobs(conn.jobs, ids, call.worker, Outbox.Failed);
      if finished.None? {
        return false;
      }
      tables := conn.(protections := PersistOne(conn.protections, protection, Some(page)), jobs := finished.value);
      return true;
    }

    method StoreMapping(conn: State, call: Call, ids: seq<string>, page: Page, expected: ExpectedPage,
        result: PageResult)
        returns (committed: bool)
      requires Identified(result)
      modifies this
      ensures committed <==> WriteMapping(conn, call, ids, page, expected, result).Some?
      ensures tables == if committed then WriteMapping(conn, call, ids, page, expected, result).value else old(tables)
    {
      var row := NewRow(call, page, expected, result, if ids == [] then call.batch else ids[|ids| - 1]);
      var table := StaleOthers(conn.mappings, call.source, expected.page, row.slug, call.now);
      if SlotTaken(table, row.source, row.slug) {
        table := map id | id in table :: if InSlot(table[id], row.source, row.slug) then row else table[id];
      } else if call.newMapping in table {
        return false;
      } else {
        table := table[call.newMapping := row];
      }
      var finished := FinishJobs(conn.jobs, ids, call.worker, Outbox.Succeeded);
      if finished.None? {
        return false;
      }
      tables := conn.(mappings := table, generation := conn.generation + 1, jobs := finished.value,
                      protections := Release(conn.protections, call.source, expected.page, row.slug, row.sourcePath));
      return true;
    }

    /** Attributes any other page result. */
    method AttributePageFailure(call: Call, expected: ExpectedPage, result: PageResult) returns (committed: bool)
      modifies this
      ensures committed <==> PageFailure(old(tables), call, expected, result).Some?
      ensures tables == Apply(old(tables), PageFailureStep(call, expected, result))
    {
      var conn := tables;
      if !Runs(conn, call) {
        return false;
      }
      var ids := PageJobs(conn, conn.batches[call.batch].members, expected.page);
      if !AllOwned(conn.jobs, ids, call.worker) {
        return false;
      }
      var protections := result.protected;
      if protections == [] {
        protections := [ProtectedMapping(result.source, result.slug, Some(result.sourcePath), result.error)];
      }
      var rows := PersistProtections(conn.protections, protections, Some(expected.page));
      var stale := !MatchesExpected(PageOf(conn, expected.page), expected) || result.superseded;
      var finished := FinishJobs(conn.jobs, ids, call.worker, if stale then Outbox.Superseded else Outbox.Failed);
      if finished.None? {
        return false;
      }
      conn := conn.(protections := rows, jobs := finished.value);
      if stale {
        conn := EnqueueCurrent(conn, expected.page, call.newJob, call.now);
      }
      tables := conn;
      return true;
    }

    /** Attributes one reported deletion. */
    method AttributeOneDeletion(call: Call, snapshot: Snapshot, deletion: Deletion) returns (committed: bool)
      modifies this
      ensures committed <==> AttributeDeletion(old(tables), call, snapshot, deletion).Some?
      ensures tables == Apply(old(tables), DeletionStep(call, snapshot, deletion))
    {
      var conn := tables;
      var candidates := Candidates(snapshot.mappings, deletion);
      if !Runs(conn, call) {
        return false;
      }
      var owners := DeleteJobs(conn, conn.batches[call.batch].members, PagesOf(candidates));
      if !AllOwned(conn.jobs, owners, call.worker) || !SnapshotsMatch(conn.jobs, owners, snapshot.jobs) {
        return false;
      }
      if candidates == [] {
        return true;
      }
      if |candidates| == 1 && |owners| <= 1 {
        var page := PageOf(conn, candidates[0].row.page);
        if owners != [] && !MatchesDeleteJob(page, conn.jobs[owners[0]]) {
          committed := SupersedeJobs(conn, call, owners, candidates[0].row.page);
          return;
        }
        if owners == [] && !Gone(page) {
          tables := EnqueueCurrent(conn, candidates[0].row.page, call.newJob, call.now);
          return true;
        }
        committed := StoreDeletion(conn, call, owners, candidates[0], deletion);
        return;
      }
      committed := StoreAmbiguity(conn, call, owners, candidates, deletion);
    }

    method StoreDeletion(conn: State, call: Call, owners: seq<string>, candidate: MappingSnapshot, deletion: Deletion)
        returns (committed: bool)
      requires |owners| <= 1
      modifies this
      ensures committed <==> MarkDeleted(conn, call, owners, candidate, deletion).Some?
      ensures tables == if committed then MarkDeleted(conn, call, owners, candidate, deletion).value else old(tables)
    {
      var updated := SetMappingStatusFromSnapshot(conn.mappings, [candidate], Deleted, call.now);
      var finished := FinishJobs(conn.jobs, owners, call.worker, Outbox.Succeeded);
      if updated.None? || finished.None? {
        return false;
      }
      var rows := conn.protections;
      if owners != [] && owners[0] in conn.jobs && conn.jobs[owners[0]].pageId.Some? {
        rows := Release(rows, deletion.source, conn.jobs[owners[0]].pageId.value, deletion.slug,
          candidate.row.sourcePath);
      }
      tables := conn.(mappings := updated.value, generation := conn.generation + 1, jobs := finished.value,
                      protections := rows);
      return true;
    }

    method StoreAmbiguity(
        conn: State, call: Call, owners: seq<string>, candidates: seq<MappingSnapshot>, deletion: Deletion)
        returns (committed: bool)
      requires candidates != []
      modifies this
      ensures committed <==> MarkAmbiguous(conn, call, owners, candidates, deletion).Some?
      ensures tables == if committed then MarkAmbiguous(conn, call, owners, candidates, deletion).value else old(tables)
    {
      var updated := SetMappingStatusFromSnapshot(conn.mappings, candidates, Stale, call.now);
      if updated.None? {
        return false;
      }
      var protection := ProtectedMapping(deletion.source, Some(deletion.slug), Some(candidates[0].row.sourcePath),
                                         "ambiguous GBrain delete attribution");
      var rows := PersistOne(conn.protections, protection, Some(candidates[0].row.page));
      var finished := FinishJobs(conn.jobs, owners, call.worker, Outbox.Failed);
      if finished.None? {
        return false;
      }
      tables := conn.(mappings := updated.value, generation := conn.generation + 1, jobs := finished.value,
                      protections := rows);
      return true;
    }

    /** The pages for which a delete job of the batch speaks, with their mappings of the snapshot. */
    method AuthoritativeMappings(call: Call, snapshot: Snapshot, rows: seq<Protection>)
        returns (authoritative: map<string, seq<MappingSnapshot>>)
      requires call.batch in tables.batches
      ensures forall p :: p in authoritative ==> authoritative[p] == Authoritative(tables, call, snapshot, p)
      ensures forall row :: row in rows && row.page.Some? && row.page.value !in authoritative ==>
                Authoritative(tables, call, snapshot, row.page.value) == []
    {
      authoritative := map[];
      var pages := set row | row in rows && row.page.Some? :: row.page.value;
      var remaining := pages;
      while remaining != {}
        invariant remaining <= pages
        invariant forall p :: p in authoritative ==> authoritative[p] == Authoritative(tables, call, snapshot, p)
        invariant forall p :: p in pages && p !in remaining && p !in authoritative ==>
                    Authoritative(tables, call, snapshot, p) == []
      {
        var page :| page in remaining;
        remaining := remaining - {page};
        var desired := DesiredDeletes(snapshot.jobs, page);
        var owners := DeleteJobs(tables, tables.batches[call.batch].members, {page});
        if |desired| != 1 || |owners| != 1 {
          continue;
        }
        var owner := owners[0];
        assert owner in owners;
        if !JobMatchesSnapshot(owner, tables.jobs[owner], desired[0]) || !Outbox.Owns(tables.jobs, owner, call.worker)
           || !MatchesDeleteJob(PageOf(tables, page), tables.jobs[owner])
        {
          continue;
        }
        var mappings := SnapshotOf(snapshot.mappings, page, call.source);
        if mappings != [] {
          authoritative := authoritative[page := mappings];
        }
      }
    }

    /** The protections all of whose rows may be lifted. */
    method LiftableProtections(call: Call, snapshot: Snapshot, rows: seq<Protection>)
        returns (liftable: set<ProtectedMapping>)
      requires call.batch in tables.batches
      ensures liftable == Liftable(tables, call, snapshot, rows)
    {
      var authoritative := AuthoritativeMappings(call, snapshot, rows);
      liftable := {};
      var remaining := KeysOf(rows);
      while remaining != {}
        invariant remaining <= KeysOf(rows)
        invariant forall key :: key in liftable <==>
                    key in KeysOf(rows) && key !in remaining && MayBeLifted(tables, call, snapshot, rows, key)
      {
        var key :| key in remaining;
        remaining := remaining - {key};
        var all := true;
        for i := 0 to |rows|
          invariant all <==> forall j :: 0 <= j < i && rows[j].mapping == key ==>
              RowMayBeLifted(tables, call, snapshot, rows[j])
        {
          if rows[i].mapping == key {
            var candidates := [];
            if rows[i].page.Some? && rows[i].page.value in authoritative {
              candidates := authoritative[rows[i].page.value];
            }
            if MatchCount(tables, rows[i].mapping, candidates, |candidates|) != 1 {
              all := false;
            }
          }
        }
        if all {
          liftable := liftable + {key};
        }
      }
    }

    /** The protections to send with a reconcile request. */
    method ReconcileRequestProtections(call: Call, snapshot: Option<Snapshot>, protections: seq<ProtectedMapping>)
        returns (request: Option<seq<ProtectedMapping>>)
      ensures request == RequestProtections(tables, call, snapshot, protections)
    {
      if !Runs(tables, call) {
        return None;
      }
      var rows := [];
      for i := 0 to |tables.protections|
        invariant rows == ActiveRows(tables.protections, call.source, i)
      {
        if tables.protections[i].active && tables.protections[i].mapping.source == call.source {
          rows := rows + [tables.protections[i]];
        }
      }
      var active := ActiveProtections(rows, protections);
      if snapshot.None? {
        return Some(active);
      }
      var liftable := LiftableProtections(call, snapshot.value, rows);
      return Some(Among(active, liftable, |active|, false));
    }

    /** Ends the member jobs that no result was attributed to. */
    method FinishRemainingJobs(batch: string, worker: string) returns (committed: bool)
      modifies this
      ensures committed <==> FinishRemaining(old(tables), batch, worker).Some?
      ensures tables == if committed then FinishRemaining(old(tables), batch, worker).value else old(tables)
    {
      var conn := tables;
      if batch !in conn.batches || conn.batches[batch].runner != Some(worker) {
        return false;
      }
      var members := conn.batches[batch].members;
      var rows := Some(conn.jobs);
      for i := 0 to |members|
        invariant rows == FinishLeftover(conn.jobs, members, i, worker) && tables == conn
      {
        if rows.Some? {
          var id := members[i].job;
          if id !in rows.value || rows.value[id].status != Outbox.Running {
            continue;
          }
          if rows.value[id].leaseOwner == Some(worker) {
            rows := Some(Outbox.Finish(rows.value, id, worker, LeftoverStatus(rows.value[id]), None));
          } else {
            rows := None;
          }
        }
      }
      if rows.None? {
        return false;
      }
      tables := conn.(jobs := rows.value);
      return true;
    }
  }
}
