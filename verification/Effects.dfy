/**
  What the transactions of attribution leave behind: in the job table, in the protection table and in the
  mapping table.
 */
module Effects {
  import opened Options
  import opened Attribution
  import Outbox

  // ---------- Jobs ----------

  ghost predicate Listed(ids: seq<string>, n: nat, id: string)
    requires n <= |ids|
  {
    exists i :: 0 <= i < n && ids[i] == id
  }

  /** Ending jobs ends exactly those, and only the worker's own. */
  lemma {:induction false} FinishAllRow(
      jobs: Outbox.Jobs, ids: seq<string>, n: nat, worker: string, status: Outbox.Status, id: string)
    requires n <= |ids| && Outbox.Terminal(status) && FinishAll(jobs, ids, n, worker, status).Some?
    ensures var after := FinishAll(jobs, ids, n, worker, status).value;
            && (id in after <==> id in jobs)
            && (Listed(ids, n, id) ==> Outbox.Owns(jobs, id, worker))
            && (id in jobs ==> after[id] == if Listed(ids, n, id) then Outbox.Released(jobs[id], status) else jobs[id])
  {
    if n > 0 {
      FinishAllRow(jobs, ids, n - 1, worker, status, id);
      FinishOne(FinishAll(jobs, ids, n - 1, worker, status).value, ids[n - 1], worker, status);
      assert Listed(ids, n, ids[n - 1]);
      assert Listed(ids, n, id) <==> Listed(ids, n - 1, id) || ids[n - 1] == id;
    }
  }

  /** And each once: a second time the job is no longer the worker's. */
  lemma {:induction false} FinishAllOnce(
      jobs: Outbox.Jobs, ids: seq<string>, n: nat, worker: string, status: Outbox.Status, i: nat, j: nat)
    requires i < j < n <= |ids| && Outbox.Terminal(status) && FinishAll(jobs, ids, n, worker, status).Some?
    ensures ids[i] != ids[j]
  {
    if j < n - 1 {
      FinishAllOnce(jobs, ids, n - 1, worker, status, i, j);
    } else {
      FinishAllRow(jobs, ids, j, worker, status, ids[i]);
      assert Listed(ids, j, ids[i]);
    }
  }

  lemma FinishOne(jobs: Outbox.Jobs, id: string, worker: string, status: Outbox.Status)
    requires Outbox.Terminal(status) && Outbox.Owns(jobs, id, worker)
    ensures Outbox.Finish(jobs, id, worker, status, None) == jobs[id := Outbox.Released(jobs[id], status)]
  {
  }

  /** The jobs `ids` have ended so, no other row has changed, and any new row is pending. */
  ghost predicate Settled(before: Outbox.Jobs, after: Outbox.Jobs, ids: seq<string>, status: Outbox.Status) {
    && (forall id :: id in before ==> id in after)
    && (forall id :: id in ids ==> id in before && after[id] == Outbox.Released(before[id], status))
    && (forall id :: id in before && id !in ids ==> after[id] == before[id])
    && (forall id :: id in after && id !in before ==> after[id].status == Outbox.Pending)
  }

  lemma FinishAllSettles(jobs: Outbox.Jobs, ids: seq<string>, worker: string, status: Outbox.Status, after: Outbox.Jobs)
    requires Outbox.Terminal(status) && FinishAll(jobs, ids, |ids|, worker, status) == Some(after)
    ensures Settled(jobs, after, ids, status)
    ensures after.Keys == jobs.Keys
  {
    forall id
      ensures id in after <==> id in jobs
      ensures id in ids ==> id in jobs && after[id] == Outbox.Released(jobs[id], status)
      ensures id in jobs && id !in ids ==> after[id] == jobs[id]
    {
      FinishAllRow(jobs, ids, |ids|, worker, status, id);
      assert id in ids <==> Listed(ids, |ids|, id);
    }
  }

  /** Everything but jobs and protections is as it was. */
  predicate SameButRows(before: State, after: State) {
    after == before.(jobs := after.jobs, protections := after.protections)
  }

  /** Superseding ends the jobs as superseded and changes nothing but the job table. */
  lemma SupersedeSettles(st: State, call: Call, ids: seq<string>, page: string, after: State)
    requires Supersede(st, call, ids, page) == Some(after)
    ensures Settled(st.jobs, after.jobs, ids, Outbox.Superseded)
    ensures SameButRows(st, after) && after.protections == st.protections
  {
    FinishAllSettles(st.jobs, ids, call.worker, Outbox.Superseded,
                     FinishAll(st.jobs, ids, |ids|, call.worker, Outbox.Superseded).value);
  }

  /** A refused result fails the page's jobs and protects its document; nothing else changes. */
  lemma FailPageSettles(
      st: State, call: Call, ids: seq<string>, page: string, result: PageResult, reason: string, after: State)
    requires FailPage(st, call, ids, page, result, reason) == Some(after)
    ensures Settled(st.jobs, after.jobs, ids, Outbox.Failed)
    ensures SameButRows(st, after)
    ensures st.protections <= after.protections && |after.protections| <= |st.protections| + 1
    ensures Persisted(after.protections, ProtectedMapping(result.source, result.slug, Some(result.sourcePath), reason),
                      Some(page))
  {
    FinishAllSettles(st.jobs, ids, call.worker, Outbox.Failed, after.jobs);
    var protection := ProtectedMapping(result.source, result.slug, Some(result.sourcePath), reason);
    if !Persisted(st.protections, protection, Some(page)) {
      assert after.protections[|st.protections|] == Protection(protection, Some(page), true);
    }
  }

  lemma WriteMappingSettles(
      st: State, call: Call, ids: seq<string>, page: Page, expected: ExpectedPage, result: PageResult, after: State)
    requires Identified(result) && WriteMapping(st, call, ids, page, expected, result) == Some(after)
    ensures Settled(st.jobs, after.jobs, ids, Outbox.Succeeded)
  {
    FinishAllSettles(st.jobs, ids, call.worker, Outbox.Succeeded, after.jobs);
  }

  function Ending(branch: Branch): Outbox.Status {
    match branch
    case Moved => Outbox.Superseded
    case Refused(_) => Outbox.Failed
    case Written => Outbox.Succeeded
  }

  lemma AttributePageSettles(
      st: State, call: Call, ids: seq<string>, expected: ExpectedPage, result: PageResult, after: State)
    requires AttributePage(st, call, ids, expected, result) == Some(after)
    ensures Settled(st.jobs, after.jobs, ids, Ending(PageBranch(st, ids, call.source, expected, result)))
  {
    match PageBranch(st, ids, call.source, expected, result)
    case Moved => SupersedeSettles(st, call, ids, expected.page, after);
    case Refused(reason) => FailPageSettles(st, call, ids, expected.page, result, reason, after);
    case Written =>
      WriteMappingSettles(st, call, ids, PageOf(st, expected.page).value, expected, result, after);
  }

  /** The member jobs of a page in the batch at hand. */
  function MemberJobs(st: State, call: Call, page: string): seq<string> {
    if call.batch in st.batches then PageJobs(st, st.batches[call.batch].members, page) else []
  }

  predicate IsStale(st: State, expected: ExpectedPage, result: PageResult) {
    !MatchesExpected(PageOf(st, expected.page), expected) || result.superseded
  }

  lemma PageFailureSettles(st: State, call: Call, expected: ExpectedPage, result: PageResult, after: State)
    requires PageFailure(st, call, expected, result) == Some(after)
    ensures Settled(st.jobs, after.jobs, MemberJobs(st, call, expected.page),
                    if IsStale(st, expected, result) then Outbox.Superseded else Outbox.Failed)
  {
    var ids := MemberJobs(st, call, expected.page);
    var status := if IsStale(st, expected, result) then Outbox.Superseded else Outbox.Failed;
    FinishAllSettles(st.jobs, ids, call.worker, status, FinishAll(st.jobs, ids, |ids|, call.worker, status).value);
  }

  /** The tables with the protections of a result, on which the rest of its transaction works. */
  function WithProtections(st: State, expected: ExpectedPage, result: PageResult): State {
    st.(protections := Persist(st.protections, result.protected, |result.protected|, Some(expected.page)))
  }

  lemma SuccessIsAttributed(st: State, call: Call, expected: ExpectedPage, result: PageResult, after: State)
    requires PageSuccess(st, call, expected, result) == Some(after)
    ensures call.batch in st.batches
    ensures AttributePage(WithProtections(st, expected, result), call, MemberJobs(st, call, expected.page), expected,
                          result) == Some(after)
  {
  }

  lemma OwnedIsAttributed(st: State, call: Call, expected: ExpectedPage, result: PageResult)
    requires Runs(st, call) && AllOwned(st.jobs, MemberJobs(st, call, expected.page), call.worker)
    ensures PageSuccess(st, call, expected, result)
            == AttributePage(WithProtections(st, expected, result), call, MemberJobs(st, call, expected.page),
                             expected, result)
  {
  }

  lemma SameBranch(st: State, ids: seq<string>, source: string, expected: ExpectedPage, result: PageResult)
    ensures PageBranch(WithProtections(st, expected, result), ids, source, expected, result)
            == PageBranch(st, ids, source, expected, result)
  {
  }

  /**
    An attributed page ends all its member jobs in one way and touches no other job.  They succeed exactly
    when the result is written.
   */
  lemma AttributionSettlesJobs(st: State, call: Call, expected: ExpectedPage, result: PageResult, after: State)
    requires PageSuccess(st, call, expected, result) == Some(after)
    ensures var ids := MemberJobs(st, call, expected.page);
            Settled(st.jobs, after.jobs, ids, Ending(PageBranch(st, ids, call.source, expected, result)))
  {
    var ids := MemberJobs(st, call, expected.page);
    SuccessIsAttributed(st, call, expected, result, after);
    SameBranch(st, ids, call.source, expected, result);
    AttributePageSettles(WithProtections(st, expected, result), call, ids, expected, result, after);
  }

  // ---------- Mappings ----------

  /** The row shows the page as it is. */
  predicate Shows(row: Mapping, page: Page) {
    && row.status == Current && page.lifecycle.Active?
    && page.revision == Some(row.revision) && page.epoch == row.epoch && page.path == row.path
    && page.fileHash == Some(row.fileHash) && page.semanticHash == Some(row.semanticHash)
  }

  /** A current mapping of the source shows the page as it is. */
  ghost predicate Shown(mappings: Mappings, source: string, id: string, page: Option<Page>) {
    page.Some? && exists m :: m in mappings && ShownBy(mappings, m, source, id, page.value)
  }

  ghost predicate ShownBy(mappings: Mappings, m: string, source: string, id: string, page: Page)
    requires m in mappings
  {
    && mappings[m].source == source && mappings[m].page == id && Shows(mappings[m], page)
  }

  /** A current mapping of the source shows the page as it is, with the document of the result. */
  ghost predicate MapsResult(mappings: Mappings, source: string, id: string, page: Page, result: PageResult) {
    exists m :: m in mappings && ShownBy(mappings, m, source, id, page) && IsDocument(mappings[m], result)
  }

  predicate IsDocument(row: Mapping, result: PageResult) {
    && Some(row.slug) == result.slug && row.sourcePath == result.sourcePath
    && Some(row.contentHash) == result.contentHash && Some(row.generation) == result.generation
  }

  predicate OfPage(row: Mapping, source: string, page: string) {
    row.source == source && row.page == page
  }

  /** `m` is the one current row of the page, and it is `row`. */
  ghost predicate OnlyCurrent(mappings: Mappings, m: string, row: Mapping) {
    && m in mappings && mappings[m] == row && row.status == Current
    && forall id :: id in mappings && id != m && mappings[id].status == Current ==>
         !OfPage(mappings[id], row.source, row.page)
  }

  lemma UpsertIsOnlyCurrent(mappings: Mappings, newId: string, row: Mapping, now: int) returns (m: string)
    requires Unique(mappings) && row.status == Current
    requires newId in mappings ==> SlotTaken(mappings, row.source, row.slug)
    ensures var after := Upsert(StaleOthers(mappings, row.source, row.page, row.slug, now), newId, row);
            && OnlyCurrent(after, m, row)
            && forall id :: id in mappings && id != m ==>
                 id in after
                 && after[id] == if OfPage(mappings[id], row.source, row.page) && mappings[id].status == Current then
                                   mappings[id].(status := Stale, invalidatedAt := Some(now))
                                 else mappings[id]
  {
    var after := Upsert(StaleOthers(mappings, row.source, row.page, row.slug, now), newId, row);
    UpsertRewrites(mappings, newId, row, now);
    UpsertKeepsUnique(mappings, newId, row, now);
    StaleOthersKeepSlots(mappings, row.source, row.page, row.slug, now);
    if SlotTaken(mappings, row.source, row.slug) {
      m :| m in mappings && InSlot(mappings[m], row.source, row.slug);
    } else {
      m := newId;
    }
    assert after[m] == row;
    forall id | id in mappings && id != m
      ensures after[id] == if OfPage(mappings[id], row.source, row.page) && mappings[id].status == Current then
                             mappings[id].(status := Stale, invalidatedAt := Some(now))
                           else mappings[id]
    {
      if SlotTaken(mappings, row.source, row.slug) {
        assert !SameDocument(mappings[id], mappings[m]);
      } else {
        assert !InSlot(mappings[id], row.source, row.slug);
      }
    }
    forall id | id in after && id != m && after[id].status == Current ensures !OfPage(after[id], row.source, row.page) {
      assert !BothCurrent(after[id], after[m]);
    }
  }

  /**
    A written result leaves one current row for its page, made of the result and the page; other current rows
    of the page become stale, the rows of other pages stay, and the generation is one higher.
   */
  lemma WriteMappingShows(
      st: State, call: Call, ids: seq<string>, page: Page, expected: ExpectedPage, result: PageResult, after: State)
      returns (m: string)
    requires Unique(st.mappings) && Identified(result)
    requires WriteMapping(st, call, ids, page, expected, result) == Some(after)
    ensures after.generation == st.generation + 1 && after.pages == st.pages && after.batches == st.batches
    ensures m in after.mappings
    ensures OnlyCurrent(after.mappings, m, after.mappings[m])
    ensures var row := after.mappings[m];
            && row.source == call.source && IsDocument(row, result)
            && row.page == expected.page && row.revision == expected.revision && row.epoch == expected.epoch
            && row.path == page.path && row.fileHash == expected.fileHash
            && row.importedAt == Some(call.now) && row.invalidatedAt.None?
    ensures MatchesExpected(Some(page), expected) ==> Shows(after.mappings[m], page)
    ensures forall id :: id in st.mappings && id != m ==>
              id in after.mappings
              && after.mappings[id]
                 == if OfPage(st.mappings[id], call.source, expected.page) && st.mappings[id].status == Current then
                      st.mappings[id].(status := Stale, invalidatedAt := Some(call.now))
                    else st.mappings[id]
    ensures |after.protections| == |st.protections|
    ensures forall i :: 0 <= i < |st.protections| ==>
              var row := st.protections[i];
              after.protections[i]
              == if row.active && row.page == Some(expected.page) && row.mapping.source == call.source
                    && (row.mapping.slug == result.slug || row.mapping.sourcePath == Some(result.sourcePath))
                 then row.(active := false) else row
  {
    var row := NewRow(call, page, expected, result, if ids == [] then call.batch else ids[|ids| - 1]);
    StaleOthersKeepSlots(st.mappings, call.source, expected.page, row.slug, call.now);
    m := UpsertIsOnlyCurrent(st.mappings, call.newMapping, row, call.now);
  }

  lemma WriteMappingIsShown(
      st: State, call: Call, ids: seq<string>, page: Page, expected: ExpectedPage, result: PageResult, after: State)
    requires Identified(result) && MatchesExpected(Some(page), expected)
    requires WriteMapping(st, call, ids, page, expected, result) == Some(after)
    ensures Shown(after.mappings, call.source, expected.page, Some(page))
    ensures MapsResult(after.mappings, call.source, expected.page, page, result)
  {
    var row := NewRow(call, page, expected, result, if ids == [] then call.batch else ids[|ids| - 1]);
    var others := StaleOthers(st.mappings, call.source, expected.page, row.slug, call.now);
    var m;
    if SlotTaken(others, row.source, row.slug) {
      m :| m in others && InSlot(others[m], row.source, row.slug);
    } else {
      m := call.newMapping;
    }
    assert after.mappings[m] == row;
    assert ShownBy(after.mappings, m, call.source, expected.page, page);
  }

  /** A page job succeeds only together with a current mapping of its page's current revision and epoch. */
  lemma SucceededMeansMapped(
      st: State, call: Call, expected: ExpectedPage, result: PageResult, after: State, id: string)
    requires PageSuccess(st, call, expected, result) == Some(after)
    requires id in MemberJobs(st, call, expected.page)
    requires id in after.jobs && after.jobs[id].status == Outbox.Succeeded
    ensures var job, page := st.jobs[id], PageOf(st, expected.page);
            && job.pageId == Some(expected.page) && page.Some? && page.value.revision == job.revisionId
            && page.value.epoch == job.epoch
            && Shown(after.mappings, call.source, expected.page, page)
  {
    var ids := MemberJobs(st, call, expected.page);
    AttributionSettlesJobs(st, call, expected, result, after);
    assert PageBranch(st, ids, call.source, expected, result) == Written;
    SuccessIsAttributed(st, call, expected, result, after);
    SameBranch(st, ids, call.source, expected, result);
    WriteMappingIsShown(WithProtections(st, expected, result), call, ids, PageOf(st, expected.page).value, expected,
                        result, after);
  }

  ghost predicate Names(rows: seq<MappingSnapshot>, n: nat, id: string)
    requires n <= |rows|
  {
    exists i :: 0 <= i < n && rows[i].id == id
  }

  ghost predicate DifferentRows(rows: seq<MappingSnapshot>, n: nat)
    requires n <= |rows|
  {
    forall i, j :: 0 <= i < j < n ==> rows[i].id != rows[j].id
  }

  lemma {:induction false} SetStatusRow(
      mappings: Mappings, rows: seq<MappingSnapshot>, n: nat, status: MappingStatus, now: int, id: string)
    requires n <= |rows| && SetStatus(mappings, rows, n, status, now).Some?
    ensures var after := SetStatus(mappings, rows, n, status, now).value;
            && (id in after <==> id in mappings)
            && (id in mappings ==>
                  after[id] == if Names(rows, n, id) then mappings[id].(status := status, invalidatedAt := Some(now))
                               else mappings[id])
            && (Names(rows, n, id) ==> id in mappings)
  {
    if n > 0 {
      SetStatusRow(mappings, rows, n - 1, status, now, id);
      assert Names(rows, n, rows[n - 1].id);
      assert Names(rows, n, id) <==> Names(rows, n - 1, id) || rows[n - 1].id == id;
    }
  }

  lemma {:induction false} SetStatusGoesThrough(
      mappings: Mappings, rows: seq<MappingSnapshot>, n: nat, status: MappingStatus, now: int)
    requires n <= |rows| && DifferentRows(rows, n)
    ensures SetStatus(mappings, rows, n, status, now).Some?
            <==> forall i :: 0 <= i < n ==> Attribution.Unchanged(mappings, rows[i])
  {
    if n > 0 {
      SetStatusGoesThrough(mappings, rows, n - 1, status, now);
      if SetStatus(mappings, rows, n - 1, status, now).Some? {
        SetStatusRow(mappings, rows, n - 1, status, now, rows[n - 1].id);
        assert !Names(rows, n - 1, rows[n - 1].id);
      }
    }
  }

  /**
    Setting the status of different rows goes through if and only if all of them are as in the snapshot, and
    then changes their status and invalidation time and nothing else.
   */
  lemma SetStatusSets(mappings: Mappings, rows: seq<MappingSnapshot>, status: MappingStatus, now: int)
    requires DifferentRows(rows, |rows|)
    ensures var after := SetStatus(mappings, rows, |rows|, status, now);
            && (after.Some? <==> forall i :: 0 <= i < |rows| ==> Attribution.Unchanged(mappings, rows[i]))
            && (after.Some? ==> after.value.Keys == mappings.Keys)
            && (after.Some? ==> forall id :: id in mappings ==>
                  after.value[id] == if Names(rows, |rows|, id) then
                                       mappings[id].(status := status, invalidatedAt := Some(now))
                                     else mappings[id])
  {
    SetStatusGoesThrough(mappings, rows, |rows|, status, now);
    if SetStatus(mappings, rows, |rows|, status, now).Some? {
      forall id ensures id in SetStatus(mappings, rows, |rows|, status, now).value <==> id in mappings {
        SetStatusRow(mappings, rows, |rows|, status, now, id);
      }
      forall id | id in mappings
        ensures SetStatus(mappings, rows, |rows|, status, now).value[id]
                == if Names(rows, |rows|, id) then mappings[id].(status := status, invalidatedAt := Some(now))
                   else mappings[id]
      {
        SetStatusRow(mappings, rows, |rows|, status, now, id);
      }
    }
  }

  /**
    A deletion that is carried out marks the one mapping deleted and its jobs succeeded; no other row changes.
    The protections of the document that were raised for the owner's page are released, and no others.
   */
  lemma MarkDeletedMarks(
      st: State, call: Call, owners: seq<string>, candidate: MappingSnapshot, deletion: Deletion, after: State)
    requires MarkDeleted(st, call, owners, candidate, deletion) == Some(after)
    ensures Attribution.Unchanged(st.mappings, candidate) && after.generation == st.generation + 1
    ensures after.mappings
            == st.mappings[candidate.id := candidate.row.(status := Deleted, invalidatedAt := Some(call.now))]
    ensures Settled(st.jobs, after.jobs, owners, Outbox.Succeeded)
    ensures |after.protections| == |st.protections|
    ensures forall i :: 0 <= i < |st.protections| ==>
              after.protections[i]
              == if OwnerCovered(st, owners, candidate, deletion, st.protections[i])
                 then st.protections[i].(active := false) else st.protections[i]
  {
    assert SetStatus(st.mappings, [candidate], 0, Deleted, call.now) == Some(st.mappings);
    FinishAllSettles(st.jobs, owners, call.worker, Outbox.Succeeded, after.jobs);
  }

  /** The row protects the deleted document for the page of the job that deletes it. */
  predicate OwnerCovered(
      st: State, owners: seq<string>, candidate: MappingSnapshot, deletion: Deletion, row: Protection)
  {
    && owners != [] && owners[0] in st.jobs && st.jobs[owners[0]].pageId.Some?
    && Covers(row, deletion.source, st.jobs[owners[0]].pageId.value, deletion.slug, candidate.row.sourcePath)
  }

  /**
    An ambiguous deletion makes exactly the candidates stale, fails its jobs, protects the document, and raises
    the generation.
   */
  lemma MarkAmbiguousProtects(
      st: State, call: Call, owners: seq<string>, candidates: seq<MappingSnapshot>, deletion: Deletion, after: State)
    requires candidates != [] && MarkAmbiguous(st, call, owners, candidates, deletion) == Some(after)
    ensures after.generation == st.generation + 1 && Settled(st.jobs, after.jobs, owners, Outbox.Failed)
    ensures Persisted(after.protections,
                      ProtectedMapping(deletion.source, Some(deletion.slug), Some(candidates[0].row.sourcePath),
                                       "ambiguous GBrain delete attribution"),
                      Some(candidates[0].row.page))
    ensures st.protections <= after.protections
    ensures after.mappings.Keys == st.mappings.Keys
    ensures forall id :: id in st.mappings ==>
              after.mappings[id]
              == if Names(candidates, |candidates|, id)
                 then st.mappings[id].(status := Stale, invalidatedAt := Some(call.now)) else st.mappings[id]
    ensures forall candidate :: candidate in candidates ==>
              candidate.id in after.mappings && after.mappings[candidate.id].status == Stale
  {
    forall id ensures id in after.mappings <==> id in st.mappings
      ensures id in st.mappings ==>
                after.mappings[id]
                == if Names(candidates, |candidates|, id)
                   then st.mappings[id].(status := Stale, invalidatedAt := Some(call.now)) else st.mappings[id]
      ensures Names(candidates, |candidates|, id) ==> id in st.mappings
    {
      SetStatusRow(st.mappings, candidates, |candidates|, Stale, call.now, id);
    }
    FinishAllSettles(st.jobs, owners, call.worker, Outbox.Failed, after.jobs);
    var protection := ProtectedMapping(deletion.source, Some(deletion.slug), Some(candidates[0].row.sourcePath),
                                       "ambiguous GBrain delete attribution");
    if !Persisted(st.protections, protection, Some(candidates[0].row.page)) {
      assert after.protections[|st.protections|] == Protection(protection, Some(candidates[0].row.page), true);
    }
  }

  // ---------- Protections ----------

  lemma {:induction false} PersistKeepsRows(
      rows: seq<Protection>, mappings: seq<ProtectedMapping>, n: nat, page: Option<string>)
    requires n <= |mappings|
    ensures rows <= Persist(rows, mappings, n, page)
  {
    if n > 0 {
      PersistKeepsRows(rows, mappings, n - 1, page);
    }
  }

  lemma {:induction false} PersistReaches(
      rows: seq<Protection>, mappings: seq<ProtectedMapping>, n: nat, page: Option<string>, i: nat)
    requires i < n <= |mappings|
    ensures Persisted(Persist(rows, mappings, n, page), mappings[i], page)
  {
    var before, after := Persist(rows, mappings, n - 1, page), Persist(rows, mappings, n, page);
    if i < n - 1 {
      PersistReaches(rows, mappings, n - 1, page, i);
      PersistedInMore(before, after, mappings[i], page);
    } else if !Persisted(before, mappings[i], page) {
      assert after[|before|] == Protection(mappings[i], page, true);
    }
  }

  lemma {:induction false} PersistAdds(
      rows: seq<Protection>, mappings: seq<ProtectedMapping>, n: nat, page: Option<string>, k: nat) returns (i: nat)
    requires n <= |mappings| && |rows| <= k < |Persist(rows, mappings, n, page)|
    ensures var after := Persist(rows, mappings, n, page);
            i < n && after[k] == Protection(mappings[i], page, true) && !Persisted(after[..k], mappings[i], page)
  {
    var before, after := Persist(rows, mappings, n - 1, page), Persist(rows, mappings, n, page);
    if k < |before| {
      i := PersistAdds(rows, mappings, n - 1, page, k);
      assert after[..k] == before[..k];
    } else {
      i := n - 1;
      assert after[..k] == before;
    }
  }

  /**
    Persisting keeps the old rows in place, leaves an active row for every given protection and the page, and
    adds only given protections, for that page, and none that was there.
   */
  lemma PersistProtects(rows: seq<Protection>, mappings: seq<ProtectedMapping>, page: Option<string>)
    ensures var after := Persist(rows, mappings, |mappings|, page);
            && rows <= after
            && (forall m :: m in mappings ==> Persisted(after, m, page))
            && (forall k :: |rows| <= k < |after| ==>
                  after[k].active && after[k].page == page && after[k].mapping in mappings)
            && (forall k :: |rows| <= k < |after| ==> !Persisted(after[..k], after[k].mapping, page))
  {
    var after := Persist(rows, mappings, |mappings|, page);
    PersistKeepsRows(rows, mappings, |mappings|, page);
    forall m | m in mappings ensures Persisted(after, m, page) {
      var i :| 0 <= i < |mappings| && mappings[i] == m;
      PersistReaches(rows, mappings, |mappings|, page, i);
    }
    forall k | |rows| <= k < |after|
      ensures after[k].active && after[k].page == page && after[k].mapping in mappings
      ensures !Persisted(after[..k], after[k].mapping, page)
    {
      var i := PersistAdds(rows, mappings, |mappings|, page, k);
    }
  }

  /** The protections of a result that failed: those it reports, or one of its own document. */
  function Reported(result: PageResult): seq<ProtectedMapping> {
    if result.protected != [] then result.protected
    else [ProtectedMapping(result.source, result.slug, Some(result.sourcePath), result.error)]
  }

  /**
    A failed result leaves its protections active for the page, or one of its own document if it reports none;
    it releases none, and changes nothing but jobs and protections.
   */
  lemma PageFailureProtects(st: State, call: Call, expected: ExpectedPage, result: PageResult, after: State)
    requires PageFailure(st, call, expected, result) == Some(after)
    ensures SameButRows(st, after) && st.protections <= after.protections
    ensures forall m :: m in Reported(result) ==> Persisted(after.protections, m, Some(expected.page))
    ensures forall k :: |st.protections| <= k < |after.protections| ==>
              after.protections[k].active && after.protections[k].page == Some(expected.page)
              && after.protections[k].mapping in Reported(result)
  {
    PersistProtects(st.protections, Reported(result), Some(expected.page));
  }

  /**
    A result that was imported or skipped leaves the protections it reports active for the page, except those of
    the document that is then mapped.
   */
  lemma PageSuccessProtects(
      st: State, call: Call, expected: ExpectedPage, result: PageResult, after: State, m: ProtectedMapping)
    requires PageSuccess(st, call, expected, result) == Some(after) && m in result.protected
    ensures || Persisted(after.protections, m, Some(expected.page))
            || (&& after.generation == st.generation + 1 && m.source == call.source
                && (Text(m.slug) == Text(result.slug) || Text(m.sourcePath) == result.sourcePath))
  {
    var ids := MemberJobs(st, call, expected.page);
    var kept := WithProtections(st, expected, result);
    PersistProtects(st.protections, result.protected, Some(expected.page));
    SuccessIsAttributed(st, call, expected, result, after);
    match PageBranch(kept, ids, call.source, expected, result)
    case Moved => SupersedeSettles(kept, call, ids, expected.page, after);
    case Refused(reason) =>
      FailPageSettles(kept, call, ids, expected.page, result, reason, after);
      PersistedInMore(kept.protections, after.protections, m, Some(expected.page));
    case Written =>
      var i :| 0 <= i < |kept.protections| && IsRowOf(kept.protections[i], m, Some(expected.page));
      assert IsRowOf(after.protections[i], m, Some(expected.page)) || !after.protections[i].active;
  }

  predicate IsRowOf(row: Protection, m: ProtectedMapping, page: Option<string>) {
    && row.active && row.page == page && row.mapping.source == m.source && row.mapping.reason == m.reason
    && Text(row.mapping.slug) == Text(m.slug) && Text(row.mapping.sourcePath) == Text(m.sourcePath)
  }

  lemma PersistedInMore(rows: seq<Protection>, more: seq<Protection>, mapping: ProtectedMapping, page: Option<string>)
    requires rows <= more && Persisted(rows, mapping, page)
    ensures Persisted(more, mapping, page)
  {
    var i :| 0 <= i < |rows| && rows[i].active && rows[i].page == page && rows[i].mapping.source == mapping.source
             && Text(rows[i].mapping.slug) == Text(mapping.slug)
             && Text(rows[i].mapping.sourcePath) == Text(mapping.sourcePath)
             && rows[i].mapping.reason == mapping.reason;
    assert more[i] == rows[i];
  }

  /**
    Protections of a segment are persisted without a page, for the worker that runs it and holds the jobs; having
    none changes nothing.
   */
  lemma SegmentProtects(st: State, call: Call, protections: seq<ProtectedMapping>, jobs: seq<string>)
    ensures var outcome := ProtectSegment(st, call, protections, jobs);
            && (outcome.Some? <==>
                  || protections == []
                  || (&& call.batch in st.batches && st.batches[call.batch].runner == Some(call.worker)
                      && call.segment in st.batches[call.batch].segments
                      && st.batches[call.batch].segments[call.segment] == call.worker
                      && forall i :: 0 <= i < |jobs| ==>
                           jobs[i] in st.jobs && st.jobs[jobs[i]].status == Outbox.Running
                           && st.jobs[jobs[i]].leaseOwner == Some(call.worker)))
            && (outcome.Some? ==>
                  && outcome.value == st.(protections := outcome.value.protections)
                  && st.protections <= outcome.value.protections
                  && (forall m :: m in protections ==> Persisted(outcome.value.protections, m, None))
                  && forall k :: |st.protections| <= k < |outcome.value.protections| ==>
                       var row := outcome.value.protections[k];
                       row.active && row.page.None? && row.mapping in protections)
  {
    PersistProtects(st.protections, protections, None);
  }

  /** The row is still there; if it is no longer active, its page is gone or shown as it is. */
  ghost predicate Guarded(row: Protection, i: nat, st: State, after: State) {
    && i < |after.protections|
    && after.protections[i].mapping == row.mapping && after.protections[i].page == row.page
    && (row.active && !after.protections[i].active ==>
          && row.page.Some?
          && (Gone(PageOf(st, row.page.value))
              || Shown(after.mappings, row.mapping.source, row.page.value, PageOf(st, row.page.value))))
  }

  lemma AttributePageGuards(
      st: State, call: Call, ids: seq<string>, expected: ExpectedPage, result: PageResult, i: nat, after: State)
    requires AttributePage(st, call, ids, expected, result) == Some(after) && i < |st.protections|
    ensures Guarded(st.protections[i], i, st, after)
  {
    match PageBranch(st, ids, call.source, expected, result)
    case Moved => SupersedeSettles(st, call, ids, expected.page, after);
    case Refused(reason) => FailPageSettles(st, call, ids, expected.page, result, reason, after);
    case Written =>
      WriteMappingIsShown(st, call, ids, PageOf(st, expected.page).value, expected, result, after);
  }

  lemma DeleteCandidatesGuards(
      st: State, call: Call, owners: seq<string>, candidates: seq<MappingSnapshot>, deletion: Deletion, i: nat)
    requires forall id :: id in owners ==>
               id in st.jobs && st.jobs[id].pageId.Some? && st.jobs[id].pageId.value in PagesOf(candidates)
    requires DeleteCandidates(st, call, owners, candidates, deletion).Some? && i < |st.protections|
    ensures Guarded(st.protections[i], i, st, DeleteCandidates(st, call, owners, candidates, deletion).value)
  {
    if |candidates| == 1 && |owners| == 1 {
      assert owners[0] in owners;
      assert PagesOf(candidates) == {candidates[0].row.page};
    }
  }

  lemma PageFailureGuards(st: State, call: Call, expected: ExpectedPage, result: PageResult, i: nat, after: State)
    requires PageFailure(st, call, expected, result) == Some(after) && i < |st.protections|
    ensures Guarded(st.protections[i], i, st, after)
  {
    var own := [ProtectedMapping(result.source, result.slug, Some(result.sourcePath), result.error)];
    PersistKeepsRows(st.protections, result.protected, |result.protected|, Some(expected.page));
    PersistKeepsRows(st.protections, own, 1, Some(expected.page));
  }

  lemma PageSuccessGuards(st: State, call: Call, expected: ExpectedPage, result: PageResult, i: nat, after: State)
    requires PageSuccess(st, call, expected, result) == Some(after) && i < |st.protections|
    ensures Guarded(st.protections[i], i, st, after)
  {
    PersistKeepsRows(st.protections, result.protected, |result.protected|, Some(expected.page));
    SuccessIsAttributed(st, call, expected, result, after);
    var ids := MemberJobs(st, call, expected.page);
    AttributePageGuards(WithProtections(st, expected, result), call, ids, expected, result, i, after);
  }

  /** A protection is released only when its page is gone, or its page's current revision is mapped. */
  lemma ProtectionsAreGuarded(st: State, s: Step, i: nat)
    requires i < |st.protections|
    ensures Guarded(st.protections[i], i, st, Apply(st, s))
  {
    if Try(st, s).Some? {
      match s
      case PageSuccessStep(call, expected, result) => PageSuccessGuards(st, call, expected, result, i, Apply(st, s));
      case PageFailureStep(call, expected, result) => PageFailureGuards(st, call, expected, result, i, Apply(st, s));
      case DeletionStep(call, snapshot, deletion) =>
        var candidates := Candidates(snapshot.mappings, deletion);
        var owners := DeleteJobs(st, st.batches[call.batch].members, PagesOf(candidates));
        DeleteCandidatesGuards(st, call, owners, candidates, deletion, i);
      case ProtectStep(call, protections, jobs) =>
        PersistKeepsRows(st.protections, protections, |protections|, None);
      case _ =>
    }
  }
}
