/**
  What becomes of a deletion that the remote side reports, said of the tables as they were before.

  The deletion names a document.  The snapshot of the batch says which mappings the document had, and the
  members of the batch which delete jobs there are for their pages.
 */
module Deletions {
  import opened Options
  import opened Attribution
  import opened Effects
  import opened Lists
  import Batches
  import Outbox
  import Rag = RagProjection

  // ---------- The rows and jobs that a deletion speaks of ----------

  predicate IsNamed(row: Mapping, deletion: Deletion) {
    row.source == deletion.source && row.slug == deletion.slug
  }

  /** The i-th row of the snapshot is the only one of the document. */
  predicate OnlyNamed(rows: seq<MappingSnapshot>, deletion: Deletion, i: nat) {
    i < |rows| && forall j :: 0 <= j < |rows| ==> (IsNamed(rows[j].row, deletion) <==> j == i)
  }

  predicate NoneNamed(rows: seq<MappingSnapshot>, deletion: Deletion) {
    forall j :: 0 <= j < |rows| ==> !IsNamed(rows[j].row, deletion)
  }

  predicate TwoNamed(rows: seq<MappingSnapshot>, deletion: Deletion) {
    exists i, j :: 0 <= i < j < |rows| && IsNamed(rows[i].row, deletion) && IsNamed(rows[j].row, deletion)
  }

  /** A delete job of the batch for the page. */
  predicate Deletes(jobs: Outbox.Jobs, m: Member, page: string) {
    m.operation == "delete" && m.job in jobs && jobs[m.job].pageId == Some(page)
  }

  predicate OnlyDeletes(jobs: Outbox.Jobs, members: seq<Member>, page: string, k: int) {
    0 <= k < |members| && forall j :: 0 <= j < |members| ==> (Deletes(jobs, members[j], page) <==> j == k)
  }

  predicate NoneDeletes(jobs: Outbox.Jobs, members: seq<Member>, page: string) {
    forall j :: 0 <= j < |members| ==> !Deletes(jobs, members[j], page)
  }

  predicate TwoDelete(jobs: Outbox.Jobs, members: seq<Member>, page: string) {
    exists i, j :: 0 <= i < j < |members| && Deletes(jobs, members[i], page) && Deletes(jobs, members[j], page)
  }

  /** The batch and the segment are run by the worker. */
  predicate IsRun(st: State, call: Call) {
    && call.batch in st.batches && st.batches[call.batch].runner == Some(call.worker)
    && call.segment in st.batches[call.batch].segments && st.batches[call.batch].segments[call.segment] == call.worker
  }

  predicate IsHeld(job: Outbox.Job, worker: string) {
    job.status == Outbox.Running && job.leaseOwner == Some(worker)
  }

  /** The snapshot has the job once as it is. */
  ghost predicate OnceInSnapshot(id: string, job: Outbox.Job, snapshots: seq<JobSnapshot>) {
    exists i :: 0 <= i < |snapshots| && OnlyAt(id, job, snapshots, i)
  }

  predicate OnlyAt(id: string, job: Outbox.Job, snapshots: seq<JobSnapshot>, i: nat) {
    forall j :: 0 <= j < |snapshots| ==>
      (snapshots[j] == JobSnapshot(id, job.pageId, job.revisionId, job.epoch, job.operation) <==> j == i)
  }

  /** The page is deleted or invalid. */
  predicate IsGone(st: State, page: string) {
    page in st.pages && st.pages[page].lifecycle in {Rag.Deleted, Rag.Invalid}
  }

  /** It is gone at the epoch of the job, and at its revision if it has one. */
  predicate IsGoneFor(st: State, page: string, job: Outbox.Job) {
    && IsGone(st, page) && st.pages[page].epoch == job.epoch
    && (job.revisionId.Some? ==> st.pages[page].revision == job.revisionId)
  }

  // ---------- Finding them ----------

  lemma {:induction false} CandidatesOfNone(rows: seq<MappingSnapshot>, deletion: Deletion)
    requires NoneNamed(rows, deletion)
    ensures Candidates(rows, deletion) == []
  {
    if rows != [] {
      CandidatesOfNone(rows[..|rows| - 1], deletion);
    }
  }

  lemma {:induction false} CandidatesOfOne(rows: seq<MappingSnapshot>, deletion: Deletion, i: nat)
    requires OnlyNamed(rows, deletion, i)
    ensures Candidates(rows, deletion) == [rows[i]]
  {
    var last := |rows| - 1;
    if i == last {
      CandidatesOfNone(rows[..last], deletion);
    } else {
      CandidatesOfOne(rows[..last], deletion, i);
    }
  }

  lemma {:induction false} CandidatesHave(rows: seq<MappingSnapshot>, deletion: Deletion, i: nat)
    requires i < |rows| && IsNamed(rows[i].row, deletion)
    ensures rows[i] in Candidates(rows, deletion)
  {
    var last := |rows| - 1;
    if i < last {
      CandidatesHave(rows[..last], deletion, i);
    }
  }

  lemma {:induction false} CandidatesOfTwo(rows: seq<MappingSnapshot>, deletion: Deletion, i: nat, j: nat)
    requires i < j < |rows| && IsNamed(rows[i].row, deletion) && IsNamed(rows[j].row, deletion)
    ensures |Candidates(rows, deletion)| >= 2
  {
    var last := |rows| - 1;
    if j < last {
      CandidatesOfTwo(rows[..last], deletion, i, j);
    } else {
      CandidatesHave(rows[..last], deletion, i);
    }
  }

  lemma {:induction false} DeleteJobsOfNone(st: State, members: seq<Member>, page: string)
    requires NoneDeletes(st.jobs, members, page)
    ensures DeleteJobs(st, members, {page}) == []
  {
    if members != [] {
      DeleteJobsOfNone(st, members[..|members| - 1], page);
    }
  }

  lemma {:induction false} DeleteJobsOfOne(st: State, members: seq<Member>, page: string, k: nat)
    requires OnlyDeletes(st.jobs, members, page, k)
    ensures DeleteJobs(st, members, {page}) == [members[k].job]
  {
    var last := |members| - 1;
    assert Deletes(st.jobs, members[last], page) <==> k == last;
    if k == last {
      DeleteJobsOfNone(st, members[..last], page);
    } else {
      DeleteJobsOfOne(st, members[..last], page, k);
    }
  }

  lemma OneMoreMember(st: State, members: seq<Member>, pages: set<string>)
    requires members != []
    ensures var m := members[|members| - 1];
            DeleteJobs(st, members, pages)
            == DeleteJobs(st, members[..|members| - 1], pages)
               + if m.operation == "delete" && m.job in st.jobs && st.jobs[m.job].pageId.Some?
                    && st.jobs[m.job].pageId.value in pages then [m.job] else []
  {
  }

  lemma {:induction false} DeleteJobsHave(st: State, members: seq<Member>, pages: set<string>, i: nat)
    requires i < |members| && members[i].operation == "delete" && members[i].job in st.jobs
    requires st.jobs[members[i].job].pageId.Some? && st.jobs[members[i].job].pageId.value in pages
    ensures members[i].job in DeleteJobs(st, members, pages)
  {
    var last := |members| - 1;
    OneMoreMember(st, members, pages);
    if i < last {
      assert members[..last][i] == members[i];
      DeleteJobsHave(st, members[..last], pages, i);
    }
  }

  lemma DeleteJobsOfTwo(st: State, members: seq<Member>, page: string)
    requires TwoDelete(st.jobs, members, page)
    ensures |DeleteJobs(st, members, {page})| >= 2
  {
    var i, j :| 0 <= i < j < |members| && Deletes(st.jobs, members[i], page) && Deletes(st.jobs, members[j], page);
    DeleteJobsUpTo(st, members, page, i, j);
  }

  lemma {:induction false} DeleteJobsUpTo(st: State, members: seq<Member>, page: string, i: nat, j: nat)
    requires i < j < |members| && Deletes(st.jobs, members[i], page) && Deletes(st.jobs, members[j], page)
    ensures |DeleteJobs(st, members, {page})| >= 2
  {
    var last := |members| - 1;
    var front := members[..last];
    assert front[i] == members[i];
    OneMoreMember(st, members, {page});
    if j < last {
      assert front[j] == members[j];
      DeleteJobsUpTo(st, front, page, i, j);
    } else {
      DeleteJobsHave(st, front, {page}, i);
      assert DeleteJobs(st, front, {page}) != [];
    }
  }

  lemma {:induction false} OneJobMatches(id: string, job: Outbox.Job, snapshots: seq<JobSnapshot>)
    ensures JobMatches(id, job, snapshots) == 1 <==> OnceInSnapshot(id, job, snapshots)
    ensures JobMatches(id, job, snapshots) == 0
            <==> forall j :: 0 <= j < |snapshots| ==>
                   snapshots[j] != JobSnapshot(id, job.pageId, job.revisionId, job.epoch, job.operation)
  {
    if snapshots != [] {
      var last := |snapshots| - 1;
      var front := snapshots[..last];
      OneJobMatches(id, job, front);
      if JobMatchesSnapshot(id, job, snapshots[last]) {
        if JobMatches(id, job, front) == 0 {
          assert OnlyAt(id, job, snapshots, last);
        } else {
          var j :| 0 <= j < |front|
                   && front[j] == JobSnapshot(id, job.pageId, job.revisionId, job.epoch, job.operation);
          assert snapshots[j] == snapshots[last];
        }
      } else {
        if OnceInSnapshot(id, job, front) {
          var i :| 0 <= i < |front| && OnlyAt(id, job, front, i);
          assert OnlyAt(id, job, snapshots, i);
        }
        if OnceInSnapshot(id, job, snapshots) {
          var i :| 0 <= i < |snapshots| && OnlyAt(id, job, snapshots, i);
          assert OnlyAt(id, job, front, i);
        }
      }
    }
  }

  // ---------- What becomes of a deletion ----------

  // The tables, with that mapping deleted.
  function WithDeleted(st: State, candidate: MappingSnapshot, now: int): Mappings {
    st.mappings[candidate.id := candidate.row.(status := Deleted, invalidatedAt := Some(now))]
  }

  /** The mapping is as it was in the snapshot. */
  predicate IsAsBefore(st: State, candidate: MappingSnapshot) {
    candidate.id in st.mappings && st.mappings[candidate.id] == candidate.row
  }

  function Ended(job: Outbox.Job, status: Outbox.Status): Outbox.Job {
    job.(status := status, leaseOwner := None, leaseExpiresAt := None)
  }

  // The owners and the candidates, when both are one.
  lemma OneOwner(st: State, call: Call, snapshot: Snapshot, deletion: Deletion, i: nat, k: nat)
    requires IsRun(st, call) && OnlyNamed(snapshot.mappings, deletion, i)
    requires OnlyDeletes(st.jobs, st.batches[call.batch].members, snapshot.mappings[i].row.page, k)
    ensures var candidate := snapshot.mappings[i];
            var id := st.batches[call.batch].members[k].job;
            && id in st.jobs
            && (IsHeld(st.jobs[id], call.worker) && OnceInSnapshot(id, st.jobs[id], snapshot.jobs) ==>
                  AttributeDeletion(st, call, snapshot, deletion)
                  == DeleteCandidates(st, call, [id], [candidate], deletion))
            && (!IsHeld(st.jobs[id], call.worker) || !OnceInSnapshot(id, st.jobs[id], snapshot.jobs) ==>
                  AttributeDeletion(st, call, snapshot, deletion) == None)
  {
    var candidate := snapshot.mappings[i];
    var members := st.batches[call.batch].members;
    CandidatesOfOne(snapshot.mappings, deletion, i);
    assert PagesOf([candidate]) == {candidate.row.page};
    DeleteJobsOfOne(st, members, candidate.row.page, k);
    assert Deletes(st.jobs, members[k], candidate.row.page);
    OneJobMatches(members[k].job, st.jobs[members[k].job], snapshot.jobs);
    assert [members[k].job][0] == members[k].job;
  }

  /**
    One mapping and one delete job, which the worker holds and the snapshot has.  If the page is gone as the job
    says, the deletion goes through exactly if the mapping is as it was; then that mapping is deleted, the job
    has succeeded, the generation is one higher, and the document's protections for the page are released.  If
    not, the job is superseded and no mapping changes.
   */
  lemma OwnedDeletion(st: State, call: Call, snapshot: Snapshot, deletion: Deletion, i: nat, k: nat)
    requires IsRun(st, call) && OnlyNamed(snapshot.mappings, deletion, i)
    requires OnlyDeletes(st.jobs, st.batches[call.batch].members, snapshot.mappings[i].row.page, k)
    requires var id := st.batches[call.batch].members[k].job;
             id in st.jobs && IsHeld(st.jobs[id], call.worker) && OnceInSnapshot(id, st.jobs[id], snapshot.jobs)
    ensures var candidate := snapshot.mappings[i];
            var id := st.batches[call.batch].members[k].job;
            var outcome := AttributeDeletion(st, call, snapshot, deletion);
            if IsGoneFor(st, candidate.row.page, st.jobs[id]) then
              && (outcome.Some? <==> IsAsBefore(st, candidate))
              && (outcome.Some? ==>
                    && outcome.value == st.(mappings := WithDeleted(st, candidate, call.now),
                                            generation := st.generation + 1,
                                            jobs := st.jobs[id := Ended(st.jobs[id], Outbox.Succeeded)],
                                            protections := outcome.value.protections)
                    && AreReleased(st.protections, outcome.value.protections, deletion.source, candidate.row.page,
                                   deletion.slug, candidate.row.sourcePath))
            else
              && outcome.Some? && SameButRows(st, outcome.value) && outcome.value.protections == st.protections
              && Settled(st.jobs, outcome.value.jobs, [id], Outbox.Superseded)
  {
    var candidate := snapshot.mappings[i];
    var id := st.batches[call.batch].members[k].job;
    OneOwner(st, call, snapshot, deletion, i, k);
    OneFinishes(st.jobs, id, call.worker, Outbox.Succeeded);
    OneFinishes(st.jobs, id, call.worker, Outbox.Superseded);
    if IsGoneFor(st, candidate.row.page, st.jobs[id]) {
      OneIsSet(st.mappings, candidate, call.now);
      assert Deletes(st.jobs, st.batches[call.batch].members[k], candidate.row.page);
    } else {
      SupersedeSettles(st, call, [id], candidate.row.page,
                       Supersede(st, call, [id], candidate.row.page).value);
    }
  }

  /** If the worker does not hold the one delete job, or the snapshot does not have it as it is, nothing changes. */
  lemma UnheldDeletion(st: State, call: Call, snapshot: Snapshot, deletion: Deletion, i: nat, k: nat)
    requires IsRun(st, call) && OnlyNamed(snapshot.mappings, deletion, i)
    requires OnlyDeletes(st.jobs, st.batches[call.batch].members, snapshot.mappings[i].row.page, k)
    requires var id := st.batches[call.batch].members[k].job;
             id in st.jobs ==> !IsHeld(st.jobs[id], call.worker) || !OnceInSnapshot(id, st.jobs[id], snapshot.jobs)
    ensures Apply(st, DeletionStep(call, snapshot, deletion)) == st
  {
    OneOwner(st, call, snapshot, deletion, i, k);
  }

  /** The active protections of the page that name the slug or the path are inactive, and no other row changes. */
  ghost predicate AreReleased(
      a: seq<Protection>, b: seq<Protection>, source: string, page: string, slug: string, sourcePath: string)
  {
    && |b| == |a|
    && forall i :: 0 <= i < |a| ==>
         b[i] == if a[i].active && a[i].page == Some(page) && a[i].mapping.source == source
                    && (a[i].mapping.slug == Some(slug) || a[i].mapping.sourcePath == Some(sourcePath))
                 then a[i].(active := false) else a[i]
  }

  lemma OneFinishes(jobs: Outbox.Jobs, id: string, worker: string, status: Outbox.Status)
    requires id in jobs && IsHeld(jobs[id], worker) && Outbox.Terminal(status)
    ensures FinishAll(jobs, [id], 1, worker, status) == Some(jobs[id := Ended(jobs[id], status)])
  {
    assert FinishAll(jobs, [id], 0, worker, status) == Some(jobs);
    FinishOne(jobs, id, worker, status);
  }

  lemma OneIsSet(mappings: Mappings, candidate: MappingSnapshot, now: int)
    ensures SetStatus(mappings, [candidate], 1, Deleted, now)
            == if candidate.id in mappings && mappings[candidate.id] == candidate.row then
                 Some(mappings[candidate.id := candidate.row.(status := Deleted, invalidatedAt := Some(now))])
               else None
  {
    assert SetStatus(mappings, [candidate], 0, Deleted, now) == Some(mappings);
  }

  /**
    One mapping and no delete job for its page.  If the page is gone the deletion goes through exactly if the
    mapping is as it was, and then that mapping is deleted and no job changes.  If not, no mapping changes and
    no job ends.
   */
  lemma UnownedDeletion(st: State, call: Call, snapshot: Snapshot, deletion: Deletion, i: nat)
    requires IsRun(st, call) && OnlyNamed(snapshot.mappings, deletion, i)
    requires NoneDeletes(st.jobs, st.batches[call.batch].members, snapshot.mappings[i].row.page)
    ensures var candidate := snapshot.mappings[i];
            var outcome := AttributeDeletion(st, call, snapshot, deletion);
            if IsGone(st, candidate.row.page) then
              && (outcome.Some? <==> IsAsBefore(st, candidate))
              && (outcome.Some? ==>
                    outcome.value == st.(mappings := WithDeleted(st, candidate, call.now),
                                         generation := st.generation + 1))
            else
              && outcome.Some? && SameButRows(st, outcome.value) && outcome.value.protections == st.protections
              && Settled(st.jobs, outcome.value.jobs, [], Outbox.Superseded)
  {
    NoOwner(st, call, snapshot, deletion, i);
    UnownedIsMarked(st, call, snapshot.mappings[i], deletion);
    if !IsGone(st, snapshot.mappings[i].row.page) {
      EnqueueSettles(st, call, snapshot.mappings[i].row.page);
    }
  }

  lemma EnqueueSettles(st: State, call: Call, page: string)
    ensures var after := EnqueueCurrent(st, page, call.newJob, call.now);
            && after == st.(jobs := after.jobs)
            && Settled(st.jobs, after.jobs, [], Outbox.Superseded)
  {
  }

  lemma UnownedIsMarked(st: State, call: Call, candidate: MappingSnapshot, deletion: Deletion)
    ensures MarkDeleted(st, call, [], candidate, deletion)
            == if IsAsBefore(st, candidate) then
                 Some(st.(mappings := WithDeleted(st, candidate, call.now), generation := st.generation + 1))
               else None
  {
    OneIsSet(st.mappings, candidate, call.now);
    assert FinishAll(st.jobs, [], 0, call.worker, Outbox.Succeeded) == Some(st.jobs);
  }

  lemma NoOwner(st: State, call: Call, snapshot: Snapshot, deletion: Deletion, i: nat)
    requires IsRun(st, call) && OnlyNamed(snapshot.mappings, deletion, i)
    requires NoneDeletes(st.jobs, st.batches[call.batch].members, snapshot.mappings[i].row.page)
    ensures AttributeDeletion(st, call, snapshot, deletion)
            == DeleteCandidates(st, call, [], [snapshot.mappings[i]], deletion)
  {
    var candidate := snapshot.mappings[i];
    CandidatesOfOne(snapshot.mappings, deletion, i);
    assert PagesOf([candidate]) == {candidate.row.page};
    DeleteJobsOfNone(st, st.batches[call.batch].members, candidate.row.page);
  }

  /** A deletion of a document that the snapshot does not have leaves everything as it is. */
  lemma UnknownDeletion(st: State, call: Call, snapshot: Snapshot, deletion: Deletion)
    requires IsRun(st, call) && NoneNamed(snapshot.mappings, deletion)
    ensures AttributeDeletion(st, call, snapshot, deletion) == Some(st)
  {
    CandidatesOfNone(snapshot.mappings, deletion);
    DeleteJobsOfNoPage(st, st.batches[call.batch].members);
    assert PagesOf([]) == {};
  }

  lemma {:induction false} DeleteJobsOfNoPage(st: State, members: seq<Member>)
    ensures DeleteJobs(st, members, {}) == []
  {
    if members != [] {
      DeleteJobsOfNoPage(st, members[..|members| - 1]);
    }
  }

  /** A deletion changes nothing but for the worker that runs the batch and the segment. */
  lemma DeletionNeedsRun(st: State, call: Call, snapshot: Snapshot, deletion: Deletion)
    requires !IsRun(st, call)
    ensures Apply(st, DeletionStep(call, snapshot, deletion)) == st
  {
  }

  // ---------- Ambiguous deletions ----------

  /** Several mappings have the document, or several delete jobs are for the page of the one that has. */
  predicate IsAmbiguous(st: State, call: Call, rows: seq<MappingSnapshot>, deletion: Deletion)
    requires call.batch in st.batches
  {
    || TwoNamed(rows, deletion)
    || exists i :: 0 <= i < |rows| && OnlyNamed(rows, deletion, i)
                   && TwoDelete(st.jobs, st.batches[call.batch].members, rows[i].row.page)
  }

  /** A row of the snapshot has the document and this id. */
  predicate NamesRow(rows: seq<MappingSnapshot>, deletion: Deletion, id: string) {
    exists i :: 0 <= i < |rows| && IsNamed(rows[i].row, deletion) && rows[i].id == id
  }

  predicate NamesPage(rows: seq<MappingSnapshot>, deletion: Deletion, page: string) {
    exists i :: 0 <= i < |rows| && IsNamed(rows[i].row, deletion) && rows[i].row.page == page
  }

  /** A delete job of the batch for the page of a row that has the document. */
  ghost predicate IsOwner(st: State, call: Call, rows: seq<MappingSnapshot>, deletion: Deletion, id: string)
    requires call.batch in st.batches
  {
    && id in st.jobs && st.jobs[id].pageId.Some? && NamesPage(rows, deletion, st.jobs[id].pageId.value)
    && exists m :: m in st.batches[call.batch].members && m.job == id && m.operation == "delete"
  }

  lemma CandidatesAre(rows: seq<MappingSnapshot>, deletion: Deletion)
    ensures var candidates := Candidates(rows, deletion);
            && (forall id :: Names(candidates, |candidates|, id) <==> NamesRow(rows, deletion, id))
            && (forall page :: page in PagesOf(candidates) <==> NamesPage(rows, deletion, page))
            && (forall c :: c in candidates <==> c in rows && IsNamed(c.row, deletion))
  {
    var candidates := Candidates(rows, deletion);
    forall i | 0 <= i < |rows| && IsNamed(rows[i].row, deletion) ensures rows[i] in candidates {
      CandidatesHave(rows, deletion, i);
    }
    forall id ensures Names(candidates, |candidates|, id) <==> NamesRow(rows, deletion, id) {
      if Names(candidates, |candidates|, id) {
        var i :| 0 <= i < |candidates| && candidates[i].id == id;
        assert candidates[i] in candidates;
      }
      if NamesRow(rows, deletion, id) {
        var i :| 0 <= i < |rows| && IsNamed(rows[i].row, deletion) && rows[i].id == id;
        var k :| 0 <= k < |candidates| && candidates[k] == rows[i];
      }
    }
  }

  lemma OwnersAre(st: State, call: Call, rows: seq<MappingSnapshot>, deletion: Deletion)
    requires call.batch in st.batches
    ensures var owners := DeleteJobs(st, st.batches[call.batch].members, PagesOf(Candidates(rows, deletion)));
            forall id :: id in owners <==> IsOwner(st, call, rows, deletion, id)
  {
    var members := st.batches[call.batch].members;
    var pages := PagesOf(Candidates(rows, deletion));
    CandidatesAre(rows, deletion);
    forall id | IsOwner(st, call, rows, deletion, id) ensures id in DeleteJobs(st, members, pages) {
      var m :| m in members && m.job == id && m.operation == "delete";
      var i :| 0 <= i < |members| && members[i] == m;
      DeleteJobsHave(st, members, pages, i);
    }
  }

  lemma AmbiguousBranch(st: State, call: Call, snapshot: Snapshot, deletion: Deletion)
    requires IsRun(st, call) && IsAmbiguous(st, call, snapshot.mappings, deletion)
    ensures var candidates := Candidates(snapshot.mappings, deletion);
            var owners := DeleteJobs(st, st.batches[call.batch].members, PagesOf(candidates));
            && candidates != []
            && AttributeDeletion(st, call, snapshot, deletion)
               == (if AllOwned(st.jobs, owners, call.worker) && SnapshotsMatch(st.jobs, owners, snapshot.jobs) then
                     MarkAmbiguous(st, call, owners, candidates, deletion)
                   else None)
  {
    var rows := snapshot.mappings;
    if TwoNamed(rows, deletion) {
      var i, j :| 0 <= i < j < |rows| && IsNamed(rows[i].row, deletion) && IsNamed(rows[j].row, deletion);
      CandidatesOfTwo(rows, deletion, i, j);
    } else {
      var i :| 0 <= i < |rows| && OnlyNamed(rows, deletion, i)
               && TwoDelete(st.jobs, st.batches[call.batch].members, rows[i].row.page);
      CandidatesOfOne(rows, deletion, i);
      assert PagesOf([rows[i]]) == {rows[i].row.page};
      DeleteJobsOfTwo(st, st.batches[call.batch].members, rows[i].row.page);
    }
  }

  /**
    An ambiguous deletion that goes through makes exactly the mappings of the document stale, fails exactly the
    delete jobs for their pages, protects the document, and raises the generation.
   */
  lemma AmbiguousDeletion(st: State, call: Call, snapshot: Snapshot, deletion: Deletion, after: State)
    requires IsRun(st, call) && IsAmbiguous(st, call, snapshot.mappings, deletion)
    requires AttributeDeletion(st, call, snapshot, deletion) == Some(after)
    ensures after.generation == st.generation + 1 && after.mappings.Keys == st.mappings.Keys
    ensures forall id :: id in st.mappings ==>
              after.mappings[id] == if NamesRow(snapshot.mappings, deletion, id) then
                                      st.mappings[id].(status := Stale, invalidatedAt := Some(call.now))
                                    else st.mappings[id]
    ensures after.jobs.Keys == st.jobs.Keys
    ensures forall id :: id in st.jobs ==>
              after.jobs[id] == if IsOwner(st, call, snapshot.mappings, deletion, id) then
                                  Ended(st.jobs[id], Outbox.Failed)
                                else st.jobs[id]
    ensures exists i :: 0 <= i < |after.protections| && after.protections[i].active
              && after.protections[i].mapping.source == deletion.source
              && Text(after.protections[i].mapping.slug) == deletion.slug
    ensures st.protections <= after.protections
  {
    var candidates := Candidates(snapshot.mappings, deletion);
    var owners := DeleteJobs(st, st.batches[call.batch].members, PagesOf(candidates));
    AmbiguousBranch(st, call, snapshot, deletion);
    CandidatesAre(snapshot.mappings, deletion);
    OwnersAre(st, call, snapshot.mappings, deletion);
    MarkedAmbiguous(st, call, owners, candidates, deletion, after);
  }

  lemma MarkedAmbiguous(
      st: State, call: Call, owners: seq<string>, candidates: seq<MappingSnapshot>, deletion: Deletion, after: State)
    requires candidates != [] && MarkAmbiguous(st, call, owners, candidates, deletion) == Some(after)
    ensures after.generation == st.generation + 1 && after.mappings.Keys == st.mappings.Keys
    ensures forall id :: id in st.mappings ==>
              after.mappings[id] == if Names(candidates, |candidates|, id) then
                                      st.mappings[id].(status := Stale, invalidatedAt := Some(call.now))
                                    else st.mappings[id]
    ensures after.jobs.Keys == st.jobs.Keys
    ensures forall id :: id in st.jobs ==>
              after.jobs[id] == if id in owners then Ended(st.jobs[id], Outbox.Failed) else st.jobs[id]
    ensures exists i :: 0 <= i < |after.protections| && after.protections[i].active
              && after.protections[i].mapping.source == deletion.source
              && Text(after.protections[i].mapping.slug) == deletion.slug
    ensures st.protections <= after.protections
  {
    MarkAmbiguousProtects(st, call, owners, candidates, deletion, after);
    FinishAllSettles(st.jobs, owners, call.worker, Outbox.Failed, after.jobs);
  }

  lemma {:induction false} CandidatesAreDifferent(rows: seq<MappingSnapshot>, deletion: Deletion)
    requires DifferentRows(rows, |rows|)
    ensures DifferentRows(Candidates(rows, deletion), |Candidates(rows, deletion)|)
  {
    if rows != [] {
      var last := |rows| - 1;
      var before := Candidates(rows[..last], deletion);
      CandidatesAreDifferent(rows[..last], deletion);
      forall i | 0 <= i < |before| ensures before[i].id != rows[last].id {
        assert before[i] in before;
        var j :| 0 <= j < last && rows[j] == before[i];
      }
    }
  }

  lemma {:induction false} DeleteJobsAreDistinct(st: State, members: seq<Member>, pages: set<string>)
    requires forall i, j :: 0 <= i < j < |members| ==> members[i].job != members[j].job
    ensures NoneTwice(DeleteJobs(st, members, pages))
  {
    if members != [] {
      var last := |members| - 1;
      OneMoreMember(st, members, pages);
      DeleteJobsAreDistinct(st, members[..last], pages);
      var before := DeleteJobs(st, members[..last], pages);
      forall i | 0 <= i < |before| ensures before[i] != members[last].job {
        assert before[i] in before;
        var m :| m in members[..last] && m.job == before[i];
      }
    }
  }

  /**
    When no row is twice in the snapshot and no job twice in the batch, an ambiguous deletion goes through exactly
    if every mapping of the document is as it was and the worker holds every such job, which the snapshot has.
   */
  lemma AmbiguousGoesThrough(st: State, call: Call, snapshot: Snapshot, deletion: Deletion)
    requires IsRun(st, call) && IsAmbiguous(st, call, snapshot.mappings, deletion)
    requires DifferentRows(snapshot.mappings, |snapshot.mappings|)
    requires var members := st.batches[call.batch].members;
             forall i, j :: 0 <= i < j < |members| ==> members[i].job != members[j].job
    ensures AttributeDeletion(st, call, snapshot, deletion).Some?
            <==> && (forall c :: c in snapshot.mappings && IsNamed(c.row, deletion) ==> IsAsBefore(st, c))
                 && (forall id :: IsOwner(st, call, snapshot.mappings, deletion, id) ==>
                       IsHeld(st.jobs[id], call.worker) && OnceInSnapshot(id, st.jobs[id], snapshot.jobs))
  {
    var candidates := Candidates(snapshot.mappings, deletion);
    var members := st.batches[call.batch].members;
    var owners := DeleteJobs(st, members, PagesOf(candidates));
    AmbiguousBranch(st, call, snapshot, deletion);
    CandidatesAre(snapshot.mappings, deletion);
    CandidatesAreDifferent(snapshot.mappings, deletion);
    SetStatusSets(st.mappings, candidates, Stale, call.now);
    OwnersAre(st, call, snapshot.mappings, deletion);
    DeleteJobsAreDistinct(st, members, PagesOf(candidates));
    OwnersAreHeld(st, call, snapshot, deletion, owners);
    AllAsBefore(st, snapshot.mappings, deletion);
    if AllOwned(st.jobs, owners, call.worker) {
      Batches.OwnedAreFinished(st.jobs, owners, |owners|, call.worker, Outbox.Failed);
    }
  }

  lemma AllAsBefore(st: State, rows: seq<MappingSnapshot>, deletion: Deletion)
    ensures var candidates := Candidates(rows, deletion);
            (forall i :: 0 <= i < |candidates| ==> Attribution.Unchanged(st.mappings, candidates[i]))
            <==> forall c :: c in rows && IsNamed(c.row, deletion) ==> IsAsBefore(st, c)
  {
    var candidates := Candidates(rows, deletion);
    CandidatesAre(rows, deletion);
    if forall i :: 0 <= i < |candidates| ==> Attribution.Unchanged(st.mappings, candidates[i]) {
      forall c | c in rows && IsNamed(c.row, deletion) ensures IsAsBefore(st, c) {
        var i :| 0 <= i < |candidates| && candidates[i] == c;
      }
    }
    if forall c :: c in rows && IsNamed(c.row, deletion) ==> IsAsBefore(st, c) {
      forall i | 0 <= i < |candidates| ensures Attribution.Unchanged(st.mappings, candidates[i]) {
        assert candidates[i] in candidates;
      }
    }
  }

  lemma OwnersAreHeld(st: State, call: Call, snapshot: Snapshot, deletion: Deletion, owners: seq<string>)
    requires call.batch in st.batches
    requires forall id :: id in owners <==> IsOwner(st, call, snapshot.mappings, deletion, id)
    ensures AllOwned(st.jobs, owners, call.worker) && SnapshotsMatch(st.jobs, owners, snapshot.jobs)
            <==> forall id :: IsOwner(st, call, snapshot.mappings, deletion, id) ==>
                   IsHeld(st.jobs[id], call.worker) && OnceInSnapshot(id, st.jobs[id], snapshot.jobs)
  {
    forall i | 0 <= i < |owners|
      ensures owners[i] in st.jobs
      ensures JobMatches(owners[i], st.jobs[owners[i]], snapshot.jobs) == 1
              <==> OnceInSnapshot(owners[i], st.jobs[owners[i]], snapshot.jobs)
    {
      assert owners[i] in owners;
      OneJobMatches(owners[i], st.jobs[owners[i]], snapshot.jobs);
    }
    if AllOwned(st.jobs, owners, call.worker) && SnapshotsMatch(st.jobs, owners, snapshot.jobs) {
      forall id | IsOwner(st, call, snapshot.mappings, deletion, id)
        ensures IsHeld(st.jobs[id], call.worker) && OnceInSnapshot(id, st.jobs[id], snapshot.jobs)
      {
        var i :| 0 <= i < |owners| && owners[i] == id;
      }
    }
    if forall id :: IsOwner(st, call, snapshot.mappings, deletion, id) ==>
         IsHeld(st.jobs[id], call.worker) && OnceInSnapshot(id, st.jobs[id], snapshot.jobs) {
      forall i | 0 <= i < |owners| ensures IsOwner(st, call, snapshot.mappings, deletion, owners[i]) {
        assert owners[i] in owners;
      }
    }
  }
}
