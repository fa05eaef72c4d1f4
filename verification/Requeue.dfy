/**
  Whether a page whose jobs are superseded is asked for again.

  Superseding jobs enqueues a job for the page as it is now.  Enqueueing does nothing when a row has the key
  already, and that row may be one of those the same transaction has just ended.
 */
module Requeue {
  import opened Options
  import opened Lists
  import opened Attribution
  import opened Effects
  import Batches
  import Outbox
  import Rag = RagProjection

  /** The job runs, or will be claimed once it is available. */
  predicate Unfinished(job: Outbox.Job) {
    || job.status == Outbox.Running
    || (job.attempts < Outbox.MAX_ATTEMPTS && (job.status == Outbox.Pending || job.status == Outbox.Failed))
  }

  lemma UnfinishedIsClaimable(job: Outbox.Job)
    ensures Unfinished(job) <==> job.status == Outbox.Running || exists now :: Outbox.Claimable(job, now)
  {
    if Unfinished(job) && job.status != Outbox.Running {
      assert Outbox.Claimable(job, job.availableAt);
    }
  }

  /** The key of a job for the page as it is. */
  function CurrentKey(id: string, page: Page): string {
    Outbox.IdempotencyKey(Outbox.GBrain, "upsert", Some(id), page.revision, page.epoch)
  }

  /** An unfinished job has the key. */
  ghost predicate Awaited(jobs: Outbox.Jobs, key: string) {
    exists id :: id in jobs && jobs[id].key == key && Unfinished(jobs[id])
  }

  /** No job has the key, or an unfinished one that is not among those to be ended. */
  ghost predicate CanBeAwaited(jobs: Outbox.Jobs, ids: seq<string>, key: string) {
    !Outbox.HasKey(jobs, key) || exists id :: id in jobs && id !in ids && jobs[id].key == key && Unfinished(jobs[id])
  }

  /** The page is active and has a revision to project. */
  predicate IsLive(st: State, page: string) {
    page in st.pages && st.pages[page].lifecycle.Active? && Text(st.pages[page].revision) != ""
  }

  /** Enqueueing adds at most one job: to project the page as it is, if it is live and no row has the key. */
  lemma EnqueuesThePage(st: State, page: string, newJob: string, now: int)
    requires newJob !in st.jobs
    ensures var after := EnqueueCurrent(st, page, newJob, now);
            && after == st.(jobs := after.jobs)
            && (if page in st.pages && st.pages[page].lifecycle == Rag.Active && st.pages[page].revision.Some?
                   && st.pages[page].revision.value != ""
                   && forall id :: id in st.jobs ==> st.jobs[id].key != CurrentKey(page, st.pages[page]) then
                  after.jobs == st.jobs[newJob := Outbox.Job(
                    CurrentKey(page, st.pages[page]), Outbox.GBrain, "upsert", Some(page), st.pages[page].revision,
                    st.pages[page].epoch, Outbox.Pending, 0, now, now, None, None)]
                else after.jobs == st.jobs)
  {
  }

  lemma EnqueuedIsAwaited(
      before: Outbox.Jobs, ids: seq<string>, st: State, page: string, newJob: string, now: int)
    requires Settled(before, st.jobs, ids, Outbox.Superseded) && st.jobs.Keys == before.Keys
    requires IsLive(st, page) && newJob !in before
    ensures var key := CurrentKey(page, st.pages[page]);
            Awaited(EnqueueCurrent(st, page, newJob, now).jobs, key) <==> CanBeAwaited(before, ids, key)
  {
    var key := CurrentKey(page, st.pages[page]);
    var after := EnqueueCurrent(st, page, newJob, now).jobs;
    forall id | id in before ensures st.jobs[id].key == before[id].key {
      assert id in ids || st.jobs[id] == before[id];
    }
    if Outbox.HasKey(before, key) {
      var id :| id in before && before[id].key == key;
      assert st.jobs[id].key == key;
      assert after == st.jobs;
      if Awaited(after, key) {
        var other :| other in after && after[other].key == key && Unfinished(after[other]);
        assert other !in ids;
      }
      if CanBeAwaited(before, ids, key) {
        var other :| other in before && other !in ids && before[other].key == key && Unfinished(before[other]);
        assert after[other] == before[other];
      }
    } else {
      assert forall id :: id in before ==> before[id].key != key;
      assert after[newJob].key == key && Unfinished(after[newJob]);
    }
  }

  /**
    Superseding jobs leaves an unfinished job for the page as it is if and only if no row had its key, or an
    unfinished row had it that is not among those superseded.
   */
  lemma SupersedeRequeues(st: State, call: Call, ids: seq<string>, page: string, after: State)
    requires Supersede(st, call, ids, page) == Some(after) && IsLive(st, page) && call.newJob !in st.jobs
    ensures var key := CurrentKey(page, st.pages[page]);
            Awaited(after.jobs, key) <==> CanBeAwaited(st.jobs, ids, key)
  {
    var jobs := FinishAll(st.jobs, ids, |ids|, call.worker, Outbox.Superseded).value;
    FinishAllSettles(st.jobs, ids, call.worker, Outbox.Superseded, jobs);
    EnqueuedIsAwaited(st.jobs, ids, st.(jobs := jobs), page, call.newJob, call.now);
  }

  /** The same for a result that was imported for a page which has moved on. */
  lemma MovedPageIsRequeued(st: State, call: Call, expected: ExpectedPage, result: PageResult, after: State)
    requires PageSuccess(st, call, expected, result) == Some(after)
    requires !MatchesExpected(PageOf(st, expected.page), expected)
    requires IsLive(st, expected.page) && call.newJob !in st.jobs
    ensures var key := CurrentKey(expected.page, st.pages[expected.page]);
            Awaited(after.jobs, key) <==> CanBeAwaited(st.jobs, MemberJobs(st, call, expected.page), key)
  {
    SuccessIsAttributed(st, call, expected, result, after);
    var ids := MemberJobs(st, call, expected.page);
    SupersedeRequeues(WithProtections(st, expected, result), call, ids, expected.page, after);
  }

  /** The same for a result that was not imported, for a page which has moved on or a file that has changed. */
  lemma StaleResultIsRequeued(st: State, call: Call, expected: ExpectedPage, result: PageResult, after: State)
    requires PageFailure(st, call, expected, result) == Some(after) && IsStale(st, expected, result)
    requires IsLive(st, expected.page) && call.newJob !in st.jobs
    ensures var key := CurrentKey(expected.page, st.pages[expected.page]);
            Awaited(after.jobs, key) <==> CanBeAwaited(st.jobs, MemberJobs(st, call, expected.page), key)
  {
    var ids := MemberJobs(st, call, expected.page);
    var jobs := FinishAll(st.jobs, ids, |ids|, call.worker, Outbox.Superseded).value;
    FinishAllSettles(st.jobs, ids, call.worker, Outbox.Superseded, jobs);
    EnqueuedIsAwaited(st.jobs, ids, after.(jobs := jobs), expected.page, call.newJob, call.now);
  }

  /** The delete jobs for the one mapping a deletion speaks of. */
  function DeletionOwners(st: State, call: Call, candidates: seq<MappingSnapshot>): seq<string> {
    if call.batch in st.batches then DeleteJobs(st, st.batches[call.batch].members, PagesOf(candidates)) else []
  }

  /** The same for a deletion whose page has come back or was never gone. */
  lemma DeletionOfLivePageIsRequeued(
      st: State, call: Call, snapshot: Snapshot, deletion: Deletion, candidate: MappingSnapshot, after: State)
    requires AttributeDeletion(st, call, snapshot, deletion) == Some(after)
    requires Candidates(snapshot.mappings, deletion) == [candidate] && |DeletionOwners(st, call, [candidate])| <= 1
    requires IsLive(st, candidate.row.page) && call.newJob !in st.jobs
    ensures var key := CurrentKey(candidate.row.page, st.pages[candidate.row.page]);
            Awaited(after.jobs, key) <==> CanBeAwaited(st.jobs, DeletionOwners(st, call, [candidate]), key)
  {
    var owners := DeletionOwners(st, call, [candidate]);
    if owners == [] {
      EnqueuedIsAwaited(st.jobs, [], st, candidate.row.page, call.newJob, call.now);
    } else {
      SupersedeRequeues(st, call, owners, candidate.row.page, after);
    }
  }

  /** The same for a job that does not fit its page when a batch is made. */
  lemma UnfitJobIsRequeued(st: State, id: string, worker: string, newJob: string, now: int, page: string)
    requires Outbox.Owns(st.jobs, id, worker) && st.jobs[id].pageId == Some(page)
    requires IsLive(st, page) && newJob !in st.jobs
    ensures var key := CurrentKey(page, st.pages[page]);
            Awaited(Batches.SupersedeOne(st, id, worker, newJob, now).jobs, key) <==> CanBeAwaited(st.jobs, [id], key)
  {
    var jobs := Outbox.Finish(st.jobs, id, worker, Outbox.Superseded, None);
    FinishOne(st.jobs, id, worker, Outbox.Superseded);
    EnqueuedIsAwaited(st.jobs, [id], st.(jobs := jobs), page, newJob, now);
  }

  // ---------- The case in which it is not ----------

  /**
    The page has not moved, its only job holds the key of the page as it is, and the result says that the file
    changed under the import: the job is superseded, and nothing is left to project the page.
   */
  lemma ChangedFileMayBeForgotten(result: PageResult) returns (st: State, call: Call, expected: ExpectedPage)
    requires result.superseded
    ensures MatchesExpected(PageOf(st, expected.page), expected) && IsLive(st, expected.page)
    ensures MemberJobs(st, call, expected.page) == ["j"] && call.newJob !in st.jobs
    ensures PageFailure(st, call, expected, result).Some?
    ensures var after := PageFailure(st, call, expected, result).value;
            !Awaited(after.jobs, CurrentKey(expected.page, st.pages[expected.page]))
  {
    var page := Page("wiki/a", Rag.Active, Some("r"), 1, Some("f"), Some("s"));
    var job := Outbox.NewJob(Outbox.GBrain, "upsert", Some("p"), Some("r"), 1, 0).(
      status := Outbox.Running, attempts := 1, leaseOwner := Some("w"), leaseExpiresAt := Some(30));
    var member := Member("j", Some("p"), "upsert");
    var batch := Batch(Some("w"), map["s" := "w"], [member]);
    st := State(map[], 0, map["p" := page], map["j" := job], map["b" := batch], []);
    call := Call("b", "s", "w", "source", "m", "n", 1);
    expected := ExpectedPage("p", "r", 1, "a", "f");
    assert [member][..0] == [];
    assert PageJobs(st, [], "p") == [];
    assert PageJobs(st, [member], "p") == [] + ["j"];
    var ids := MemberJobs(st, call, "p");
    assert FinishAll(st.jobs, ids, 0, "w", Outbox.Superseded) == Some(st.jobs);
    assert FinishAll(st.jobs, ids, 1, "w", Outbox.Superseded).Some?;
    var after := PageFailure(st, call, expected, result).value;
    assert !CanBeAwaited(st.jobs, ids, CurrentKey("p", page)) by {
      assert st.jobs["j"].key == CurrentKey("p", page);
    }
    StaleResultIsRequeued(st, call, expected, result, after);
  }

  /**
    A page whose revision has an empty semantic hash: a batch of its only job expects it, every identified
    result for it supersedes the job and maps nothing, and nothing is left to project the page.
   */
  lemma EmptyHashIsForgotten(result: PageResult) returns (st: State, call: Call, creation: Batches.Creation)
    requires Identified(result)
    ensures IsLive(st, "p") && Batches.Made(st, ["j"], call, ["n"], creation) && call.batch in creation.st.batches
    ensures "p" in creation.expected.value && st.mappings == map[]
    ensures var outcome := PageSuccess(Batches.Started(creation, call), call, creation.expected.value["p"], result);
            && outcome.Some? && outcome.value.mappings == map[]
            && !Awaited(outcome.value.jobs, CurrentKey("p", st.pages["p"]))
  {
    var page := Page("wiki/a", Rag.Active, Some("r"), 1, Some("f"), Some(""));
    var job := Outbox.NewJob(Outbox.GBrain, "upsert", Some("p"), Some("r"), 1, 0).(
      status := Outbox.Running, attempts := 1, leaseOwner := Some("w"), leaseExpiresAt := Some(30));
    st := State(map[], 0, map["p" := page], map["j" := job], map[], []);
    call := Call("b", "s", "w", "source", "m", "n", 1);
    creation := OneJobBatch(st, call, page, job);
    var started := Batches.Started(creation, call);
    var expected := creation.expected.value["p"];
    Batches.FreshBatchIsAttributed(st, ["j"], call, ["n"], creation, "p", result);
    var outcome := PageSuccess(started, call, expected, result);
    var ids := MemberJobs(started, call, "p");
    OnlyMember(started, call, "p");
    assert started.jobs["j"].key == CurrentKey("p", page);
    assert !CanBeAwaited(started.jobs, ids, CurrentKey("p", page));
    MovedPageIsRequeued(started, call, expected, result, outcome.value);
  }

  lemma OnlyMember(st: State, call: Call, page: string)
    requires call.batch in st.batches && "j" in st.jobs
    requires st.batches[call.batch].members == [Member("j", Some(page), "upsert")]
    ensures MemberJobs(st, call, page) == ["j"]
  {
    var members := st.batches[call.batch].members;
    assert members[..0] == [];
    assert PageJobs(st, members, page) == PageJobs(st, [], page) + ["j"];
  }

  lemma SafePath()
    ensures Batches.ManifestPath("wiki/a") == Some("a")
  {
    assert "" + ['a'] == "a";
    assert Batches.Parts("a", "") == Batches.Parts("", "a") == ["a"];
    assert "wiki/a"[5..] == "a";
  }

  lemma OneJobBatch(st: State, call: Call, page: Page, job: Outbox.Job) returns (creation: Batches.Creation)
    requires st.pages == map["p" := page] && st.jobs == map["j" := job] && st.batches == map[]
    requires job.operation == "upsert" && job.pageId == Some("p") && Outbox.Owns(st.jobs, "j", call.worker)
    requires Batches.MatchesJob(Some(page), job) && page.path == "wiki/a" && page.revision.Some?
    ensures Batches.Made(st, ["j"], call, ["n"], creation) && call.batch in creation.st.batches
    ensures creation.st.jobs == st.jobs && creation.st.pages == st.pages
    ensures creation.st.batches[call.batch].members == [Member("j", Some("p"), "upsert")]
    ensures "p" in creation.expected.value
  {
    assert Batches.Retain(st, ["j"], 0, call.worker, ["n"], call.now) == Some(Batches.Retained(st, []));
    assert Batches.Retain(st, ["j"], 1, call.worker, ["n"], call.now) == Some(Batches.Retained(st, [] + ["j"]));
    SafePath();
    assert "p" in Batches.ActivePages(st);
    assert Batches.WantedPages(st, ["j"]) == {"p"};
    assert Distinct(["j"]) == ["j"] by {
      assert ["j"][..0] == [];
      assert Distinct(["j"]) == Distinct([]) + ["j"];
    }
    creation := Batches.CreateBatch(st, ["j"], call, ["n"]).value;
  }
}
