/**
  What becomes of a page result, said of the tables as they were before: when it goes through, which way the
  page's jobs end, and whether the page is mapped.
 */
module Results {
  import opened Options
  import opened Lists
  import opened Attribution
  import opened Effects
  import opened Deletions
  import Batches
  import Outbox
  import Rag = RagProjection

  /** A page job of the batch for the page. */
  ghost predicate IsMemberJob(st: State, call: Call, page: string, id: string)
    requires call.batch in st.batches
  {
    && id in st.jobs
    && exists m :: m in st.batches[call.batch].members && m.job == id && m.page == Some(page)
                   && m.operation in {"upsert", "rename", "restore"}
  }

  lemma {:induction false} PageJobsHave(st: State, members: seq<Member>, page: string, i: nat)
    requires i < |members| && members[i].page == Some(page) && members[i].job in st.jobs
    requires members[i].operation in {"upsert", "rename", "restore"}
    ensures members[i].job in PageJobs(st, members, page)
  {
    if i < |members| - 1 {
      PageJobsHave(st, members[..|members| - 1], page, i);
    }
  }

  lemma PageJobsAre(st: State, call: Call, page: string)
    requires call.batch in st.batches
    ensures forall id :: id in MemberJobs(st, call, page) <==> IsMemberJob(st, call, page, id)
  {
    var members := st.batches[call.batch].members;
    forall id | IsMemberJob(st, call, page, id) ensures id in MemberJobs(st, call, page) {
      var m :| m in members && m.job == id && m.page == Some(page) && m.operation in {"upsert", "rename", "restore"};
      var i :| 0 <= i < |members| && members[i] == m;
      PageJobsHave(st, members, page, i);
    }
  }

  /** The worker runs the batch and the segment, and holds the page's jobs. */
  ghost predicate MaySettle(st: State, call: Call, page: string) {
    IsRun(st, call) && forall id :: IsMemberJob(st, call, page, id) ==> IsHeld(st.jobs[id], call.worker)
  }

  predicate MembersDiffer(members: seq<Member>) {
    forall i, j :: 0 <= i < j < |members| ==> members[i].job != members[j].job
  }

  lemma JobsAreOwned(st: State, call: Call, page: string)
    requires IsRun(st, call)
    ensures MaySettle(st, call, page) <==> AllOwned(st.jobs, MemberJobs(st, call, page), call.worker)
  {
    var ids := MemberJobs(st, call, page);
    PageJobsAre(st, call, page);
    if MaySettle(st, call, page) {
      forall i | 0 <= i < |ids| ensures Outbox.Owns(st.jobs, ids[i], call.worker) {
        assert ids[i] in ids;
      }
    }
    if AllOwned(st.jobs, ids, call.worker) {
      forall id | IsMemberJob(st, call, page, id) ensures IsHeld(st.jobs[id], call.worker) {
        var i :| 0 <= i < |ids| && ids[i] == id;
      }
    }
  }

  /**
    When no job is twice in the batch and the id for a new mapping is new, a result goes through, imported or not,
    exactly if the worker runs the segment and holds the page's jobs.
   */
  lemma ResultGoesThrough(st: State, call: Call, expected: ExpectedPage, result: PageResult)
    requires call.batch in st.batches ==> MembersDiffer(st.batches[call.batch].members)
    requires call.newMapping !in st.mappings
    ensures PageSuccess(st, call, expected, result).Some? <==> MaySettle(st, call, expected.page)
    ensures PageFailure(st, call, expected, result).Some? <==> MaySettle(st, call, expected.page)
  {
    if IsRun(st, call) {
      var ids := MemberJobs(st, call, expected.page);
      JobsAreOwned(st, call, expected.page);
      if MaySettle(st, call, expected.page) {
        Batches.PageJobsAreDistinct(st, st.batches[call.batch].members, expected.page);
        SomeEnding(st, call, ids);
        OwnedIsAttributed(st, call, expected, result);
        AttributedAnyway(WithProtections(st, expected, result), call, ids, expected, result);
      }
    }
  }

  lemma SomeEnding(st: State, call: Call, ids: seq<string>)
    requires NoneTwice(ids) && AllOwned(st.jobs, ids, call.worker)
    ensures forall status :: Outbox.Terminal(status) ==> FinishAll(st.jobs, ids, |ids|, call.worker, status).Some?
  {
    forall status | Outbox.Terminal(status) ensures FinishAll(st.jobs, ids, |ids|, call.worker, status).Some? {
      Batches.OwnedAreFinished(st.jobs, ids, |ids|, call.worker, status);
    }
  }

  lemma AttributedAnyway(st: State, call: Call, ids: seq<string>, expected: ExpectedPage, result: PageResult)
    requires NoneTwice(ids) && AllOwned(st.jobs, ids, call.worker) && call.newMapping !in st.mappings
    ensures AttributePage(st, call, ids, expected, result).Some?
  {
    SomeEnding(st, call, ids);
  }

  /** The page is as the batch expected it, and its revision has a semantic hash. */
  predicate IsAsExpected(st: State, expected: ExpectedPage) {
    && expected.page in st.pages
    && var page := st.pages[expected.page];
       && page.lifecycle == Rag.Active && page.revision == Some(expected.revision) && page.epoch == expected.epoch
       && page.fileHash == Some(expected.fileHash) && page.semanticHash.Some? && page.semanticHash.value != ""
  }

  /** Every page job of the batch for the page wants what was expected. */
  ghost predicate AllWantIt(st: State, call: Call, expected: ExpectedPage)
    requires call.batch in st.batches
  {
    forall id :: IsMemberJob(st, call, expected.page, id) ==>
      && st.jobs[id].pageId == Some(expected.page) && st.jobs[id].revisionId == Some(expected.revision)
      && st.jobs[id].epoch == expected.epoch
  }

  /** The result can be mapped: its document is known, no other page has it, and all jobs want it. */
  ghost predicate CanBeMapped(st: State, call: Call, expected: ExpectedPage, result: PageResult)
    requires call.batch in st.batches
  {
    && Batches.HasIdentity(result) && !Batches.IsTaken(st.mappings, call.source, result.slug, expected.page)
    && AllWantIt(st, call, expected)
  }

  lemma WantedByAll(st: State, call: Call, expected: ExpectedPage)
    requires call.batch in st.batches
    ensures Wanted(st.jobs, MemberJobs(st, call, expected.page), expected) <==> AllWantIt(st, call, expected)
  {
    var ids := MemberJobs(st, call, expected.page);
    PageJobsAre(st, call, expected.page);
    if AllWantIt(st, call, expected) {
      forall i | 0 <= i < |ids| ensures IsMemberJob(st, call, expected.page, ids[i]) {
        assert ids[i] in ids;
      }
    }
    if Wanted(st.jobs, ids, expected) {
      forall id | IsMemberJob(st, call, expected.page, id)
        ensures st.jobs[id].pageId == Some(expected.page) && st.jobs[id].revisionId == Some(expected.revision)
        ensures st.jobs[id].epoch == expected.epoch
      {
        var i :| 0 <= i < |ids| && ids[i] == id;
      }
    }
  }

  lemma BranchIs(st: State, call: Call, expected: ExpectedPage, result: PageResult)
    requires call.batch in st.batches
    ensures var branch := PageBranch(st, MemberJobs(st, call, expected.page), call.source, expected, result);
            && (branch == Moved <==> !IsAsExpected(st, expected))
            && (branch == Written <==> IsAsExpected(st, expected) && CanBeMapped(st, call, expected, result))
  {
    WantedByAll(st, call, expected);
    if result.slug.Some? {
      Batches.TakenIsOccupied(st.mappings, call.source, result.slug.value, expected.page);
    }
  }

  /** The jobs of the page have ended so, every other row is as it was, and any new row is pending. */
  ghost predicate EndedAs(
      before: State, after: State, call: Call, page: string, status: Outbox.Status)
    requires call.batch in before.batches
  {
    && (forall id :: id in before.jobs ==>
          && id in after.jobs
          && after.jobs[id] == if IsMemberJob(before, call, page, id) then Ended(before.jobs[id], status)
                               else before.jobs[id])
    && (forall id :: id in after.jobs && id !in before.jobs ==> after.jobs[id].status == Outbox.Pending)
  }

  lemma SettledIsEnded(before: State, after: State, call: Call, page: string, status: Outbox.Status)
    requires call.batch in before.batches && Settled(before.jobs, after.jobs, MemberJobs(before, call, page), status)
    ensures EndedAs(before, after, call, page, status)
  {
    PageJobsAre(before, call, page);
  }

  /**
    An imported result supersedes the page's jobs if the page is not as expected; else they succeed and a current
    mapping shows the page with the result's document, if it can be mapped; else they fail.  Mappings and
    generation change only when it is mapped.
   */
  lemma SuccessIsDecided(st: State, call: Call, expected: ExpectedPage, result: PageResult, after: State)
    requires PageSuccess(st, call, expected, result) == Some(after)
    ensures call.batch in st.batches
    ensures EndedAs(st, after, call, expected.page,
                    if !IsAsExpected(st, expected) then Outbox.Superseded
                    else if CanBeMapped(st, call, expected, result) then Outbox.Succeeded else Outbox.Failed)
    ensures if IsAsExpected(st, expected) && CanBeMapped(st, call, expected, result) then
              && after.generation == st.generation + 1
              && MapsResult(after.mappings, call.source, expected.page, st.pages[expected.page], result)
            else after.generation == st.generation && after.mappings == st.mappings
  {
    var ids := MemberJobs(st, call, expected.page);
    AttributionSettlesJobs(st, call, expected, result, after);
    BranchIs(st, call, expected, result);
    SettledIsEnded(st, after, call, expected.page, Ending(PageBranch(st, ids, call.source, expected, result)));
    SuccessIsMapped(st, call, expected, result, after);
  }

  lemma SuccessIsMapped(st: State, call: Call, expected: ExpectedPage, result: PageResult, after: State)
    requires PageSuccess(st, call, expected, result) == Some(after)
    ensures if PageBranch(st, MemberJobs(st, call, expected.page), call.source, expected, result) == Written then
              && after.generation == st.generation + 1
              && expected.page in st.pages
              && MapsResult(after.mappings, call.source, expected.page, st.pages[expected.page], result)
            else after.generation == st.generation && after.mappings == st.mappings
  {
    var ids := MemberJobs(st, call, expected.page);
    var kept := WithProtections(st, expected, result);
    SuccessIsAttributed(st, call, expected, result, after);
    SameBranch(st, ids, call.source, expected, result);
    match PageBranch(st, ids, call.source, expected, result)
    case Moved => SupersedeSettles(kept, call, ids, expected.page, after);
    case Refused(reason) => FailPageSettles(kept, call, ids, expected.page, result, reason, after);
    case Written =>
      WriteMappingIsShown(kept, call, ids, PageOf(st, expected.page).value, expected, result, after);
  }

  /**
    Any other result supersedes the page's jobs if the page is not as expected or the file changed under the
    import, and fails them otherwise; mappings and generation stay.
   */
  lemma FailureIsDecided(st: State, call: Call, expected: ExpectedPage, result: PageResult, after: State)
    requires PageFailure(st, call, expected, result) == Some(after)
    ensures call.batch in st.batches
    ensures EndedAs(st, after, call, expected.page,
                    if !IsAsExpected(st, expected) || result.superseded then Outbox.Superseded else Outbox.Failed)
    ensures after.generation == st.generation && after.mappings == st.mappings
  {
    PageFailureSettles(st, call, expected, result, after);
    SettledIsEnded(st, after, call, expected.page,
                   if IsStale(st, expected, result) then Outbox.Superseded else Outbox.Failed);
  }
}
