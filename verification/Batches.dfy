/**
  Making a batch from claimed jobs, and what that means for attributing its results.

  Jobs whose page has moved on are superseded at once; the others become members.  The batch expects pages
  as they are then.
 */
module Batches {
  import opened Options
  import opened Lists
  import opened Attribution
  import opened Effects
  import Outbox
  import Rag = RagProjection

  const PREFIX := "wiki/"

  /** The parts of a path between slashes. */
  function Parts(path: string, part: string): seq<string> {
    if path == "" then [part]
    else if path[0] == '/' then [part] + Parts(path[1..], "")
    else Parts(path[1..], part + [path[0]])
  }

  /** The path below the wiki root; None for a path that is not safe. */
  function ManifestPath(path: string): Option<string> {
    if '\\' in path || !(PREFIX <= path) then None
    else
      var relative := path[|PREFIX|..];
      if exists part :: part in Parts(relative, "") && part in {"", ".", ".."} then None else Some(relative)
  }

  predicate NoSlash(text: string) {
    forall k :: 0 <= k < |text| ==> text[k] != '/'
  }

  /** A stretch of the text between slashes, or between a slash and an end. */
  predicate IsPart(text: string, i: int, j: int) {
    && 0 <= i <= j <= |text| && NoSlash(text[i..j])
    && (i == 0 || text[i - 1] == '/') && (j == |text| || text[j] == '/')
  }

  ghost predicate HasPart(text: string, part: string) {
    exists i, j :: IsPart(text, i, j) && text[i..j] == part
  }

  lemma OnePart(part: string, x: string)
    requires NoSlash(part)
    ensures HasPart(part, x) <==> x == part
  {
    assert part[0..|part|] == part;
    assert IsPart(part, 0, |part|);
  }

  lemma FirstPart(part: string, rest: string, i: int, j: int)
    requires NoSlash(part) && i <= |part|
    ensures IsPart(part + "/" + rest, i, j) <==> i == 0 && j == |part|
  {
    var text := part + "/" + rest;
    assert text[0..|part|] == part && text[|part|] == '/';
    assert forall k :: 0 <= k < |part| ==> text[k] == part[k];
    if 0 <= i <= j <= |text| {
      assert forall k :: i <= k < j ==> text[i..j][k - i] == text[k];
    }
  }

  lemma LaterText(part: string, rest: string, i: int, j: int)
    requires 0 <= i <= j <= |rest|
    ensures var n := |part| + 1; (part + "/" + rest)[n + i..n + j] == rest[i..j]
  {
    assert (part + "/" + rest)[|part| + 1..] == rest;
  }

  lemma LaterPart(part: string, rest: string, i: int, j: int)
    requires 0 <= i <= j <= |rest|
    ensures var n := |part| + 1; IsPart(part + "/" + rest, n + i, n + j) <==> IsPart(rest, i, j)
  {
    var text := part + "/" + rest;
    var n := |part| + 1;
    LaterText(part, rest, i, j);
    assert text[|part|] == '/' && (i > 0 ==> text[n + i - 1] == rest[i - 1]);
    assert j < |rest| ==> text[n + j] == rest[j];
  }

  lemma PartAndRest(part: string, rest: string, x: string)
    requires NoSlash(part)
    ensures HasPart(part + "/" + rest, x) <==> x == part || HasPart(rest, x)
  {
    var text, n := part + "/" + rest, |part| + 1;
    FirstPart(part, rest, 0, |part|);
    assert text[0..|part|] == part;
    if HasPart(rest, x) {
      var i, j :| IsPart(rest, i, j) && rest[i..j] == x;
      LaterPart(part, rest, i, j);
      LaterText(part, rest, i, j);
    }
    if HasPart(text, x) {
      var i, j :| IsPart(text, i, j) && text[i..j] == x;
      if i < n {
        FirstPart(part, rest, i, j);
      } else {
        LaterPart(part, rest, i - n, j - n);
        LaterText(part, rest, i - n, j - n);
      }
    }
  }

  /** The list of parts has exactly the stretches between slashes. */
  lemma {:induction false} PartsAre(path: string, part: string, x: string)
    requires NoSlash(part)
    ensures x in Parts(path, part) <==> HasPart(part + path, x)
    decreases |path|
  {
    if path == "" {
      OnePart(part, x);
      assert part + path == part;
    } else if path[0] == '/' {
      PartsAre(path[1..], "", x);
      PartAndRest(part, path[1..], x);
      assert part + path == part + "/" + path[1..] && "" + path[1..] == path[1..];
    } else {
      PartsAre(path[1..], part + [path[0]], x);
      assert part + path == (part + [path[0]]) + path[1..];
    }
  }

  /** The path below the wiki root has neither a backslash nor an empty part, nor one that is a dot or two. */
  ghost predicate IsSafe(path: string) {
    && '\\' !in path && "wiki/" <= path
    && !HasPart(path[5..], "") && !HasPart(path[5..], ".") && !HasPart(path[5..], "..")
  }

  lemma ManifestPathIsSafe(path: string)
    ensures ManifestPath(path).Some? <==> IsSafe(path)
    ensures ManifestPath(path).Some? ==> path == "wiki/" + ManifestPath(path).value
  {
    if PREFIX <= path {
      var relative := path[|PREFIX|..];
      assert "" + relative == relative;
      PartsAre(relative, "", "");
      PartsAre(relative, "", ".");
      PartsAre(relative, "", "..");
    }
  }

  predicate MatchesJob(page: Option<Page>, job: Outbox.Job) {
    && page.Some? && page.value.lifecycle.Active?
    && page.value.revision == job.revisionId && page.value.epoch == job.epoch
    && Text(page.value.fileHash) != ""
  }

  predicate IsRetained(st: State, job: Outbox.Job) {
    OnPage(job.operation) ==> job.pageId.Some? && MatchesJob(PageOf(st, job.pageId.value), job)
  }

  function SupersedeOne(st: State, id: string, worker: string, newJob: string, now: int): State
    requires id in st.jobs
  {
    var after := st.(jobs := Outbox.Finish(st.jobs, id, worker, Outbox.Superseded, None));
    match st.jobs[id].pageId
    case None => after
    case Some(page) => EnqueueCurrent(after, page, newJob, now)
  }

  datatype Retained = Retained(st: State, ids: seq<string>)

  /** The first n claimed jobs: those that still fit are kept, the others superseded; None if one is not held. */
  function Retain(st: State, claimed: seq<string>, n: nat, worker: string, newJobs: seq<string>, now: int):
      Option<Retained>
    requires n <= |claimed| <= |newJobs|
  {
    if n == 0 then Some(Retained(st, []))
    else
      match Retain(st, claimed, n - 1, worker, newJobs, now)
      case None => None
      case Some(before) =>
        var id := claimed[n - 1];
        if !Outbox.Owns(before.st.jobs, id, worker) then None
        else if IsRetained(before.st, before.st.jobs[id]) then Some(Retained(before.st, before.ids + [id]))
        else Some(Retained(SupersedeOne(before.st, id, worker, newJobs[n - 1], now), before.ids))
  }

  predicate Reconciles(operation: string) {
    operation in {"delete", "rename", "reconcile"}
  }

  function ExpectedOf(id: string, page: Page): ExpectedPage
    requires page.revision.Some? && page.fileHash.Some? && ManifestPath(page.path).Some?
  {
    ExpectedPage(id, page.revision.value, page.epoch, ManifestPath(page.path).value, page.fileHash.value)
  }

  predicate CanBeExpected(page: Page) {
    page.lifecycle.Active? && page.revision.Some? && page.fileHash.Some? && ManifestPath(page.path).Some?
  }

  /** All active pages that have a safe path. */
  function ActivePages(st: State): map<string, ExpectedPage> {
    map id | id in st.pages && CanBeExpected(st.pages[id]) :: ExpectedOf(id, st.pages[id])
  }

  /** The pages of the retained page jobs. */
  function WantedPages(st: State, ids: seq<string>): set<string> {
    set id | id in ids && id in st.jobs && OnPage(st.jobs[id].operation) && st.jobs[id].pageId.Some?
      :: st.jobs[id].pageId.value
  }

  function ExpectedPages(st: State, ids: seq<string>, reconcile: bool): Option<map<string, ExpectedPage>> {
    if reconcile then Some(ActivePages(st))
    else if exists p :: p in WantedPages(st, ids) && p !in ActivePages(st) then None
    else Some(map p | p in WantedPages(st, ids) && p in ActivePages(st) :: ActivePages(st)[p])
  }

  function MemberOf(id: string, job: Outbox.Job): Member {
    Member(id, job.pageId, job.operation)
  }

  function Members(st: State, ids: seq<string>): (members: seq<Member>)
    requires forall id :: id in ids ==> id in st.jobs
    ensures |members| == |ids| && forall i :: 0 <= i < |ids| ==> members[i] == MemberOf(ids[i], st.jobs[ids[i]])
  {
    seq(|ids|, i requires 0 <= i < |ids| => assert ids[i] in ids; MemberOf(ids[i], st.jobs[ids[i]]))
  }

  /** What creating a batch leaves: the tables, and the pages expected if there is a batch. */
  datatype Creation = Creation(st: State, expected: Option<map<string, ExpectedPage>>)

  predicate Reconcile(st: State, claimed: seq<string>) {
    exists id :: id in claimed && id in st.jobs && Reconciles(st.jobs[id].operation)
  }

  function StartBatch(st: State, ids: seq<string>, call: Call, expected: map<string, ExpectedPage>): Option<Creation>
    requires forall id :: id in ids ==> id in st.jobs
  {
    if Distinct(ids) != ids || call.batch in st.batches then None
    else
      var batch := Batch(Some(call.worker), map[], Members(st, ids));
      Some(Creation(st.(batches := st.batches[call.batch := batch]), Some(expected)))
  }

  function CreateBatch(st: State, claimed: seq<string>, call: Call, newJobs: seq<string>): Option<Creation>
    requires |claimed| <= |newJobs|
  {
    if claimed == [] then Some(Creation(st, None))
    else
      match Retain(st, claimed, |claimed|, call.worker, newJobs, call.now)
      case None => None
      case Some(retained) =>
        RetainKeeps(st, claimed, |claimed|, call.worker, newJobs, call.now);
        var reconcile := Reconcile(st, claimed);
        if retained.ids == [] && !reconcile then Some(Creation(retained.st, None))
        else
          match ExpectedPages(retained.st, retained.ids, reconcile)
          case None => None
          case Some(expected) =>
            if expected == map[] && !reconcile then Some(Creation(retained.st, None))
            else StartBatch(retained.st, retained.ids, call, expected)
  }

  // ---------- What retaining keeps ----------

  predicate IsClaimed(claimed: seq<string>, n: nat, id: string)
    requires n <= |claimed|
  {
    exists i :: 0 <= i < n && claimed[i] == id
  }

  /** A claimed job is retained, held and untouched, if it fits, and superseded if not; another is not touched. */
  ghost predicate RowOk(st: State, claimed: seq<string>, n: nat, worker: string, retained: Retained, id: string)
    requires n <= |claimed| && id in st.jobs
  {
    && id in retained.st.jobs
    && (id in retained.ids <==> IsClaimed(claimed, n, id) && IsRetained(st, st.jobs[id]))
    && (id in retained.ids ==> Outbox.Owns(st.jobs, id, worker))
    && if IsClaimed(claimed, n, id) && id !in retained.ids then
         retained.st.jobs[id] == Outbox.Released(st.jobs[id], Outbox.Superseded)
       else retained.st.jobs[id] == st.jobs[id]
  }

  ghost predicate RetainedOk(st: State, claimed: seq<string>, n: nat, worker: string, retained: Retained)
    requires n <= |claimed|
  {
    && retained.st == st.(jobs := retained.st.jobs)
    && (forall id :: id in st.jobs ==> RowOk(st, claimed, n, worker, retained, id))
    && (forall id :: id in retained.st.jobs && id !in st.jobs ==> retained.st.jobs[id].status == Outbox.Pending)
    && (forall id :: id in retained.ids ==> id in st.jobs)
    && (forall i :: 0 <= i < n ==> claimed[i] in st.jobs)
  }

  lemma {:induction false} RetainKeeps(
      st: State, claimed: seq<string>, n: nat, worker: string, newJobs: seq<string>, now: int)
    requires n <= |claimed| <= |newJobs| && Retain(st, claimed, n, worker, newJobs, now).Some?
    ensures RetainedOk(st, claimed, n, worker, Retain(st, claimed, n, worker, newJobs, now).value)
  {
    if n > 0 {
      RetainKeeps(st, claimed, n - 1, worker, newJobs, now);
      var before := Retain(st, claimed, n - 1, worker, newJobs, now).value;
      var id := claimed[n - 1];
      assert id in st.jobs && RowOk(st, claimed, n - 1, worker, before, id);
      if IsRetained(before.st, before.st.jobs[id]) {
        KeepStep(st, claimed, n, worker, before);
      } else {
        SupersedeStep(st, claimed, n, worker, newJobs[n - 1], now, before);
      }
    }
  }

  lemma ClaimedOneMore(claimed: seq<string>, n: nat, id: string)
    requires 0 < n <= |claimed|
    ensures IsClaimed(claimed, n, id) <==> IsClaimed(claimed, n - 1, id) || id == claimed[n - 1]
  {
    assert id == claimed[n - 1] ==> IsClaimed(claimed, n, id);
  }

  lemma KeepStep(st: State, claimed: seq<string>, n: nat, worker: string, before: Retained)
    requires 0 < n <= |claimed| && RetainedOk(st, claimed, n - 1, worker, before)
    requires claimed[n - 1] in st.jobs && Outbox.Owns(before.st.jobs, claimed[n - 1], worker)
    requires IsRetained(before.st, before.st.jobs[claimed[n - 1]])
    ensures RetainedOk(st, claimed, n, worker, Retained(before.st, before.ids + [claimed[n - 1]]))
  {
    var after := Retained(before.st, before.ids + [claimed[n - 1]]);
    forall id | id in st.jobs ensures RowOk(st, claimed, n, worker, after, id) {
      assert RowOk(st, claimed, n - 1, worker, before, id);
      ClaimedOneMore(claimed, n, id);
    }
  }

  lemma SupersedeOneRow(st: State, id: string, worker: string, newJob: string, now: int)
    requires Outbox.Owns(st.jobs, id, worker)
    ensures var after := SupersedeOne(st, id, worker, newJob, now);
            && after == st.(jobs := after.jobs)
            && id in after.jobs && after.jobs[id] == Outbox.Released(st.jobs[id], Outbox.Superseded)
            && (forall other :: other in st.jobs && other != id ==>
                  other in after.jobs && after.jobs[other] == st.jobs[other])
            && (forall other :: other in after.jobs && other !in st.jobs ==>
                  after.jobs[other].status == Outbox.Pending)
  {
  }

  lemma SupersedeStep(
      st: State, claimed: seq<string>, n: nat, worker: string, newJob: string, now: int, before: Retained)
    requires 0 < n <= |claimed| && RetainedOk(st, claimed, n - 1, worker, before)
    requires claimed[n - 1] in st.jobs && Outbox.Owns(before.st.jobs, claimed[n - 1], worker)
    requires !IsRetained(before.st, before.st.jobs[claimed[n - 1]])
    ensures RetainedOk(st, claimed, n, worker,
                       Retained(SupersedeOne(before.st, claimed[n - 1], worker, newJob, now), before.ids))
  {
    var last := claimed[n - 1];
    var after := Retained(SupersedeOne(before.st, last, worker, newJob, now), before.ids);
    assert RowOk(st, claimed, n - 1, worker, before, last);
    SupersedeOneRow(before.st, last, worker, newJob, now);
    forall id | id in st.jobs ensures RowOk(st, claimed, n, worker, after, id) {
      assert RowOk(st, claimed, n - 1, worker, before, id);
      ClaimedOneMore(claimed, n, id);
    }
  }

  // ---------- A new batch ----------

  /** A batch was made: what it was made from. */
  ghost predicate Made(st: State, claimed: seq<string>, call: Call, newJobs: seq<string>, creation: Creation) {
    && |claimed| <= |newJobs| && creation.expected.Some?
    && CreateBatch(st, claimed, call, newJobs) == Some(creation)
  }

  lemma MadeFrom(st: State, claimed: seq<string>, call: Call, newJobs: seq<string>, creation: Creation)
      returns (retained: Retained)
    requires Made(st, claimed, call, newJobs, creation)
    ensures RetainedOk(st, claimed, |claimed|, call.worker, retained) && NoneTwice(retained.ids)
    ensures ExpectedPages(retained.st, retained.ids, Reconcile(st, claimed)) == creation.expected
    ensures creation.st == retained.st.(batches := st.batches[call.batch :=
                             Batch(Some(call.worker), map[], Members(retained.st, retained.ids))])
  {
    retained := Retain(st, claimed, |claimed|, call.worker, newJobs, call.now).value;
    RetainKeeps(st, claimed, |claimed|, call.worker, newJobs, call.now);
    assert Distinct(retained.ids) == retained.ids;
  }

  ghost predicate IsMemberOf(batch: Batch, id: string) {
    exists m :: m in batch.members && m.job == id
  }

  /** A job for a page: it is to be shown as it is. */
  predicate IsPageJob(job: Outbox.Job) {
    job.operation in {"upsert", "rename", "restore"}
  }

  /** The page is active with the revision and epoch of the job, and has a file. */
  predicate IsFit(st: State, job: Outbox.Job) {
    && job.pageId.Some? && job.pageId.value in st.pages
    && var page := st.pages[job.pageId.value];
       page.lifecycle == Rag.Active && page.revision == job.revisionId && page.epoch == job.epoch
       && page.fileHash.Some? && page.fileHash.value != ""
  }

  /**
    The members are the claimed jobs but the page jobs that do not fit their pages, untouched; those are
    superseded.
   */
  lemma MembersAreThoseThatFit(
      st: State, claimed: seq<string>, call: Call, newJobs: seq<string>, creation: Creation, id: string)
    requires Made(st, claimed, call, newJobs, creation) && id in claimed
    ensures id in st.jobs && Outbox.Owns(st.jobs, id, call.worker) && id in creation.st.jobs
    ensures call.batch in creation.st.batches
    ensures var stays := IsPageJob(st.jobs[id]) ==> IsFit(st, st.jobs[id]);
            && (IsMemberOf(creation.st.batches[call.batch], id) <==> stays)
            && creation.st.jobs[id]
               == if stays then st.jobs[id]
                  else st.jobs[id].(status := Outbox.Superseded, leaseOwner := None, leaseExpiresAt := None)
  {
    var retained := MadeFrom(st, claimed, call, newJobs, creation);
    var i :| 0 <= i < |claimed| && claimed[i] == id;
    assert IsClaimed(claimed, |claimed|, id);
    assert RowOk(st, claimed, |claimed|, call.worker, retained, id);
    var members := creation.st.batches[call.batch].members;
    if id in retained.ids {
      var k :| 0 <= k < |retained.ids| && retained.ids[k] == id;
      assert members[k] in members && members[k].job == id;
    }
    ClaimedIsOwned(st, claimed, |claimed|, call.worker, newJobs, call.now, id);
  }

  /** A claimed job asks for a reconciliation. */
  predicate AsksToReconcile(st: State, claimed: seq<string>) {
    exists id :: id in claimed && id in st.jobs && st.jobs[id].operation in {"delete", "rename", "reconcile"}
  }

  /** The page can be sent to the remote side. */
  ghost predicate CanBeSent(page: Page) {
    page.lifecycle == Rag.Active && page.revision.Some? && page.fileHash.Some? && IsSafe(page.path)
  }

  /** A claimed page job for the page, which fits it. */
  ghost predicate IsAskedFor(st: State, claimed: seq<string>, page: string) {
    exists id :: id in claimed && id in st.jobs && IsPageJob(st.jobs[id]) && st.jobs[id].pageId == Some(page)
                 && IsFit(st, st.jobs[id])
  }

  /**
    A batch made from a delete, a rename or a reconcile job expects every page that can be sent; any other
    expects the pages for which a claimed job asks that fits.  It expects them as they are.
   */
  lemma PagesExpected(
      st: State, claimed: seq<string>, call: Call, newJobs: seq<string>, creation: Creation, page: string)
    requires Made(st, claimed, call, newJobs, creation)
    ensures page in creation.expected.value
            <==> page in st.pages
                 && if AsksToReconcile(st, claimed) then CanBeSent(st.pages[page]) else IsAskedFor(st, claimed, page)
    ensures page in creation.expected.value ==>
              var row, entry := st.pages[page], creation.expected.value[page];
              && row.lifecycle == Rag.Active && entry.page == page && row.revision == Some(entry.revision)
              && entry.epoch == row.epoch && "wiki/" + entry.path == row.path && row.fileHash == Some(entry.fileHash)
  {
    var retained := MadeFrom(st, claimed, call, newJobs, creation);
    AskedForIsWanted(st, claimed, call.worker, retained, page);
    if page in st.pages {
      ManifestPathIsSafe(st.pages[page].path);
    }
    if page in creation.expected.value {
      ExpectedIsActive(retained.st, retained.ids, Reconcile(st, claimed), page);
    }
  }

  lemma AskedForIsWanted(st: State, claimed: seq<string>, worker: string, retained: Retained, page: string)
    requires RetainedOk(st, claimed, |claimed|, worker, retained)
    ensures page in WantedPages(retained.st, retained.ids) <==> IsAskedFor(st, claimed, page)
  {
    forall id | id in st.jobs
      ensures id in retained.ids <==> id in claimed && IsRetained(st, st.jobs[id])
      ensures id in retained.ids ==> retained.st.jobs[id] == st.jobs[id]
    {
      assert RowOk(st, claimed, |claimed|, worker, retained, id);
    }
  }

  // ---------- When a batch is made ----------

  /** The worker holds every job. */
  predicate AreHeld(jobs: Outbox.Jobs, ids: seq<string>, worker: string) {
    forall i :: 0 <= i < |ids| ==>
      ids[i] in jobs && jobs[ids[i]].status == Outbox.Running && jobs[ids[i]].leaseOwner == Some(worker)
  }

  lemma {:induction false} RetainGoesThrough(
      st: State, claimed: seq<string>, n: nat, worker: string, newJobs: seq<string>, now: int)
    requires n <= |claimed| <= |newJobs| && NoneTwice(claimed) && AreHeld(st.jobs, claimed, worker)
    ensures Retain(st, claimed, n, worker, newJobs, now).Some?
    ensures var ids := Retain(st, claimed, n, worker, newJobs, now).value.ids;
            NoneTwice(ids) && forall id :: id in ids ==> IsClaimed(claimed, n, id)
  {
    if n > 0 {
      RetainGoesThrough(st, claimed, n - 1, worker, newJobs, now);
      RetainKeeps(st, claimed, n - 1, worker, newJobs, now);
      var before := Retain(st, claimed, n - 1, worker, newJobs, now).value;
      assert RowOk(st, claimed, n - 1, worker, before, claimed[n - 1]);
      assert !IsClaimed(claimed, n - 1, claimed[n - 1]);
      forall i | 0 <= i < |before.ids| ensures before.ids[i] != claimed[n - 1] {
        assert before.ids[i] in before.ids;
      }
      forall id ensures IsClaimed(claimed, n, id) <==> IsClaimed(claimed, n - 1, id) || id == claimed[n - 1] {
        ClaimedOneMore(claimed, n, id);
      }
    }
  }

  lemma {:induction false} DistinctIsSame(ids: seq<string>)
    requires NoneTwice(ids)
    ensures Distinct(ids) == ids
  {
    if ids != [] {
      var last := |ids| - 1;
      DistinctIsSame(ids[..last]);
      assert ids[last] !in ids[..last];
    }
  }

  /**
    For jobs that the worker holds, each once, and a new batch id: the transaction goes through exactly if a job
    asks for a reconciliation or every page asked for can be sent; and there is a batch then exactly if a job asks
    for a reconciliation or some page is asked for.
   */
  lemma BatchIsMade(st: State, claimed: seq<string>, call: Call, newJobs: seq<string>)
    requires claimed != [] && |claimed| <= |newJobs| && NoneTwice(claimed)
    requires AreHeld(st.jobs, claimed, call.worker) && call.batch !in st.batches
    ensures var outcome := CreateBatch(st, claimed, call, newJobs);
            && (outcome.Some? <==>
                  || AsksToReconcile(st, claimed)
                  || forall page :: IsAskedFor(st, claimed, page) ==> CanBeSent(st.pages[page]))
            && (outcome.Some? ==>
                  (Made(st, claimed, call, newJobs, outcome.value) <==>
                     AsksToReconcile(st, claimed) || exists page :: IsAskedFor(st, claimed, page)))
  {
    var retained := CreationIs(st, claimed, call, newJobs);
    ExpectedWhenSent(st, claimed, call.worker, retained);
    if exists page :: IsAskedFor(st, claimed, page) {
      var page :| IsAskedFor(st, claimed, page);
      AskedForIsRetained(st, claimed, call.worker, retained, page);
    }
    AsksIsReconcile(st, claimed);
  }

  lemma AsksIsReconcile(st: State, claimed: seq<string>)
    ensures AsksToReconcile(st, claimed) <==> Reconcile(st, claimed)
  {
    if AsksToReconcile(st, claimed) {
      var id :| id in claimed && id in st.jobs && st.jobs[id].operation in {"delete", "rename", "reconcile"};
      assert Reconciles(st.jobs[id].operation);
    }
  }

  lemma AskedForIsRetained(st: State, claimed: seq<string>, worker: string, retained: Retained, page: string)
    requires RetainedOk(st, claimed, |claimed|, worker, retained) && IsAskedFor(st, claimed, page)
    ensures retained.ids != []
  {
    var id :| id in claimed && id in st.jobs && IsPageJob(st.jobs[id]) && IsFit(st, st.jobs[id]);
    assert IsClaimed(claimed, |claimed|, id);
    assert RowOk(st, claimed, |claimed|, worker, retained, id);
  }

  // The transaction, as far as it depends on the pages expected.
  lemma CreationIs(st: State, claimed: seq<string>, call: Call, newJobs: seq<string>) returns (retained: Retained)
    requires claimed != [] && |claimed| <= |newJobs| && NoneTwice(claimed)
    requires AreHeld(st.jobs, claimed, call.worker) && call.batch !in st.batches
    ensures RetainedOk(st, claimed, |claimed|, call.worker, retained)
    ensures var outcome := CreateBatch(st, claimed, call, newJobs);
            var expected := ExpectedPages(retained.st, retained.ids, false);
            if Reconcile(st, claimed) then outcome.Some? && outcome.value.expected.Some?
            else if retained.ids == [] then outcome.Some? && outcome.value.expected.None?
            else
              && (outcome.Some? <==> expected.Some?)
              && (outcome.Some? ==> (outcome.value.expected.Some? <==> expected.value != map[]))
  {
    RetainGoesThrough(st, claimed, |claimed|, call.worker, newJobs, call.now);
    RetainKeeps(st, claimed, |claimed|, call.worker, newJobs, call.now);
    retained := Retain(st, claimed, |claimed|, call.worker, newJobs, call.now).value;
    DistinctIsSame(retained.ids);
  }

  lemma ExpectedWhenSent(st: State, claimed: seq<string>, worker: string, retained: Retained)
    requires RetainedOk(st, claimed, |claimed|, worker, retained)
    ensures var expected := ExpectedPages(retained.st, retained.ids, false);
            && (expected.Some? <==> forall page :: IsAskedFor(st, claimed, page) ==> CanBeSent(st.pages[page]))
            && (expected.Some? ==>
                  (expected.value == map[] <==> !(exists page :: IsAskedFor(st, claimed, page))))
  {
    var wanted, active := WantedPages(retained.st, retained.ids), ActivePages(retained.st);
    forall page
      ensures page in wanted <==> IsAskedFor(st, claimed, page)
      ensures page in active <==> page in st.pages && CanBeSent(st.pages[page])
    {
      AskedForIsWanted(st, claimed, worker, retained, page);
      if page in st.pages {
        ManifestPathIsSafe(st.pages[page].path);
      }
    }
    var expected := ExpectedPages(retained.st, retained.ids, false);
    if expected.Some? {
      assert expected.value.Keys == wanted;
      assert expected.value == map[] <==> wanted == {};
    }
  }

  lemma {:induction false} ClaimedIsOwned(
      st: State, claimed: seq<string>, n: nat, worker: string, newJobs: seq<string>, now: int, id: string)
    requires n <= |claimed| <= |newJobs| && Retain(st, claimed, n, worker, newJobs, now).Some?
    requires IsClaimed(claimed, n, id)
    ensures Outbox.Owns(st.jobs, id, worker)
  {
    RetainKeeps(st, claimed, n - 1, worker, newJobs, now);
    var before := Retain(st, claimed, n - 1, worker, newJobs, now).value;
    if IsClaimed(claimed, n - 1, id) {
      ClaimedIsOwned(st, claimed, n - 1, worker, newJobs, now, id);
    } else {
      RetainKeeps(st, claimed, n, worker, newJobs, now);
      assert id in st.jobs && RowOk(st, claimed, n - 1, worker, before, id);
    }
  }

  lemma {:induction false} PageJobsAreDistinct(st: State, members: seq<Member>, page: string)
    requires forall i, j :: 0 <= i < j < |members| ==> members[i].job != members[j].job
    ensures NoneTwice(PageJobs(st, members, page))
  {
    if members != [] {
      var last := |members| - 1;
      PageJobsAreDistinct(st, members[..last], page);
      forall id | id in PageJobs(st, members[..last], page) ensures id != members[last].job {
        var m :| m in members[..last] && m.job == id;
      }
    }
  }

  lemma {:induction false} OwnedAreFinished(jobs: Outbox.Jobs, ids: seq<string>, n: nat, worker: string,
      status: Outbox.Status)
    requires n <= |ids| && NoneTwice(ids) && AllOwned(jobs, ids, worker) && Outbox.Terminal(status)
    ensures FinishAll(jobs, ids, n, worker, status).Some?
  {
    if n > 0 {
      OwnedAreFinished(jobs, ids, n - 1, worker, status);
      FinishAllRow(jobs, ids, n - 1, worker, status, ids[n - 1]);
    }
  }

  /** The segment of a new batch is taken up by its worker. */
  function Started(creation: Creation, call: Call): State
    requires call.batch in creation.st.batches
  {
    var batch := creation.st.batches[call.batch];
    var running := batch.(segments := batch.segments[call.segment := call.worker]);
    creation.st.(batches := creation.st.batches[call.batch := running])
  }

  lemma MemberJobFits(
      st: State, claimed: seq<string>, worker: string, retained: Retained, after: State, page: string, id: string)
    requires RetainedOk(st, claimed, |claimed|, worker, retained) && after.jobs == retained.st.jobs
    requires id in PageJobs(after, Members(retained.st, retained.ids), page)
    ensures id in st.jobs && Outbox.Owns(after.jobs, id, worker) && after.jobs[id] == st.jobs[id]
    ensures after.jobs[id].pageId == Some(page) && MatchesJob(PageOf(st, page), after.jobs[id])
  {
    var members := Members(retained.st, retained.ids);
    var m :| m in members && m.job == id && m.page == Some(page) && OnPage(m.operation);
    var k :| 0 <= k < |members| && members[k] == m;
    assert retained.ids[k] in retained.ids;
    assert RowOk(st, claimed, |claimed|, worker, retained, id);
  }

  lemma ExpectedIsActive(st: State, ids: seq<string>, reconcile: bool, page: string)
    requires ExpectedPages(st, ids, reconcile).Some? && page in ExpectedPages(st, ids, reconcile).value
    ensures page in st.pages && CanBeExpected(st.pages[page])
    ensures ExpectedPages(st, ids, reconcile).value[page] == ExpectedOf(page, st.pages[page])
  {
  }

  lemma MembersAreDistinct(st: State, ids: seq<string>)
    requires NoneTwice(ids) && forall id :: id in ids ==> id in st.jobs
    ensures var members := Members(st, ids);
            forall i, j :: 0 <= i < j < |members| ==> members[i].job != members[j].job
  {
  }

  lemma JobsOfExpectedPage(
      st: State, claimed: seq<string>, call: Call, newJobs: seq<string>, creation: Creation, page: string)
    requires Made(st, claimed, call, newJobs, creation) && call.batch in creation.st.batches
    requires page in creation.expected.value
    ensures var started := Started(creation, call);
            var ids := PageJobs(started, started.batches[call.batch].members, page);
            && NoneTwice(ids) && AllOwned(started.jobs, ids, call.worker)
            && Wanted(started.jobs, ids, creation.expected.value[page])
            && page in st.pages && CanBeExpected(st.pages[page])
            && creation.expected.value[page] == ExpectedOf(page, st.pages[page])
            && started == st.(jobs := started.jobs, batches := started.batches)
  {
    var retained := MadeFrom(st, claimed, call, newJobs, creation);
    var started := Started(creation, call);
    var ids := PageJobs(started, started.batches[call.batch].members, page);
    MembersAreDistinct(retained.st, retained.ids);
    PageJobsAreDistinct(started, started.batches[call.batch].members, page);
    ExpectedIsActive(retained.st, retained.ids, Reconcile(st, claimed), page);
    MemberJobsFit(st, claimed, call.worker, retained, started, page, ids, creation.expected.value[page]);
  }

  lemma MemberJobsFit(
      st: State, claimed: seq<string>, worker: string, retained: Retained, after: State, page: string,
      ids: seq<string>, expected: ExpectedPage)
    requires RetainedOk(st, claimed, |claimed|, worker, retained) && after.jobs == retained.st.jobs
    requires ids == PageJobs(after, Members(retained.st, retained.ids), page)
    requires page in st.pages && CanBeExpected(st.pages[page]) && expected == ExpectedOf(page, st.pages[page])
    ensures AllOwned(after.jobs, ids, worker) && Wanted(after.jobs, ids, expected)
  {
    forall i | 0 <= i < |ids|
      ensures Outbox.Owns(after.jobs, ids[i], worker) && after.jobs[ids[i]].pageId == Some(page)
      ensures MatchesJob(PageOf(st, page), after.jobs[ids[i]])
    {
      MemberJobFits(st, claimed, worker, retained, after, page, ids[i]);
    }
  }

  /** The result says which remote document it made, of what content and generation. */
  predicate HasIdentity(result: PageResult) {
    && result.slug.Some? && result.slug.value != "" && result.contentHash.Some? && result.contentHash.value != ""
    && result.generation.Some?
  }

  /** Another page has the slug, in a mapping that is not deleted. */
  predicate IsTaken(mappings: Mappings, source: string, slug: Option<string>, page: string) {
    exists m :: m in mappings && mappings[m].source == source && Some(mappings[m].slug) == slug
                && mappings[m].status != MappingStatus.Deleted && mappings[m].page != page
  }

  /** What becomes of a result for a page of an untouched batch. */
  function FreshBranch(st: State, source: string, page: string, result: PageResult): Branch
    requires page in st.pages
  {
    if st.pages[page].semanticHash.None? || st.pages[page].semanticHash.value == "" then Moved
    else if !HasIdentity(result) then Refused("GBrain page result omitted mapping identity")
    else if IsTaken(st.mappings, source, result.slug, page) then Refused("ambiguous GBrain slug attribution")
    else Written
  }

  lemma TakenIsOccupied(mappings: Mappings, source: string, slug: string, page: string)
    ensures IsTaken(mappings, source, Some(slug), page) <==> OccupiedByOther(mappings, source, slug, page)
  {
    if IsTaken(mappings, source, Some(slug), page) {
      var m :| m in mappings && mappings[m].source == source && Some(mappings[m].slug) == Some(slug)
               && mappings[m].status != MappingStatus.Deleted && mappings[m].page != page;
      assert InSlot(mappings[m], source, slug);
    }
    if OccupiedByOther(mappings, source, slug, page) {
      var m :| m in mappings && InSlot(mappings[m], source, slug) && mappings[m].status != MappingStatus.Deleted
               && mappings[m].page != page;
      assert Some(mappings[m].slug) == Some(slug);
    }
  }

  /** The result is written and mapped, or the mapping table stays as it is. */
  ghost predicate Attributed(st: State, after: State, source: string, page: string, result: PageResult)
    requires page in st.pages
  {
    if FreshBranch(st, source, page, result) == Written then
      after.generation == st.generation + 1 && MapsResult(after.mappings, source, page, st.pages[page], result)
    else after.generation == st.generation && after.mappings == st.mappings
  }

  /**
    If nothing changes between making a batch and attributing a result for one of its pages, the
    result is attributed.  A current mapping then shows the page with the result's document exactly when the
    page's revision has a semantic hash, the result has an identity and no other page has the slug, and the
    page's jobs succeed; without a hash they are superseded, otherwise they fail, and in both cases no mapping
    changes.
   */
  lemma FreshBatchIsAttributed(
      st: State, claimed: seq<string>, call: Call, newJobs: seq<string>, creation: Creation, page: string,
      result: PageResult)
    requires Made(st, claimed, call, newJobs, creation) && call.batch in creation.st.batches
    requires page in creation.expected.value && call.newMapping !in st.mappings
    ensures page in st.pages
    ensures var started := Started(creation, call);
            var outcome := PageSuccess(started, call, creation.expected.value[page], result);
            && outcome.Some? && Attributed(st, outcome.value, call.source, page, result)
            && Settled(started.jobs, outcome.value.jobs, MemberJobs(started, call, page),
                       Ending(FreshBranch(st, call.source, page, result)))
  {
    JobsOfExpectedPage(st, claimed, call, newJobs, creation, page);
    var started := Started(creation, call);
    var expected := creation.expected.value[page];
    var kept := WithProtections(started, expected, result);
    OwnedIsAttributed(started, call, expected, result);
    AttributesFresh(kept, call, MemberJobs(started, call, page), expected, result);
    SameFresh(st, kept, call.source, page, result);
  }

  lemma SameFresh(st: State, kept: State, source: string, page: string, result: PageResult)
    requires page in st.pages && kept.pages == st.pages && kept.mappings == st.mappings
    requires kept.generation == st.generation
    ensures FreshBranch(kept, source, page, result) == FreshBranch(st, source, page, result)
    ensures forall after :: Attributed(kept, after, source, page, result) == Attributed(st, after, source, page, result)
  {
  }

  lemma FreshIsBranch(st: State, ids: seq<string>, source: string, expected: ExpectedPage, result: PageResult)
    requires expected.page in st.pages && CanBeExpected(st.pages[expected.page])
    requires expected == ExpectedOf(expected.page, st.pages[expected.page]) && Wanted(st.jobs, ids, expected)
    ensures FreshBranch(st, source, expected.page, result) == PageBranch(st, ids, source, expected, result)
  {
    if result.slug.Some? {
      TakenIsOccupied(st.mappings, source, result.slug.value, expected.page);
    }
  }

  lemma AttributesFresh(st: State, call: Call, ids: seq<string>, expected: ExpectedPage, result: PageResult)
    requires NoneTwice(ids) && AllOwned(st.jobs, ids, call.worker) && Wanted(st.jobs, ids, expected)
    requires expected.page in st.pages && CanBeExpected(st.pages[expected.page])
    requires expected == ExpectedOf(expected.page, st.pages[expected.page])
    requires call.newMapping !in st.mappings
    ensures var branch := FreshBranch(st, call.source, expected.page, result);
            var outcome := AttributePage(st, call, ids, expected, result);
            && outcome.Some? && Attributed(st, outcome.value, call.source, expected.page, result)
            && Settled(st.jobs, outcome.value.jobs, ids, Ending(branch))
  {
    var branch := FreshBranch(st, call.source, expected.page, result);
    FreshIsBranch(st, ids, call.source, expected, result);
    OwnedAreFinished(st.jobs, ids, |ids|, call.worker, Ending(branch));
    var after := AttributePage(st, call, ids, expected, result).value;
    AttributePageSettles(st, call, ids, expected, result, after);
    match branch
    case Moved => SupersedeSettles(st, call, ids, expected.page, after);
    case Refused(reason) => FailPageSettles(st, call, ids, expected.page, result, reason, after);
    case Written => WriteMappingIsShown(st, call, ids, st.pages[expected.page], expected, result, after);
  }
}
