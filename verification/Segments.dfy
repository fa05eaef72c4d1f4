/**
  Cutting the pages of a batch into segments, and settling the jobs that are left when all segments are done.
 */
module Segments {
  import opened Options
  import opened Attribution
  import Outbox

  const SEGMENT_SIZE: nat := 100

  datatype Mode = Incremental | Reconcile

  datatype Segment = Segment(index: nat, mode: Mode, pages: seq<ExpectedPage>)

  // ---------- Ordering pages by id ----------

  predicate StringLeq(a: string, b: string) {
    if a == "" then true
    else if b == "" then false
    else if a[0] != b[0] then a[0] < b[0]
    else StringLeq(a[1..], b[1..])
  }

  lemma {:induction false} StringLeqTotal(a: string, b: string)
    ensures StringLeq(a, b) || StringLeq(b, a)
  {
    if a != "" && b != "" && a[0] == b[0] {
      StringLeqTotal(a[1..], b[1..]);
    }
  }

  lemma {:induction false} StringLeqTransitive(a: string, b: string, c: string)
    requires StringLeq(a, b) && StringLeq(b, c)
    ensures StringLeq(a, c)
  {
    if a != "" && b != "" && c != "" && a[0] == b[0] == c[0] {
      StringLeqTransitive(a[1..], b[1..], c[1..]);
    }
  }

  ghost predicate Sorted(pages: seq<ExpectedPage>) {
    forall i, j :: 0 <= i < j < |pages| ==> StringLeq(pages[i].page, pages[j].page)
  }

  /** The pages with a given id among the first n, in their order. */
  function WithId(pages: seq<ExpectedPage>, n: nat, id: string): seq<ExpectedPage>
    requires n <= |pages|
  {
    if n == 0 then []
    else WithId(pages, n - 1, id) + if pages[n - 1].page == id then [pages[n - 1]] else []
  }

  /** The same pages, sorted by id, with pages of one id in their old order. */
  ghost predicate IsSortOf(sorted: seq<ExpectedPage>, pages: seq<ExpectedPage>) {
    && Sorted(sorted) && forall id :: WithId(sorted, |sorted|, id) == WithId(pages, |pages|, id)
  }

  /** Puts a page behind those among the first n that do not come after it. */
  function Position(sorted: seq<ExpectedPage>, n: nat, page: ExpectedPage): (k: nat)
    requires n <= |sorted|
    ensures k <= n && (k > 0 ==> StringLeq(sorted[k - 1].page, page.page))
    ensures forall i :: k <= i < n ==> !StringLeq(sorted[i].page, page.page)
  {
    if n == 0 || StringLeq(sorted[n - 1].page, page.page) then n else Position(sorted, n - 1, page)
  }

  lemma {:induction false} WithIdOfStretch(pages: seq<ExpectedPage>, n: nat, other: seq<ExpectedPage>, id: string)
    requires n <= |pages| && n <= |other| && pages[..n] == other[..n]
    ensures WithId(pages, n, id) == WithId(other, n, id)
  {
    if n > 0 {
      assert pages[..n][n - 1] == other[..n][n - 1];
      assert pages[..n - 1] == pages[..n][..n - 1] == other[..n][..n - 1] == other[..n - 1];
      WithIdOfStretch(pages, n - 1, other, id);
    }
  }

  // Inserting a page that comes before all that follow it puts it last among those of its id.
  lemma {:induction false} WithIdOfInserted(sorted: seq<ExpectedPage>, k: nat, page: ExpectedPage, n: nat, id: string)
    requires k <= n <= |sorted| && forall i :: k <= i < n ==> sorted[i].page != page.page
    ensures WithId(sorted[..k] + [page] + sorted[k..], n + 1, id)
            == WithId(sorted, n, id) + if page.page == id then [page] else []
  {
    var after := sorted[..k] + [page] + sorted[k..];
    if n == k {
      assert after[..k] == sorted[..k];
      WithIdOfStretch(after, k, sorted, id);
      assert after[k] == page;
    } else {
      WithIdOfInserted(sorted, k, page, n - 1, id);
      assert after[n] == sorted[n - 1];
    }
  }

  function Sort(pages: seq<ExpectedPage>, n: nat): (sorted: seq<ExpectedPage>)
    requires n <= |pages|
    ensures |sorted| == n
  {
    if n == 0 then []
    else
      var before := Sort(pages, n - 1);
      var k := Position(before, n - 1, pages[n - 1]);
      before[..k] + [pages[n - 1]] + before[k..]
  }

  lemma InsertKeepsSorted(before: seq<ExpectedPage>, page: ExpectedPage, k: nat)
    requires Sorted(before) && k <= |before| && (k > 0 ==> StringLeq(before[k - 1].page, page.page))
    requires forall i :: k <= i < |before| ==> !StringLeq(before[i].page, page.page)
    ensures Sorted(before[..k] + [page] + before[k..])
  {
    forall i | 0 <= i < k ensures StringLeq(before[i].page, page.page) {
      if i < k - 1 {
        StringLeqTransitive(before[i].page, before[k - 1].page, page.page);
      }
    }
    forall i | k <= i < |before| ensures StringLeq(page.page, before[i].page) {
      StringLeqTotal(page.page, before[i].page);
    }
  }

  lemma {:induction false} SortIsSortOf(pages: seq<ExpectedPage>, n: nat)
    requires n <= |pages|
    ensures Sorted(Sort(pages, n))
    ensures forall id :: WithId(Sort(pages, n), n, id) == WithId(pages, n, id)
  {
    if n > 0 {
      SortIsSortOf(pages, n - 1);
      var before, page := Sort(pages, n - 1), pages[n - 1];
      var k := Position(before, n - 1, page);
      InsertKeepsSorted(before, page, k);
      StringLeqReflexive(page.page);
      forall id ensures WithId(Sort(pages, n), n, id) == WithId(pages, n, id) {
        InsertedKeepsIds(before, page, k, n - 1, id);
      }
    }
  }

  lemma InsertedKeepsIds(before: seq<ExpectedPage>, page: ExpectedPage, k: nat, n: nat, id: string)
    requires k <= n == |before| && StringLeq(page.page, page.page)
    requires forall i :: k <= i < n ==> !StringLeq(before[i].page, page.page)
    ensures WithId(before[..k] + [page] + before[k..], n + 1, id)
            == WithId(before, n, id) + if page.page == id then [page] else []
  {
    WithIdOfInserted(before, k, page, n, id);
  }

  lemma {:induction false} StringLeqReflexive(a: string)
    ensures StringLeq(a, a)
  {
    if a != "" {
      StringLeqReflexive(a[1..]);
    }
  }

  // ---------- Segments ----------

  /** The pages of the first n segments, one after another. */
  function PagesOfFirst(segments: seq<Segment>, n: nat): seq<ExpectedPage>
    requires n <= |segments|
  {
    if n == 0 then [] else PagesOfFirst(segments, n - 1) + segments[n - 1].pages
  }

  /** Full segments of the sorted pages, in order; only the last may be shorter, and only it may reconcile. */
  ghost predicate IsSegmentation(segments: seq<Segment>, mode: Mode, pages: seq<ExpectedPage>) {
    && IsSortOf(PagesOfFirst(segments, |segments|), pages)
    && (segments == [] <==> pages == [] && mode == Incremental)
    && (forall i :: 0 <= i < |segments| ==> segments[i].index == i)
    && (forall i :: 0 <= i < |segments| - 1 ==> |segments[i].pages| == SEGMENT_SIZE)
    && (segments != [] ==> |segments[|segments| - 1].pages| <= SEGMENT_SIZE)
    && (pages != [] ==> segments[|segments| - 1].pages != [])
    && (forall i :: 0 <= i < |segments| ==>
          (segments[i].mode == Reconcile <==> mode == Reconcile && i == |segments| - 1))
  }

  function ModeOf(mode: string): Option<Mode> {
    if mode == "incremental" then Some(Incremental) else if mode == "reconcile" then Some(Reconcile) else None
  }

  lemma {:induction false} SamePagesOfFirst(a: seq<Segment>, b: seq<Segment>, n: nat)
    requires n <= |a| && n <= |b| && forall i :: 0 <= i < n ==> a[i] == b[i]
    ensures PagesOfFirst(a, n) == PagesOfFirst(b, n)
  {
    if n > 0 {
      SamePagesOfFirst(a, b, n - 1);
    }
  }

  method BuildSegments(mode: string, pages: seq<ExpectedPage>) returns (segments: Option<seq<Segment>>)
    ensures segments.None? <==> ModeOf(mode).None?
    ensures segments.Some? ==> IsSegmentation(segments.value, ModeOf(mode).value, pages)
  {
    if mode != "incremental" && mode != "reconcile" {
      return None;
    }
    var ordered := Sort(pages, |pages|);
    SortIsSortOf(pages, |pages|);
    if ordered == [] && mode == "reconcile" {
      var only := [Segment(0, Reconcile, [])];
      assert PagesOfFirst(only, 0) == [] && PagesOfFirst(only, 1) == [];
      return Some(only);
    }
    var built := CutOrdered(ordered, mode == "reconcile");
    return Some(built);
  }

  method CutOrdered(ordered: seq<ExpectedPage>, reconcile: bool) returns (built: seq<Segment>)
    ensures PagesOfFirst(built, |built|) == ordered && Cut(built, |ordered|, |ordered|, reconcile)
  {
    built := [];
    var start := 0;
    while start < |ordered|
      invariant start <= |ordered| && PagesOfFirst(built, |built|) == ordered[..start]
      invariant Cut(built, start, |ordered|, reconcile)
    {
      var end := if start + SEGMENT_SIZE < |ordered| then start + SEGMENT_SIZE else |ordered|;
      var segmentMode := if reconcile && end == |ordered| then Reconcile else Incremental;
      var more := built + [Segment(|built|, segmentMode, ordered[start..end])];
      SamePagesOfFirst(built, more, |built|);
      assert ordered[..end] == ordered[..start] + ordered[start..end];
      built, start := more, end;
    }
    assert ordered[..|ordered|] == ordered;
  }

  /** Segments of the first `start` of `n` sorted pages. */
  ghost predicate Cut(built: seq<Segment>, start: nat, n: nat, reconcile: bool) {
    && (built == [] <==> start == 0)
    && (forall i :: 0 <= i < |built| ==> built[i].index == i && 0 < |built[i].pages| <= SEGMENT_SIZE)
    && (forall i :: 0 <= i < |built| && (i < |built| - 1 || start < n) ==> |built[i].pages| == SEGMENT_SIZE)
    && (forall i :: 0 <= i < |built| ==> (built[i].mode == Reconcile <==> reconcile && start == n && i == |built| - 1))
  }

  // ---------- The jobs left over ----------

  function LeftoverStatus(job: Outbox.Job): Outbox.Status {
    if job.operation == "reconcile" then Outbox.Succeeded else Outbox.Failed
  }

  /** Ends the members among the first n that still run; None when one of them is not the worker's. */
  function FinishLeftover(jobs: Outbox.Jobs, members: seq<Member>, n: nat, worker: string): Option<Outbox.Jobs>
    requires n <= |members|
  {
    if n == 0 then Some(jobs)
    else
      match FinishLeftover(jobs, members, n - 1, worker)
      case None => None
      case Some(before) =>
        var id := members[n - 1].job;
        if id !in before || before[id].status != Outbox.Running then Some(before)
        else if before[id].leaseOwner != Some(worker) then None
        else Some(Outbox.Finish(before, id, worker, LeftoverStatus(before[id]), None))
  }

  function FinishRemaining(st: State, batch: string, worker: string): Option<State> {
    if batch !in st.batches || st.batches[batch].runner != Some(worker) then None
    else
      var members := st.batches[batch].members;
      match FinishLeftover(st.jobs, members, |members|, worker)
      case None => None
      case Some(jobs) => Some(st.(jobs := jobs))
  }

  ghost predicate IsMember(members: seq<Member>, n: nat, id: string)
    requires n <= |members|
  {
    exists i :: 0 <= i < n && members[i].job == id
  }

  lemma {:induction false} LeftoverEnds(jobs: Outbox.Jobs, members: seq<Member>, n: nat, worker: string, id: string)
    requires n <= |members| && FinishLeftover(jobs, members, n, worker).Some? && id in jobs
    ensures var after := FinishLeftover(jobs, members, n, worker).value;
            && id in after
            && after[id] == if IsMember(members, n, id) && jobs[id].status == Outbox.Running then
                              Outbox.Released(jobs[id], LeftoverStatus(jobs[id]))
                            else jobs[id]
  {
    if n > 0 {
      LeftoverEnds(jobs, members, n - 1, worker, id);
      assert IsMember(members, n, members[n - 1].job);
      assert IsMember(members, n, id) <==> IsMember(members, n - 1, id) || id == members[n - 1].job;
    }
  }

  lemma {:induction false} LeftoverGoesThrough(jobs: Outbox.Jobs, members: seq<Member>, n: nat, worker: string)
    requires n <= |members|
    ensures FinishLeftover(jobs, members, n, worker).Some?
            <==> forall i :: 0 <= i < n && members[i].job in jobs && jobs[members[i].job].status == Outbox.Running ==>
                   jobs[members[i].job].leaseOwner == Some(worker)
  {
    if n > 0 {
      LeftoverGoesThrough(jobs, members, n - 1, worker);
      var before := FinishLeftover(jobs, members, n - 1, worker);
      var id := members[n - 1].job;
      if before.Some? {
        LeftoverKeys(jobs, members, n - 1, worker);
        if id in jobs {
          LeftoverEnds(jobs, members, n - 1, worker, id);
          if IsMember(members, n - 1, id) {
            var i :| 0 <= i < n - 1 && members[i].job == id;
          }
        }
      }
    }
  }

  lemma {:induction false} LeftoverKeys(jobs: Outbox.Jobs, members: seq<Member>, n: nat, worker: string)
    requires n <= |members| && FinishLeftover(jobs, members, n, worker).Some?
    ensures FinishLeftover(jobs, members, n, worker).value.Keys == jobs.Keys
  {
    if n > 0 {
      LeftoverKeys(jobs, members, n - 1, worker);
    }
  }

  /**
    The last transaction of a batch goes through exactly if the worker runs the batch and holds every member job
    that still runs.
   */
  lemma RemainingGoesThrough(st: State, batch: string, worker: string)
    ensures FinishRemaining(st, batch, worker).Some?
            <==> && batch in st.batches && st.batches[batch].runner == Some(worker)
                 && forall i :: 0 <= i < |st.batches[batch].members| ==>
                      var id := st.batches[batch].members[i].job;
                      id in st.jobs && st.jobs[id].status == Outbox.Running ==>
                        st.jobs[id].leaseOwner == Some(worker)
  {
    if batch in st.batches {
      LeftoverGoesThrough(st.jobs, st.batches[batch].members, |st.batches[batch].members|, worker);
    }
  }

  /** When the last transaction of a batch goes through, no member job is left running. */
  lemma NoMemberLeftRunning(st: State, batch: string, worker: string, after: State)
    requires FinishRemaining(st, batch, worker) == Some(after)
    ensures forall i :: 0 <= i < |st.batches[batch].members| ==>
              var id := st.batches[batch].members[i].job;
              id in st.jobs ==>
                && id in after.jobs && after.jobs[id].status != Outbox.Running
                && (st.jobs[id].status == Outbox.Running ==>
                      after.jobs[id] == st.jobs[id].(
                        status := if st.jobs[id].operation == "reconcile" then Outbox.Succeeded else Outbox.Failed,
                        leaseOwner := None, leaseExpiresAt := None))
                && (st.jobs[id].status != Outbox.Running ==> after.jobs[id] == st.jobs[id])
    ensures forall id :: id in st.jobs && !IsMember(st.batches[batch].members, |st.batches[batch].members|, id) ==>
              id in after.jobs && after.jobs[id] == st.jobs[id]
  {
    var members := st.batches[batch].members;
    forall id | id in st.jobs ensures id in after.jobs {
      LeftoverEnds(st.jobs, members, |members|, worker, id);
    }
    forall id | id in st.jobs
      ensures after.jobs[id] == if IsMember(members, |members|, id) && st.jobs[id].status == Outbox.Running then
                                  Outbox.Released(st.jobs[id], LeftoverStatus(st.jobs[id]))
                                else st.jobs[id]
    {
      LeftoverEnds(st.jobs, members, |members|, worker, id);
    }
    forall i | 0 <= i < |members| ensures IsMember(members, |members|, members[i].job) {
    }
  }
}
