/**
  The protections sent with a reconcile request.

  A protection stops the remote side from deleting a document.  A reconcile request repeats every active
  protection except those that a delete job of the batch may lift.
 */
module ReconcileRequest {
  import opened Options
  import opened Lists
  import opened Attribution
  import opened Deletions
  import Outbox

  /** The active rows of a source among the first n. */
  function ActiveRows(rows: seq<Protection>, source: string, n: nat): (active: seq<Protection>)
    requires n <= |rows|
    ensures forall row :: row in active <==> row in rows[..n] && row.active && row.mapping.source == source
  {
    if n == 0 then []
    else
      assert rows[..n] == rows[..n - 1] + [rows[n - 1]];
      ActiveRows(rows, source, n - 1)
      + if rows[n - 1].active && rows[n - 1].mapping.source == source then [rows[n - 1]] else []
  }

  function MappingsOf(rows: seq<Protection>): (mappings: seq<ProtectedMapping>)
    ensures |mappings| == |rows| && forall i :: 0 <= i < |rows| ==> mappings[i] == rows[i].mapping
  {
    seq(|rows|, i requires 0 <= i < |rows| => rows[i].mapping)
  }

  /** Those of the first n that are, or are not, in a set. */
  function Among(mappings: seq<ProtectedMapping>, keys: set<ProtectedMapping>, n: nat, inside: bool):
      (found: seq<ProtectedMapping>)
    requires n <= |mappings|
    ensures forall m :: m in found <==> m in mappings[..n] && ((m in keys) == inside)
  {
    if n == 0 then []
    else
      assert mappings[..n] == mappings[..n - 1] + [mappings[n - 1]];
      Among(mappings, keys, n - 1, inside) + if (mappings[n - 1] in keys) == inside then [mappings[n - 1]] else []
  }

  function KeysOf(rows: seq<Protection>): set<ProtectedMapping> {
    set row | row in rows :: row.mapping
  }

  /** The active protections, those named by the caller first. */
  function ActiveProtections(rows: seq<Protection>, protections: seq<ProtectedMapping>): (active: seq<ProtectedMapping>)
    ensures forall m :: m in active <==> m in KeysOf(rows)
  {
    var own := Distinct(MappingsOf(rows));
    var named := Among(protections, KeysOf(rows), |protections|, true);
    assert forall m :: m in own <==> m in KeysOf(rows) by {
      forall m | m in KeysOf(rows) ensures m in own {
        var row :| row in rows && row.mapping == m;
        var i :| 0 <= i < |rows| && rows[i] == row;
        assert MappingsOf(rows)[i] == m;
      }
    }
    Distinct(named + own)
  }

  function DesiredDeletes(snapshots: seq<JobSnapshot>, page: string): (found: seq<JobSnapshot>)
    ensures forall item :: item in found ==> item in snapshots && item.operation == "delete" && item.page == Some(page)
  {
    if snapshots == [] then []
    else
      var last := snapshots[|snapshots| - 1];
      DesiredDeletes(snapshots[..|snapshots| - 1], page)
      + if last.operation == "delete" && last.page == Some(page) then [last] else []
  }

  function SnapshotOf(mappings: seq<MappingSnapshot>, page: string, source: string): (found: seq<MappingSnapshot>)
    ensures forall m :: m in found <==> m in mappings && m.row.page == page && m.row.source == source
  {
    if mappings == [] then []
    else
      assert mappings == mappings[..|mappings| - 1] + [mappings[|mappings| - 1]];
      var last := mappings[|mappings| - 1];
      SnapshotOf(mappings[..|mappings| - 1], page, source)
      + if last.row.page == page && last.row.source == source then [last] else []
  }

  /** One delete job of the batch, unchanged since the snapshot and held by this worker, speaks for the page. */
  predicate DeleteIsUnderWay(st: State, call: Call, snapshot: Snapshot, page: string)
    requires call.batch in st.batches
  {
    var desired := DesiredDeletes(snapshot.jobs, page);
    var owners := DeleteJobs(st, st.batches[call.batch].members, {page});
    && |desired| == 1 && |owners| == 1
    && JobMatchesSnapshot(owners[0], st.jobs[owners[0]], desired[0])
    && Outbox.Owns(st.jobs, owners[0], call.worker)
    && MatchesDeleteJob(PageOf(st, page), st.jobs[owners[0]])
  }

  /** The mappings of the snapshot through which the protections of a page may be lifted. */
  function Authoritative(st: State, call: Call, snapshot: Snapshot, page: string): seq<MappingSnapshot>
    requires call.batch in st.batches
  {
    if DeleteIsUnderWay(st, call, snapshot, page) then SnapshotOf(snapshot.mappings, page, call.source) else []
  }

  predicate Protects(protection: ProtectedMapping, row: Mapping) {
    && (protection.slug.Some? || protection.sourcePath.Some?)
    && (protection.slug.Some? ==> protection.slug.value == row.slug)
    && (protection.sourcePath.Some? ==> protection.sourcePath.value == row.sourcePath)
  }

  /** The protection speaks of the mapping, which is as in the snapshot. */
  predicate Matches(st: State, protection: ProtectedMapping, candidate: MappingSnapshot) {
    Protects(protection, candidate.row) && Attribution.Unchanged(st.mappings, candidate)
  }

  /** How many of the first n mappings match. */
  function MatchCount(st: State, protection: ProtectedMapping, candidates: seq<MappingSnapshot>, n: nat): (count: nat)
    requires n <= |candidates|
    ensures count == 0 <==> forall i :: 0 <= i < n ==> !Matches(st, protection, candidates[i])
  {
    if n == 0 then 0
    else MatchCount(st, protection, candidates, n - 1) + if Matches(st, protection, candidates[n - 1]) then 1 else 0
  }

  /** A count of one means one position. */
  lemma {:induction false} OneMatch(
      st: State, protection: ProtectedMapping, candidates: seq<MappingSnapshot>, n: nat) returns (k: nat)
    requires n <= |candidates| && MatchCount(st, protection, candidates, n) == 1
    ensures k < n && forall i :: 0 <= i < n ==> (Matches(st, protection, candidates[i]) <==> i == k)
  {
    if Matches(st, protection, candidates[n - 1]) {
      k := n - 1;
    } else {
      k := OneMatch(st, protection, candidates, n - 1);
    }
  }

  predicate RowMayBeLifted(st: State, call: Call, snapshot: Snapshot, row: Protection)
    requires call.batch in st.batches
  {
    row.page.Some?
    && var candidates := Authoritative(st, call, snapshot, row.page.value);
       MatchCount(st, row.mapping, candidates, |candidates|) == 1
  }

  predicate MayBeLifted(st: State, call: Call, snapshot: Snapshot, rows: seq<Protection>, key: ProtectedMapping)
    requires call.batch in st.batches
  {
    forall row :: row in rows && row.mapping == key ==> RowMayBeLifted(st, call, snapshot, row)
  }

  function Liftable(st: State, call: Call, snapshot: Snapshot, rows: seq<Protection>): set<ProtectedMapping>
    requires call.batch in st.batches
  {
    set row | row in rows && MayBeLifted(st, call, snapshot, rows, row.mapping) :: row.mapping
  }

  /** The protections of a reconcile request; None when the batch is no longer the worker's. */
  function RequestProtections(st: State, call: Call, snapshot: Option<Snapshot>, protections: seq<ProtectedMapping>):
      Option<seq<ProtectedMapping>>
  {
    if !Runs(st, call) then None
    else
      var rows := ActiveRows(st.protections, call.source, |st.protections|);
      var active := ActiveProtections(rows, protections);
      match snapshot
      case None => Some(active)
      case Some(taken) => Some(Among(active, Liftable(st, call, taken, rows), |active|, false))
  }

  // ---------- What a request keeps ----------

  /** Some active row of the source says so. */
  ghost predicate IsActive(st: State, source: string, m: ProtectedMapping) {
    exists i :: 0 <= i < |st.protections| && st.protections[i].active && st.protections[i].mapping == m
      && m.source == source
  }

  /**
    The one delete job of the batch for the page: a running delete job under this worker, at whose epoch the
    page is gone.
   */
  ghost predicate DeletesPage(st: State, call: Call, id: string, page: string)
    requires call.batch in st.batches
  {
    && id in st.jobs && st.jobs[id].operation == "delete" && st.jobs[id].pageId == Some(page)
    && Outbox.Owns(st.jobs, id, call.worker)
    && DeleteJobs(st, st.batches[call.batch].members, {page}) == [id]
    && (exists m :: m in st.batches[call.batch].members && m.job == id && m.operation == "delete")
    && MatchesDeleteJob(PageOf(st, page), st.jobs[id])
  }

  /** The mapping is the page's, as it was in the snapshot, and the protection speaks of it. */
  predicate IsMatch(st: State, call: Call, snapshot: Snapshot, row: Protection, m: MappingSnapshot) {
    && m in snapshot.mappings && row.page == Some(m.row.page) && m.row.source == call.source
    && Matches(st, row.mapping, m)
  }

  /** A delete job of the batch speaks for the row's page, and exactly one mapping matches. */
  ghost predicate DeleteSpeaksFor(st: State, call: Call, snapshot: Snapshot, row: Protection)
    requires call.batch in st.batches
  {
    && row.page.Some?
    && (exists id :: DeletesPage(st, call, id, row.page.value))
    && (exists m :: IsMatch(st, call, snapshot, row, m)
                    && forall other :: IsMatch(st, call, snapshot, row, other) ==> other == m)
  }

  lemma LiftedRowIsSpokenFor(st: State, call: Call, snapshot: Snapshot, row: Protection)
    requires call.batch in st.batches && RowMayBeLifted(st, call, snapshot, row)
    ensures DeleteSpeaksFor(st, call, snapshot, row)
  {
    var page := row.page.value;
    var candidates := Authoritative(st, call, snapshot, page);
    var k := OneMatch(st, row.mapping, candidates, |candidates|);
    assert candidates[k] in candidates;
    assert IsMatch(st, call, snapshot, row, candidates[k]);
    forall other | IsMatch(st, call, snapshot, row, other) ensures other == candidates[k] {
      var i :| 0 <= i < |candidates| && candidates[i] == other;
    }
    var owners := DeleteJobs(st, st.batches[call.batch].members, {page});
    assert owners[0] in owners && owners == [owners[0]];
    var desired := DesiredDeletes(snapshot.jobs, page);
    assert desired[0] in desired;
    assert DeletesPage(st, call, owners[0], page);
  }

  /**
    A request has every active protection of its source, once, except those all of whose active rows may be
    lifted; and it has nothing else.
   */
  lemma RequestHasAllButLifted(st: State, call: Call, snapshot: Option<Snapshot>, protections: seq<ProtectedMapping>,
                               request: seq<ProtectedMapping>, m: ProtectedMapping)
    requires RequestProtections(st, call, snapshot, protections) == Some(request)
    ensures m in request <==>
              IsActive(st, call.source, m)
              && (snapshot.Some? ==>
                    var rows := ActiveRows(st.protections, call.source, |st.protections|);
                    !MayBeLifted(st, call, snapshot.value, rows, m))
    ensures NoneTwice(request)
  {
    var rows := ActiveRows(st.protections, call.source, |st.protections|);
    var active := ActiveProtections(rows, protections);
    ActiveKeys(st, call.source, m);
    if snapshot.Some? {
      AmongAll(active, Liftable(st, call, snapshot.value, rows), m);
      AmongIsDistinct(active, Liftable(st, call, snapshot.value, rows), |active|, false);
    }
  }

  lemma ActiveKeys(st: State, source: string, m: ProtectedMapping)
    ensures m in KeysOf(ActiveRows(st.protections, source, |st.protections|)) <==> IsActive(st, source, m)
  {
    var rows := ActiveRows(st.protections, source, |st.protections|);
    assert st.protections[..|st.protections|] == st.protections;
    if IsActive(st, source, m) {
      var i :| 0 <= i < |st.protections| && st.protections[i].active && st.protections[i].mapping == m
        && m.source == source;
      assert st.protections[i] in rows;
    }
  }

  lemma AmongAll(mappings: seq<ProtectedMapping>, keys: set<ProtectedMapping>, m: ProtectedMapping)
    ensures m in Among(mappings, keys, |mappings|, false) <==> m in mappings && m !in keys
  {
    assert mappings[..|mappings|] == mappings;
  }

  lemma {:induction false} AmongIsDistinct(mappings: seq<ProtectedMapping>, keys: set<ProtectedMapping>, n: nat,
      inside: bool)
    requires n <= |mappings| && NoneTwice(mappings)
    ensures NoneTwice(Among(mappings, keys, n, inside))
  {
    if n > 0 {
      AmongIsDistinct(mappings, keys, n - 1, inside);
      var before := Among(mappings, keys, n - 1, inside);
      forall i | 0 <= i < |before| ensures before[i] != mappings[n - 1] {
        assert before[i] in before;
      }
    }
  }

  /**
    Every active row of a protection that is left out belongs to a page gone at the epoch of the batch's one
    delete job for it, which runs under this worker, and matches exactly one mapping of the snapshot.
   */
  lemma OnlySpokenForAreLeftOut(st: State, call: Call, snapshot: Option<Snapshot>, protections: seq<ProtectedMapping>,
                                request: seq<ProtectedMapping>, i: nat)
    requires RequestProtections(st, call, snapshot, protections) == Some(request)
    requires i < |st.protections| && st.protections[i].active && st.protections[i].mapping.source == call.source
    requires st.protections[i].mapping !in request
    ensures call.batch in st.batches
    ensures snapshot.Some? && DeleteSpeaksFor(st, call, snapshot.value, st.protections[i])
    ensures Gone(PageOf(st, st.protections[i].page.value))
  {
    var row := st.protections[i];
    var rows := ActiveRows(st.protections, call.source, |st.protections|);
    assert st.protections[..|st.protections|] == st.protections;
    RequestHasAllButLifted(st, call, snapshot, protections, request, row.mapping);
    assert IsActive(st, call.source, row.mapping);
    assert row in rows;
    LiftedRowIsSpokenFor(st, call, snapshot.value, row);
  }

  /** Those that are in the list come first. */
  ghost predicate FirstIn(mappings: seq<ProtectedMapping>, named: seq<ProtectedMapping>) {
    forall i, j :: 0 <= i < j < |mappings| && mappings[j] in named ==> mappings[i] in named
  }

  lemma {:induction false} AmongKeepsFirst(mappings: seq<ProtectedMapping>, keys: set<ProtectedMapping>, n: nat,
      named: seq<ProtectedMapping>)
    requires n <= |mappings| && FirstIn(mappings, named)
    ensures FirstIn(Among(mappings, keys, n, false), named)
  {
    if n > 0 {
      AmongKeepsFirst(mappings, keys, n - 1, named);
      var before := Among(mappings, keys, n - 1, false);
      forall i | 0 <= i < |before| && mappings[n - 1] in named ensures before[i] in named {
        assert before[i] in mappings[..n - 1];
      }
    }
  }

  /** A request has the protections that the caller names before all others. */
  lemma NamedComeFirst(
      st: State, call: Call, snapshot: Option<Snapshot>, protections: seq<ProtectedMapping>,
      request: seq<ProtectedMapping>)
    requires RequestProtections(st, call, snapshot, protections) == Some(request)
    ensures FirstIn(request, protections)
  {
    var rows := ActiveRows(st.protections, call.source, |st.protections|);
    var active := ActiveProtections(rows, protections);
    ActiveNamedFirst(rows, protections);
    if snapshot.Some? {
      AmongKeepsFirst(active, Liftable(st, call, snapshot.value, rows), |active|, protections);
    }
  }

  lemma ActiveNamedFirst(rows: seq<Protection>, protections: seq<ProtectedMapping>)
    ensures FirstIn(ActiveProtections(rows, protections), protections)
  {
    var own := Distinct(MappingsOf(rows));
    var named := Among(protections, KeysOf(rows), |protections|, true);
    var active := Distinct(named + own);
    assert protections[..|protections|] == protections;
    assert (named + own)[..|named|] == named;
    DistinctOfPrefix(named + own, |named|);
    forall i, j | 0 <= i < j < |active| && active[j] in protections ensures active[i] in protections {
      assert active[j] in named + own;
      assert active[j] in KeysOf(rows) by {
        if active[j] in own {
          var k :| 0 <= k < |MappingsOf(rows)| && MappingsOf(rows)[k] == active[j];
          assert rows[k] in rows;
        }
      }
      assert active[j] in Distinct(named);
      var k :| 0 <= k < |Distinct(named)| && Distinct(named)[k] == active[j];
      assert active[k] == active[j] && k == j;
      assert active[i] == Distinct(named)[i] && active[i] in Distinct(named);
    }
  }

  // ---------- When a protection is lifted ----------

  predicate WantsDelete(item: JobSnapshot, page: string) {
    item.operation == "delete" && item.page == Some(page)
  }

  /** The j-th job of the snapshot is the only one that deletes the page. */
  predicate OnlyWanted(snapshots: seq<JobSnapshot>, page: string, j: int) {
    0 <= j < |snapshots| && forall i :: 0 <= i < |snapshots| ==> (WantsDelete(snapshots[i], page) <==> i == j)
  }

  /** The mapping is the page's and as it was, and has the slug and the path that the protection names, if any. */
  predicate Speaks(st: State, call: Call, page: string, protection: ProtectedMapping, c: MappingSnapshot) {
    && c.row.page == page && c.row.source == call.source && IsAsBefore(st, c)
    && (protection.slug.Some? || protection.sourcePath.Some?)
    && protection.slug in {None, Some(c.row.slug)} && protection.sourcePath in {None, Some(c.row.sourcePath)}
  }

  predicate OnlySpeaks(
      st: State, call: Call, page: string, protection: ProtectedMapping, rows: seq<MappingSnapshot>, n: int)
  {
    0 <= n < |rows| && forall i :: 0 <= i < |rows| ==> (Speaks(st, call, page, protection, rows[i]) <==> i == n)
  }

  /**
    The batch has one delete job for the page, which the worker holds, the snapshot has one such job, the same as
    it is now, and the page is gone as the job says.
   */
  ghost predicate IsBeingDeleted(st: State, call: Call, snapshot: Snapshot, page: string)
    requires call.batch in st.batches
  {
    var members := st.batches[call.batch].members;
    exists k, j :: OnlyDeletes(st.jobs, members, page, k) && OnlyWanted(snapshot.jobs, page, j)
                   && DeleteFits(st, call, members[k].job, page, snapshot.jobs[j])
  }

  predicate DeleteFits(st: State, call: Call, id: string, page: string, item: JobSnapshot) {
    && id in st.jobs && IsHeld(st.jobs[id], call.worker) && IsGoneFor(st, page, st.jobs[id])
    && item == JobSnapshot(id, st.jobs[id].pageId, st.jobs[id].revisionId, st.jobs[id].epoch, st.jobs[id].operation)
  }

  /** The row's page is being deleted, and one mapping of the snapshot speaks of the protection. */
  ghost predicate IsLifted(st: State, call: Call, snapshot: Snapshot, row: Protection)
    requires call.batch in st.batches
  {
    && row.page.Some? && IsBeingDeleted(st, call, snapshot, row.page.value)
    && exists n :: OnlySpeaks(st, call, row.page.value, row.mapping, snapshot.mappings, n)
  }

  lemma {:induction false} DesiredAreWhere(snapshots: seq<JobSnapshot>, page: string, p: JobSnapshot -> bool)
    requires forall item :: p(item) <==> WantsDelete(item, page)
    ensures DesiredDeletes(snapshots, page) == Where(snapshots, p)
  {
    if snapshots != [] {
      DesiredAreWhere(snapshots[..|snapshots| - 1], page, p);
    }
  }

  lemma OneDesired(snapshots: seq<JobSnapshot>, page: string)
    ensures var desired := DesiredDeletes(snapshots, page);
            && (|desired| == 1 <==> exists j :: OnlyWanted(snapshots, page, j))
            && forall j :: OnlyWanted(snapshots, page, j) ==> desired == [snapshots[j]]
  {
    var p := (item: JobSnapshot) => WantsDelete(item, page);
    DesiredAreWhere(snapshots, page, p);
    WhereOne(snapshots, p);
    assert forall j :: OnlyWanted(snapshots, page, j) <==> Lists.OnlyAt(snapshots, p, j);
  }

  lemma OneDeletes(st: State, members: seq<Member>, page: string)
    ensures |DeleteJobs(st, members, {page})| == 1 <==> exists k :: OnlyDeletes(st.jobs, members, page, k)
  {
    assert forall k :: OnlyDeletes(st.jobs, members, page, k) ==> Deletes(st.jobs, members[k], page);
    if NoneDeletes(st.jobs, members, page) {
      DeleteJobsOfNone(st, members, page);
    } else {
      var k :| 0 <= k < |members| && Deletes(st.jobs, members[k], page);
      if OnlyDeletes(st.jobs, members, page, k) {
        DeleteJobsOfOne(st, members, page, k);
      } else {
        var i :| 0 <= i < |members| && Deletes(st.jobs, members[i], page) && i != k;
        DeleteJobsUpTo(st, members, page, if i < k then i else k, if i < k then k else i);
      }
    }
  }

  lemma {:induction false} SnapshotIsWhere(
      mappings: seq<MappingSnapshot>, page: string, source: string, p: MappingSnapshot -> bool)
    requires forall c :: p(c) <==> c.row.page == page && c.row.source == source
    ensures SnapshotOf(mappings, page, source) == Where(mappings, p)
  {
    if mappings != [] {
      SnapshotIsWhere(mappings[..|mappings| - 1], page, source, p);
    }
  }

  lemma {:induction false} CountIsWhere(
      st: State, protection: ProtectedMapping, found: seq<MappingSnapshot>, n: nat, q: MappingSnapshot -> bool)
    requires n <= |found| && forall c :: q(c) <==> Matches(st, protection, c)
    ensures MatchCount(st, protection, found, n) == |Where(found[..n], q)|
  {
    if n > 0 {
      CountIsWhere(st, protection, found, n - 1, q);
      assert found[..n] == found[..n - 1] + [found[n - 1]];
      OneMoreWhere(found[..n - 1], found[n - 1], q);
    }
  }

  /** One mapping that the page has in the snapshot matches exactly if one mapping of the snapshot speaks. */
  lemma OneSpeaks(
      st: State, call: Call, page: string, protection: ProtectedMapping, mappings: seq<MappingSnapshot>)
    ensures var found := SnapshotOf(mappings, page, call.source);
            MatchCount(st, protection, found, |found|) == 1
            <==> exists n :: OnlySpeaks(st, call, page, protection, mappings, n)
  {
    var found := SnapshotOf(mappings, page, call.source);
    var p := (c: MappingSnapshot) => c.row.page == page && c.row.source == call.source;
    var q := (c: MappingSnapshot) => Matches(st, protection, c);
    var both := (c: MappingSnapshot) => Speaks(st, call, page, protection, c);
    SnapshotIsWhere(mappings, page, call.source, p);
    CountIsWhere(st, protection, found, |found|, q);
    assert found[..|found|] == found;
    forall c ensures both(c) <==> p(c) && q(c) {
      MatchingSpeaks(st, call, page, protection, c);
    }
    WhereOfWhere(mappings, p, q, both);
    WhereOne(mappings, both);
    assert forall n :: OnlySpeaks(st, call, page, protection, mappings, n) <==> Lists.OnlyAt(mappings, both, n);
  }

  lemma MatchingSpeaks(st: State, call: Call, page: string, protection: ProtectedMapping, c: MappingSnapshot)
    ensures Speaks(st, call, page, protection, c)
            <==> c.row.page == page && c.row.source == call.source && Matches(st, protection, c)
  {
  }

  lemma BeingDeletedIsUnderWay(st: State, call: Call, snapshot: Snapshot, page: string)
    requires call.batch in st.batches
    ensures DeleteIsUnderWay(st, call, snapshot, page) <==> IsBeingDeleted(st, call, snapshot, page)
  {
    var members := st.batches[call.batch].members;
    OneDesired(snapshot.jobs, page);
    OneDeletes(st, members, page);
    if (exists k :: OnlyDeletes(st.jobs, members, page, k)) && exists j :: OnlyWanted(snapshot.jobs, page, j) {
      var k :| OnlyDeletes(st.jobs, members, page, k);
      var j :| OnlyWanted(snapshot.jobs, page, j);
      UnderWayIfFits(st, call, snapshot, page, k, j);
    }
  }

  lemma UnderWayIfFits(st: State, call: Call, snapshot: Snapshot, page: string, k: int, j: int)
    requires call.batch in st.batches && OnlyDeletes(st.jobs, st.batches[call.batch].members, page, k)
    requires OnlyWanted(snapshot.jobs, page, j)
    ensures var id := st.batches[call.batch].members[k].job;
            && (DeleteIsUnderWay(st, call, snapshot, page) <==> DeleteFits(st, call, id, page, snapshot.jobs[j]))
            && (IsBeingDeleted(st, call, snapshot, page) <==> DeleteFits(st, call, id, page, snapshot.jobs[j]))
  {
    var members := st.batches[call.batch].members;
    OneDesired(snapshot.jobs, page);
    DeleteJobsOfOne(st, members, page, k);
    assert Deletes(st.jobs, members[k], page);
    forall k', j' | OnlyDeletes(st.jobs, members, page, k') && OnlyWanted(snapshot.jobs, page, j')
      ensures k' == k && j' == j
    {
      assert Deletes(st.jobs, members[k'], page) && WantsDelete(snapshot.jobs[j'], page);
    }
  }

  lemma LiftedMayBeLifted(st: State, call: Call, snapshot: Snapshot, row: Protection)
    requires call.batch in st.batches
    ensures RowMayBeLifted(st, call, snapshot, row) <==> IsLifted(st, call, snapshot, row)
  {
    if row.page.Some? {
      BeingDeletedIsUnderWay(st, call, snapshot, row.page.value);
      OneSpeaks(st, call, row.page.value, row.mapping, snapshot.mappings);
    }
  }

  /**
    An active protection is left out of a request exactly if there is a snapshot, and for each of its active rows
    the page is being deleted and just one mapping of the snapshot speaks of it.
   */
  lemma LeftOutExactlyIfLifted(
      st: State, call: Call, snapshot: Option<Snapshot>, protections: seq<ProtectedMapping>,
      request: seq<ProtectedMapping>, m: ProtectedMapping)
    requires RequestProtections(st, call, snapshot, protections) == Some(request) && IsActive(st, call.source, m)
    ensures call.batch in st.batches
    ensures m !in request
            <==> snapshot.Some?
                 && forall i :: 0 <= i < |st.protections| && st.protections[i].active
                                && st.protections[i].mapping == m ==>
                      IsLifted(st, call, snapshot.value, st.protections[i])
  {
    RequestHasAllButLifted(st, call, snapshot, protections, request, m);
    if snapshot.Some? {
      var rows := ActiveRows(st.protections, call.source, |st.protections|);
      assert st.protections[..|st.protections|] == st.protections;
      forall row | row in rows
        ensures RowMayBeLifted(st, call, snapshot.value, row) <==> IsLifted(st, call, snapshot.value, row)
      {
        LiftedMayBeLifted(st, call, snapshot.value, row);
      }
      forall i | 0 <= i < |st.protections| && st.protections[i].active && st.protections[i].mapping == m
        ensures st.protections[i] in rows
      {
        assert st.protections[i] in st.protections;
      }
    }
  }
}
