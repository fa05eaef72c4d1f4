/**
  Delayed deletes: a vanished file becomes a pending row that expiry completes or a move cancels.

  Both sides race for the row through claims that go stale.  A row is matched by an owner, and the
  claim is fresh while `updatedAt` is less than the lease old at the caller's time.
 */
module DelayedDeletes {
  import opened Options

  datatype Status = Pending | Cancelled | Completed

  datatype Row = Row(
    occurrence: string,
    pageId: string,
    oldPath: string,
    detectedAt: int,
    expiresAt: int,
    status: Status,
    matched: Option<string>,
    updatedAt: int
  )

  type Rows = map<string, Row>

  datatype Step =
    | Queue(newId: string, occurrence: string, pageId: string, oldPath: string, detectedAt: int, expiresAt: int)
    | Claim(id: string, owner: string, now: int, dueAt: int)
    | Renew(id: string, owner: string, now: int)
    | Release(id: string, owner: string, now: int)
    | Cancel(id: string, occurrence: string, now: int)
    | CancelClaimed(id: string, owner: string, occurrence: string, now: int)
    | Complete(id: string, holder: Option<string>, now: int)
    // the cancel inside a page move, in the transaction of wiki_revisions
    | MoveCancel(id: string, owner: string, occurrence: string, pageId: string, oldPath: string, now: int)

  predicate FreshAt(row: Row, now: int, lease: int) {
    row.updatedAt > now - lease
  }

  /** Whether the statement changes a row: what the call returns. */
  predicate Takes(rows: Rows, lease: int, step: Step) {
    match step
    case Queue(newId, occurrence, pageId, oldPath, _, _) =>
      && newId !in rows
      && !(exists i :: i in rows && rows[i].occurrence == occurrence)
      && !(exists i :: i in rows && rows[i].status == Pending && rows[i].pageId == pageId && rows[i].oldPath == oldPath)
    case _ =>
      step.id in rows && rows[step.id].status == Pending && Admits(rows[step.id], lease, step)
  }

  // The WHERE clause beyond id and status.
  predicate Admits(row: Row, lease: int, step: Step) {
    match step
    case Queue(_, _, _, _, _, _) => false
    case Claim(_, _, now, dueAt) => row.expiresAt <= dueAt && (row.matched.None? || !FreshAt(row, now, lease))
    case Renew(_, owner, now) => row.matched == Some(owner) && FreshAt(row, now, lease)
    case Release(_, owner, _) => row.matched == Some(owner)
    case Cancel(_, _, now) => row.matched.None? || !FreshAt(row, now, lease)
    case CancelClaimed(_, owner, _, now) => row.matched == Some(owner) && FreshAt(row, now, lease)
    case Complete(_, holder, now) => row.matched == holder && (holder.Some? ==> FreshAt(row, now, lease))
    case MoveCancel(_, owner, _, pageId, oldPath, _) =>
      row.matched == Some(owner) && row.pageId == pageId && row.oldPath == oldPath
  }

  function Updated(row: Row, step: Step): Row {
    match step
    case Queue(_, _, _, _, _, _) => row
    case Claim(_, owner, now, _) => row.(matched := Some(owner), updatedAt := now)
    case Renew(_, _, now) => row.(updatedAt := now)
    case Release(_, _, now) => row.(matched := None, updatedAt := now)
    case Cancel(_, occurrence, now) => row.(status := Cancelled, matched := Some(occurrence), updatedAt := now)
    case CancelClaimed(_, _, occurrence, now) =>
      row.(status := Cancelled, matched := Some(occurrence), updatedAt := now)
    case Complete(_, _, now) => row.(status := Completed, matched := None, updatedAt := now)
    case MoveCancel(_, _, occurrence, _, _, now) =>
      row.(status := Cancelled, matched := Some(occurrence), updatedAt := now)
  }

  function Apply(rows: Rows, lease: int, step: Step): Rows {
    if !Takes(rows, lease, step) then rows
    else if step.Queue? then
      rows[step.newId := Row(step.occurrence, step.pageId, step.oldPath, step.detectedAt, step.expiresAt,
                             Pending, None, step.detectedAt)]
    else rows[step.id := Updated(rows[step.id], step)]
  }

  function Run(rows: Rows, lease: int, steps: seq<Step>): Rows
    decreases |steps|
  {
    if steps == [] then rows else Run(Apply(rows, lease, steps[0]), lease, steps[1..])
  }

  // ---------- A row ends once ----------

  predicate Ends(rows: Rows, lease: int, step: Step, id: string) {
    id in rows && rows[id].status == Pending &&
    id in Apply(rows, lease, step) && Apply(rows, lease, step)[id].status != Pending
  }

  function Endings(rows: Rows, lease: int, steps: seq<Step>, id: string): nat
    decreases |steps|
  {
    if steps == [] then 0
    else
      (if Ends(rows, lease, steps[0], id) then 1 else 0)
      + Endings(Apply(rows, lease, steps[0]), lease, steps[1..], id)
  }

  /** Once cancelled or completed, a row never changes again, so it is never both. */
  lemma {:induction false} EndedStays(rows: Rows, lease: int, steps: seq<Step>, id: string)
    requires id in rows && rows[id].status != Pending
    ensures id in Run(rows, lease, steps) && Run(rows, lease, steps)[id] == rows[id]
    ensures Endings(rows, lease, steps, id) == 0
    decreases |steps|
  {
    if steps != [] {
      EndedStays(Apply(rows, lease, steps[0]), lease, steps[1..], id);
    }
  }

  /** Along any run, at most one step ends a row, and the row then shows that step's outcome for ever. */
  lemma {:induction false} EndsOnce(rows: Rows, lease: int, steps: seq<Step>, id: string)
    ensures Endings(rows, lease, steps, id) <= 1
    ensures id in rows ==> id in Run(rows, lease, steps)
    ensures id in rows && rows[id].status == Pending ==>
      (Endings(rows, lease, steps, id) == 1 <==> Run(rows, lease, steps)[id].status != Pending)
    decreases |steps|
  {
    if steps != [] {
      var next := Apply(rows, lease, steps[0]);
      if id in next && next[id].status != Pending {
        EndedStays(next, lease, steps[1..], id);
      } else {
        EndsOnce(next, lease, steps[1..], id);
      }
    }
  }

  /** A row that ends shows how: completed and unclaimed, or cancelled by an occurrence; all else stays. */
  lemma EndingShows(rows: Rows, lease: int, step: Step, id: string)
    requires Ends(rows, lease, step, id)
    ensures !step.Queue? && step.id == id
    ensures Apply(rows, lease, step)[id]
            == if step.Complete? then rows[id].(status := Completed, matched := None, updatedAt := step.now)
               else rows[id].(status := Cancelled, matched := Apply(rows, lease, step)[id].matched,
                              updatedAt := step.now)
    ensures step.Complete? || step.Cancel? || step.CancelClaimed? || step.MoveCancel?
    ensures !step.Complete? ==> Apply(rows, lease, step)[id].matched == Some(step.occurrence)
  {
  }

  /** A cancel without a claim ends a pending row exactly if no claim of it is younger than the lease. */
  lemma CancelNeedsNoFreshClaim(rows: Rows, lease: int, id: string, occurrence: string, now: int)
    ensures Ends(rows, lease, Cancel(id, occurrence, now), id)
            <==> id in rows && rows[id].status == Pending
                 && (rows[id].matched.None? || rows[id].updatedAt <= now - lease)
  {
  }

  // ---------- Claims ----------

  function Actor(step: Step): Option<string> {
    match step
    case Claim(_, owner, _, _) => Some(owner)
    case Renew(_, owner, _) => Some(owner)
    case Release(_, owner, _) => Some(owner)
    case CancelClaimed(_, owner, _, _) => Some(owner)
    case Complete(_, holder, _) => holder
    case MoveCancel(_, owner, _, _, _, _) => Some(owner)
    case _ => None
  }

  // A claim that is fresh at the time of a step keeps everyone but its owner from changing the row,
  // and keeps even the owner from claiming it again.
  lemma FreshClaimExcludes(rows: Rows, lease: int, step: Step, id: string)
    requires id in rows && rows[id].status == Pending && rows[id].matched.Some?
    requires !step.Queue? ==> FreshAt(rows[id], step.now, lease)
    ensures id in Apply(rows, lease, step)
    ensures Apply(rows, lease, step)[id] != rows[id] ==> Actor(step) == rows[id].matched && !step.Claim?
  {
  }

  /** While a claim is fresh, no run of other parties' steps changes the row: no claim, cancel or completion. */
  lemma {:induction false} FreshClaimHolds(rows: Rows, lease: int, steps: seq<Step>, id: string)
    requires id in rows && rows[id].status == Pending && rows[id].matched.Some?
    requires forall i :: 0 <= i < |steps| ==>
      Actor(steps[i]) != rows[id].matched && (!steps[i].Queue? ==> FreshAt(rows[id], steps[i].now, lease))
    ensures id in Run(rows, lease, steps) && Run(rows, lease, steps)[id] == rows[id]
    decreases |steps|
  {
    if steps != [] {
      FreshClaimExcludes(rows, lease, steps[0], id);
      FreshClaimHolds(Apply(rows, lease, steps[0]), lease, steps[1..], id);
    }
  }

  /**
    A claim just taken or renewed keeps the row from everyone else while it is younger than the lease, and its
    owner may complete it so long; from then on anyone may claim it with a due time at which it has expired.
   */
  lemma ClaimHoldsForTheLease(rows: Rows, lease: int, step: Step, id: string, steps: seq<Step>, other: string)
    requires (step.Claim? || step.Renew?) && step.id == id && Takes(rows, lease, step)
    requires forall i :: 0 <= i < |steps| ==>
      Actor(steps[i]) != Some(step.owner) && (!steps[i].Queue? ==> steps[i].now < step.now + lease)
    ensures id in rows
    ensures var after := Run(Apply(rows, lease, step), lease, steps);
      && id in after && after[id] == rows[id].(matched := Some(step.owner), updatedAt := step.now)
      && (forall at :: at < step.now + lease ==> Takes(after, lease, Complete(id, Some(step.owner), at)))
      && (forall at, dueAt :: step.now + lease <= at ==>
            (Takes(after, lease, Claim(id, other, at, dueAt)) <==> rows[id].expiresAt <= dueAt))
  {
    FreshClaimHolds(Apply(rows, lease, step), lease, steps, id);
  }

  /** A lapsed owner can neither renew its claim nor complete or cancel under it through the store. */
  lemma LapsedOwnerIsFenced(rows: Rows, lease: int, step: Step, id: string)
    requires id in rows && rows[id].status == Pending && rows[id].matched.Some?
    requires step.Renew? || step.CancelClaimed? || step.Complete?
    requires step.id == id && Actor(step) == rows[id].matched
    ensures Takes(rows, lease, step) <==> FreshAt(rows[id], step.now, lease)
  {
  }

  /** How many steps of the owner, other than giving the claim back, take effect on the row along a run. */
  function Effects(rows: Rows, lease: int, steps: seq<Step>, id: string, owner: string): nat
    decreases |steps|
  {
    if steps == [] then 0
    else
      (if !steps[0].Queue? && steps[0].id == id && Actor(steps[0]) == Some(owner) && !steps[0].Release?
          && Takes(rows, lease, steps[0]) then 1 else 0)
      + Effects(Apply(rows, lease, steps[0]), lease, steps[1..], id, owner)
  }

  /**
    Once its claim has lapsed, an owner that does not claim again takes no further effect on the row but to
    give it back, whatever others do in between; the cancel inside a page move is excepted.
   */
  lemma {:induction false} LapsedOwnerStaysFenced(
      rows: Rows, lease: int, steps: seq<Step>, id: string, owner: string, since: int)
    requires id in rows && rows[id].status == Pending && rows[id].matched == Some(owner) ==>
      rows[id].updatedAt + lease <= since
    requires forall i :: 0 <= i < |steps| && !steps[i].Queue? ==> since <= steps[i].now
    requires forall i :: 0 <= i < |steps| && Actor(steps[i]) == Some(owner) ==>
      !steps[i].Claim? && !steps[i].MoveCancel?
    ensures Effects(rows, lease, steps, id, owner) == 0
    decreases |steps|
  {
    if steps != [] {
      var next := Apply(rows, lease, steps[0]);
      LapsedOwnerStaysFenced(next, lease, steps[1..], id, owner, since);
    }
  }

  /**
    The cancel inside a page move does not look at the age of the claim.  So a step by the owner of a
    lapsed claim ends the row exactly when it is that cancel, for the row's own page and path.
   */
  lemma LapsedOwnerEndsOnlyByMove(rows: Rows, lease: int, step: Step, id: string)
    requires id in rows && rows[id].status == Pending && rows[id].matched.Some?
    requires !step.Queue? && step.id == id && Actor(step) == rows[id].matched
    requires !FreshAt(rows[id], step.now, lease)
    ensures Ends(rows, lease, step, id)
      <==> step.MoveCancel? && step.pageId == rows[id].pageId && step.oldPath == rows[id].oldPath
  {
  }

  /** A claim taken at time 0 under a 30 second lease still lets its owner cancel at time 1000. */
  lemma LapsedOwnerCanCancelByMove()
    ensures var row := Row("o", "p", "wiki/a.md", 0, 0, Pending, Some("w"), 0);
      var rows := map["d" := row];
      var step := MoveCancel("d", "w", "o2", "p", "wiki/a.md", 1000);
      && !FreshAt(row, 1000, 30)
      && Run(map[], 30, [Queue("d", "o", "p", "wiki/a.md", 0, 0), Claim("d", "w", 0, 0)]) == rows
      && Apply(rows, 30, step)["d"].status == Cancelled
  {
    var first := Queue("d", "o", "p", "wiki/a.md", 0, 0);
    var second := Claim("d", "w", 0, 0);
    var queued := Apply(map[], 30, first);
    assert queued == map["d" := Row("o", "p", "wiki/a.md", 0, 0, Pending, None, 0)];
    assert [first, second][1..] == [second];
    assert [second][1..] == [];
    assert Run(map[], 30, [first, second]) == Run(queued, 30, [second]);
    assert Run(queued, 30, [second]) == Run(Apply(queued, 30, second), 30, []);
  }

  // ---------- Completion only after expiry ----------

  // Every claim of the row by this owner was made with that due time.
  predicate ClaimsDue(steps: seq<Step>, id: string, owner: string, dueAt: int) {
    forall i :: 0 <= i < |steps| && steps[i].Claim? && steps[i].id == id && steps[i].owner == owner ==>
      steps[i].dueAt == dueAt
  }

  /** An owner who claims a row only with due time `dueAt` holds it only if it expired by then. */
  lemma {:induction false} HeldMeansExpired(rows: Rows, lease: int, steps: seq<Step>, id: string, owner: string,
      dueAt: int)
    requires ClaimsDue(steps, id, owner, dueAt)
    requires id in rows && rows[id].status == Pending && rows[id].matched == Some(owner) ==> rows[id].expiresAt <= dueAt
    ensures var after := Run(rows, lease, steps);
      id in after && after[id].status == Pending && after[id].matched == Some(owner) ==> after[id].expiresAt <= dueAt
    decreases |steps|
  {
    if steps != [] {
      assert steps[0].Claim? && steps[0].id == id && steps[0].owner == owner ==> steps[0].dueAt == dueAt;
      HeldMeansExpired(Apply(rows, lease, steps[0]), lease, steps[1..], id, owner, dueAt);
    }
  }

  /** So such an owner completes a row only if its expiry is at or before that instant. */
  lemma CompletionFollowsExpiry(steps: seq<Step>, lease: int, id: string, owner: string, dueAt: int, now: int)
    requires ClaimsDue(steps, id, owner, dueAt)
    requires Takes(Run(map[], lease, steps), lease, Complete(id, Some(owner), now))
    ensures Run(map[], lease, steps)[id].expiresAt <= dueAt
  {
    HeldMeansExpired(map[], lease, steps, id, owner, dueAt);
  }

  // ---------- One row per absence ----------

  ghost predicate OnePerOccurrence(rows: Rows) {
    forall i, j :: i in rows && j in rows && rows[i].occurrence == rows[j].occurrence ==> i == j
  }

  predicate SameAbsence(a: Row, b: Row) {
    a.status == Pending && b.status == Pending && a.pageId == b.pageId && a.oldPath == b.oldPath
  }

  ghost predicate OnePendingPerAbsence(rows: Rows) {
    forall i, j :: i in rows && j in rows && SameAbsence(rows[i], rows[j]) ==> i == j
  }

  // A step adds one row, or rewrites one row whose identity it keeps.
  lemma StepRow(rows: Rows, lease: int, step: Step, id: string)
    requires id in Apply(rows, lease, step)
    ensures id in rows ==>
      var a := rows[id]; var b := Apply(rows, lease, step)[id];
      b.occurrence == a.occurrence && b.pageId == a.pageId && b.oldPath == a.oldPath && b.expiresAt == a.expiresAt
      && (b.status == Pending ==> a.status == Pending)
    ensures id !in rows ==>
      var b := Apply(rows, lease, step)[id];
      step.Queue? && Takes(rows, lease, step) && id == step.newId
      && b.occurrence == step.occurrence && b.pageId == step.pageId && b.oldPath == step.oldPath
  {
  }

  lemma StepKeepsUniqueness(rows: Rows, lease: int, step: Step)
    requires OnePerOccurrence(rows) && OnePendingPerAbsence(rows)
    ensures OnePerOccurrence(Apply(rows, lease, step)) && OnePendingPerAbsence(Apply(rows, lease, step))
  {
    var after := Apply(rows, lease, step);
    forall i, j | i in after && j in after
      ensures after[i].occurrence == after[j].occurrence || SameAbsence(after[i], after[j]) ==> i == j
    {
      StepRow(rows, lease, step, i);
      StepRow(rows, lease, step, j);
    }
  }

  /** One row per occurrence, and one pending row per page and path, in every reachable table. */
  lemma {:induction false} RunKeepsUniqueness(rows: Rows, lease: int, steps: seq<Step>)
    requires OnePerOccurrence(rows) && OnePendingPerAbsence(rows)
    ensures OnePerOccurrence(Run(rows, lease, steps)) && OnePendingPerAbsence(Run(rows, lease, steps))
    decreases |steps|
  {
    if steps != [] {
      StepKeepsUniqueness(rows, lease, steps[0]);
      RunKeepsUniqueness(Apply(rows, lease, steps[0]), lease, steps[1..]);
    }
  }

  // ---------- The store and the expiry loop ----------

  lemma {:induction false} RunConcat(rows: Rows, lease: int, a: seq<Step>, b: seq<Step>)
    ensures Run(rows, lease, a + b) == Run(Run(rows, lease, a), lease, b)
    decreases |a|
  {
    if a == [] {
      assert a + b == b;
    } else {
      assert (a + b)[1..] == a[1..] + b;
      RunConcat(Apply(rows, lease, a[0]), lease, a[1..], b);
    }
  }

  // The order of the ids, character by character.
  predicate AtMost(a: string, b: string) {
    a == "" || (b != "" && (a[0] < b[0] || (a[0] == b[0] && AtMost(a[1..], b[1..]))))
  }

  lemma {:induction false} AtMostIsTotal(a: string, b: string)
    ensures AtMost(a, b) || AtMost(b, a)
  {
    if a != "" && b != "" {
      AtMostIsTotal(a[1..], b[1..]);
    }
  }

  lemma {:induction false} AtMostIsTransitive(a: string, b: string, c: string)
    requires AtMost(a, b) && AtMost(b, c)
    ensures AtMost(a, c)
  {
    if a != "" && a[0] == b[0] == c[0] {
      AtMostIsTransitive(a[1..], b[1..], c[1..]);
    }
  }

  predicate DueBefore(rows: Rows, a: string, b: string)
    requires a in rows && b in rows
  {
    || rows[a].expiresAt < rows[b].expiresAt
    || (rows[a].expiresAt == rows[b].expiresAt
      && (rows[a].detectedAt < rows[b].detectedAt
        || (rows[a].detectedAt == rows[b].detectedAt && AtMost(a, b))))
  }

  lemma DueBeforeOrders(rows: Rows, a: string, b: string, ids: set<string>)
    requires a in rows && b in rows && ids <= rows.Keys
    requires !DueBefore(rows, a, b) && forall id :: id in ids ==> DueBefore(rows, a, id)
    ensures DueBefore(rows, b, a) && DueBefore(rows, b, b) && forall id :: id in ids ==> DueBefore(rows, b, id)
  {
    AtMostIsTotal(a, b);
    AtMostIsTotal(b, b);
    forall id | id in ids ensures DueBefore(rows, b, id) {
      if AtMost(b, a) && AtMost(a, id) {
        AtMostIsTransitive(b, a, id);
      }
    }
  }

  predicate Due(rows: Rows, id: string, now: int) {
    id in rows && rows[id].status == Pending && rows[id].expiresAt <= now
  }

  /** The due rows, each once, in the order of the query. */
  ghost predicate IsDueList(rows: Rows, ids: seq<string>, now: int) {
    && (forall id :: Due(rows, id, now) ==> id in ids)
    && (forall i :: 0 <= i < |ids| ==> Due(rows, ids[i], now))
    && (forall i, j :: 0 <= i < j < |ids| ==> ids[i] != ids[j] && DueBefore(rows, ids[i], ids[j]))
  }

  /**
    What happens around one candidate: the checks (`blocked`: the file is back, a write is active, or an
    add is unclassified), the clock, whether the page mutation ended the page, and the steps that other
    parties, including this claim's heartbeat, commit at each of four points.
   */
  datatype RawTurn = Turn(blocked: bool, blockedAgain: bool, deleted: bool, claimAt: int, completeAt: int,
                          releaseAt: int, others: seq<seq<Step>>)
  type Turn = t: RawTurn | |t.others| == 4 witness RawTurn.Turn(false, false, false, 0, 0, 0, [[], [], [], []])

  predicate HeldBy(row: Row, owner: string) {
    row.status == Pending && row.matched == Some(owner)
  }

  predicate HeldIn(rows: Rows, id: string, owner: string) {
    id in rows && HeldBy(rows[id], owner)
  }

  // Nobody else acts under this owner name, except its heartbeat.
  predicate OnlyRenews(steps: seq<Step>, owner: string) {
    forall i :: 0 <= i < |steps| && Actor(steps[i]) == Some(owner) ==> steps[i].Renew?
  }

  predicate Completes(rows: Rows, lease: int, step: Step, names: set<string>) {
    step.Complete? && step.holder.Some? && step.holder.value in names && Takes(rows, lease, step)
  }

  /** The rows that are completed along a run under one of these names. */
  function Completions(rows: Rows, lease: int, steps: seq<Step>, names: set<string>): set<string>
    decreases |steps|
  {
    if steps == [] then {}
    else
      (if Completes(rows, lease, steps[0], names) then {steps[0].id} else {})
      + Completions(Apply(rows, lease, steps[0]), lease, steps[1..], names)
  }

  lemma {:induction false} CompletionsConcat(rows: Rows, lease: int, a: seq<Step>, b: seq<Step>, names: set<string>)
    ensures Completions(rows, lease, a + b, names)
            == Completions(rows, lease, a, names) + Completions(Run(rows, lease, a), lease, b, names)
    decreases |a|
  {
    if a == [] {
      assert a + b == b;
    } else {
      assert (a + b)[1..] == a[1..] + b;
      CompletionsConcat(Apply(rows, lease, a[0]), lease, a[1..], b, names);
    }
  }

  ghost predicate ByStrangers(steps: seq<Step>, names: set<string>) {
    forall name :: name in names ==> OnlyRenews(steps, name)
  }

  // The names of the call are its own: the others use them for nothing but heartbeats.
  ghost predicate Strangers(turn: Turn, names: set<string>) {
    forall k :: 0 <= k < 4 ==> ByStrangers(turn.others[k], names)
  }

  lemma {:induction false} StrangersCompleteNothing(rows: Rows, lease: int, steps: seq<Step>, names: set<string>)
    requires ByStrangers(steps, names)
    ensures Completions(rows, lease, steps, names) == {}
    decreases |steps|
  {
    if steps != [] {
      assert steps[0].Complete? && steps[0].holder.Some? ==> Actor(steps[0]) == steps[0].holder;
      forall name | name in names ensures OnlyRenews(steps[1..], name) {
        assert OnlyRenews(steps, name);
      }
      StrangersCompleteNothing(Apply(rows, lease, steps[0]), lease, steps[1..], names);
    }
  }

  lemma RunOne(rows: Rows, lease: int, steps: seq<Step>, step: Step)
    ensures Run(rows, lease, steps + [step]) == Apply(Run(rows, lease, steps), lease, step)
  {
    RunConcat(rows, lease, steps, [step]);
    assert [step][1..] == [];
  }

  // The strangers' steps and one more.
  lemma CompletionsOne(rows: Rows, lease: int, steps: seq<Step>, step: Step, names: set<string>)
    requires ByStrangers(steps, names)
    ensures Completions(rows, lease, steps + [step], names)
            == if Completes(Run(rows, lease, steps), lease, step, names) then {step.id} else {}
  {
    CompletionsConcat(rows, lease, steps, [step], names);
    StrangersCompleteNothing(rows, lease, steps, names);
    assert [step][1..] == [];
  }

  // ---------- The steps of a call ----------

  /** The others' steps before the claim, and the claim, unless a check forbids it. */
  function ClaimSteps(id: string, owner: string, expireAt: int, turn: Turn): seq<Step> {
    turn.others[0] + if turn.blocked then [] else [Claim(id, owner, turn.claimAt, expireAt)]
  }

  predicate Claims(rows: Rows, lease: int, id: string, owner: string, expireAt: int, turn: Turn) {
    !turn.blocked && Takes(Run(rows, lease, turn.others[0]), lease, Claim(id, owner, turn.claimAt, expireAt))
  }

  // The row is still claimed when it is read again, and the checks still pass.
  predicate GoesOn(rows: Rows, lease: int, id: string, owner: string, turn: Turn) {
    HeldIn(Run(rows, lease, turn.others[1]), id, owner) && !turn.blockedAgain
  }

  function DeleteSteps(id: string, owner: string, turn: Turn): seq<Step> {
    turn.others[2] + if turn.deleted then [Complete(id, Some(owner), turn.completeAt)] else []
  }

  function CompleteSteps(rows: Rows, lease: int, id: string, owner: string, turn: Turn): seq<Step> {
    turn.others[1] + if GoesOn(rows, lease, id, owner, turn) then DeleteSteps(id, owner, turn) else []
  }

  predicate Deletes(rows: Rows, lease: int, id: string, owner: string, turn: Turn) {
    turn.deleted && Takes(Run(rows, lease, turn.others[2]), lease, Complete(id, Some(owner), turn.completeAt))
  }

  predicate Finishes(rows: Rows, lease: int, id: string, owner: string, turn: Turn) {
    GoesOn(rows, lease, id, owner, turn) && Deletes(Run(rows, lease, turn.others[1]), lease, id, owner, turn)
  }

  function GiveBackSteps(id: string, owner: string, turn: Turn): seq<Step> {
    turn.others[3] + [Release(id, owner, turn.releaseAt)]
  }

  function HeldSteps(rows: Rows, lease: int, id: string, owner: string, turn: Turn): seq<Step> {
    CompleteSteps(rows, lease, id, owner, turn)
    + if Finishes(rows, lease, id, owner, turn) then [] else GiveBackSteps(id, owner, turn)
  }

  /** The steps around one candidate: the others' at their points, and this call's claim, completion and release. */
  function TurnSteps(rows: Rows, lease: int, id: string, owner: string, expireAt: int, turn: Turn): seq<Step> {
    var first := ClaimSteps(id, owner, expireAt, turn);
    first + if Claims(rows, lease, id, owner, expireAt, turn)
            then HeldSteps(Run(rows, lease, first), lease, id, owner, turn) else []
  }

  /** This call completes the row under its claim. */
  predicate Expires(rows: Rows, lease: int, id: string, owner: string, expireAt: int, turn: Turn) {
    && Claims(rows, lease, id, owner, expireAt, turn)
    && Finishes(Run(rows, lease, ClaimSteps(id, owner, expireAt, turn)), lease, id, owner, turn)
  }

  /** The steps around the first n candidates. */
  function CallSteps(
      rows: Rows, lease: int, ids: seq<string>, owners: seq<string>, turns: seq<Turn>, expireAt: int, n: nat)
    : seq<Step>
    requires n <= |ids| && n <= |owners| && n <= |turns|
  {
    if n == 0 then []
    else
      var before := CallSteps(rows, lease, ids, owners, turns, expireAt, n - 1);
      before + TurnSteps(Run(rows, lease, before), lease, ids[n - 1], owners[n - 1], expireAt, turns[n - 1])
  }

  /** The rows of the first n candidates that the call completes. */
  function Expired(
      rows: Rows, lease: int, ids: seq<string>, owners: seq<string>, turns: seq<Turn>, expireAt: int, n: nat)
    : set<string>
    requires n <= |ids| && n <= |owners| && n <= |turns|
  {
    if n == 0 then {}
    else
      var found := Run(rows, lease, CallSteps(rows, lease, ids, owners, turns, expireAt, n - 1));
      Expired(rows, lease, ids, owners, turns, expireAt, n - 1)
      + if Expires(found, lease, ids[n - 1], owners[n - 1], expireAt, turns[n - 1]) then {ids[n - 1]} else {}
  }

  /** A step that the call itself makes for a candidate. */
  predicate OwnStep(step: Step, id: string, owner: string, expireAt: int) {
    && !step.Queue? && step.id == id && Actor(step) == Some(owner)
    && (step.Claim? || step.Complete? || step.Release?) && (step.Claim? ==> step.dueAt == expireAt)
  }

  /** A step that others make around one of the first n candidates. */
  predicate Given(turns: seq<Turn>, n: nat, step: Step)
    requires n <= |turns|
  {
    exists i, k :: 0 <= i < n && 0 <= k < 4 && step in turns[i].others[k]
  }

  lemma TurnStepIsOwnOrGiven(
      rows: Rows, lease: int, id: string, owner: string, expireAt: int, turn: Turn, step: Step)
    requires step in TurnSteps(rows, lease, id, owner, expireAt, turn)
    ensures OwnStep(step, id, owner, expireAt) || exists k :: 0 <= k < 4 && step in turn.others[k]
  {
  }

  /** Every step of a call is one of the given steps of the others, or the call's own for a candidate. */
  lemma {:induction false} CallStepIsOwnOrGiven(
      rows: Rows, lease: int, ids: seq<string>, owners: seq<string>, turns: seq<Turn>, expireAt: int, n: nat,
      step: Step)
    requires n <= |ids| && n <= |owners| && n <= |turns|
    requires step in CallSteps(rows, lease, ids, owners, turns, expireAt, n)
    ensures Given(turns, n, step) || exists i :: 0 <= i < n && OwnStep(step, ids[i], owners[i], expireAt)
  {
    var before := CallSteps(rows, lease, ids, owners, turns, expireAt, n - 1);
    if step in before {
      CallStepIsOwnOrGiven(rows, lease, ids, owners, turns, expireAt, n - 1, step);
    } else {
      TurnStepIsOwnOrGiven(
        Run(rows, lease, before), lease, ids[n - 1], owners[n - 1], expireAt, turns[n - 1], step);
    }
  }

  // ---------- What a call completes ----------

  lemma {:induction false} RunSettles(rows: Rows, lease: int, steps: seq<Step>)
    ensures Settled(rows, Run(rows, lease, steps))
    decreases |steps|
  {
    if steps != [] {
      var next := Apply(rows, lease, steps[0]);
      assert Settled(rows, next);
      RunSettles(next, lease, steps[1..]);
    }
  }

  lemma TurnCompletions(
      rows: Rows, lease: int, id: string, owner: string, expireAt: int, turn: Turn, names: set<string>)
    requires Strangers(turn, names) && owner in names
    ensures Completions(rows, lease, TurnSteps(rows, lease, id, owner, expireAt, turn), names)
            == if Expires(rows, lease, id, owner, expireAt, turn) then {id} else {}
  {
    var first := ClaimSteps(id, owner, expireAt, turn);
    if turn.blocked {
      assert first == turn.others[0];
      StrangersCompleteNothing(rows, lease, first, names);
    } else {
      CompletionsOne(rows, lease, turn.others[0], Claim(id, owner, turn.claimAt, expireAt), names);
    }
    if Claims(rows, lease, id, owner, expireAt, turn) {
      var claimed := Run(rows, lease, first);
      HeldCompletions(claimed, lease, id, owner, turn, names);
      CompletionsConcat(rows, lease, first, HeldSteps(claimed, lease, id, owner, turn), names);
    } else {
      assert TurnSteps(rows, lease, id, owner, expireAt, turn) == first;
    }
  }

  lemma HeldCompletions(rows: Rows, lease: int, id: string, owner: string, turn: Turn, names: set<string>)
    requires Strangers(turn, names) && owner in names
    ensures Completions(rows, lease, HeldSteps(rows, lease, id, owner, turn), names)
            == if Finishes(rows, lease, id, owner, turn) then {id} else {}
  {
    var steps := CompleteSteps(rows, lease, id, owner, turn);
    var found := Run(rows, lease, turn.others[1]);
    StrangersCompleteNothing(rows, lease, turn.others[1], names);
    if GoesOn(rows, lease, id, owner, turn) {
      DeleteCompletions(found, lease, id, owner, turn, names);
      CompletionsConcat(rows, lease, turn.others[1], DeleteSteps(id, owner, turn), names);
    } else {
      assert steps == turn.others[1];
    }
    if Finishes(rows, lease, id, owner, turn) {
      assert HeldSteps(rows, lease, id, owner, turn) == steps;
    } else {
      var after := Run(rows, lease, steps);
      CompletionsOne(after, lease, turn.others[3], Release(id, owner, turn.releaseAt), names);
      CompletionsConcat(rows, lease, steps, GiveBackSteps(id, owner, turn), names);
    }
  }

  lemma DeleteCompletions(rows: Rows, lease: int, id: string, owner: string, turn: Turn, names: set<string>)
    requires Strangers(turn, names) && owner in names
    ensures Completions(rows, lease, DeleteSteps(id, owner, turn), names)
            == if Deletes(rows, lease, id, owner, turn) then {id} else {}
  {
    if turn.deleted {
      CompletionsOne(rows, lease, turn.others[2], Complete(id, Some(owner), turn.completeAt), names);
    } else {
      assert DeleteSteps(id, owner, turn) == turn.others[2];
      StrangersCompleteNothing(rows, lease, turn.others[2], names);
    }
  }

  /** The rows completed under the call's names are those that it completes under its claims. */
  lemma {:induction false} CallCompletions(
      rows: Rows, lease: int, ids: seq<string>, owners: seq<string>, turns: seq<Turn>, expireAt: int, n: nat,
      names: set<string>)
    requires n <= |ids| && n <= |owners| && n <= |turns|
    requires forall i :: 0 <= i < n ==> Strangers(turns[i], names)
    requires forall i :: 0 <= i < n ==> owners[i] in names
    ensures Completions(rows, lease, CallSteps(rows, lease, ids, owners, turns, expireAt, n), names)
            == Expired(rows, lease, ids, owners, turns, expireAt, n)
  {
    if n > 0 {
      CallCompletions(rows, lease, ids, owners, turns, expireAt, n - 1, names);
      var before := CallSteps(rows, lease, ids, owners, turns, expireAt, n - 1);
      var done := Expired(rows, lease, ids, owners, turns, expireAt, n - 1);
      OneMoreTurn(rows, before, done, lease, ids[n - 1], owners[n - 1], expireAt, turns[n - 1], names);
    }
  }

  lemma OneMoreTurn(
      rows: Rows, before: seq<Step>, done: set<string>, lease: int, id: string, owner: string, expireAt: int,
      turn: Turn, names: set<string>)
    requires Strangers(turn, names) && owner in names && Completions(rows, lease, before, names) == done
    ensures var found := Run(rows, lease, before);
      Completions(rows, lease, before + TurnSteps(found, lease, id, owner, expireAt, turn), names)
      == done + if Expires(found, lease, id, owner, expireAt, turn) then {id} else {}
  {
    var found := Run(rows, lease, before);
    TurnCompletions(found, lease, id, owner, expireAt, turn, names);
    CompletionsConcat(rows, lease, before, TurnSteps(found, lease, id, owner, expireAt, turn), names);
  }

  /** A row that a turn completes was pending and expired by the instant used, and is completed after it. */
  lemma ExpiresMeansExpired(rows: Rows, lease: int, id: string, owner: string, expireAt: int, turn: Turn)
    requires Expires(rows, lease, id, owner, expireAt, turn) && id in rows
    ensures rows[id].status == Pending && rows[id].expiresAt <= expireAt
    ensures var after := Run(rows, lease, TurnSteps(rows, lease, id, owner, expireAt, turn));
      id in after && after[id].status == Completed
  {
    var first := ClaimSteps(id, owner, expireAt, turn);
    var claimed := Run(rows, lease, first);
    var found := Run(claimed, lease, turn.others[1]);
    RunSettles(rows, lease, turn.others[0]);
    RunOne(found, lease, turn.others[2], Complete(id, Some(owner), turn.completeAt));
    assert HeldSteps(claimed, lease, id, owner, turn) == turn.others[1] + DeleteSteps(id, owner, turn);
    RunConcat(claimed, lease, turn.others[1], DeleteSteps(id, owner, turn));
    RunConcat(rows, lease, first, HeldSteps(claimed, lease, id, owner, turn));
  }

  /** Every row that a call completes was pending, had expired by the instant used, and stays completed. */
  lemma {:induction false} ExpiredMeansExpired(
      rows: Rows, lease: int, ids: seq<string>, owners: seq<string>, turns: seq<Turn>, expireAt: int, n: nat)
    requires n <= |ids| && n <= |owners| && n <= |turns|
    requires forall i :: 0 <= i < n ==> ids[i] in rows
    ensures AllExpired(rows, Run(rows, lease, CallSteps(rows, lease, ids, owners, turns, expireAt, n)),
                       Expired(rows, lease, ids, owners, turns, expireAt, n), expireAt)
  {
    if n > 0 {
      ExpiredMeansExpired(rows, lease, ids, owners, turns, expireAt, n - 1);
      var before := CallSteps(rows, lease, ids, owners, turns, expireAt, n - 1);
      var done := Expired(rows, lease, ids, owners, turns, expireAt, n - 1);
      TurnMeansExpired(rows, before, done, lease, ids[n - 1], owners[n - 1], expireAt, turns[n - 1]);
    }
  }

  lemma TurnMeansExpired(
      rows: Rows, before: seq<Step>, done: set<string>, lease: int, id: string, owner: string, expireAt: int,
      turn: Turn)
    requires id in rows && AllExpired(rows, Run(rows, lease, before), done, expireAt)
    ensures var found := Run(rows, lease, before);
      AllExpired(rows, Run(rows, lease, before + TurnSteps(found, lease, id, owner, expireAt, turn)),
                 done + if Expires(found, lease, id, owner, expireAt, turn) then {id} else {}, expireAt)
  {
    var found := Run(rows, lease, before);
    var steps := TurnSteps(found, lease, id, owner, expireAt, turn);
    RunConcat(rows, lease, before, steps);
    RunSettles(rows, lease, before);
    RunSettles(found, lease, steps);
    if Expires(found, lease, id, owner, expireAt, turn) {
      ExpiresMeansExpired(found, lease, id, owner, expireAt, turn);
      OneMoreExpired(rows, found, Run(found, lease, steps), done, {id}, expireAt);
    } else {
      OneMoreExpired(rows, found, Run(found, lease, steps), done, {}, expireAt);
    }
  }

  lemma OneMoreExpired(a: Rows, b: Rows, c: Rows, done: set<string>, added: set<string>, expireAt: int)
    requires AllExpired(a, b, done, expireAt) && Settled(a, b) && Settled(b, c)
    requires AllExpired(b, c, added, expireAt) && added <= a.Keys
    ensures AllExpired(a, c, done + added, expireAt)
  {
  }

  // ---------- No claim is left ----------

  // A name comes to hold a row only by claiming it.
  lemma {:induction false} NotTaken(rows: Rows, lease: int, steps: seq<Step>, id: string, name: string)
    requires forall step :: step in steps && step.Claim? && step.id == id ==> step.owner != name
    ensures HeldIn(Run(rows, lease, steps), id, name) ==> HeldIn(rows, id, name)
    decreases |steps|
  {
    if steps != [] {
      assert steps[0] in steps;
      NotTaken(Apply(rows, lease, steps[0]), lease, steps[1..], id, name);
    }
  }

  lemma HeldLetsGo(rows: Rows, lease: int, id: string, owner: string, turn: Turn)
    ensures !HeldIn(Run(rows, lease, HeldSteps(rows, lease, id, owner, turn)), id, owner)
  {
    var steps := CompleteSteps(rows, lease, id, owner, turn);
    if Finishes(rows, lease, id, owner, turn) {
      var found := Run(rows, lease, turn.others[1]);
      RunOne(found, lease, turn.others[2], Complete(id, Some(owner), turn.completeAt));
      RunConcat(rows, lease, turn.others[1], DeleteSteps(id, owner, turn));
      assert HeldSteps(rows, lease, id, owner, turn) == steps;
    } else {
      RunConcat(rows, lease, steps, GiveBackSteps(id, owner, turn));
      RunOne(Run(rows, lease, steps), lease, turn.others[3], Release(id, owner, turn.releaseAt));
    }
  }

  lemma StrangersDoNotClaim(steps: seq<Step>, names: set<string>, name: string)
    requires ByStrangers(steps, names) && name in names
    ensures forall step :: step in steps && step.Claim? ==> step.owner != name
  {
    assert OnlyRenews(steps, name);
  }

  /** After a turn no row is held under a name of the call that was not held under it before. */
  lemma TurnLetsGo(
      rows: Rows, lease: int, id: string, owner: string, expireAt: int, turn: Turn, names: set<string>,
      other: string, name: string)
    requires Strangers(turn, names) && name in names && !HeldIn(rows, other, name)
    ensures !HeldIn(Run(rows, lease, TurnSteps(rows, lease, id, owner, expireAt, turn)), other, name)
  {
    var steps := TurnSteps(rows, lease, id, owner, expireAt, turn);
    var first := ClaimSteps(id, owner, expireAt, turn);
    if other == id && name == owner && Claims(rows, lease, id, owner, expireAt, turn) {
      HeldLetsGo(Run(rows, lease, first), lease, id, owner, turn);
      RunConcat(rows, lease, first, HeldSteps(Run(rows, lease, first), lease, id, owner, turn));
    } else if other == id && name == owner {
      StrangersDoNotClaim(turn.others[0], names, name);
      NotTaken(rows, lease, turn.others[0], id, name);
      RunOne(rows, lease, turn.others[0], Claim(id, owner, turn.claimAt, expireAt));
      assert steps == first && (turn.blocked ==> first == turn.others[0]);
    } else {
      forall step | step in steps && step.Claim? && step.id == other ensures step.owner != name {
        TurnStepIsOwnOrGiven(rows, lease, id, owner, expireAt, turn, step);
        forall k | 0 <= k < 4 && step in turn.others[k] ensures step.owner != name {
          StrangersDoNotClaim(turn.others[k], names, name);
        }
      }
      NotTaken(rows, lease, steps, other, name);
    }
  }

  ghost predicate NoneHeld(rows: Rows, names: set<string>) {
    forall id, name :: id in rows && name in names ==> !HeldBy(rows[id], name)
  }

  lemma OneMoreLetsGo(
      rows: Rows, before: seq<Step>, lease: int, id: string, owner: string, expireAt: int, turn: Turn,
      names: set<string>)
    requires Strangers(turn, names) && NoneHeld(Run(rows, lease, before), names)
    ensures var turnSteps := TurnSteps(Run(rows, lease, before), lease, id, owner, expireAt, turn);
      NoneHeld(Run(rows, lease, before + turnSteps), names)
  {
    var found := Run(rows, lease, before);
    var steps := TurnSteps(found, lease, id, owner, expireAt, turn);
    RunConcat(rows, lease, before, steps);
    var after := Run(found, lease, steps);
    forall other, name | other in after && name in names ensures !HeldBy(after[other], name) {
      TurnLetsGo(found, lease, id, owner, expireAt, turn, names, other, name);
    }
  }

  /** A call gives back every claim that it does not complete under, whatever others do. */
  lemma {:induction false} NoClaimIsLeft(
      rows: Rows, lease: int, ids: seq<string>, owners: seq<string>, turns: seq<Turn>, expireAt: int, n: nat,
      names: set<string>)
    requires n <= |ids| && n <= |owners| && n <= |turns| && NoneHeld(rows, names)
    requires forall i :: 0 <= i < n ==> Strangers(turns[i], names)
    ensures NoneHeld(Run(rows, lease, CallSteps(rows, lease, ids, owners, turns, expireAt, n)), names)
  {
    if n > 0 {
      NoClaimIsLeft(rows, lease, ids, owners, turns, expireAt, n - 1, names);
      var before := CallSteps(rows, lease, ids, owners, turns, expireAt, n - 1);
      OneMoreLetsGo(rows, before, lease, ids[n - 1], owners[n - 1], expireAt, turns[n - 1], names);
    }
  }

  // ---------- Who completed a row ----------

  /** The k-th step completes the row. */
  predicate CompletedAt(rows: Rows, lease: int, steps: seq<Step>, id: string, k: int) {
    0 <= k < |steps| && steps[k].Complete? && steps[k].id == id && Takes(Run(rows, lease, steps[..k]), lease, steps[k])
  }

  lemma {:induction false} CompletedByAStep(rows: Rows, lease: int, steps: seq<Step>, id: string) returns (k: nat)
    requires id in rows && rows[id].status == Pending
    requires id in Run(rows, lease, steps) && Run(rows, lease, steps)[id].status == Completed
    ensures CompletedAt(rows, lease, steps, id, k)
    decreases |steps|
  {
    if steps[0].Complete? && steps[0].id == id && Takes(rows, lease, steps[0]) {
      return 0;
    }
    var next := Apply(rows, lease, steps[0]);
    if next[id].status != Pending {
      EndedStays(next, lease, steps[1..], id);
    }
    k := CompletedByAStep(next, lease, steps[1..], id);
    k := k + 1;
    assert steps[..k][1..] == steps[1..][..k - 1];
  }

  lemma CompletionIsCounted(rows: Rows, lease: int, steps: seq<Step>, id: string, k: int, names: set<string>)
    requires CompletedAt(rows, lease, steps, id, k)
    requires steps[k].holder.Some? && steps[k].holder.value in names
    ensures id in Completions(rows, lease, steps, names)
  {
    assert steps == steps[..k] + steps[k..];
    CompletionsConcat(rows, lease, steps[..k], steps[k..], names);
  }

  ghost predicate CompletedByOthers(rows: Rows, lease: int, steps: seq<Step>, turns: seq<Turn>, n: nat, id: string)
    requires n <= |turns|
  {
    exists k :: CompletedAt(rows, lease, steps, id, k) && Given(turns, n, steps[k])
  }

  // Each row that was pending and is completed after these steps is in `done`, or a given step completed it.
  ghost predicate AllAccountedFor(
      rows: Rows, lease: int, steps: seq<Step>, turns: seq<Turn>, n: nat, done: set<string>)
    requires n <= |turns|
  {
    var after := Run(rows, lease, steps);
    forall id :: id in rows && rows[id].status == Pending && id in after && after[id].status == Completed ==>
      id in done || CompletedByOthers(rows, lease, steps, turns, n, id)
  }

  /** A row that a call finds pending and leaves completed was completed by the call itself or by a given step. */
  lemma CompletedByCallOrOthers(
      rows: Rows, lease: int, ids: seq<string>, owners: seq<string>, turns: seq<Turn>, expireAt: int, n: nat)
    requires n <= |ids| && n <= |owners| && n <= |turns|
    ensures var steps := CallSteps(rows, lease, ids, owners, turns, expireAt, n);
      AllAccountedFor(rows, lease, steps, turns, n, Completions(rows, lease, steps, set name | name in owners))
  {
    var steps := CallSteps(rows, lease, ids, owners, turns, expireAt, n);
    var names := set name | name in owners;
    var after := Run(rows, lease, steps);
    forall id | id in rows && rows[id].status == Pending && id in after && after[id].status == Completed
      ensures id in Completions(rows, lease, steps, names) || CompletedByOthers(rows, lease, steps, turns, n, id)
    {
      var k := CompletedByAStep(rows, lease, steps, id);
      CallStepIsOwnOrGiven(rows, lease, ids, owners, turns, expireAt, n, steps[k]);
      if !Given(turns, n, steps[k]) {
        CompletionIsCounted(rows, lease, steps, id, k, names);
      }
    }
  }

  // ---------- Progress ----------

  predicate LeaveAlone(steps: seq<Step>, id: string) {
    forall step :: step in steps ==> step.Queue? || step.id != id
  }

  lemma {:induction false} AloneStays(rows: Rows, lease: int, steps: seq<Step>, id: string)
    requires id in rows && LeaveAlone(steps, id)
    ensures id in Run(rows, lease, steps) && Run(rows, lease, steps)[id] == rows[id]
    decreases |steps|
  {
    if steps != [] {
      assert steps[0] in steps;
      AloneStays(Apply(rows, lease, steps[0]), lease, steps[1..], id);
    }
  }

  predicate OthersLeaveAlone(turn: Turn, id: string) {
    forall k :: 0 <= k < 4 ==> LeaveAlone(turn.others[k], id)
  }

  predicate LeftAlone(turns: seq<Turn>, n: nat, id: string)
    requires n <= |turns|
  {
    forall j :: 0 <= j < n ==> OthersLeaveAlone(turns[j], id)
  }

  /** Nothing blocks the candidate, its page goes, and the claim is still fresh when it is completed. */
  predicate Smooth(turn: Turn, lease: int) {
    !turn.blocked && !turn.blockedAgain && turn.deleted && turn.claimAt > turn.completeAt - lease
  }

  predicate MayClaim(row: Row, now: int, lease: int) {
    row.matched.None? || !FreshAt(row, now, lease)
  }

  /** The turn of a due row that the others leave alone completes it if and only if it may be claimed. */
  lemma SmoothTurnCompletes(rows: Rows, lease: int, id: string, owner: string, expireAt: int, turn: Turn)
    requires Smooth(turn, lease) && OthersLeaveAlone(turn, id) && Due(rows, id, expireAt)
    ensures var after := Run(rows, lease, TurnSteps(rows, lease, id, owner, expireAt, turn));
      && id in after
      && after[id] == if MayClaim(rows[id], turn.claimAt, lease)
                      then rows[id].(status := Completed, matched := None, updatedAt := turn.completeAt)
                      else rows[id]
  {
    AloneStays(rows, lease, turn.others[0], id);
    var claimed := Run(rows, lease, ClaimSteps(id, owner, expireAt, turn));
    RunOne(rows, lease, turn.others[0], Claim(id, owner, turn.claimAt, expireAt));
    if MayClaim(rows[id], turn.claimAt, lease) {
      HeldCompletes(claimed, lease, id, owner, turn);
      RunConcat(rows, lease, ClaimSteps(id, owner, expireAt, turn), HeldSteps(claimed, lease, id, owner, turn));
    } else {
      assert TurnSteps(rows, lease, id, owner, expireAt, turn) == ClaimSteps(id, owner, expireAt, turn);
    }
  }

  lemma HeldCompletes(rows: Rows, lease: int, id: string, owner: string, turn: Turn)
    requires Smooth(turn, lease) && OthersLeaveAlone(turn, id)
    requires id in rows && HeldBy(rows[id], owner) && rows[id].updatedAt == turn.claimAt
    ensures var after := Run(rows, lease, HeldSteps(rows, lease, id, owner, turn));
      id in after && after[id] == rows[id].(status := Completed, matched := None, updatedAt := turn.completeAt)
  {
    AloneStays(rows, lease, turn.others[1], id);
    var found := Run(rows, lease, turn.others[1]);
    AloneStays(found, lease, turn.others[2], id);
    RunOne(found, lease, turn.others[2], Complete(id, Some(owner), turn.completeAt));
    RunConcat(rows, lease, turn.others[1], DeleteSteps(id, owner, turn));
    assert HeldSteps(rows, lease, id, owner, turn) == turn.others[1] + DeleteSteps(id, owner, turn);
  }

  // A call touches no row but its candidates and those that the others touch.
  lemma TurnLeavesAlone(
      rows: Rows, lease: int, id: string, owner: string, expireAt: int, turn: Turn, other: string)
    requires id != other && OthersLeaveAlone(turn, other)
    ensures LeaveAlone(TurnSteps(rows, lease, id, owner, expireAt, turn), other)
  {
    forall step | step in TurnSteps(rows, lease, id, owner, expireAt, turn) ensures step.Queue? || step.id != other {
      TurnStepIsOwnOrGiven(rows, lease, id, owner, expireAt, turn, step);
    }
  }

  lemma {:induction false} CallLeavesAlone(
      rows: Rows, lease: int, ids: seq<string>, owners: seq<string>, turns: seq<Turn>, expireAt: int, n: nat,
      other: string)
    requires n <= |ids| && n <= |owners| && n <= |turns| && other !in ids[..n]
    requires LeftAlone(turns, n, other)
    ensures LeaveAlone(CallSteps(rows, lease, ids, owners, turns, expireAt, n), other)
  {
    if n > 0 {
      var before := CallSteps(rows, lease, ids, owners, turns, expireAt, n - 1);
      CallLeavesAlone(rows, lease, ids, owners, turns, expireAt, n - 1, other);
      assert ids[n - 1] in ids[..n];
      TurnLeavesAlone(
        Run(rows, lease, before), lease, ids[n - 1], owners[n - 1], expireAt, turns[n - 1], other);
    }
  }

  /**
    A due row that the others leave alone, and whose own turn is smooth, is completed by the call if and only
    if it may be claimed; if not, it is left as it is.
   */
  lemma {:induction false} SmoothRowsAreCompleted(
      rows: Rows, lease: int, ids: seq<string>, owners: seq<string>, turns: seq<Turn>, expireAt: int, n: nat, i: nat)
    requires i < n <= |ids| && n <= |owners| && n <= |turns|
    requires forall j :: 0 <= j < n && j != i ==> ids[j] != ids[i]
    requires Due(rows, ids[i], expireAt) && Smooth(turns[i], lease)
    requires LeftAlone(turns, n, ids[i])
    ensures var after := Run(rows, lease, CallSteps(rows, lease, ids, owners, turns, expireAt, n));
      && ids[i] in after
      && after[ids[i]] ==
         if MayClaim(rows[ids[i]], turns[i].claimAt, lease)
         then rows[ids[i]].(status := Completed, matched := None, updatedAt := turns[i].completeAt)
         else rows[ids[i]]
  {
    var last := n - 1;
    var before := CallSteps(rows, lease, ids, owners, turns, expireAt, last);
    var middle := Run(rows, lease, before);
    var turn := TurnSteps(middle, lease, ids[last], owners[last], expireAt, turns[last]);
    RunConcat(rows, lease, before, turn);
    if i == last {
      CallLeavesAlone(rows, lease, ids, owners, turns, expireAt, last, ids[i]);
      AloneStays(rows, lease, before, ids[i]);
      SmoothTurnCompletes(middle, lease, ids[i], owners[i], expireAt, turns[i]);
    } else {
      SmoothRowsAreCompleted(rows, lease, ids, owners, turns, expireAt, last, i);
      TurnLeavesAlone(middle, lease, ids[last], owners[last], expireAt, turns[last], ids[i]);
      AloneStays(middle, lease, turn, ids[i]);
    }
  }

  // A candidate with a smooth turn that the others leave alone is in `done` if and only if it may be claimed.
  ghost predicate SmoothAreDone(rows: Rows, lease: int, ids: seq<string>, turns: seq<Turn>, done: set<string>)
    requires |ids| <= |turns|
  {
    forall i :: 0 <= i < |ids| && ids[i] in rows && Smooth(turns[i], lease) && LeftAlone(turns, |ids|, ids[i]) ==>
      (ids[i] in done <==> MayClaim(rows[ids[i]], turns[i].claimAt, lease))
  }

  lemma SmoothRowsAreCounted(
      rows: Rows, lease: int, ids: seq<string>, owners: seq<string>, turns: seq<Turn>, expireAt: int, steps: seq<Step>,
      done: set<string>)
    requires IsDueList(rows, ids, expireAt) && |ids| <= |owners| == |turns|
    requires steps == CallSteps(rows, lease, ids, owners, turns, expireAt, |ids|)
    requires AllAccountedFor(rows, lease, steps, turns, |ids|, done)
    requires AllExpired(rows, Run(rows, lease, steps), done, expireAt)
    ensures SmoothAreDone(rows, lease, ids, turns, done)
  {
    forall i | 0 <= i < |ids| && ids[i] in rows && Smooth(turns[i], lease) && LeftAlone(turns, |ids|, ids[i])
      ensures ids[i] in done <==> MayClaim(rows[ids[i]], turns[i].claimAt, lease)
    {
      assert Due(rows, ids[i], expireAt);
      SmoothRowsAreCompleted(rows, lease, ids, owners, turns, expireAt, |ids|, i);
      NotByOthers(rows, lease, steps, turns, |ids|, ids[i]);
    }
  }

  lemma NotByOthers(rows: Rows, lease: int, steps: seq<Step>, turns: seq<Turn>, n: nat, id: string)
    requires n <= |turns| && LeftAlone(turns, n, id)
    ensures !CompletedByOthers(rows, lease, steps, turns, n, id)
  {
    forall k | CompletedAt(rows, lease, steps, id, k) ensures !Given(turns, n, steps[k]) {
      forall i, m | 0 <= i < n && 0 <= m < 4 ensures steps[k] !in turns[i].others[m] {
        assert OthersLeaveAlone(turns[i], id);
      }
    }
  }

  class VaultEventStore {
    var rows: Rows
    const lease: int

    constructor (lease: int)
      ensures rows == map[] && this.lease == lease
    {
      this.rows, this.lease := map[], lease;
    }

    method GetOrCreatePendingDelete(newId: string, occurrence: string, pageId: string, oldPath: string,
                                    detectedAt: int, expiresAt: int) returns (id: string)
      requires newId !in rows
      modifies this
      ensures rows == Apply(old(rows), lease, Queue(newId, occurrence, pageId, oldPath, detectedAt, expiresAt))
      ensures rows ==
        if id in old(rows) then old(rows)
        else old(rows)[newId := Row(occurrence, pageId, oldPath, detectedAt, expiresAt, Pending, None, detectedAt)]
      ensures id in rows
      ensures rows[id].occurrence == occurrence ||
        ((forall i :: i in rows ==> rows[i].occurrence != occurrence)
         && rows[id].status == Pending && rows[id].pageId == pageId && rows[id].oldPath == oldPath)
    {
      var step := Queue(newId, occurrence, pageId, oldPath, detectedAt, expiresAt);
      if Takes(rows, lease, step) {
        rows := rows[newId := Row(occurrence, pageId, oldPath, detectedAt, expiresAt, Pending, None, detectedAt)];
        assert rows[newId].occurrence == occurrence;
      }
      if i :| i in rows && rows[i].occurrence == occurrence {
        id := i;
      } else {
        id :| id in rows && rows[id].status == Pending && rows[id].pageId == pageId && rows[id].oldPath == oldPath;
      }
    }

    // One compare-and-set UPDATE; the result is its row count.
    method Update(step: Step) returns (ok: bool)
      requires !step.Queue?
      modifies this
      ensures rows == Apply(old(rows), lease, step) && (ok <==> Takes(old(rows), lease, step))
    {
      ok := step.id in rows && rows[step.id].status == Pending && Admits(rows[step.id], lease, step);
      if ok {
        rows := rows[step.id := Updated(rows[step.id], step)];
      }
    }

    method ClaimDelete(id: string, owner: string, now: int, dueAt: int) returns (ok: bool)
      modifies this
      ensures rows == Apply(old(rows), lease, Claim(id, owner, now, dueAt))
      ensures ok <==> Takes(old(rows), lease, Claim(id, owner, now, dueAt))
      ensures ok ==> rows[id].matched == Some(owner) && rows[id].expiresAt <= dueAt
    {
      ok := Update(Claim(id, owner, now, dueAt));
    }

    method CompleteDelete(id: string, owner: Option<string>, now: int) returns (ok: bool)
      modifies this
      ensures rows == Apply(old(rows), lease, Complete(id, owner, now))
      ensures ok <==> Takes(old(rows), lease, Complete(id, owner, now))
      ensures ok ==> rows[id].status == Completed && old(rows)[id].matched == owner
    {
      ok := Update(Complete(id, owner, now));
    }

    method ReleaseClaim(id: string, owner: string, now: int) returns (ok: bool)
      modifies this
      ensures rows == Apply(old(rows), lease, Release(id, owner, now))
      ensures ok <==> Takes(old(rows), lease, Release(id, owner, now))
    {
      ok := Update(Release(id, owner, now));
    }

    method FirstDue(ids: set<string>) returns (best: string)
      requires ids != {} && ids <= rows.Keys
      ensures best in ids && forall id :: id in ids ==> DueBefore(rows, best, id)
    {
      best :| best in ids;
      AtMostIsTotal(best, best);
      var left := ids - {best};
      while left != {}
        invariant best in ids && left <= ids
        invariant forall id :: id in ids && id !in left ==> DueBefore(rows, best, id)
      {
        var id :| id in left;
        if !DueBefore(rows, best, id) {
          DueBeforeOrders(rows, best, id, ids - left);
          best := id;
        }
        left := left - {id};
      }
    }

    method ListDueDeletes(now: int) returns (ids: seq<string>)
      ensures IsDueList(rows, ids, now)
    {
      var left := set id | id in rows && Due(rows, id, now);
      ids := [];
      while left != {}
        invariant forall id :: id in left <==> Due(rows, id, now) && id !in ids
        invariant forall i :: 0 <= i < |ids| ==> Due(rows, ids[i], now)
        invariant forall i, id :: 0 <= i < |ids| && id in left ==> DueBefore(rows, ids[i], id)
        invariant forall i, j :: 0 <= i < j < |ids| ==> ids[i] != ids[j] && DueBefore(rows, ids[i], ids[j])
        decreases left
      {
        var next := FirstDue(left);
        ids := ids + [next];
        left := left - {next};
      }
    }

    // What the other parties commit at point `k` of a turn.
    method Interfere(turn: Turn, k: nat)
      requires k < 4
      modifies this
      ensures rows == Run(old(rows), lease, turn.others[k])
    {
      rows := Run(rows, lease, turn.others[k]);
    }

    // The body of the loop for one candidate, after which the claim is completed or given back.
    method ExpireOne(id: string, owner: string, expireAt: int, turn: Turn) returns (completed: bool)
      modifies this
      ensures rows == Run(old(rows), lease, TurnSteps(old(rows), lease, id, owner, expireAt, turn))
      ensures completed <==> Expires(old(rows), lease, id, owner, expireAt, turn)
      ensures completed && id in old(rows) ==>
        && old(rows)[id].status == Pending && old(rows)[id].expiresAt <= expireAt
        && id in rows && rows[id].status == Completed
    {
      ghost var first := ClaimSteps(id, owner, expireAt, turn);
      var claimed := ClaimUnlessBlocked(id, owner, expireAt, turn);
      if !claimed {
        assert TurnSteps(old(rows), lease, id, owner, expireAt, turn) == first;
        return false;
      }
      RunConcat(old(rows), lease, first, HeldSteps(rows, lease, id, owner, turn));
      completed := CompleteOrGiveBack(id, owner, turn);
      if completed && id in old(rows) {
        ExpiresMeansExpired(old(rows), lease, id, owner, expireAt, turn);
      }
    }

    method ClaimUnlessBlocked(id: string, owner: string, expireAt: int, turn: Turn) returns (claimed: bool)
      modifies this
      ensures rows == Run(old(rows), lease, ClaimSteps(id, owner, expireAt, turn))
      ensures claimed <==> Claims(old(rows), lease, id, owner, expireAt, turn)
    {
      Interfere(turn, 0);
      if turn.blocked {
        assert ClaimSteps(id, owner, expireAt, turn) == turn.others[0];
        return false;
      }
      RunOne(old(rows), lease, turn.others[0], Claim(id, owner, turn.claimAt, expireAt));
      claimed := ClaimDelete(id, owner, turn.claimAt, expireAt);
    }

    method CompleteOrGiveBack(id: string, owner: string, turn: Turn) returns (completed: bool)
      modifies this
      ensures rows == Run(old(rows), lease, HeldSteps(old(rows), lease, id, owner, turn))
      ensures completed <==> Finishes(old(rows), lease, id, owner, turn)
    {
      ghost var steps := CompleteSteps(rows, lease, id, owner, turn);
      completed := CompleteUnderClaim(id, owner, turn);
      if completed {
        assert HeldSteps(old(rows), lease, id, owner, turn) == steps;
      } else {
        RunConcat(old(rows), lease, steps, GiveBackSteps(id, owner, turn));
        GiveBack(id, owner, turn);
      }
    }

    method CompleteUnderClaim(id: string, owner: string, turn: Turn) returns (completed: bool)
      modifies this
      ensures rows == Run(old(rows), lease, CompleteSteps(old(rows), lease, id, owner, turn))
      ensures completed <==> Finishes(old(rows), lease, id, owner, turn)
    {
      Interfere(turn, 1);
      if !HeldIn(rows, id, owner) || turn.blockedAgain {
        assert CompleteSteps(old(rows), lease, id, owner, turn) == turn.others[1];
        return false;
      }
      RunConcat(old(rows), lease, turn.others[1], DeleteSteps(id, owner, turn));
      completed := DeleteAndComplete(id, owner, turn);
    }

    method DeleteAndComplete(id: string, owner: string, turn: Turn) returns (completed: bool)
      modifies this
      ensures rows == Run(old(rows), lease, DeleteSteps(id, owner, turn))
      ensures completed <==> Deletes(old(rows), lease, id, owner, turn)
    {
      Interfere(turn, 2);
      if !turn.deleted {
        assert DeleteSteps(id, owner, turn) == turn.others[2];
        return false;
      }
      RunOne(old(rows), lease, turn.others[2], Complete(id, Some(owner), turn.completeAt));
      completed := CompleteDelete(id, Some(owner), turn.completeAt);
    }

    method GiveBack(id: string, owner: string, turn: Turn)
      modifies this
      ensures rows == Run(old(rows), lease, GiveBackSteps(id, owner, turn))
    {
      Interfere(turn, 3);
      RunOne(old(rows), lease, turn.others[3], Release(id, owner, turn.releaseAt));
      var _ := ReleaseClaim(id, owner, turn.releaseAt);
    }

    /**
      Expires the due rows, each under a claim with a new owner name; `trace` is the others' steps at their
      points with this call's in between.  The rows counted are exactly those that this call completes, under
      one of its names: each was pending, is completed for good, and had expired by `expireAt`, whatever others
      do meanwhile.  Any other row that is completed meanwhile was completed by a given step of the others.
      And a due row with a smooth turn that the others leave alone is counted if and only if it may be claimed.
      No claim of this call is left behind.
     */
    method ExpireDeletes(expireAt: int, owners: seq<string>, turns: seq<Turn>)
      returns (count: nat, ghost ids: seq<string>, ghost done: set<string>, ghost trace: seq<Step>)
      requires NewNames(owners, turns)
      requires |owners| == |turns| >= |rows|
      modifies this
      ensures IsDueList(old(rows), ids, expireAt) && |ids| <= |turns|
      ensures trace == CallSteps(old(rows), lease, ids, owners, turns, expireAt, |ids|)
      ensures rows == Run(old(rows), lease, trace) && Settled(old(rows), rows)
      ensures done == Completions(old(rows), lease, trace, set name | name in owners)
      ensures count == |done| && AllExpired(old(rows), rows, done, expireAt)
      ensures AllAccountedFor(old(rows), lease, trace, turns, |ids|, done)
      ensures SmoothAreDone(old(rows), lease, ids, turns, done)
      ensures NoneHeld(old(rows), set name | name in owners) ==> NoneHeld(rows, set name | name in owners)
    {
      var candidates := ListDueDeletes(expireAt);
      ids := candidates;
      assert forall i :: 0 <= i < |ids| ==> Due(rows, ids[i], expireAt);
      CandidatesFit(ids, rows.Keys);
      trace := CallSteps(rows, lease, ids, owners, turns, expireAt, |ids|);
      done := Expired(rows, lease, ids, owners, turns, expireAt, |ids|);
      ghost var plan := Plan(expireAt, candidates, owners, turns);
      count := ExpireEach(candidates, expireAt, owners, turns, plan);
      RunSettles(old(rows), lease, trace);
      ghost var names := set name | name in owners;
      CallCompletions(old(rows), lease, ids, owners, turns, expireAt, |ids|, names);
      if NoneHeld(old(rows), names) {
        NoClaimIsLeft(old(rows), lease, ids, owners, turns, expireAt, |ids|, names);
      }
      ExpiredMeansExpired(old(rows), lease, ids, owners, turns, expireAt, |ids|);
      CompletedByCallOrOthers(old(rows), lease, ids, owners, turns, expireAt, |ids|);
      SmoothRowsAreCounted(old(rows), lease, ids, owners, turns, expireAt, trace, done);
    }

    method ExpireEach(ids: seq<string>, expireAt: int, owners: seq<string>, turns: seq<Turn>,
                      ghost plan: seq<(seq<Step>, set<string>)>) returns (count: nat)
      requires |ids| <= |owners| == |turns| && IsPlan(rows, plan, ids, expireAt, owners, turns)
      requires forall i :: 0 <= i < |ids| ==> ids[i] in rows
      modifies this
      ensures rows == Run(old(rows), lease, plan[|ids|].0) && count == |plan[|ids|].1|
    {
      count := 0;
      var i := 0;
      while i < |ids|
        invariant 0 <= i <= |ids|
        invariant rows == Run(old(rows), lease, plan[i].0) && count == |plan[i].1|
      {
        var completed := ExpireNext(ids, i, expireAt, owners, turns, old(rows), plan);
        if completed {
          count := count + 1;
        }
        i := i + 1;
      }
    }

    ghost function Plan(expireAt: int, ids: seq<string>, owners: seq<string>, turns: seq<Turn>)
      : (plan: seq<(seq<Step>, set<string>)>)
      requires |ids| <= |owners| == |turns|
      reads this
      ensures IsPlan(rows, plan, ids, expireAt, owners, turns)
      ensures plan[|ids|] == (CallSteps(rows, lease, ids, owners, turns, expireAt, |ids|),
                              Expired(rows, lease, ids, owners, turns, expireAt, |ids|))
    {
      var (start, l) := (rows, lease);
      seq(|ids| + 1, i requires 0 <= i <= |ids| =>
        (CallSteps(start, l, ids, owners, turns, expireAt, i), Expired(start, l, ids, owners, turns, expireAt, i)))
    }

    // For each i, the steps around the first i candidates and the rows completed in them.
    ghost predicate IsPlan(start: Rows, plan: seq<(seq<Step>, set<string>)>, ids: seq<string>, expireAt: int,
                           owners: seq<string>, turns: seq<Turn>)
      requires |ids| <= |owners| == |turns|
    {
      && |plan| == |ids| + 1 && plan[0] == ([], {})
      && forall i {:trigger CallSteps(start, lease, ids, owners, turns, expireAt, i)} :: 0 <= i <= |ids| ==>
           plan[i] == (CallSteps(start, lease, ids, owners, turns, expireAt, i),
                       Expired(start, lease, ids, owners, turns, expireAt, i))
    }

    method ExpireNext(ids: seq<string>, i: nat, expireAt: int, owners: seq<string>, turns: seq<Turn>,
                      ghost start: Rows, ghost plan: seq<(seq<Step>, set<string>)>) returns (completed: bool)
      requires i < |ids| <= |owners| == |turns| && IsPlan(start, plan, ids, expireAt, owners, turns)
      requires forall k :: 0 <= k < |ids| ==> ids[k] in start
      requires rows == Run(start, lease, plan[i].0)
      modifies this
      ensures rows == Run(start, lease, plan[i + 1].0)
      ensures |plan[i + 1].1| == |plan[i].1| + if completed then 1 else 0
    {
      PlanGrows(start, plan, ids, i, expireAt, owners, turns);
      PlanIsSound(start, plan, ids, i, expireAt, owners, turns);
      ghost var before := plan[i].0;
      RunConcat(start, lease, before, TurnSteps(rows, lease, ids[i], owners[i], expireAt, turns[i]));
      RunSettles(start, lease, before);
      completed := ExpireOne(ids[i], owners[i], expireAt, turns[i]);
    }

    lemma PlanGrows(start: Rows, plan: seq<(seq<Step>, set<string>)>, ids: seq<string>, i: nat, expireAt: int,
                    owners: seq<string>, turns: seq<Turn>)
      requires i < |ids| <= |owners| == |turns| && IsPlan(start, plan, ids, expireAt, owners, turns)
      ensures var found := Run(start, lease, plan[i].0);
        && plan[i + 1].0 == plan[i].0 + TurnSteps(found, lease, ids[i], owners[i], expireAt, turns[i])
        && plan[i + 1].1 == plan[i].1
             + if Expires(found, lease, ids[i], owners[i], expireAt, turns[i]) then {ids[i]} else {}
    {
      assert plan[i].0 == CallSteps(start, lease, ids, owners, turns, expireAt, i);
      assert plan[i + 1].0 == CallSteps(start, lease, ids, owners, turns, expireAt, i + 1);
    }

    lemma PlanIsSound(start: Rows, plan: seq<(seq<Step>, set<string>)>, ids: seq<string>, i: nat, expireAt: int,
                      owners: seq<string>, turns: seq<Turn>)
      requires i <= |ids| <= |owners| == |turns| && IsPlan(start, plan, ids, expireAt, owners, turns)
      requires forall k :: 0 <= k < |ids| ==> ids[k] in start
      ensures AllExpired(start, Run(start, lease, plan[i].0), plan[i].1, expireAt)
    {
      ExpiredMeansExpired(start, lease, ids, owners, turns, expireAt, i);
    }
  }

  // The others do not use the owner names of the call.
  ghost predicate NewNames(owners: seq<string>, turns: seq<Turn>) {
    forall j :: 0 <= j < |turns| ==> Strangers(turns[j], set name | name in owners)
  }

  // Rows that were pending and due, and are now completed.
  predicate AllExpired(a: Rows, b: Rows, done: set<string>, expireAt: int) {
    forall id :: id in done ==>
      id in a && id in b && a[id].status == Pending && a[id].expiresAt <= expireAt && b[id].status == Completed
  }

  // Rows stay, keep their expiry, and once ended are not touched.
  ghost predicate Settled(a: Rows, b: Rows) {
    && a.Keys <= b.Keys
    && (forall id :: id in a ==> b[id].expiresAt == a[id].expiresAt)
    && (forall id :: id in a && a[id].status != Pending ==> b[id] == a[id])
  }

  lemma {:induction false} CandidatesFit(ids: seq<string>, keys: set<string>)
    requires forall i :: 0 <= i < |ids| ==> ids[i] in keys
    requires forall i, j :: 0 <= i < j < |ids| ==> ids[i] != ids[j]
    ensures |ids| <= |keys|
    decreases |ids|
  {
    if ids != [] {
      var last := |ids| - 1;
      CandidatesFit(ids[..last], keys - {ids[last]});
    }
  }
}
