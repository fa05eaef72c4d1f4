/**
  The reference-counted table of per-page locks.

  A coroutine registers on a key, waits for the key's lock, holds it, and leaves; cancellation may strike
  while it waits.  Steps of different coroutines interleave in any order.  An entry is identified by
  itself: `E` is the type of entry objects.
 */
module PageLocks {
  import opened Options

  datatype Phase = Waiting | Holding | Leaving

  datatype Registration<E> = Registration(key: string, entry: E, phase: Phase)

  /** An entry: the key it was made for, its count of users and the owner of its lock. */
  datatype EntryState = EntryState(key: string, users: int, holder: Option<string>)

  datatype Table<E> = Table(
    locks: map<string, E>,
    entries: map<E, EntryState>,
    regs: map<string, Registration<E>>
  )

  datatype Step<E> =
    | Join(c: string, key: string)              // under the guard: the key has an entry, count one more user
    | Create(c: string, key: string, made: E)   // under the guard: the key has none, make one
    | Acquire(c: string)                        // the lock is free and is handed to a waiter
    | CancelWait(c: string)                     // cancelled before it got the lock
    | Release(c: string)                        // the body ended or was cancelled
    | Drop(c: string)                           // the clean-up task, which runs to its end

  predicate Enabled<E(==)>(t: Table<E>, s: Step<E>) {
    match s
    case Join(c, key) => c !in t.regs && key in t.locks && t.locks[key] in t.entries
    case Create(c, key, made) => c !in t.regs && key !in t.locks && made !in t.entries
    case Acquire(c) =>
      c in t.regs && t.regs[c].phase == Waiting && t.regs[c].entry in t.entries
      && t.entries[t.regs[c].entry].holder.None?
    case CancelWait(c) => c in t.regs && t.regs[c].phase == Waiting
    case Release(c) => c in t.regs && t.regs[c].phase == Holding && t.regs[c].entry in t.entries
    case Drop(c) => c in t.regs && t.regs[c].phase == Leaving && t.regs[c].entry in t.entries
  }

  function Apply<E(==)>(t: Table<E>, s: Step<E>): Table<E> {
    if !Enabled(t, s) then t
    else
      match s
      case Join(c, key) =>
        var entry := t.locks[key];
        t.(entries := t.entries[entry := t.entries[entry].(users := t.entries[entry].users + 1)],
           regs := t.regs[c := Registration(key, entry, Waiting)])
      case Create(c, key, made) =>
        Table(t.locks[key := made], t.entries[made := EntryState(key, 1, None)],
          t.regs[c := Registration(key, made, Waiting)])
      case Acquire(c) =>
        var reg := t.regs[c];
        t.(entries := t.entries[reg.entry := t.entries[reg.entry].(holder := Some(c))],
           regs := t.regs[c := reg.(phase := Holding)])
      case CancelWait(c) => t.(regs := t.regs[c := t.regs[c].(phase := Leaving)])
      case Release(c) =>
        var reg := t.regs[c];
        t.(entries := t.entries[reg.entry := t.entries[reg.entry].(holder := None)],
           regs := t.regs[c := reg.(phase := Leaving)])
      case Drop(c) =>
        var reg := t.regs[c];
        var users := t.entries[reg.entry].users - 1;
        if users == 0 && reg.key in t.locks && t.locks[reg.key] == reg.entry then
          Table(t.locks - {reg.key}, t.entries - {reg.entry}, t.regs - {c})
        else
          t.(entries := t.entries[reg.entry := t.entries[reg.entry].(users := users)], regs := t.regs - {c})
  }

  function Run<E(==)>(t: Table<E>, steps: seq<Step<E>>): Table<E>
    decreases |steps|
  {
    if steps == [] then t else Run(Apply(t, steps[0]), steps[1..])
  }

  /** The coroutines registered on a key. */
  function Users<E>(t: Table<E>, key: string): set<string> {
    Registered(t.regs, key)
  }

  function Registered<E>(regs: map<string, Registration<E>>, key: string): set<string> {
    set c | c in regs && regs[c].key == key
  }

  predicate HoldsLock<E>(t: Table<E>, c: string) {
    c in t.regs && t.regs[c].phase == Holding
  }

  /** The table lists exactly the live entries, each under its own key. */
  ghost predicate Listed<E>(t: Table<E>) {
    && (forall k :: k in t.locks ==> t.locks[k] in t.entries && t.entries[t.locks[k]].key == k)
    && (forall e :: e in t.entries ==> t.entries[e].key in t.locks && t.locks[t.entries[e].key] == e)
  }

  /** Every registered coroutine refers to the entry its key now has. */
  ghost predicate Referred<E>(t: Table<E>) {
    forall c :: c in t.regs ==> t.regs[c].key in t.locks && t.locks[t.regs[c].key] == t.regs[c].entry
  }

  /** An entry counts its registered coroutines, and there is at least one. */
  ghost predicate Counted<E>(t: Table<E>) {
    forall e :: e in t.entries ==> t.entries[e].users == |Users(t, t.entries[e].key)| && t.entries[e].users > 0
  }

  /** The owner of a lock is the coroutine that holds it. */
  ghost predicate Owned<E>(t: Table<E>) {
    && (forall c :: c in t.regs && t.regs[c].phase == Holding && t.regs[c].entry in t.entries ==>
          t.entries[t.regs[c].entry].holder == Some(c))
    && (forall e :: e in t.entries && t.entries[e].holder.Some? ==>
          var c := t.entries[e].holder.value; c in t.regs && t.regs[c].entry == e && t.regs[c].phase == Holding)
  }

  ghost predicate Inv<E>(t: Table<E>) {
    Listed(t) && Referred(t) && Counted(t) && Owned(t)
  }

  lemma StepKeepsListed<E>(t: Table<E>, s: Step<E>)
    requires Listed(t) && Referred(t)
    ensures Listed(Apply(t, s))
  {
  }

  lemma StepKeepsReferred<E>(t: Table<E>, s: Step<E>)
    requires Listed(t) && Referred(t) && Counted(t)
    ensures Referred(Apply(t, s))
  {
    if Enabled(t, s) && s.Drop? {
      var reg := t.regs[s.c];
      assert s.c in Users(t, reg.key);
      forall d | d in t.regs && d != s.c && t.regs[d].key == reg.key
        ensures t.entries[reg.entry].users != 1
      {
        assert {s.c, d} <= Users(t, reg.key);
        SubsetCardinality({s.c, d}, Users(t, reg.key));
      }
    }
  }

  lemma SubsetCardinality<T>(a: set<T>, b: set<T>)
    requires a <= b
    ensures |a| <= |b|
  {
    assert b == a + (b - a);
  }

  /** By how much a step changes the number of users of a key. */
  function Change<E>(t: Table<E>, s: Step<E>, key: string): int {
    if !Enabled(t, s) then 0
    else if (s.Join? || s.Create?) && s.key == key then 1
    else if s.Drop? && t.regs[s.c].key == key then -1
    else 0
  }

  // Registering a coroutine, and taking one out.
  lemma RegisteredAfter<E>(regs: map<string, Registration<E>>, c: string, reg: Registration<E>, key: string)
    ensures Registered(regs[c := reg], key)
            == if reg.key == key then Registered(regs, key) + {c} else Registered(regs, key) - {c}
    ensures Registered(regs - {c}, key) == Registered(regs, key) - {c}
  {
  }

  lemma UsersChange<E>(t: Table<E>, s: Step<E>, key: string)
    ensures |Users(Apply(t, s), key)| == |Users(t, key)| + Change(t, s, key)
  {
    if Enabled(t, s) {
      var after := Apply(t, s);
      if s.Drop? {
        RegisteredAfter(t.regs, s.c, t.regs[s.c], key);
        assert after.regs == t.regs - {s.c};
      } else {
        RegisteredAfter(t.regs, s.c, after.regs[s.c], key);
        assert after.regs == t.regs[s.c := after.regs[s.c]];
        assert s.c in t.regs ==> t.regs[s.c].key == after.regs[s.c].key;
      }
    }
  }

  // The count in an entry moves with the number of users of its key.
  lemma CountMoves<E>(t: Table<E>, s: Step<E>, e: E)
    requires Listed(t) && Referred(t) && e in Apply(t, s).entries
    ensures var entry := Apply(t, s).entries[e];
            if e in t.entries then
              entry.key == t.entries[e].key && entry.users == t.entries[e].users + Change(t, s, entry.key)
            else Enabled(t, s) && s.Create? && entry.key == s.key && entry.users == 1
  {
  }

  lemma StepKeepsCounted<E>(t: Table<E>, s: Step<E>)
    requires Listed(t) && Referred(t) && Counted(t)
    ensures Counted(Apply(t, s))
  {
    var after := Apply(t, s);
    forall e | e in after.entries
      ensures after.entries[e].users == |Users(after, after.entries[e].key)| && after.entries[e].users > 0
    {
      CountMoves(t, s, e);
      UsersChange(t, s, after.entries[e].key);
      if e !in t.entries {
        assert Users(t, s.key) == {};
      } else if after.entries[e].users <= 0 {
        DropEmptiesEntry(t, s, e);
      }
    }
  }

  lemma DropEmptiesEntry<E>(t: Table<E>, s: Step<E>, e: E)
    requires Listed(t) && Referred(t) && Counted(t) && Enabled(t, s)
    requires e in t.entries && t.entries[e].users + Change(t, s, t.entries[e].key) <= 0
    ensures e !in Apply(t, s).entries
  {
  }

  lemma StepKeepsOwned<E>(t: Table<E>, s: Step<E>)
    requires Listed(t) && Referred(t) && Owned(t)
    ensures Owned(Apply(t, s))
  {
  }

  lemma StepKeepsInv<E>(t: Table<E>, s: Step<E>)
    requires Inv(t)
    ensures Inv(Apply(t, s))
  {
    StepKeepsListed(t, s);
    StepKeepsReferred(t, s);
    StepKeepsCounted(t, s);
    StepKeepsOwned(t, s);
  }

  lemma {:induction false} RunKeepsInv<E>(t: Table<E>, steps: seq<Step<E>>)
    requires Inv(t)
    ensures Inv(Run(t, steps))
    decreases |steps|
  {
    if steps != [] {
      StepKeepsInv(t, steps[0]);
      RunKeepsInv(Apply(t, steps[0]), steps[1..]);
    }
  }

  lemma {:induction false} RunThenStep<E>(t: Table<E>, steps: seq<Step<E>>, s: Step<E>)
    ensures Run(t, steps + [s]) == Apply(Run(t, steps), s)
    decreases |steps|
  {
    if steps == [] {
      assert Run(Apply(t, s), []) == Apply(t, s);
    } else {
      assert (steps + [s])[1..] == steps[1..] + [s];
      RunThenStep(Apply(t, steps[0]), steps[1..], s);
    }
  }

  function Reached<E>(steps: seq<Step<E>>): Table<E> {
    Run(Table(map[], map[], map[]), steps)
  }

  lemma ReachedKeepsInv<E>(steps: seq<Step<E>>)
    ensures Inv(Reached(steps))
  {
    RunKeepsInv(Table(map[], map[], map[]), steps);
  }

  lemma ReachedThenStep<E>(steps: seq<Step<E>>, s: Step<E>)
    ensures Reached(steps + [s]) == Apply(Reached(steps), s)
  {
    RunThenStep(Table(map[], map[], map[]), steps, s);
  }

  lemma EntriesAreListed<E>(steps: seq<Step<E>>)
    ensures var t := Reached(steps);
            (forall k :: k in t.locks ==> t.locks[k] in t.entries && t.entries[t.locks[k]].key == k)
            && (forall e :: e in t.entries ==> t.entries[e].key in t.locks && t.locks[t.entries[e].key] == e)
  {
    ReachedKeepsInv(steps);
  }

  // The entry a coroutine was given is the one under its key, and under no other.
  lemma EntryIsTheKeys<E>(steps: seq<Step<E>>, c: string)
    requires c in Reached(steps).regs
    ensures var t := Reached(steps);
            var reg := t.regs[c];
            reg.key in t.locks && t.locks[reg.key] == reg.entry && reg.entry in t.entries
            && forall k :: k in t.locks && t.locks[k] == reg.entry ==> k == reg.key
  {
    ReachedKeepsInv(steps);
  }

  lemma SomeoneUses<E>(t: Table<E>, k: string)
    requires Inv(t) && k in t.locks
    ensures exists c :: c in t.regs && t.regs[c].key == k
  {
    var users := Users(t, k);
    assert |users| > 0;
    var c :| c in users;
  }

  lemma ListedWhileUsed<E>(steps: seq<Step<E>>, key: string)
    ensures var t := Reached(steps);
            key in t.locks <==> exists c :: c in t.regs && t.regs[c].key == key
  {
    ReachedKeepsInv(steps);
    if key in Reached(steps).locks {
      SomeoneUses(Reached(steps), key);
    }
  }

  /**
    In every interleaving, with cancellation anywhere: a key has an entry exactly while a coroutine is
    registered on it, the entry counts them, they all use that entry, and at most one holds its lock.
   */
  lemma TableIsExact<E>(steps: seq<Step<E>>)
    ensures var t := Reached(steps);
            (forall k :: k in t.locks <==> exists c :: c in t.regs && t.regs[c].key == k)
            && (forall k :: k in t.locks ==> t.locks[k] in t.entries && t.entries[t.locks[k]].users == |Users(t, k)|)
            && (forall c, d :: (c in t.regs && d in t.regs && t.regs[c].key == t.regs[d].key)
                               ==> t.regs[c].entry == t.regs[d].entry)
            && (forall c, d :: HoldsLock(t, c) && HoldsLock(t, d) && t.regs[c].key == t.regs[d].key ==> c == d)
            && (t.regs == map[] ==> t.locks == map[] && t.entries == map[])
  {
    ReachedKeepsInv(steps);
    var t := Reached(steps);
    forall k ensures k in t.locks <==> exists c :: c in t.regs && t.regs[c].key == k {
      ListedWhileUsed(steps, k);
    }
    forall c, d | HoldsLock(t, c) && HoldsLock(t, d) && t.regs[c].key == t.regs[d].key
      ensures c == d
    {
      assert t.entries[t.regs[c].entry].holder == Some(c);
    }
  }

  /**
    From every reachable table a coroutine can leave by itself, and then it is registered no more while all others
    are as they were; a free lock goes to whoever of the waiting asks; and a lock that is not free is held by a
    registered coroutine.
   */
  lemma CanLeave<E>(steps: seq<Step<E>>, c: string)
    ensures var t := Reached(steps);
            c in t.regs ==>
            var leaving := match t.regs[c].phase
                           case Waiting => [CancelWait(c), Drop(c)]
                           case Holding => [Release(c), Drop(c)]
                           case Leaving => [Drop(c)];
            Reached(steps + leaving).regs == t.regs - {c}
    ensures var t := Reached(steps);
            c in t.regs ==>
            && t.regs[c].entry in t.entries
            && (t.regs[c].phase == Waiting ==>
                  match t.entries[t.regs[c].entry].holder
                  case None => HoldsLock(Reached(steps + [Acquire(c)]), c)
                  case Some(d) => d != c && HoldsLock(t, d) && t.regs[d].key == t.regs[c].key)
  {
    var t := Reached(steps);
    ReachedKeepsInv(steps);
    ReachedThenStep(steps, Acquire(c));
    LeavesByDrop(steps, c);
    if c in t.regs && t.regs[c].phase != Leaving {
      var first := if t.regs[c].phase == Waiting then CancelWait(c) else Release(c);
      ReachedThenStep(steps, first);
      LeavesByDrop(steps + [first], c);
      assert steps + [first] + [Drop(c)] == steps + [first, Drop(c)];
    }
  }

  lemma LeavesByDrop<E>(steps: seq<Step<E>>, c: string)
    ensures c in Reached(steps).regs && Reached(steps).regs[c].phase == Leaving ==>
              Reached(steps + [Drop(c)]).regs == Reached(steps).regs - {c}
  {
    ReachedKeepsInv(steps);
    ReachedThenStep(steps, Drop(c));
  }

  // ---------- The table of the vault synchroniser ----------

  class PageLockEntry {
    ghost const key: string
    var users: int
    var holder: Option<string>

    constructor (ghost key: string)
      ensures this.key == key && users == 0 && holder == None
    {
      this.key := key;
      users, holder := 0, None;
    }

    ghost function State(): EntryState
      reads this
    {
      EntryState(key, users, holder)
    }
  }

  class PageLockTable {
    var pageLocks: map<string, PageLockEntry>
    ghost var history: seq<Step<PageLockEntry>>

    /** The steps taken so far lead to the table and its entries as they are. */
    ghost predicate Valid()
      reads this, pageLocks.Values
    {
      var view := Reached(history);
      && view.locks == pageLocks
      && forall k :: k in pageLocks ==>
           pageLocks[k] in view.entries && view.entries[pageLocks[k]] == pageLocks[k].State()
    }

    constructor ()
      ensures Valid() && history == []
    {
      pageLocks, history := map[], [];
    }

    /** Registers a coroutine on a key, before any wait. */
    method Register(c: string, key: string) returns (entry: PageLockEntry)
      requires Valid() && c !in Reached(history).regs
      modifies this, pageLocks.Values
      ensures Valid() && key in pageLocks && entry == pageLocks[key]
      ensures if key in old(pageLocks) then history == old(history) + [Join(c, key)]
              else fresh(entry) && history == old(history) + [Create(c, key, entry)]
    {
      if key in pageLocks {
        entry := pageLocks[key];
      } else {
        entry := new PageLockEntry(key);
        pageLocks := pageLocks[key := entry];
      }
      entry.users := entry.users + 1;
      ghost var step := if key in Reached(history).locks then Join(c, key) else Create(c, key, entry);
      EntriesAreListed(history);
      ReachedThenStep(history, step);
      history := history + [step];
    }

    /** The lock is free, and the waiting coroutine gets it. */
    method AcquireLock(c: string, key: string, entry: PageLockEntry)
      requires Valid() && c in Reached(history).regs && Reached(history).regs[c] == Registration(key, entry, Waiting)
          && entry.holder.None?
      modifies this`history, entry
      ensures Valid() && history == old(history) + [Acquire(c)]
    {
      EntryIsTheKeys(history, c);
      ReachedThenStep(history, Acquire(c));
      history := history + [Acquire(c)];
      entry.holder := Some(c);
    }

    /** Cancelled while waiting: there is no lock to release. */
    method GiveUp(c: string)
      requires Valid() && c in Reached(history).regs && Reached(history).regs[c].phase == Waiting
      modifies this`history
      ensures Valid() && history == old(history) + [CancelWait(c)]
    {
      ReachedThenStep(history, CancelWait(c));
      history := history + [CancelWait(c)];
    }

    method ReleaseLock(c: string, key: string, entry: PageLockEntry)
      requires Valid() && c in Reached(history).regs && Reached(history).regs[c] == Registration(key, entry, Holding)
      modifies this`history, entry
      ensures Valid() && history == old(history) + [Release(c)]
    {
      EntryIsTheKeys(history, c);
      ReachedThenStep(history, Release(c));
      history := history + [Release(c)];
      entry.holder := None;
    }

    /** The clean-up: the last user takes the entry out of the table. */
    method DropPageLockUser(c: string, key: string, entry: PageLockEntry)
      requires Valid() && c in Reached(history).regs && Reached(history).regs[c] == Registration(key, entry, Leaving)
      modifies this, entry
      ensures Valid() && history == old(history) + [Drop(c)]
      ensures key in pageLocks <==> exists d :: d in Reached(history).regs && Reached(history).regs[d].key == key
    {
      EntryIsTheKeys(history, c);
      ReachedThenStep(history, Drop(c));
      history := history + [Drop(c)];
      entry.users := entry.users - 1;
      if entry.users == 0 && key in pageLocks && pageLocks[key] == entry {
        pageLocks := pageLocks - {key};
      }
      ListedWhileUsed(history, key);
    }
  }
}
