/**
  The crash-safe vault writer, call by call.

  Before every file-system call the world takes a turn from a script: the editor does what the script says,
  and the process may be killed.  `World` records every event in a history that only grows; its type says
  that the executor's calls were guarded and that the editor did what the script says and nothing else.
 */
module VaultWriter {
  import opened Options
  import opened VaultDisk

  /**
    What happens just before one call: edits, and perhaps the end of this executor, killed or stopped
    by the check that it still holds its lease.  A kill during a write leaves `torn` characters.
   */
  datatype Turn = Turn(edits: seq<Event>, killed: bool, torn: nat)

  datatype Stop =
    | Killed
    | NotFound                                // FileNotFoundError
    | TargetChanged(observed: string)
    | TargetMissing

  /** The result of a call that may stop the caller. */
  datatype Call<+T> = Done(value: T) | Stopped(stop: Stop) {
    predicate IsFailure() { Stopped? }
    function PropagateFailure<U>(): Call<U>
      requires Stopped?
    {
      Stopped(stop)
    }
    function Extract(): T
      requires Done?
    {
      value
    }
  }

  datatype LinkResult = Linked | FileExists | OtherError

  predicate Edits(events: seq<Event>) {
    forall i :: 0 <= i < |events| ==> ByEditor(events[i])
  }

  /** The turns to come.  A calm script only kills: no editor is at work. */
  datatype RawScript = Script(calm: bool, turns: seq<Turn>)
  type Script = s: RawScript
    | forall i :: 0 <= i < |s.turns| ==> Edits(s.turns[i].edits) && (s.calm ==> s.turns[i].edits == [])
    witness Script(true, [])

  function EditorEvents(events: seq<Event>): seq<Event> {
    if events == [] then []
    else
      EditorEvents(events[..|events| - 1]) + if ByEditor(events[|events| - 1]) then [events[|events| - 1]] else []
  }

  /** The edits of the first n turns. */
  function EditsOf(turns: seq<Turn>, n: nat): seq<Event>
    requires n <= |turns|
  {
    if n == 0 then [] else EditsOf(turns, n - 1) + turns[n - 1].edits
  }

  /**
    The events so far, the disk they lead to, and how many turns of the script were played.  Every executor
    call was guarded, and the editor's events are exactly the edits of the turns played.
   */
  datatype RawHistory = History(origin: Disk, events: seq<Event>, now: Disk, script: Script, played: nat)
  type History = h: RawHistory
    | DiskOk(h.origin) && GuardedRun(h.origin, h.events) && h.now == Run(h.origin, h.events)
      && h.played <= |h.script.turns| && EditorEvents(h.events) == EditsOf(h.script.turns, h.played)
    witness History(EMPTY, [], EMPTY, Script(true, []), 0)

  /** `b` continues `a`: events were added, and more turns of the script may have been played. */
  predicate Elapsed(a: History, b: History) {
    a.origin == b.origin && a.script == b.script && a.played <= b.played && a.events <= b.events
  }

  /**
    `b` continues `a`, and in between no executor call lost anything; the editor did what the script says and
    nothing else; and every inode that was ever moved off the target is named by backup or claim.
   */
  ghost predicate KeepsFiles(a: History, b: History) {
    && Elapsed(a, b)
    && (forall i :: |a.events| <= i < |b.events| && !ByEditor(b.events[i]) ==>
          LosesNothing(Run(b.origin, b.events[..i]), b.events[i]))
    && EditorEvents(b.events) == EditsOf(b.script.turns, b.played)
    && (forall inode :: inode in Moved(b.origin, b.events) ==> SetAside(b.now, inode))
  }

  /** Every continuation of a history keeps the files: its executor calls are guarded, its edits the script's. */
  lemma EveryRunIsSafe(a: History, b: History)
    requires Elapsed(a, b)
    ensures KeepsFiles(a, b)
  {
    NoBytesLost(b.origin, b.events);
  }

  /** The hash of the file under a name; None if there is no file. */
  function HashAt(d: Disk, hash: string -> string, n: Name): Option<string> {
    if d.At(n).Some? && d.At(n).value in d.bytes then Some(hash(d.bytes[d.At(n).value])) else None
  }

  /** At some point between `a` and `b` the file under the name, if any, had that hash. */
  ghost predicate SeenAt(a: History, b: History, hash: string -> string, n: Name, h: Option<string>) {
    exists i :: |a.events| <= i <= |b.events| && HashAt(Run(b.origin, b.events[..i]), hash, n) == h
  }

  lemma SeenNow(a: History, b: History, hash: string -> string, n: Name)
    requires Elapsed(a, b)
    ensures SeenAt(a, b, hash, n, HashAt(b.now, hash, n))
  {
    assert b.events[..|b.events|] == b.events;
  }

  lemma SeenLater(a: History, b: History, c: History, d: History, hash: string -> string, n: Name, h: Option<string>)
    requires Elapsed(a, b) && Elapsed(c, d) && SeenAt(b, c, hash, n, h)
    ensures SeenAt(a, d, hash, n, h)
  {
    var i :| |b.events| <= i <= |c.events| && HashAt(Run(c.origin, c.events[..i]), hash, n) == h;
    assert d.events[..i] == c.events[..i];
  }

  /** A turn of those from `from` to `to` killed the executor in the write of the staged file, and left this of it. */
  predicate TornBy(script: Script, from: nat, to: nat, d: Disk, content: string) {
    && d.staged.Some? && d.staged.value in d.bytes
    && exists k :: from <= k < to && k < |script.turns| && TearsTo(script.turns[k], content, d.bytes[d.staged.value])
  }

  predicate TearsTo(turn: Turn, content: string, left: string) {
    turn.killed && turn.torn < |content| && left == content[..turn.torn]
  }

  /** A staged file, if there is one, holds the whole content. */
  predicate StagedWhole(d: Disk, content: string) {
    d.staged.Some? ==> d.staged.value in d.bytes && d.bytes[d.staged.value] == content
  }

  /**
    From `a` to `b` a staged file stays as it is; and if there was none that is not whole, there is none now,
    unless a kill in between tore it.
   */
  predicate Accounted(script: Script, from: nat, to: nat, a: Disk, b: Disk, content: string) {
    && (a.staged.Some? && a.staged.value in a.bytes ==>
          b.staged == a.staged && a.staged.value in b.bytes && b.bytes[a.staged.value] == a.bytes[a.staged.value])
    && (StagedWhole(a, content) ==> StagedWhole(b, content) || TornBy(script, from, to, b, content))
  }

  lemma AccountedThen(script: Script, p: nat, q: nat, r: nat, a: Disk, b: Disk, c: Disk, content: string)
    requires p <= q <= r
    ensures Accounted(script, p, q, a, b, content) && Accounted(script, q, r, b, c, content) ==>
      Accounted(script, p, r, a, c, content)
  {
  }

  // The executor's private names, which the editor never touches.
  predicate SamePrivate(a: Disk, b: Disk) {
    a.backup == b.backup && a.claim == b.claim && a.staged == b.staged
  }

  // No private name has changed, nor a staged file that was never public.
  predicate Untouched(a: Disk, b: Disk) {
    && SamePrivate(a, b)
    && (a.staged.Some? && a.staged.value in a.bytes && a.staged.value !in a.held ==>
          var inode := a.staged.value;
          inode !in b.held && inode in b.bytes && b.bytes[inode] == a.bytes[inode])
  }

  lemma EditIsPublic(d: Disk, e: Event)
    requires DiskOk(d) && ByEditor(e)
    ensures Untouched(d, Apply(d, e)) && Guarded(d, e)
  {
  }

  lemma {:induction false} EditsArePublic(d: Disk, events: seq<Event>)
    requires Edits(events) && DiskOk(d)
    ensures Untouched(d, Run(d, events))
  {
    if events != [] {
      var last := |events| - 1;
      EditsArePublic(d, events[..last]);
      RunKeepsDisk(d, events[..last]);
      EditIsPublic(Run(d, events[..last]), events[last]);
    }
  }

  lemma RunKeepsGuard(d: Disk, events: seq<Event>, e: Event)
    ensures Run(d, events + [e]) == Apply(Run(d, events), e)
    ensures GuardedRun(d, events) && Guarded(Run(d, events), e) ==> GuardedRun(d, events + [e])
  {
    assert (events + [e])[..|events|] == events;
  }

  // An executor call adds nothing to the editor's events.
  lemma AfterCall(h: History, e: Event) returns (next: History)
    requires !ByEditor(e) && Guarded(h.now, e)
    ensures next == History(h.origin, h.events + [e], Apply(h.now, e), h.script, h.played)
  {
    RunKeepsGuard(h.origin, h.events, e);
    assert (h.events + [e])[..|h.events|] == h.events;
    next := History(h.origin, h.events + [e], Apply(h.now, e), h.script, h.played);
  }

  lemma OneMoreEdit(d: Disk, events: seq<Event>, e: Event)
    requires DiskOk(d) && GuardedRun(d, events) && ByEditor(e)
    ensures GuardedRun(d, events + [e]) && Run(d, events + [e]) == Apply(Run(d, events), e)
    ensures EditorEvents(events + [e]) == EditorEvents(events) + [e]
  {
    RunKeepsDisk(d, events);
    EditIsPublic(Run(d, events), e);
    RunKeepsGuard(d, events, e);
    assert (events + [e])[..|events|] == events;
  }

  lemma {:induction false} EditsAreGuarded(d: Disk, events: seq<Event>, edits: seq<Event>)
    requires DiskOk(d) && GuardedRun(d, events) && Edits(edits)
    ensures GuardedRun(d, events + edits)
    ensures Run(d, events + edits) == Run(Run(d, events), edits)
    ensures EditorEvents(events + edits) == EditorEvents(events) + edits
  {
    if edits == [] {
      assert events + edits == events;
    } else {
      var last := |edits| - 1;
      EditsAreGuarded(d, events, edits[..last]);
      OneMoreEdit(d, events + edits[..last], edits[last]);
      LastApart(events, edits);
    }
  }

  lemma LastApart(events: seq<Event>, edits: seq<Event>)
    requires edits != []
    ensures var last := |edits| - 1;
            && events + edits == (events + edits[..last]) + [edits[last]]
            && edits == edits[..last] + [edits[last]]
            && forall front: seq<Event> :: (front + edits[..last]) + [edits[last]] == front + edits
  {
    var last := |edits| - 1;
    assert edits == edits[..last] + [edits[last]];
    forall front: seq<Event> ensures (front + edits[..last]) + [edits[last]] == front + edits {
    }
  }

  // A turn adds its edits.
  lemma AfterTurn(h: History) returns (next: History)
    requires h.played < |h.script.turns|
    ensures var edits := h.script.turns[h.played].edits;
            next == History(h.origin, h.events + edits, Run(h.now, edits), h.script, h.played + 1)
  {
    var edits := h.script.turns[h.played].edits;
    EditsAreGuarded(h.origin, h.events, edits);
    next := History(h.origin, h.events + edits, Run(h.now, edits), h.script, h.played + 1);
  }

  class World {
    var disk: Disk
    var played: nat
    const script: Script
    const hash: string -> string
    ghost const origin: Disk
    ghost var history: History

    ghost predicate Valid()
      reads this
    {
      disk == history.now && history.origin == origin && history.script == script && history.played == played
    }

    constructor (disk: Disk, script: Script, hash: string -> string)
      requires DiskOk(disk)
      ensures Valid() && this.disk == disk && this.script == script && this.hash == hash && origin == disk
      ensures history.events == [] && played == 0
    {
      this.disk, this.played, this.script, this.hash, this.origin := disk, 0, script, hash, disk;
      this.history := History(disk, [], disk, script, 0);
    }

    // One call of the executor.
    method Perform(e: Event)
      requires Valid() && !ByEditor(e) && Guarded(disk, e)
      modifies this`disk, this`history
      ensures Valid() && disk == Apply(old(disk), e) && Elapsed(old(history), history)
      ensures played == old(played)
    {
      ghost var next := AfterCall(history, e);
      disk := Apply(disk, e);
      history := next;
    }

    /** The turn before a call: the editor's edits are those of the script, and no others. */
    method Tick() returns (r: Call<()>)
      requires Valid()
      modifies this
      ensures Valid() && Untouched(old(disk), disk) && Elapsed(old(history), history)
      ensures script.calm ==> disk == old(disk)
      ensures r.Stopped? ==> r.stop == Killed && old(played) < |script.turns| && script.turns[old(played)].killed
      ensures r.Stopped? ==> played == old(played) + 1
    {
      if played == |script.turns| {
        return Done(());
      }
      var turn := script.turns[played];
      RunKeepsDisk(history.origin, history.events);
      EditsArePublic(disk, turn.edits);
      ghost var next := AfterTurn(history);
      disk, played := Run(disk, turn.edits), played + 1;
      history := next;
      r := if turn.killed then Stopped(Killed) else Done(());
    }

    method Exists(n: Name) returns (r: Call<bool>)
      requires Valid()
      modifies this
      ensures Valid() && Untouched(old(disk), disk) && Elapsed(old(history), history)
      ensures script.calm ==> disk == old(disk)
      ensures r.Done? ==> (r.value <==> disk.At(n).Some?)
      ensures r.Stopped? ==> r.stop == Killed && old(played) < played
    {
      var _ :- Tick();
      return Done(disk.At(n).Some?);
    }

    method Sync(n: Name) returns (r: Call<()>)
      requires Valid()
      modifies this
      ensures Valid() && Untouched(old(disk), disk) && Elapsed(old(history), history)
      ensures script.calm ==> disk == old(disk)
      ensures r.Done? ==> disk.At(n).Some?
      ensures r.Stopped? ==>
          (r.stop == Killed && old(played) < played) || (r.stop == NotFound && disk.At(n).None?)
    {
      var _ :- Tick();
      if disk.At(n).None? {
        return Stopped(NotFound);
      }
      return Done(());
    }

    method Hash(n: Name) returns (r: Call<string>)
      requires Valid()
      modifies this
      ensures Valid() && Untouched(old(disk), disk) && Elapsed(old(history), history)
      ensures script.calm ==> disk == old(disk)
      ensures r.Done? ==>
          disk.At(n).Some? && disk.At(n).value in disk.bytes && r.value == hash(disk.bytes[disk.At(n).value])
      ensures r.Stopped? ==>
          (r.stop == Killed && old(played) < played) || (r.stop == NotFound && disk.At(n).None?)
    {
      var _ :- Tick();
      if disk.At(n).None? {
        return Stopped(NotFound);
      }
      RunKeepsDisk(history.origin, history.events);
      return Done(hash(disk.bytes[disk.At(n).value]));
    }

    // Two stat calls: between them the target may change, but not a private name.
    method SameFile(a: Name, b: Name) returns (r: Call<bool>)
      requires Valid()
      modifies this
      ensures Valid() && Untouched(old(disk), disk) && Elapsed(old(history), history)
      ensures script.calm ==> disk == old(disk)
      ensures r.Done? && (script.calm || (a != Target && b != Target)) ==>
        (r.value <==> disk.At(a).Some? && disk.At(b).Some? && disk.At(a) == disk.At(b))
      ensures r.Stopped? ==> r.stop == Killed && old(played) < played
    {
      var _ :- Tick();
      if disk.At(a).None? {
        return Done(false);
      }
      var first := disk.At(a);
      var _ :- Tick();
      return Done(disk.At(b).Some? && disk.At(b) == first);
    }

    method LinkToTarget(src: Name) returns (r: Call<LinkResult>)
      requires Valid() && src != Target
      modifies this
      ensures Valid() && SamePrivate(old(disk), disk) && Elapsed(old(history), history)
      ensures script.calm && r.Done? ==> disk == Apply(old(disk), Link(src, Target))
      ensures script.calm && r.Stopped? ==> disk == old(disk)
      ensures script.calm && r.Done? ==>
        r.value == (if old(disk).At(src).None? then OtherError
                    else if old(disk).target.Some? then FileExists else Linked)
      ensures r.Stopped? ==> r.stop == Killed && old(played) < played
    {
      var _ :- Tick();
      var result := if disk.At(src).None? then OtherError else if disk.target.Some? then FileExists else Linked;
      Perform(Link(src, Target));
      return Done(result);
    }

    method LinkToBackup() returns (r: Call<LinkResult>)
      requires Valid() && disk.backup.None?
      modifies this
      ensures Valid() && Elapsed(old(history), history)
      ensures disk.claim.Some? <==> old(disk).claim.Some?
      ensures r.Done? ==> (r.value == Linked <==> disk.backup.Some?) && r.value != FileExists
      ensures script.calm && r.Done? ==> disk == Apply(old(disk), Link(Target, Backup))
      ensures script.calm && r.Stopped? ==> disk == old(disk)
      ensures r.Stopped? ==> r.stop == Killed && old(played) < played
    {
      var _ :- Tick();
      var result := if disk.target.Some? then Linked else OtherError;
      Perform(Link(Target, Backup));
      return Done(result);
    }

    method RenameAside() returns (r: Call<()>)
      requires Valid() && disk.claim.None?
      modifies this
      ensures Valid() && Elapsed(old(history), history)
      ensures (disk.backup.Some? <==> old(disk).backup.Some?)
      ensures disk.backup.Some? ==> disk.backup == old(disk).backup
      ensures r.Done? ==> disk.claim.Some? && disk.target.None?
      ensures script.calm && r.Done? ==> disk == Apply(old(disk), RenameTargetToClaim)
      ensures script.calm && r.Stopped? ==> disk == old(disk)
      ensures r.Stopped? ==>
          (r.stop == Killed && old(played) < played) || (r.stop == NotFound && disk.target.None?)
    {
      var _ :- Tick();
      if disk.target.None? {
        return Stopped(NotFound);
      }
      Perform(RenameTargetToClaim);
      return Done(());
    }

    method UnlinkClaimFile() returns (r: Call<()>)
      requires Valid() && disk.claim.Some? && disk.backup.Some? && disk.claim == disk.backup
      modifies this
      ensures Valid() && Elapsed(old(history), history)
      ensures disk.backup.Some? && disk.backup == old(disk).backup
      ensures r.Done? ==> disk.claim.None?
      ensures script.calm && r.Done? ==> disk == Apply(old(disk), UnlinkClaim)
      ensures script.calm && r.Stopped? ==> disk == old(disk)
      ensures r.Stopped? ==> r.stop == Killed && old(played) < played
    {
      var _ :- Tick();
      Perform(UnlinkClaim);
      return Done(());
    }

    method CreateStagedFile() returns (r: Call<()>)
      requires Valid() && disk.staged.None?
      modifies this
      ensures Valid() && Elapsed(old(history), history)
      ensures r.Stopped? ==> r.stop == Killed && old(played) < played
      ensures r.Done? ==> Guarded(disk, WriteStaged(""))
      ensures script.calm ==> if r.Done? then StagedIs(old(disk), disk, "") else disk == old(disk)
    {
      var _ :- Tick();
      RunKeepsDisk(history.origin, history.events);
      var inode := FreshInode(disk.bytes.Keys);
      Perform(CreateStaged(inode));
      return Done(());
    }

    /** Writes the staged file just created; a kill leaves the first `written` characters. */
    method FillStagedFile(content: string) returns (r: Call<()>, ghost written: nat)
      requires Valid() && Guarded(disk, WriteStaged(""))
      modifies this
      ensures Valid() && Elapsed(old(history), history)
      ensures r.Stopped? ==> r.stop == Killed && old(played) < played
      ensures written <= |content| && (r.Done? ==> written == |content|)
      ensures r.Stopped? ==> old(played) < |script.turns| && script.turns[old(played)].killed
      ensures r.Stopped? && written < |content| ==> script.turns[old(played)].torn == written
      ensures script.calm ==> disk == Apply(old(disk), WriteStaged(content[..written]))
    {
      var torn := if played < |script.turns| then script.turns[played].torn else |content|;
      torn := if torn < |content| then torn else |content|;
      r := Tick();
      written := if r.Stopped? then torn else |content|;
      if r.Done? {
        torn := |content|;
      }
      Perform(WriteStaged(content[..torn]));
    }

    method WriteStagedFile(content: string) returns (r: Call<()>)
      requires Valid() && disk.staged.None?
      modifies this
      ensures Valid() && Elapsed(old(history), history)
      ensures r.Stopped? ==> r.stop == Killed && old(played) < played
      ensures script.calm && r.Done? ==> StagedIs(old(disk), disk, content)
      ensures script.calm && r.Stopped? ==>
        disk == old(disk) || exists k: nat :: k <= |content| && StagedIs(old(disk), disk, content[..k])
      ensures script.calm ==> Accounted(script, old(played), played, old(disk), disk, content)
    {
      var _ :- CreateStagedFile();
      ghost var written, k := 0, played;
      r, written := FillStagedFile(content);
      assert content[..|content|] == content;
      assert script.calm ==> StagedIs(old(disk), disk, content[..written]);
      if script.calm && written < |content| {
        assert TearsTo(script.turns[k], content, disk.bytes[disk.staged.value]);
      }
    }
  }

  method FreshInode(used: set<nat>) returns (inode: nat)
    ensures inode !in used
  {
    inode := 0;
    var left := used;
    while left != {}
      invariant forall i :: i in used && i !in left ==> i < inode
      decreases left
    {
      var i :| i in left;
      if inode <= i {
        inode := i + 1;
      }
      left := left - {i};
    }
  }

  // `b` is `a` with a new staged file of that content.
  predicate StagedIs(a: Disk, b: Disk, content: string) {
    && b.staged.Some? && b.staged.value !in a.bytes
    && b == a.(staged := b.staged, bytes := a.bytes[b.staged.value := content])
  }

  // ---------- Capture ----------

  datatype Captured = Captured(hash: Option<string>)

  datatype ClaimFound = ClaimFound(stray: bool, duplicatesBackup: bool)

  /**
    What a quiet world may look like while the file `o` is being captured; None is a page that is new, of
    which there is no file.
   */
  predicate Capturing(d: Disk, o: Option<nat>) {
    match o
    case None => d.target.None? && d.backup.None? && d.claim.None?
    case Some(a) =>
      && a in d.bytes
      && (d.backup.Some? ==> d.backup.value == a)
      && ((d.target == Some(a) && d.claim.None?)
          || (d.target.None? && d.backup.Some? && (d.claim.Some? ==> d.claim.value == a)))
  }

  /** The hash that a writer of the file `o` expects. */
  function ExpectedHash(hash: string -> string, d: Disk, o: Option<nat>): Option<string> {
    match o
    case None => None
    case Some(a) => if a in d.bytes then Some(hash(d.bytes[a])) else None
  }

  predicate SameStaged(a: Disk, b: Disk) {
    a.staged == b.staged && a.bytes == b.bytes
  }

  /** The capture is over: target and claim are absent and the backup names the original file, if there was one. */
  predicate CaptureOver(d: Disk, o: Option<nat>) {
    d.target.None? && d.claim.None? && d.backup == o
  }

  /** What a quiet world may look like while `content` is being installed. */
  predicate Installing(d: Disk, content: string) {
    && (d.staged.Some? ==> d.staged.value in d.bytes && d.bytes[d.staged.value] <= content)
    && (d.target.Some? ==> Installed(d, content))
  }

  predicate Installed(d: Disk, content: string) {
    d.target.Some? && d.target == d.staged && d.target.value in d.bytes && d.bytes[d.target.value] == content
  }

  /** A kill in the middle of the write left a strict prefix behind. */
  predicate Torn(d: Disk, content: string) {
    d.staged.Some? && d.staged.value in d.bytes && d.bytes[d.staged.value] < content
  }

  // Collision freedom, as far as it is needed: no torn file hashes like the whole.
  predicate NoTornTwin(hash: string -> string, content: string) {
    forall k :: 0 <= k < |content| ==> hash(content[..k]) != hash(content)
  }

  // `b` is a later point of the installation begun in `a`: everything of `a` is as it was.
  ghost predicate Prepared(a: Disk, b: Disk, content: string) {
    && Installing(b, content)
    && a.backup == b.backup && a.claim == b.claim
    && (a.staged.Some? ==> b.staged == a.staged)
    && (b.staged.Some? && a.staged.None? ==> b.staged.value !in a.bytes)
    && (forall inode :: inode in a.bytes ==> inode in b.bytes && b.bytes[inode] == a.bytes[inode])
  }

  lemma NewStagedIsPrepared(a: Disk, b: Disk, content: string)
    ensures (Installing(a, content) && a.staged.None?
             && (b == a || exists k: nat :: k <= |content| && StagedIs(a, b, content[..k]))) ==>
      Prepared(a, b, content)
  {
  }

  // A prepared file with the right hash is whole, and linking it installs it.
  lemma LinkInstalls(a: Disk, b: Disk, hash: string -> string, content: string)
    requires Installing(a, content) && a.target.None? && Prepared(a, b, content) && NoTornTwin(hash, content)
    requires b.staged.Some? && hash(b.bytes[b.staged.value]) == hash(content)
    ensures b.bytes[b.staged.value] == content
    ensures Prepared(a, Apply(b, Link(Staged, Target)), content)
    ensures b.target.None? ==> Installed(Apply(b, Link(Staged, Target)), content)
  {
    var found := b.bytes[b.staged.value];
    assert found == content[..|found|];
  }

  /**
    What a capture that returned has seen on the way: the expected file under the backup, or, with nothing to
    capture and nothing expected, no file at the target.
   */
  ghost predicate CaptureSeen(
      a: History, b: History, hash: string -> string, expected: Option<string>, captured: Captured)
  {
    && (expected.Some? ==> captured.hash == expected)
    && SeenAt(a, b, hash, if captured.hash.Some? then Backup else Target, captured.hash)
  }

  lemma CaptureSeenLater(
      a: History, b: History, c: History, d: History, hash: string -> string, expected: Option<string>,
      captured: Captured)
    requires Elapsed(a, b) && Elapsed(c, d) && CaptureSeen(b, c, hash, expected, captured)
    ensures CaptureSeen(a, d, hash, expected, captured)
  {
    SeenLater(a, b, c, d, hash, if captured.hash.Some? then Backup else Target, captured.hash);
  }

  class AtomicVaultWriter {
    const world: World

    constructor (world: World)
      ensures this.world == world
    {
      this.world := world;
    }

    // Links the claim back to the target if that name is free, and reports the change either way.
    method PutBack(claimHash: string) returns (r: Call<Captured>)
      requires world.Valid()
      modifies world
      ensures world.Valid() && SamePrivate(old(world.disk), world.disk) && Elapsed(old(world.history), world.history)
      ensures r.Stopped? && (r.stop == Killed ==> old(world.played) < world.played)
    {
      var linked :- world.LinkToTarget(Claim);
      if linked == FileExists {
        var observed :- world.Hash(Target);
        return Stopped(TargetChanged(observed));
      }
      if linked == OtherError {
        return Stopped(TargetChanged(claimHash));
      }
      var _ :- world.Sync(Target);
      return Stopped(TargetChanged(claimHash));
    }

    // A claim that is neither the backup nor the target was left by an interrupted capture.
    method RestoreStrayClaim() returns (r: Call<Captured>)
      requires world.Valid()
      modifies world
      ensures world.Valid() && SamePrivate(old(world.disk), world.disk) && Elapsed(old(world.history), world.history)
      ensures r.Stopped? && (r.stop == Killed ==> old(world.played) < world.played)
    {
      var _ :- world.Sync(Claim);
      var claimHash :- world.Hash(Claim);
      var present :- world.Exists(Target);
      if !present {
        r := PutBack(claimHash);
        return;
      }
      return Stopped(TargetChanged(claimHash));
    }

    method DropDuplicateClaim() returns (r: Call<()>)
      requires world.Valid() && world.disk.claim.Some? && world.disk.claim == world.disk.backup
      modifies world
      ensures world.Valid() && Elapsed(old(world.history), world.history)
      ensures r.Stopped? ==> r.stop == Killed && old(world.played) < world.played
      ensures world.script.calm && r.Done? ==> world.disk == Apply(old(world.disk), UnlinkClaim)
      ensures world.script.calm && r.Stopped? ==> world.disk == old(world.disk)
    {
      var present :- world.Exists(Claim);
      if present {
        var _ :- world.UnlinkClaimFile();
      }
      return Done(());
    }

    method VerifyBackup(expected: Option<string>) returns (r: Call<string>)
      requires world.Valid()
      modifies world
      ensures world.Valid() && Untouched(old(world.disk), world.disk) && Elapsed(old(world.history), world.history)
      ensures r == Stopped(Killed) ==> old(world.played) < world.played
      ensures r.Done? ==> SeenAt(old(world.history), world.history, world.hash, Backup, Some(r.value))
      ensures r.Done? && expected.Some? ==> r.value == expected.value
      ensures world.script.calm ==> world.disk == old(world.disk)
      ensures r.Stopped? ==>
        || r.stop == Killed
        || world.disk.backup.None?
        || (world.disk.backup.value in world.disk.bytes
          && expected != Some(world.hash(world.disk.bytes[world.disk.backup.value])))
    {
      var _ :- world.Sync(Backup);
      var observed :- world.Hash(Backup);
      SeenNow(old(world.history), world.history, world.hash, Backup);
      if expected.Some? && observed != expected.value {
        return Stopped(TargetChanged(observed));
      }
      return Done(observed);
    }

    // The checks on an existing backup: `None` means that the capture goes on.
    method CheckBackup(expected: Option<string>, claimDuplicatesBackup: bool, ghost o: Option<nat>)
      returns (r: Call<Option<Captured>>)
      requires world.Valid()
      requires claimDuplicatesBackup ==>
        world.disk.claim.Some? && world.disk.backup.Some? && world.disk.claim == world.disk.backup
      modifies world
      ensures world.Valid() && Elapsed(old(world.history), world.history)
      ensures r == Stopped(Killed) ==> old(world.played) < world.played
      ensures r.Done? && r.value.Some? ==>
        CaptureSeen(old(world.history), world.history, world.hash, expected, r.value.value)
      ensures (CapturesQuietly(old(world.disk), expected, o)
               && (old(world.disk).claim.Some? ==> claimDuplicatesBackup)) ==>
        && Capturing(world.disk, o) && SameStaged(old(world.disk), world.disk)
        && (r.Stopped? ==> r.stop == Killed)
        && (r.Done? && r.value.Some? ==> CaptureOver(world.disk, o) && r.value.value == Captured(expected))
        && (r.Done? && r.value.None? ==> (world.disk.target.Some? || o.None?) && world.disk == old(world.disk))
    {
      var present :- world.Exists(Backup);
      if !present {
        return Done(None);
      }
      ghost var before := world.history;
      r := CheckPresentBackup(expected, claimDuplicatesBackup, o);
      if r.Done? && r.value.Some? {
        CaptureSeenLater(old(world.history), before, world.history, world.history, world.hash, expected, r.value.value);
      }
    }

    method CheckPresentBackup(expected: Option<string>, claimDuplicatesBackup: bool, ghost o: Option<nat>)
      returns (r: Call<Option<Captured>>)
      requires world.Valid() && world.disk.backup.Some?
      requires claimDuplicatesBackup ==> world.disk.claim.Some? && world.disk.claim == world.disk.backup
      modifies world
      ensures world.Valid() && Elapsed(old(world.history), world.history)
      ensures r == Stopped(Killed) ==> old(world.played) < world.played
      ensures r.Done? && r.value.Some? ==>
        CaptureSeen(old(world.history), world.history, world.hash, expected, r.value.value)
      ensures (CapturesQuietly(old(world.disk), expected, o)
               && (old(world.disk).claim.Some? ==> claimDuplicatesBackup)) ==>
        && Capturing(world.disk, o) && SameStaged(old(world.disk), world.disk)
        && (r.Stopped? ==> r.stop == Killed)
        && (r.Done? && r.value.Some? ==> CaptureOver(world.disk, o) && r.value.value == Captured(expected))
        && (r.Done? && r.value.None? ==> world.disk.target.Some? && world.disk == old(world.disk))
    {
      var observed :- VerifyBackup(expected);
      ghost var seen := world.history;
      var suffices :- BackupSuffices(claimDuplicatesBackup, o);
      SeenLater(old(world.history), old(world.history), seen, world.history, world.hash, Backup, Some(observed));
      return Done(if suffices then Some(Captured(Some(observed))) else None);
    }

    // The target is absent, or another file than the backup.
    method BackupSuffices(claimDuplicatesBackup: bool, ghost o: Option<nat>) returns (r: Call<bool>)
      requires world.Valid() && world.disk.backup.Some?
      requires claimDuplicatesBackup ==> world.disk.claim.Some? && world.disk.claim == world.disk.backup
      modifies world
      ensures world.Valid() && Elapsed(old(world.history), world.history)
      ensures r.Stopped? ==> r.stop == Killed && old(world.played) < world.played
      ensures (world.script.calm && Capturing(old(world.disk), o)
               && (old(world.disk).claim.Some? ==> claimDuplicatesBackup)) ==>
        && Capturing(world.disk, o) && SameStaged(old(world.disk), world.disk)
        && (r.Done? && r.value ==> CaptureOver(world.disk, o))
        && (r.Done? && !r.value ==> world.disk.target.Some? && world.disk == old(world.disk))
    {
      var targetPresent :- world.Exists(Target);
      if targetPresent {
        var same :- world.SameFile(Target, Backup);
        return Done(!same);
      }
      if claimDuplicatesBackup {
        var _ :- DropDuplicateClaim();
      }
      return Done(true);
    }

    method KeepBackup() returns (r: Call<()>)
      requires world.Valid()
      modifies world
      ensures world.Valid() && Elapsed(old(world.history), world.history)
      ensures r == Stopped(Killed) ==> old(world.played) < world.played
      ensures world.script.calm && old(world.disk).target.Some? ==>
        && (r.Stopped? ==> r.stop == Killed)
        && (world.disk == old(world.disk) || world.disk == Apply(old(world.disk), Link(Target, Backup)))
        && (r.Done? ==> world.disk.backup.Some?)
    {
      var present :- world.Exists(Backup);
      if !present {
        var linked :- world.LinkToBackup();
        if linked == OtherError {
          return Stopped(NotFound);
        }
        var _ :- world.Sync(Backup);
      }
      return Done(());
    }

    // Keep a link in backup, then take the name away by a rename, and look at what was taken.
    method MoveAside(expected: Option<string>, ghost o: Option<nat>) returns (r: Call<Captured>)
      requires world.Valid()
      modifies world
      ensures world.Valid() && Elapsed(old(world.history), world.history)
      ensures r == Stopped(Killed) ==> old(world.played) < world.played
      ensures r.Done? ==> CaptureSeen(old(world.history), world.history, world.hash, expected, r.value)
      ensures CapturesQuietly(old(world.disk), expected, o) && (old(world.disk).target.Some? || o.None?) ==>
        && Capturing(world.disk, o) && SameStaged(old(world.disk), world.disk)
        && (r.Stopped? ==> r.stop == Killed)
        && (r.Done? ==> CaptureOver(world.disk, o) && r.value == Captured(expected))
    {
      var present :- world.Exists(Target);
      if !present {
        if expected.Some? {
          return Stopped(TargetMissing);
        }
        SeenNow(old(world.history), world.history, world.hash, Target);
        return Done(Captured(None));
      }
      ghost var before := world.history;
      r := MovePresentAside(expected, o);
      if r.Done? {
        CaptureSeenLater(old(world.history), before, world.history, world.history, world.hash, expected, r.value);
      }
    }

    method MovePresentAside(expected: Option<string>, ghost o: Option<nat>) returns (r: Call<Captured>)
      requires world.Valid()
      modifies world
      ensures world.Valid() && Elapsed(old(world.history), world.history)
      ensures r == Stopped(Killed) ==> old(world.played) < world.played
      ensures r.Done? ==> CaptureSeen(old(world.history), world.history, world.hash, expected, r.value)
      ensures CapturesQuietly(old(world.disk), expected, o) && old(world.disk).target.Some? ==>
        && Capturing(world.disk, o) && SameStaged(old(world.disk), world.disk)
        && (r.Stopped? ==> r.stop == Killed)
        && (r.Done? ==> CaptureOver(world.disk, o) && r.value == Captured(expected))
    {
      var _ :- KeepBackup();
      ghost var before := world.history;
      r := TakeAway(expected, o);
      if r.Done? {
        CaptureSeenLater(old(world.history), before, world.history, world.history, world.hash, expected, r.value);
      }
    }

    method TakeAway(expected: Option<string>, ghost o: Option<nat>) returns (r: Call<Captured>)
      requires world.Valid()
      modifies world
      ensures world.Valid() && Elapsed(old(world.history), world.history)
      ensures r == Stopped(Killed) ==> old(world.played) < world.played
      ensures r.Done? ==> CaptureSeen(old(world.history), world.history, world.hash, expected, r.value)
      ensures (CapturesQuietly(old(world.disk), expected, o)
               && old(world.disk).target.Some? && old(world.disk).backup.Some?) ==>
        && Capturing(world.disk, o) && SameStaged(old(world.disk), world.disk)
        && (r.Stopped? ==> r.stop == Killed)
        && (r.Done? ==> CaptureOver(world.disk, o) && r.value == Captured(expected))
    {
      var claimPresent :- world.Exists(Claim);
      ghost var before := world.history;
      if claimPresent {
        r := ReportClaim();
      } else {
        r := RenameAndFinish(expected, o);
      }
      if r.Done? {
        CaptureSeenLater(old(world.history), before, world.history, world.history, world.hash, expected, r.value);
      }
    }

    method RenameAndFinish(expected: Option<string>, ghost o: Option<nat>) returns (r: Call<Captured>)
      requires world.Valid() && world.disk.claim.None?
      modifies world
      ensures world.Valid() && Elapsed(old(world.history), world.history)
      ensures r == Stopped(Killed) ==> old(world.played) < world.played
      ensures r.Done? ==> CaptureSeen(old(world.history), world.history, world.hash, expected, r.value)
      ensures (CapturesQuietly(old(world.disk), expected, o)
               && old(world.disk).target.Some? && old(world.disk).backup.Some?) ==>
        && Capturing(world.disk, o) && SameStaged(old(world.disk), world.disk)
        && (r.Stopped? ==> r.stop == Killed)
        && (r.Done? ==> CaptureOver(world.disk, o) && r.value == Captured(expected))
    {
      var _ :- world.RenameAside();
      ghost var before := world.history;
      r := FinishMove(expected, o);
      if r.Done? {
        CaptureSeenLater(old(world.history), before, world.history, world.history, world.hash, expected, r.value);
      }
    }

    method ReportClaim() returns (r: Call<Captured>)
      requires world.Valid()
      modifies world
      ensures world.Valid() && Elapsed(old(world.history), world.history)
      ensures r.Stopped? && (r.stop == Killed ==> old(world.played) < world.played)
    {
      var observed :- world.Hash(Claim);
      return Stopped(TargetChanged(observed));
    }

    method FinishMove(expected: Option<string>, ghost o: Option<nat>) returns (r: Call<Captured>)
      requires world.Valid()
      modifies world
      ensures world.Valid() && Elapsed(old(world.history), world.history)
      ensures r == Stopped(Killed) ==> old(world.played) < world.played
      ensures r.Done? ==> CaptureSeen(old(world.history), world.history, world.hash, expected, r.value)
      ensures CapturesQuietly(old(world.disk), expected, o) && old(world.disk).claim.Some? ==>
        && Capturing(world.disk, o) && SameStaged(old(world.disk), world.disk)
        && (r.Stopped? ==> r.stop == Killed)
        && (r.Done? ==> CaptureOver(world.disk, o) && r.value == Captured(expected))
    {
      var _ :- world.Sync(Claim);
      var same :- world.SameFile(Claim, Backup);
      ghost var before := world.history;
      if same {
        r := ReleaseClaim(expected);
        if r.Done? {
          CaptureSeenLater(old(world.history), before, world.history, world.history, world.hash, expected, r.value);
        }
      } else {
        r := PutBackOther();
      }
    }

    // What was taken is not what the backup has: the target was replaced in between.
    method PutBackOther() returns (r: Call<Captured>)
      requires world.Valid()
      modifies world
      ensures world.Valid() && Elapsed(old(world.history), world.history)
      ensures r.Stopped? && (r.stop == Killed ==> old(world.played) < world.played)
    {
      var claimHash :- world.Hash(Claim);
      r := PutBack(claimHash);
    }

    method ReleaseClaim(expected: Option<string>) returns (r: Call<Captured>)
      requires world.Valid() && world.disk.claim.Some? && world.disk.claim == world.disk.backup
      modifies world
      ensures world.Valid() && Elapsed(old(world.history), world.history)
      ensures r == Stopped(Killed) ==> old(world.played) < world.played
      ensures r.Done? ==> CaptureSeen(old(world.history), world.history, world.hash, expected, r.value)
      ensures var d := old(world.disk);
        (world.script.calm && d.target.None? && d.backup.value in d.bytes
          && expected == Some(world.hash(d.bytes[d.backup.value]))) ==>
        && (world.disk == d || world.disk == d.(claim := None))
        && (r.Stopped? ==> r.stop == Killed)
        && (r.Done? ==> world.disk.claim.None? && r.value == Captured(expected))
    {
      var reappeared :- world.Exists(Target);
      if reappeared {
        var observed :- world.Hash(Target);
        return Stopped(TargetChanged(observed));
      }
      var _ :- world.UnlinkClaimFile();
      var observed :- world.Hash(Backup);
      if Some(observed) != expected {
        return Stopped(TargetChanged(observed));
      }
      SeenNow(old(world.history), world.history, world.hash, Backup);
      return Done(Captured(Some(observed)));
    }

    ghost predicate CapturesQuietly(d: Disk, expected: Option<string>, o: Option<nat>)
      reads this
    {
      world.script.calm && Capturing(d, o) && expected == ExpectedHash(world.hash, d, o)
    }

    /**
      Moves the target aside.  Whatever the editor does, no call of it loses a file.  With no editor, from any
      point an earlier killed capture may have left, it can only be killed again or end with target and claim
      absent and backup naming the original file `o`, if there is one.
     */
    method Capture(expected: Option<string>, ghost o: Option<nat>) returns (r: Call<Captured>)
      requires world.Valid()
      modifies world
      ensures world.Valid() && KeepsFiles(old(world.history), world.history)
      ensures r == Stopped(Killed) ==> old(world.played) < world.played
      ensures r.Done? ==> CaptureSeen(old(world.history), world.history, world.hash, expected, r.value)
      ensures CapturesQuietly(old(world.disk), expected, o) ==>
        && Capturing(world.disk, o) && SameStaged(old(world.disk), world.disk)
        && (r.Stopped? ==> r.stop == Killed)
        && (r.Done? ==> CaptureOver(world.disk, o) && r.value == Captured(expected))
    {
      var claim := FindClaim();
      if claim.Stopped? {
        r := Stopped(claim.stop);
      } else if claim.value.stray {
        r := RestoreStrayClaim();
      } else {
        ghost var before := world.history;
        r := CaptureUnclaimed(expected, claim.value.duplicatesBackup, o);
        if r.Done? {
          CaptureSeenLater(old(world.history), before, world.history, world.history, world.hash, expected, r.value);
        }
      }
      EveryRunIsSafe(old(world.history), world.history);
    }

    method CaptureUnclaimed(expected: Option<string>, claimDuplicatesBackup: bool, ghost o: Option<nat>)
      returns (r: Call<Captured>)
      requires world.Valid()
      requires claimDuplicatesBackup ==>
        world.disk.claim.Some? && world.disk.backup.Some? && world.disk.claim == world.disk.backup
      modifies world
      ensures world.Valid() && Elapsed(old(world.history), world.history)
      ensures r == Stopped(Killed) ==> old(world.played) < world.played
      ensures r.Done? ==> CaptureSeen(old(world.history), world.history, world.hash, expected, r.value)
      ensures (CapturesQuietly(old(world.disk), expected, o)
               && (old(world.disk).claim.Some? ==> claimDuplicatesBackup)) ==>
        && Capturing(world.disk, o) && SameStaged(old(world.disk), world.disk)
        && (r.Stopped? ==> r.stop == Killed)
        && (r.Done? ==> CaptureOver(world.disk, o) && r.value == Captured(expected))
    {
      var checked :- CheckBackup(expected, claimDuplicatesBackup, o);
      if checked.Some? {
        return Done(checked.value);
      }
      ghost var before := world.history;
      r := MoveAside(expected, o);
      if r.Done? {
        CaptureSeenLater(old(world.history), before, world.history, world.history, world.hash, expected, r.value);
      }
    }

    // Whether there is a claim that was left by an interrupted capture, and whether the backup has it too.
    method FindClaim() returns (r: Call<ClaimFound>)
      requires world.Valid()
      modifies world
      ensures world.Valid() && Untouched(old(world.disk), world.disk) && Elapsed(old(world.history), world.history)
      ensures r.Stopped? ==> r.stop == Killed && old(world.played) < world.played
      ensures world.script.calm ==> world.disk == old(world.disk)
      ensures r.Done? && r.value.duplicatesBackup ==>
        world.disk.claim.Some? && world.disk.backup.Some? && world.disk.claim == world.disk.backup
      ensures world.script.calm && r.Done? ==> (var d := world.disk;
        && (r.value.stray <==> d.claim.Some? && d.claim != d.backup && d.claim != d.target)
        && (r.value.duplicatesBackup <==> d.claim.Some? && d.claim == d.backup))
    {
      var duplicatesBackup :- Duplicates(Backup);
      var duplicatesTarget :- Duplicates(Target);
      var present :- world.Exists(Claim);
      return Done(ClaimFound(present && !(duplicatesBackup || duplicatesTarget), duplicatesBackup));
    }

    method Duplicates(other: Name) returns (r: Call<bool>)
      requires world.Valid() && other != Claim
      modifies world
      ensures world.Valid() && Untouched(old(world.disk), world.disk) && Elapsed(old(world.history), world.history)
      ensures world.script.calm ==> world.disk == old(world.disk)
      ensures r.Done? && (world.script.calm || other != Target) ==>
        (r.value <==> world.disk.claim.Some? && world.disk.At(other).Some? && world.disk.claim == world.disk.At(other))
      ensures r.Stopped? ==> r.stop == Killed && old(world.played) < world.played
    {
      var present :- world.Exists(Claim);
      if !present {
        return Done(false);
      }
      var otherPresent :- world.Exists(other);
      if !otherPresent {
        return Done(false);
      }
      r := world.SameFile(Claim, other);
    }

    /** With no editor, kills and reruns of the capture come to an end, and they end captured. */
    method CaptureWithReruns(expected: Option<string>, ghost o: Option<nat>) returns (captured: Captured)
      requires world.Valid() && CapturesQuietly(world.disk, expected, o)
      modifies world
      ensures world.Valid() && SameStaged(old(world.disk), world.disk)
      ensures CaptureOver(world.disk, o) && captured == Captured(expected)
    {
      var r := Capture(expected, o);
      while r.Stopped?
        invariant world.Valid() && SameStaged(old(world.disk), world.disk)
        invariant CapturesQuietly(world.disk, expected, o)
        invariant r.Stopped? ==> r.stop == Killed
        invariant r.Done? ==> CaptureOver(world.disk, o) && r.value == Captured(expected)
        decreases |world.script.turns| - world.played, r.Stopped?
      {
        r := Capture(expected, o);
      }
      captured := r.value;
    }

    // ---------- Install ----------

    method PrepareStaged(content: string) returns (r: Call<()>)
      requires world.Valid()
      modifies world
      ensures world.Valid() && Elapsed(old(world.history), world.history)
      ensures r == Stopped(Killed) ==> old(world.played) < world.played
      ensures world.script.calm ==>
        && world.disk.backup == old(world.disk).backup && world.disk.claim == old(world.disk).claim
        && world.disk.target == old(world.disk).target
        && Accounted(world.script, old(world.played), world.played, old(world.disk), world.disk, content)
      ensures (world.script.calm && Installing(old(world.disk), content)) ==>
        && Prepared(old(world.disk), world.disk, content)
        && world.disk.target == old(world.disk).target
        && (r.Stopped? && r.stop != Killed ==> Torn(world.disk, content))
        && (r.Done? ==> (var staged := world.disk.staged;
              staged.Some? && world.hash(world.disk.bytes[staged.value]) == world.hash(content)))
    {
      var present :- world.Exists(Staged);
      if !present {
        ghost var before, from := world.disk, world.played;
        r := world.WriteStagedFile(content);
        AccountedThen(world.script, old(world.played), from, world.played, old(world.disk), before, world.disk,
          content);
        assert content[..|content|] == content;
        NewStagedIsPrepared(before, world.disk, content);
        return;
      }
      r := VerifyStaged(content);
    }

    method VerifyStaged(content: string) returns (r: Call<()>)
      requires world.Valid()
      modifies world
      ensures world.Valid() && Elapsed(old(world.history), world.history)
      ensures r == Stopped(Killed) ==> old(world.played) < world.played
      ensures world.script.calm ==> world.disk == old(world.disk)
      ensures (r.Stopped? && r.stop != Killed && world.disk.staged.Some?
          && world.disk.staged.value in world.disk.bytes) ==>
        world.disk.bytes[world.disk.staged.value] != content
      ensures r.Done? ==> (var d := world.disk;
        d.staged.Some? && d.staged.value in d.bytes && world.hash(d.bytes[d.staged.value]) == world.hash(content))
    {
      var _ :- world.Sync(Staged);
      var stagedHash :- world.Hash(Staged);
      if stagedHash != world.hash(content) {
        return Stopped(TargetChanged(stagedHash));
      }
      return Done(());
    }

    /** Publishes the content under the target name, which must be free. */
    method Install(content: string) returns (r: Call<string>)
      requires world.Valid()
      modifies world
      ensures world.Valid() && KeepsFiles(old(world.history), world.history)
      ensures r == Stopped(Killed) ==> old(world.played) < world.played
      ensures r.Done? ==> r.value == world.hash(content)
      ensures r.Done? ==> SeenAt(old(world.history), world.history, world.hash, Target, Some(world.hash(content)))
      ensures world.script.calm ==>
        && world.disk.backup == old(world.disk).backup && world.disk.claim == old(world.disk).claim
        && (r.Done? ==> HashAt(world.disk, world.hash, Target) == Some(world.hash(content)))
        && Accounted(world.script, old(world.played), world.played, old(world.disk), world.disk, content)
      ensures InstallsQuietly(old(world.disk), content) && old(world.disk).target.None? ==>
        && Prepared(old(world.disk), world.disk, content)
        && (r.Stopped? && r.stop != Killed ==> Torn(world.disk, content))
        && (r.Done? ==> Installed(world.disk, content))
    {
      ghost var before := world.disk;
      var prepared := PrepareStaged(content);
      if prepared.Stopped? {
        r := Stopped(prepared.stop);
      } else {
        if InstallsQuietly(before, content) && before.target.None? {
          LinkInstalls(before, world.disk, world.hash, content);
        }
        ghost var middle, from := world.history, world.played;
        ghost var ready := world.disk;
        r := LinkStaged(content);
        if r.Done? {
          SeenLater(old(world.history), middle, world.history, world.history, world.hash, Target,
                    Some(world.hash(content)));
        }
        AccountedThen(world.script, old(world.played), from, world.played, old(world.disk), ready, world.disk, content);
      }
      EveryRunIsSafe(old(world.history), world.history);
    }

    method LinkStaged(content: string) returns (r: Call<string>)
      requires world.Valid()
      modifies world
      ensures world.Valid() && Elapsed(old(world.history), world.history)
      ensures r == Stopped(Killed) ==> old(world.played) < world.played
      ensures r.Done? ==> r.value == world.hash(content)
      ensures r.Done? ==> SeenAt(old(world.history), world.history, world.hash, Target, Some(world.hash(content)))
      ensures world.script.calm ==>
        && SamePrivate(old(world.disk), world.disk) && world.disk.bytes == old(world.disk).bytes
        && (r.Done? ==> HashAt(world.disk, world.hash, Target) == Some(world.hash(content)))
      ensures (world.script.calm && old(world.disk).target.None? && old(world.disk).staged.Some?
               && old(world.disk).staged.value in old(world.disk).bytes
               && old(world.disk).bytes[old(world.disk).staged.value] == content) ==>
        && (world.disk == old(world.disk) || world.disk == Apply(old(world.disk), Link(Staged, Target)))
        && (r.Stopped? ==> r.stop == Killed)
        && (r.Done? ==> world.disk.target.Some?)
    {
      var linked :- world.LinkToTarget(Staged);
      if linked == FileExists {
        var observed :- world.Hash(Target);
        return Stopped(TargetChanged(observed));
      }
      if linked == OtherError {
        return Stopped(NotFound);
      }
      var observed :- world.Hash(Target);
      if observed != world.hash(content) {
        return Stopped(TargetChanged(observed));
      }
      SeenNow(old(world.history), world.history, world.hash, Target);
      return Done(observed);
    }

    ghost predicate InstallsQuietly(d: Disk, content: string)
      reads this
    {
      world.script.calm && Installing(d, content) && NoTornTwin(world.hash, content)
    }
  }

  // ---------- The intent's phases ----------

  datatype IntentStatus =
    | PendingIntent
    | CapturedIntent
    | InstalledIntent
    | AppliedIntent
    | RecoveryRequired
    | FailedIntent
    | SupersededIntent

  /** What a recovery takes a file to be, by its hash. */
  datatype FileKind = Missing | Intended | Expected | Unknown

  /** What a recovery finds under the four names, and whether the claim is one file with target or backup. */
  datatype Survey = Survey(target: FileKind, backup: FileKind, staged: FileKind, claim: FileKind, duplicate: bool)

  function KindOf(hash: string -> string, expected: Option<string>, content: string, d: Disk, n: Name): FileKind {
    if d.At(n).None? || d.At(n).value !in d.bytes then Missing
    else
      var found := hash(d.bytes[d.At(n).value]);
      if found == hash(content) then Intended else if Some(found) == expected then Expected else Unknown
  }

  function SurveyOf(hash: string -> string, expected: Option<string>, content: string, d: Disk): Survey {
    Survey(KindOf(hash, expected, content, d, Target), KindOf(hash, expected, content, d, Backup),
           KindOf(hash, expected, content, d, Staged), KindOf(hash, expected, content, d, Claim),
           d.claim.Some? && (d.claim == d.target || d.claim == d.backup))
  }

  /** Some file is neither what was there nor what was to be there. */
  predicate HasUnknown(v: Survey) {
    || v.target == Unknown || v.backup == Unknown || v.staged == Unknown || v.staged == Expected
    || (v.claim == Unknown && !v.duplicate)
  }

  /** How a recovery goes on. */
  datatype Remedy = Finish(install: bool) | GiveUp | HandOver | TryAgain

  function RemedyOf(v: Survey): Remedy {
    if HasUnknown(v) then HandOver
    else if v.target == Intended then Finish(false)
    else if v.target == Missing && v.backup == Intended then Finish(true)
    else if v.target == Missing && v.backup == Missing then GiveUp
    else TryAgain
  }

  /**
    Every file under the four names is the file expected or one of the content; the staged file is one of the
    content, and the claim may also be another name of the target or the backup.
   */
  predicate AllKnown(hash: string -> string, expected: Option<string>, content: string, d: Disk) {
    var whole := Some(hash(content));
    && HashAt(d, hash, Target) in {None, whole, expected} && HashAt(d, hash, Backup) in {None, whole, expected}
    && HashAt(d, hash, Staged) in {None, whole}
    && (HashAt(d, hash, Claim) in {None, whole, expected}
        || (d.claim.Some? && (d.claim == d.target || d.claim == d.backup)))
  }

  /**
    What a recovery does: unknown files are handed over; if the target has the content, or the backup has it and
    there is no target, the intent is finished; with neither target nor backup it is given up; and otherwise
    the capture is tried again.
   */
  lemma RecoveryGoesByFiles(hash: string -> string, expected: Option<string>, content: string, d: Disk)
    ensures var target, backup := HashAt(d, hash, Target), HashAt(d, hash, Backup);
            RemedyOf(SurveyOf(hash, expected, content, d))
            == if !AllKnown(hash, expected, content, d) then HandOver
               else if target == Some(hash(content)) then Finish(false)
               else if target.None? && backup == Some(hash(content)) then Finish(true)
               else if target.None? && backup.None? then GiveUp
               else TryAgain
  {
    forall n: Name ensures KindOf(hash, expected, content, d, n)
                           == match HashAt(d, hash, n)
                              case None => Missing
                              case Some(h) =>
                                if h == hash(content) then Intended
                                else if Some(h) == expected then Expected else Unknown
    {
    }
  }

  /** What a quiet world looks like at each status, for the original file `o`, if any, with those bytes. */
  ghost predicate IntentOk(status: IntentStatus, d: Disk, content: string, o: Option<nat>, original: string) {
    && (o.Some? ==> o.value in d.bytes && d.bytes[o.value] == original && d.staged != o)
    && match status
       case PendingIntent => Capturing(d, o) && d.staged.None?
       case CapturedIntent => d.backup == o && d.claim.None? && Installing(d, content)
       case InstalledIntent => d.backup == o && d.claim.None? && Installing(d, content) && Installed(d, content)
       case AppliedIntent => d.backup == o && d.claim.None? && Installed(d, content)
       case RecoveryRequired => d.backup == o && d.claim.None? && Torn(d, content)
       case SupersededIntent => d.backup == o && d.claim.None? && Torn(d, content)
       case FailedIntent => false
  }

  class IntentExecutor {
    const writer: AtomicVaultWriter
    const world: World
    const expected: Option<string>
    const content: string
    var status: IntentStatus

    constructor (writer: AtomicVaultWriter, expected: Option<string>, content: string)
      ensures this.writer == writer && this.world == writer.world
      ensures this.expected == expected && this.content == content && status == PendingIntent
    {
      this.writer, this.world, this.expected, this.content, this.status :=
        writer, writer.world, expected, content, PendingIntent;
    }

    ghost predicate Ready()
      reads this, world
    {
      world == writer.world && world.Valid()
    }

    // No editor, the target was expected, and hashes do not deceive.
    ghost predicate QuietlyOk(o: Option<nat>, original: string)
      reads this, world
    {
      && Ready() && world.script.calm && NoTornTwin(world.hash, content)
      && expected == (if o.Some? then Some(world.hash(original)) else None)
      && IntentOk(status, world.disk, content, o, original)
    }

    method CapturePhase(ghost o: Option<nat>, ghost original: string) returns (r: Call<()>)
      requires Ready() && (status == PendingIntent || status == RecoveryRequired)
      modifies world, this`status
      ensures Ready() && Elapsed(old(world.history), world.history)
      ensures r == Stopped(Killed) ==> old(world.played) < world.played
      ensures status == if r.Done? then CapturedIntent else old(status)
      ensures r.Done? ==> exists captured ::
        CaptureSeen(old(world.history), world.history, world.hash, expected, captured)
      ensures old(QuietlyOk(o, original) && status == PendingIntent) ==>
        && QuietlyOk(o, original) && (r.Stopped? ==> r.stop == Killed)
        && SameStaged(old(world.disk), world.disk)
    {
      var captured :- CaptureExpected(o);
      ghost var after := world.history;
      var _ :- world.Tick();
      CaptureSeenLater(
        old(world.history), old(world.history), after, world.history, world.hash, expected, captured);
      status := CapturedIntent;
      return Done(());
    }

    method CaptureExpected(ghost o: Option<nat>) returns (r: Call<Captured>)
      requires Ready()
      modifies world
      ensures Ready() && Elapsed(old(world.history), world.history)
      ensures r == Stopped(Killed) ==> old(world.played) < world.played
      ensures r.Done? ==> CaptureSeen(old(world.history), world.history, world.hash, expected, r.value)
      ensures writer.CapturesQuietly(old(world.disk), expected, o) ==>
        && Capturing(world.disk, o) && SameStaged(old(world.disk), world.disk)
        && (r.Stopped? ==> r.stop == Killed)
        && (r.Done? ==> CaptureOver(world.disk, o) && r.value == Captured(expected))
    {
      var _ :- world.Tick();
      ghost var before := world.history;
      r := writer.Capture(expected, o);
      if r.Done? {
        CaptureSeenLater(old(world.history), before, world.history, world.history, world.hash, expected, r.value);
      }
    }

    // The target is already there (a run killed after the link), or it is installed now.
    method EnsureInstalled() returns (r: Call<()>)
      requires Ready()
      modifies world
      ensures Ready() && Elapsed(old(world.history), world.history)
      ensures r == Stopped(Killed) ==> old(world.played) < world.played
      ensures r.Done? ==> SeenAt(old(world.history), world.history, world.hash, Target, Some(world.hash(content)))
      ensures world.script.calm ==>
        Accounted(world.script, old(world.played), world.played, old(world.disk), world.disk, content)
      ensures (world.script.calm && Installing(old(world.disk), content) && NoTornTwin(world.hash, content)) ==>
        && Prepared(old(world.disk), world.disk, content)
        && (r.Stopped? && r.stop != Killed ==> Torn(world.disk, content))
        && (r.Done? ==> Installed(world.disk, content))
    {
      var present :- world.Exists(Target);
      ghost var before, from, disk := world.history, world.played, world.disk;
      if present {
        r := CheckTarget();
      } else {
        var installed := writer.Install(content);
        r := if installed.Done? then Done(()) else Stopped(installed.stop);
      }
      AccountedThen(world.script, old(world.played), from, world.played, old(world.disk), disk, world.disk, content);
      if r.Done? {
        SeenLater(old(world.history), before, world.history, world.history, world.hash, Target,
                  Some(world.hash(content)));
      }
    }

    method CheckTarget() returns (r: Call<()>)
      requires Ready()
      modifies world
      ensures Ready() && Elapsed(old(world.history), world.history)
      ensures r == Stopped(Killed) ==> old(world.played) < world.played
      ensures world.script.calm ==> world.disk == old(world.disk)
      ensures world.script.calm && Installed(world.disk, content) ==> (r.Stopped? ==> r.stop == Killed)
      ensures r.Done? ==> HashAt(world.disk, world.hash, Target) == Some(world.hash(content))
      ensures r.Done? ==> SeenAt(old(world.history), world.history, world.hash, Target, Some(world.hash(content)))
    {
      var _ :- world.Sync(Target);
      var observed :- world.Hash(Target);
      if observed != world.hash(content) {
        return Stopped(TargetChanged(observed));
      }
      SeenNow(old(world.history), world.history, world.hash, Target);
      return Done(());
    }

    method InstallPhase(ghost o: Option<nat>, ghost original: string) returns (r: Call<()>)
      requires Ready() && status == CapturedIntent
      modifies world, this`status
      ensures Ready() && Elapsed(old(world.history), world.history)
      ensures r == Stopped(Killed) ==> old(world.played) < world.played
      ensures status == if r.Done? then InstalledIntent else CapturedIntent
      ensures r.Done? ==> SeenAt(old(world.history), world.history, world.hash, Target, Some(world.hash(content)))
      ensures old(QuietlyOk(o, original)) ==>
        && QuietlyOk(o, original) && (r.Stopped? && r.stop != Killed ==> Torn(world.disk, content))
        && Accounted(world.script, old(world.played), world.played, old(world.disk), world.disk, content)
    {
      var _ :- world.Tick();
      ghost var before, from, disk := world.history, world.played, world.disk;
      var ensured := EnsureInstalled();
      AccountedThen(world.script, old(world.played), from, world.played, old(world.disk), disk, world.disk, content);
      if ensured.Stopped? {
        return ensured;
      }
      ghost var after := world.history;
      var _ :- world.Tick();
      SeenLater(old(world.history), before, after, world.history, world.hash, Target, Some(world.hash(content)));
      status := InstalledIntent;
      return Done(());
    }

    method FinishPhase(ghost o: Option<nat>, ghost original: string) returns (r: Call<()>)
      requires Ready() && status == InstalledIntent
      modifies world, this`status
      ensures Ready() && Elapsed(old(world.history), world.history)
      ensures r == Stopped(Killed) ==> old(world.played) < world.played
      ensures status == if r.Done? then AppliedIntent else InstalledIntent
      ensures r.Done? ==> SeenAt(old(world.history), world.history, world.hash, Target, Some(world.hash(content)))
      ensures world.script.calm ==> world.disk == old(world.disk)
      ensures old(QuietlyOk(o, original)) ==> QuietlyOk(o, original) && (r.Stopped? ==> r.stop == Killed)
    {
      var _ :- world.Tick();
      ghost var before := world.history;
      var _ :- CheckPresentTarget();
      ghost var after := world.history;
      var _ :- world.Tick();
      SeenLater(old(world.history), before, after, world.history, world.hash, Target, Some(world.hash(content)));
      status := AppliedIntent;
      return Done(());
    }

    method CheckPresentTarget() returns (r: Call<()>)
      requires Ready()
      modifies world
      ensures Ready() && Elapsed(old(world.history), world.history)
      ensures r == Stopped(Killed) ==> old(world.played) < world.played
      ensures world.script.calm ==> world.disk == old(world.disk)
      ensures world.script.calm && Installed(world.disk, content) ==> (r.Stopped? ==> r.stop == Killed)
      ensures r.Done? ==> SeenAt(old(world.history), world.history, world.hash, Target, Some(world.hash(content)))
    {
      var present :- world.Exists(Target);
      if !present {
        return Stopped(TargetMissing);
      }
      ghost var before := world.history;
      r := CheckTarget();
      if r.Done? {
        SeenLater(old(world.history), before, world.history, world.history, world.hash, Target,
                  Some(world.hash(content)));
      }
    }

    method Classify(n: Name) returns (r: Call<FileKind>)
      requires Ready()
      modifies world
      ensures Ready() && Elapsed(old(world.history), world.history)
      ensures r.Stopped? ==> r.stop == Killed && old(world.played) < world.played
      ensures world.script.calm ==> world.disk == old(world.disk)
      ensures world.script.calm && r.Done? ==> r.value == KindOf(world.hash, expected, content, world.disk, n)
    {
      var observed := world.Hash(n);
      if observed == Stopped(NotFound) {
        return Done(Missing);
      }
      var found :- observed;
      return Done(if found == world.hash(content) then Intended
                  else if Some(found) == expected then Expected else Unknown);
    }

    method ClaimIsDuplicate() returns (r: Call<bool>)
      requires Ready()
      modifies world
      ensures Ready() && Elapsed(old(world.history), world.history)
      ensures r.Stopped? ==> r.stop == Killed && old(world.played) < world.played
      ensures world.script.calm ==> world.disk == old(world.disk)
      ensures world.script.calm && r.Done? ==> (var d := world.disk;
        r.value <==> d.claim.Some? && (d.claim == d.target || d.claim == d.backup))
    {
      var targetPresent :- world.Exists(Target);
      if targetPresent {
        var same :- world.SameFile(Claim, Target);
        if same {
          return Done(true);
        }
      }
      var backupPresent :- world.Exists(Backup);
      if !backupPresent {
        return Done(false);
      }
      r := world.SameFile(Claim, Backup);
    }

    method SurveyStagedAndClaim() returns (r: Call<(FileKind, FileKind, bool)>)
      requires Ready()
      modifies world
      ensures Ready() && Elapsed(old(world.history), world.history)
      ensures r.Stopped? ==> r.stop == Killed && old(world.played) < world.played
      ensures world.script.calm ==> world.disk == old(world.disk)
      ensures world.script.calm && r.Done? ==> (var d := world.disk;
        && r.value.0 == KindOf(world.hash, expected, content, d, Staged)
        && r.value.1 == KindOf(world.hash, expected, content, d, Claim)
        && (r.value.1 != Missing ==>
              (r.value.2 <==> d.claim.Some? && (d.claim == d.target || d.claim == d.backup))))
    {
      var staged :- Classify(Staged);
      var claim :- SurveyClaim();
      return Done((staged, claim.0, claim.1));
    }

    method SurveyClaim() returns (r: Call<(FileKind, bool)>)
      requires Ready()
      modifies world
      ensures Ready() && Elapsed(old(world.history), world.history)
      ensures r.Stopped? ==> r.stop == Killed && old(world.played) < world.played
      ensures world.script.calm ==> world.disk == old(world.disk)
      ensures world.script.calm && r.Done? ==> (var d := world.disk;
        && r.value.0 == KindOf(world.hash, expected, content, d, Claim)
        && (r.value.0 != Missing ==>
              (r.value.1 <==> d.claim.Some? && (d.claim == d.target || d.claim == d.backup))))
    {
      var claim :- Classify(Claim);
      if claim == Missing {
        return Done((Missing, false));
      }
      var duplicate :- ClaimIsDuplicate();
      return Done((claim, duplicate));
    }

    method SurveyTargetAndBackup() returns (r: Call<(FileKind, FileKind)>)
      requires Ready()
      modifies world
      ensures Ready() && Elapsed(old(world.history), world.history)
      ensures r.Stopped? ==> r.stop == Killed && old(world.played) < world.played
      ensures world.script.calm ==> world.disk == old(world.disk)
      ensures world.script.calm && r.Done? ==>
        && r.value.0 == KindOf(world.hash, expected, content, world.disk, Target)
        && r.value.1 == KindOf(world.hash, expected, content, world.disk, Backup)
    {
      var target :- Classify(Target);
      var backup :- Classify(Backup);
      return Done((target, backup));
    }

    method TakeSurvey() returns (r: Call<Survey>)
      requires Ready()
      modifies world
      ensures Ready() && Elapsed(old(world.history), world.history)
      ensures r.Stopped? ==> r.stop == Killed && old(world.played) < world.played
      ensures world.script.calm ==> world.disk == old(world.disk)
      ensures world.script.calm && r.Done? ==>
        RemedyOf(r.value) == RemedyOf(SurveyOf(world.hash, expected, content, world.disk))
    {
      var kept :- SurveyTargetAndBackup();
      var made :- SurveyStagedAndClaim();
      return Done(Survey(kept.0, kept.1, made.0, made.1, made.2));
    }

    /**
      Looks at the four names after a failure: finishes what is known to be intended, gives up when the file
      is nowhere, hands unknown files over, or else lets the capture be tried again (`false`).  With no editor
      the files that are there decide which.
     */
    method ReconcileRecovery() returns (r: Call<bool>)
      requires Ready() && status == RecoveryRequired
      modifies world, this`status
      ensures Ready() && Elapsed(old(world.history), world.history)
      ensures r == Stopped(Killed) ==> old(world.played) < world.played
      ensures r.Done? ==>
        if r.value then status in {AppliedIntent, RecoveryRequired, FailedIntent, SupersededIntent}
        else status == RecoveryRequired
      ensures r.Stopped? ==> status == RecoveryRequired || status == InstalledIntent
      ensures r.Done? && status == AppliedIntent ==>
        SeenAt(old(world.history), world.history, world.hash, Target, Some(world.hash(content)))
      ensures world.script.calm && r.Done? ==>
        (match RemedyOf(SurveyOf(world.hash, expected, content, old(world.disk)))
         case Finish(_) =>
           && r.value && status == AppliedIntent
           && HashAt(world.disk, world.hash, Target) == Some(world.hash(content))
           && world.disk.backup == old(world.disk).backup && world.disk.claim == old(world.disk).claim
         case GiveUp => r.value && status == FailedIntent && world.disk == old(world.disk)
         case HandOver => r.value && status in {SupersededIntent, RecoveryRequired} && world.disk == old(world.disk)
         case TryAgain => !r.value && world.disk == old(world.disk))
      ensures (world.script.calm && r.Stopped?
               && RemedyOf(SurveyOf(world.hash, expected, content, old(world.disk))).HandOver?) ==>
        r.stop == Killed && status == RecoveryRequired && world.disk == old(world.disk)
    {
      var survey :- TakeSurvey();
      match RemedyOf(survey)
      case Finish(install) =>
        ghost var before := world.history;
        var _ :- FinishIntended(install);
        SeenLater(old(world.history), before, world.history, world.history, world.hash, Target,
                  Some(world.hash(content)));
        return Done(true);
      case GiveUp =>
        var _ :- world.Tick();
        status := FailedIntent;
        return Done(true);
      case HandOver =>
        var _ :- world.Tick();
        var handedOver: bool := *;
        status := if handedOver then SupersededIntent else RecoveryRequired;
        return Done(true);
      case TryAgain =>
        return Done(false);
    }

    method FinishIntended(install: bool) returns (r: Call<()>)
      requires Ready() && status == RecoveryRequired
      modifies world, this`status
      ensures Ready() && Elapsed(old(world.history), world.history)
      ensures r == Stopped(Killed) ==> old(world.played) < world.played
      ensures if r.Done? then status == AppliedIntent else status == RecoveryRequired || status == InstalledIntent
      ensures r.Done? ==> SeenAt(old(world.history), world.history, world.hash, Target, Some(world.hash(content)))
      ensures world.script.calm && r.Done? ==>
        && HashAt(world.disk, world.hash, Target) == Some(world.hash(content))
        && world.disk.backup == old(world.disk).backup && world.disk.claim == old(world.disk).claim
    {
      var _ :- world.Tick();
      ghost var before := world.history;
      var _ :- InstallOrCheck(install);
      ghost var after := world.history;
      r := Finalise();
      if r.Done? {
        SeenLater(old(world.history), before, after, world.history, world.hash, Target, Some(world.hash(content)));
      }
    }

    method InstallOrCheck(install: bool) returns (r: Call<()>)
      requires Ready()
      modifies world
      ensures Ready() && Elapsed(old(world.history), world.history)
      ensures r == Stopped(Killed) ==> old(world.played) < world.played
      ensures r.Done? ==> SeenAt(old(world.history), world.history, world.hash, Target, Some(world.hash(content)))
      ensures world.script.calm && r.Done? ==>
        && HashAt(world.disk, world.hash, Target) == Some(world.hash(content))
        && world.disk.backup == old(world.disk).backup && world.disk.claim == old(world.disk).claim
    {
      if install {
        var _ :- writer.Install(content);
        return Done(());
      }
      r := CheckTarget();
    }

    method Finalise() returns (r: Call<()>)
      requires Ready() && status == RecoveryRequired
      modifies world, this`status
      ensures Ready() && Elapsed(old(world.history), world.history)
      ensures r == Stopped(Killed) ==> old(world.played) < world.played
      ensures if r.Done? then status == AppliedIntent else status == RecoveryRequired || status == InstalledIntent
      ensures world.script.calm ==> world.disk == old(world.disk)
    {
      var _ :- world.Tick();
      status := InstalledIntent;
      var _ :- world.Tick();
      status := AppliedIntent;
      return Done(());
    }

    /**
      One run of the executor: the remaining phases, or recovery when a phase finds a change.  Whatever the
      editor does, it loses no file.
     */
    method CaptureAndInstall(ghost o: Option<nat>, ghost original: string) returns (r: Call<()>)
      requires Ready()
      modifies world, this`status
      ensures Ready() && KeepsFiles(old(world.history), world.history)
      ensures r == Stopped(Killed) ==> old(world.played) < world.played
      ensures r.Stopped? ==> r.stop == Killed
      ensures r.Done? ==> status in {AppliedIntent, RecoveryRequired, FailedIntent, SupersededIntent}
      ensures r.Done? && status == AppliedIntent && old(status) != AppliedIntent ==>
        SeenAt(old(world.history), world.history, world.hash, Target, Some(world.hash(content)))
      ensures old(QuietlyOk(o, original)) ==>
        && QuietlyOk(o, original)
        && Accounted(world.script, old(world.played), world.played, old(world.disk), world.disk, content)
    {
      r := Phases(o, original);
      ghost var reached := world.played;
      if r.Stopped? && r.stop != Killed {
        ghost var disk := world.disk;
        r := world.Tick();
        AccountedThen(world.script, old(world.played), reached, world.played, old(world.disk), disk, world.disk,
          content);
        if r.Done? {
          status := RecoveryRequired;
        }
      }
      EveryRunIsSafe(old(world.history), world.history);
    }

    method Phases(ghost o: Option<nat>, ghost original: string) returns (r: Call<()>)
      requires Ready()
      modifies world, this`status
      ensures Ready() && Elapsed(old(world.history), world.history)
      ensures r == Stopped(Killed) ==> old(world.played) < world.played
      ensures r.Done? ==> status in {AppliedIntent, RecoveryRequired, FailedIntent, SupersededIntent}
      ensures old(QuietlyOk(o, original)) ==>
        && QuietlyOk(o, original)
        && (r.Stopped? && r.stop != Killed ==> status == CapturedIntent && Torn(world.disk, content))
        && Accounted(world.script, old(world.played), world.played, old(world.disk), world.disk, content)
      ensures r.Done? && status == AppliedIntent && old(status) != AppliedIntent ==>
        SeenAt(old(world.history), world.history, world.hash, Target, Some(world.hash(content)))
    {
      if status == RecoveryRequired {
        if QuietlyOk(o, original) {
          TornIsHandedOver(o, original);
        }
        var finished :- ReconcileRecovery();
        if finished {
          return Done(());
        }
      }
      ghost var before, from, disk := world.history, world.played, world.disk;
      r := RemainingPhases(o, original);
      AccountedThen(world.script, old(world.played), from, world.played, old(world.disk), disk, world.disk, content);
      if r.Done? && status == AppliedIntent && old(status) != AppliedIntent {
        SeenLater(old(world.history), before, world.history, world.history, world.hash, Target,
                  Some(world.hash(content)));
      }
    }

    lemma TornIsHandedOver(o: Option<nat>, original: string)
      requires QuietlyOk(o, original) && status == RecoveryRequired
      ensures RemedyOf(SurveyOf(world.hash, expected, content, world.disk)) == HandOver
    {
      var torn := world.disk.bytes[world.disk.staged.value];
      assert torn == content[..|torn|];
    }

    method RemainingPhases(ghost o: Option<nat>, ghost original: string) returns (r: Call<()>)
      requires Ready()
      modifies world, this`status
      ensures Ready() && Elapsed(old(world.history), world.history)
      ensures r == Stopped(Killed) ==> old(world.played) < world.played
      ensures r.Done? ==> status in {AppliedIntent, FailedIntent, SupersededIntent}
      ensures old(QuietlyOk(o, original) && status != RecoveryRequired) ==>
        && QuietlyOk(o, original)
        && (r.Stopped? && r.stop != Killed ==> status == CapturedIntent && Torn(world.disk, content))
        && Accounted(world.script, old(world.played), world.played, old(world.disk), world.disk, content)
      ensures r.Done? && status == AppliedIntent && old(status) != AppliedIntent ==>
        SeenAt(old(world.history), world.history, world.hash, Target, Some(world.hash(content)))
    {
      if status == PendingIntent || status == RecoveryRequired {
        var _ :- CapturePhase(o, original);
      }
      ghost var before, from, disk := world.history, world.played, world.disk;
      r := InstallAndFinish(o, original);
      AccountedThen(world.script, old(world.played), from, world.played, old(world.disk), disk, world.disk, content);
      if r.Done? && status == AppliedIntent && old(status) != AppliedIntent {
        SeenLater(old(world.history), before, world.history, world.history, world.hash, Target,
                  Some(world.hash(content)));
      }
    }

    method InstallAndFinish(ghost o: Option<nat>, ghost original: string) returns (r: Call<()>)
      requires Ready() && status != PendingIntent && status != RecoveryRequired
      modifies world, this`status
      ensures Ready() && Elapsed(old(world.history), world.history)
      ensures r == Stopped(Killed) ==> old(world.played) < world.played
      ensures r.Done? ==> status in {AppliedIntent, FailedIntent, SupersededIntent}
      ensures old(QuietlyOk(o, original)) ==>
        && QuietlyOk(o, original)
        && (r.Stopped? && r.stop != Killed ==> status == CapturedIntent && Torn(world.disk, content))
        && Accounted(world.script, old(world.played), world.played, old(world.disk), world.disk, content)
      ensures r.Done? && status == AppliedIntent && old(status) != AppliedIntent ==>
        SeenAt(old(world.history), world.history, world.hash, Target, Some(world.hash(content)))
    {
      if status == CapturedIntent {
        var _ :- InstallPhase(o, original);
      }
      if status == InstalledIntent {
        ghost var before, reached := world.history, world.played;
        ghost var disk := world.disk;
        r := FinishPhase(o, original);
        AccountedThen(world.script, old(world.played), reached, world.played, old(world.disk), disk, world.disk,
          content);
        if r.Done? {
          SeenLater(old(world.history), before, world.history, world.history, world.hash, Target,
                    Some(world.hash(content)));
        }
        return;
      }
      return Done(());
    }

    /**
      With no editor and the expected file `o` at the target, or none for a new page, any sequence of kills
      and reruns, from any status, comes to an end.  The backup names `o`, with its bytes unchanged, and the
      target holds the new content, unless the staged file is torn.  If it was not torn at the start, then the
      intent is applied, or a kill of this run fell in the write and left just what is there; that is reported
      as a recovery or handed over.
     */
    method ExecuteWithReruns(ghost o: Option<nat>, ghost original: string)
      requires QuietlyOk(o, original)
      modifies world, this`status
      ensures QuietlyOk(o, original)
      ensures world.disk.backup == o && world.disk.claim.None?
      ensures o.Some? ==> o.value in world.disk.bytes && world.disk.bytes[o.value] == original
      ensures (status == AppliedIntent && Installed(world.disk, content))
           || (status in {RecoveryRequired, SupersededIntent} && Torn(world.disk, content))
      ensures StagedWhole(old(world.disk), content) ==>
        || status == AppliedIntent
        || TornBy(world.script, old(world.played), world.played, world.disk, content)
    {
      var r := CaptureAndInstall(o, original);
      while r.Stopped?
        invariant QuietlyOk(o, original) && Elapsed(old(world.history), world.history)
        invariant r.Done? ==> status in {AppliedIntent, RecoveryRequired, FailedIntent, SupersededIntent}
        invariant Accounted(world.script, old(world.played), world.played, old(world.disk), world.disk, content)
        decreases |world.script.turns| - world.played, r.Stopped?
      {
        ghost var disk, from := world.disk, world.played;
        r := CaptureAndInstall(o, original);
        AccountedThen(world.script, old(world.played), from, world.played, old(world.disk), disk, world.disk, content);
      }
    }

    /** Any number of runs under any script, with an editor at work: no file is lost. */
    method Execute(runs: nat, ghost o: Option<nat>, ghost original: string)
      requires Ready()
      modifies world, this`status
      ensures Ready() && KeepsFiles(old(world.history), world.history)
    {
      for i := 0 to runs
        invariant Ready() && Elapsed(old(world.history), world.history)
      {
        var _ := CaptureAndInstall(o, original);
      }
      EveryRunIsSafe(old(world.history), world.history);
    }
  }
}
