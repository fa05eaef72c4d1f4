/**
  The file system as the vault writer sees it: four names, inodes, and an editor at work.

  Only the target is shared; backup, claim and staged belong to the executor holding the lock.  Each
  event is one completed file-system call.
 */
module VaultDisk {
  import opened Options

  datatype Name = Target | Backup | Claim | Staged

  /**
    Which inode each name denotes, and what each inode holds.  `held` are the inodes an editor may
    have open: those it made and those that were once at the target.
   */
  datatype Disk = Disk(
    target: Option<nat>,
    backup: Option<nat>,
    claim: Option<nat>,
    staged: Option<nat>,
    bytes: map<nat, string>,
    held: set<nat>
  ) {
    function At(n: Name): Option<nat> {
      match n
      case Target => target
      case Backup => backup
      case Claim => claim
      case Staged => staged
    }

    function Put(n: Name, inode: Option<nat>): Disk {
      match n
      case Target => this.(target := inode)
      case Backup => this.(backup := inode)
      case Claim => this.(claim := inode)
      case Staged => this.(staged := inode)
    }
  }

  const EMPTY: Disk := Disk(None, None, None, None, map[], {})

  datatype Event =
    // the executor's calls
    | Link(src: Name, dst: Name)
    | RenameTargetToClaim
    | UnlinkClaim
    | CreateStaged(inode: nat)
    | WriteStaged(content: string)
    // the editor's
    | EditorCreate(inode: nat, content: string)
    | EditorReplace(inode: nat, content: string)
    | EditorDelete
    | EditorWrite(inode: nat, content: string)

  predicate ByEditor(e: Event) {
    e.EditorCreate? || e.EditorReplace? || e.EditorDelete? || e.EditorWrite?
  }

  function Seen(d: Disk): Disk {
    if d.target.Some? then d.(held := d.held + {d.target.value}) else d
  }

  function NewTarget(d: Disk, inode: nat, content: string): Disk {
    Seen(d.(target := Some(inode), bytes := d.bytes[inode := content]))
  }

  // POSIX: link fails when the destination exists; rename replaces it, unless both are one file.
  function Apply(d: Disk, e: Event): Disk {
    match e
    case Link(src, dst) =>
      if d.At(src).Some? && d.At(dst).None? then Seen(d.Put(dst, d.At(src))) else d
    case RenameTargetToClaim =>
      if d.target.None? || d.claim == d.target then d else d.(target := None, claim := d.target)
    case UnlinkClaim => d.(claim := None)
    case CreateStaged(inode) =>
      if d.staged.Some? || inode in d.bytes then d
      else d.(staged := Some(inode), bytes := d.bytes[inode := ""])
    case WriteStaged(content) =>
      if d.staged.Some? then d.(bytes := d.bytes[d.staged.value := content]) else d
    case EditorCreate(inode, content) =>
      if d.target.Some? || inode in d.bytes then d else NewTarget(d, inode, content)
    case EditorReplace(inode, content) =>
      if inode in d.bytes then d else NewTarget(d, inode, content)
    case EditorDelete => d.(target := None)
    case EditorWrite(inode, content) =>
      if inode in d.held && inode in d.bytes then d.(bytes := d.bytes[inode := content]) else d
  }

  function Run(d: Disk, events: seq<Event>): Disk
  {
    if events == [] then d else Apply(Run(d, events[..|events| - 1]), events[|events| - 1])
  }

  // No name dangles; what is or was at the target may be held; a held inode exists.
  ghost predicate DiskOk(d: Disk) {
    && (d.target.Some? ==> d.target.value in d.bytes)
    && (d.backup.Some? ==> d.backup.value in d.bytes)
    && (d.claim.Some? ==> d.claim.value in d.bytes)
    && (d.staged.Some? ==> d.staged.value in d.bytes)
    && (d.target.Some? ==> d.target.value in d.held)
    && d.held <= d.bytes.Keys
  }

  // ---------- The protocol ----------

  /** When the executor is allowed to make a call. */
  predicate Guarded(d: Disk, e: Event) {
    match e
    case RenameTargetToClaim => d.claim.None?
    case UnlinkClaim => d.claim.Some? && d.claim == d.backup
    case WriteStaged(_) =>
      && d.staged.Some? && d.staged.value !in d.held
      && d.staged.value in d.bytes && d.bytes[d.staged.value] == ""
    case _ => true
  }

  /** Every call of the run was allowed when it was made. */
  predicate GuardedRun(d: Disk, events: seq<Event>) {
    events == []
    || (GuardedRun(d, events[..|events| - 1]) && Guarded(Run(d, events[..|events| - 1]), events[|events| - 1]))
  }

  ghost predicate Named(d: Disk, inode: nat) {
    exists n: Name :: d.At(n) == Some(inode)
  }

  /** The inodes the executor has moved off the target along a run. */
  function Moved(d: Disk, events: seq<Event>): set<nat> {
    if events == [] then {}
    else
      var last := |events| - 1;
      var before := Run(d, events[..last]);
      Moved(d, events[..last])
      + if events[last] == RenameTargetToClaim && before.target.Some? then {before.target.value} else {}
  }

  // ---------- No bytes are lost ----------

  lemma StepKeepsDisk(d: Disk, e: Event)
    requires DiskOk(d)
    ensures DiskOk(Apply(d, e))
  {
  }

  lemma {:induction false} RunKeepsDisk(d: Disk, events: seq<Event>)
    requires DiskOk(d)
    ensures DiskOk(Run(d, events))
  {
    if events != [] {
      RunKeepsDisk(d, events[..|events| - 1]);
      StepKeepsDisk(Run(d, events[..|events| - 1]), events[|events| - 1]);
    }
  }

  /**
    The call takes the last name from no inode, changes which inode no other existing name denotes, and
    changes the bytes of no inode, except filling in an empty file that was never public.
   */
  ghost predicate LosesNothing(d: Disk, e: Event) {
    var after := Apply(d, e);
    && (forall inode: nat :: Named(d, inode) ==> Named(after, inode))
    && (forall n: Name ::
          (d.At(n).Some? && !(e.RenameTargetToClaim? && n == Target) && !(e.UnlinkClaim? && n == Claim)) ==>
          after.At(n) == d.At(n))
    && (forall inode :: inode in d.bytes ==> inode in after.bytes)
    && (forall inode :: inode in d.bytes && after.bytes[inode] != d.bytes[inode] ==>
          e.WriteStaged? && d.bytes[inode] == "" && inode !in d.held)
  }

  lemma GuardedStepKeepsNames(d: Disk, e: Event, inode: nat)
    requires DiskOk(d) && !ByEditor(e) && Guarded(d, e) && Named(d, inode)
    ensures Named(Apply(d, e), inode)
  {
    var after := Apply(d, e);
    var n :| d.At(n) == Some(inode);
    if e.RenameTargetToClaim? && n == Target {
      assert after.At(Claim) == Some(inode);
    } else if e.UnlinkClaim? && n == Claim {
      assert after.At(Backup) == Some(inode);
    } else {
      assert after.At(n) == Some(inode);
    }
  }

  lemma GuardedStepLosesNothing(d: Disk, e: Event)
    requires DiskOk(d) && !ByEditor(e) && Guarded(d, e)
    ensures LosesNothing(d, e)
  {
    forall inode: nat | Named(d, inode) ensures Named(Apply(d, e), inode) {
      GuardedStepKeepsNames(d, e, inode);
    }
  }

  predicate SetAside(d: Disk, inode: nat) {
    d.backup == Some(inode) || d.claim == Some(inode)
  }

  lemma {:induction false} GuardedPrefix(d: Disk, events: seq<Event>, k: nat)
    requires GuardedRun(d, events) && k <= |events|
    ensures GuardedRun(d, events[..k])
    ensures k < |events| ==> Guarded(Run(d, events[..k]), events[k])
  {
    if k < |events| {
      var front := events[..|events| - 1];
      GuardedPrefix(d, front, k);
      assert front[..k] == events[..k];
    } else {
      assert events[..k] == events;
    }
  }

  /** Whatever the editor does, each inode moved off the target stays reachable from backup or claim. */
  lemma {:induction false} MovedStaysReachable(d: Disk, events: seq<Event>, inode: nat)
    requires GuardedRun(d, events) && inode in Moved(d, events)
    ensures SetAside(Run(d, events), inode)
  {
    if events != [] {
      var last := |events| - 1;
      GuardedPrefix(d, events, last);
      if inode in Moved(d, events[..last]) {
        MovedStaysReachable(d, events[..last], inode);
      }
    }
  }

  /** No executor call of the run loses anything. */
  ghost predicate NothingLost(d: Disk, events: seq<Event>) {
    forall i :: 0 <= i < |events| && !ByEditor(events[i]) ==> LosesNothing(Run(d, events[..i]), events[i])
  }

  ghost predicate AllSetAside(d: Disk, events: seq<Event>) {
    forall inode :: inode in Moved(d, events) ==> SetAside(Run(d, events), inode)
  }

  /** The whole-run statement: at every point of every guarded run, with any editor events between. */
  lemma NoBytesLost(d: Disk, events: seq<Event>)
    requires DiskOk(d) && GuardedRun(d, events)
    ensures NothingLost(d, events) && AllSetAside(d, events)
  {
    forall i | 0 <= i < |events| && !ByEditor(events[i]) ensures LosesNothing(Run(d, events[..i]), events[i]) {
      RunKeepsDisk(d, events[..i]);
      GuardedPrefix(d, events, i);
      GuardedStepLosesNothing(Run(d, events[..i]), events[i]);
    }
    forall inode | inode in Moved(d, events) ensures SetAside(Run(d, events), inode) {
      MovedStaysReachable(d, events, inode);
    }
  }
}
