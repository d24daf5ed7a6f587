/**
 * The lock directory as one process at a time sees it: recovery, acquisition, release and the two
 * prune loops, each run to completion. `LeaseProtocol` is about what interleaving adds.
 */
module LeaseStore {
  import opened Common
  import opened LeaseProtocol

  type Name = string

  function LeaseName(branch: string): Name {
    seq(|branch|, i requires 0 <= i < |branch| => if branch[i] == '/' then '-' else branch[i])
  }

  /** Two branches share a lock file exactly if they differ in slashes and dashes only. */
  lemma SameLockFileIff(a: string, b: string)
    ensures '/' !in LeaseName(a)
    ensures LockFile(a) == LockFile(b) <==>
      |a| == |b| && forall i :: 0 <= i < |a| ==> a[i] == b[i] || (a[i] in "/-" && b[i] in "/-")
  {
    var m, n := LeaseName(a), LeaseName(b);
    assert LockFile(a)[|LockFile(a)| - |LOCK_SUFFIX|..] == LOCK_SUFFIX;
    if LockFile(a) == LockFile(b) {
      assert |m| == |n|;
      forall i | 0 <= i < |a|
        ensures a[i] == b[i] || (a[i] in "/-" && b[i] in "/-")
      {
        assert m[i] == LockFile(a)[i] == LockFile(b)[i] == n[i];
      }
    }
    if |a| == |b| && forall i :: 0 <= i < |a| ==> a[i] == b[i] || (a[i] in "/-" && b[i] in "/-") {
      assert m == n;
    }
  }

  const LOCK_SUFFIX := ".lock"

  function LockFile(branch: string): Name {
    LeaseName(branch) + LOCK_SUFFIX
  }

  /** The lease a directory entry stands for; other files are none. */
  function LeaseOf(entry: Name): Option<Name> {
    if |entry| >= |LOCK_SUFFIX| && entry[|entry| - |LOCK_SUFFIX|..] == LOCK_SUFFIX
    then Some(entry[..|entry| - |LOCK_SUFFIX|])
    else None
  }

  lemma LeaseOfLockFile(branch: string)
    ensures LeaseOf(LockFile(branch)) == Some(LeaseName(branch))
  {
  }

  /** `directories`: the lease names whose worktree directory is there. */
  datatype Disk = Disk(locks: map<Name, Content>, directories: set<Name>, alive: set<Pid>)

  predicate Orphan(d: Disk, entry: Name) {
    LeaseOf(entry).Some? && LeaseOf(entry).value !in d.directories
  }

  /** A readable lease stored under the name of its own branch, whose owner is not alive. */
  predicate Dead(d: Disk, entry: Name) {
    && entry in d.locks && d.locks[entry].Lease?
    && LockFile(d.locks[entry].branch) == entry
    && d.locks[entry].pid !in d.alive
  }

  predicate Prunable(d: Disk, entry: Name) {
    Orphan(d, entry) || Dead(d, entry)
  }

  function Without(d: Disk, entries: set<Name>): Disk {
    d.(locks := d.locks - entries)
  }

  datatype Recovery = Absent | Cleared | StillActive

  function Recover(d: Disk, branch: string): (Disk, Result<Recovery, Failure>) {
    var file := LockFile(branch);
    if file !in d.locks then (d, Ok(Absent))
    else if LeaseName(branch) !in d.directories then (Without(d, {file}), Ok(Cleared))
    else if !d.locks[file].Lease? || d.locks[file].branch != branch then (d, Err(Malformed))
    else if d.locks[file].pid in d.alive then (d, Ok(StillActive))
    else (Without(d, {file}), Ok(Cleared))
  }

  function Create(d: Disk, branch: string, pid: Pid): (Disk, bool) {
    if LockFile(branch) in d.locks then (d, false)
    else (d.(locks := d.locks[LockFile(branch) := Lease(branch, pid)]), true)
  }

  class Locks {
    var locks: map<Name, Content>
    var directories: set<Name>
    var alive: set<Pid>

    ghost function View(): Disk
      reads this
    {
      Disk(locks, directories, alive)
    }

    constructor (directories: set<Name>, alive: set<Pid>)
      ensures View() == Disk(map[], directories, alive)
    {
      this.locks := map[];
      this.directories := directories;
      this.alive := alive;
    }

    method RecoverStaleLease(branch: string) returns (r: Result<Recovery, Failure>)
      modifies this`locks
      ensures (View(), r) == Recover(old(View()), branch)
    {
      var file := LockFile(branch);
      if file !in locks {
        return Ok(Absent);
      }
      if LeaseName(branch) !in directories {
        locks := locks - {file};
        return Ok(Cleared);
      }
      var content := locks[file];
      if content.Unreadable? || content.branch != branch {
        return Err(Malformed);
      }
      if content.pid in alive {
        return Ok(StillActive);
      }
      locks := locks - {file};
      return Ok(Cleared);
    }

    /**
     * Succeeds exactly if the lock file is missing, orphaned, or the branch's own lease of a dead
     * owner, and then holds the new lease; otherwise nothing changes. With nobody interleaving, the
     * second attempt after a failed creation is never needed.
     */
    method AcquireLease(branch: string, pid: Pid) returns (r: Result<(), Failure>)
      modifies this`locks
      ensures r.Ok? <==>
        var d := old(View());
        var file := LockFile(branch);
        file !in d.locks || Orphan(d, file) || (Dead(d, file) && d.locks[file].branch == branch)
      ensures r.Ok? ==> locks == old(locks)[LockFile(branch) := Lease(branch, pid)]
      ensures r.Err? ==> locks == old(locks)
      ensures r.Err? ==>
        r.error == if old(locks)[LockFile(branch)].Lease? && old(locks)[LockFile(branch)].branch == branch then Active else Malformed
    {
      LeaseOfLockFile(branch);
      var recovery := RecoverStaleLease(branch);
      if recovery.Err? {
        return Err(recovery.error);
      }
      if recovery.value.StillActive? {
        return Err(Active);
      }
      locks := locks[LockFile(branch) := Lease(branch, pid)];
      return Ok(());
    }

    method ReleaseLease(branch: string)
      modifies this`locks
      ensures View() == Without(old(View()), {LockFile(branch)})
    {
      locks := locks - {LockFile(branch)};
    }

    /** Removes exactly the leases without a worktree directory, whatever is in them. */
    method PruneOrphanLeases()
      modifies this`locks
      ensures View() == Without(old(View()), set e | e in old(locks) && Orphan(old(View()), e))
    {
      ghost var before := View();
      var entries := locks.Keys;
      while entries != {}
        invariant entries <= before.locks.Keys
        invariant View() == Without(before, set e | e in before.locks && e !in entries && Orphan(before, e))
        decreases |entries|
      {
        var entry :| entry in entries;
        var lease := LeaseOf(entry);
        if lease.Some? && lease.value !in directories {
          locks := locks - {entry};
        }
        entries := entries - {entry};
      }
    }

    /**
     * Removes exactly the orphan leases and the name-consistent leases of dead owners, although each
     * entry is recovered by the branch it names, which may be another entry's.
     */
    method PruneStaleLeases()
      modifies this`locks
      ensures View() == Without(old(View()), set e | e in old(locks) && Prunable(old(View()), e))
    {
      hide Recover, Orphan, Dead, PrunedBut;
      PruneOrphanLeases();
      ghost var before := View();
      var entries := locks.Keys;
      PruneBegins(before);
      while entries != {}
        invariant entries <= before.locks.Keys
        invariant PrunedBut(before, View(), entries)
        decreases |entries|
      {
        var entry :| entry in entries;
        ghost var now := View();
        if LeaseOf(entry).Some? && entry in locks && locks[entry].Lease? {
          var _ := RecoverStaleLease(locks[entry].branch);
        }
        PruneStep(old(View()), before, now, entries, entry);
        entries := entries - {entry};
      }
      PruneEnds(old(View()), before, View());
    }
  }

  /** The orphans are gone, of the rest only dead leases are, and all of those outside `entries`. */
  ghost predicate PrunedBut(before: Disk, now: Disk, entries: set<Name>) {
    && now == before.(locks := now.locks)
    && (forall e :: e in now.locks ==> e in before.locks && now.locks[e] == before.locks[e])
    && (forall e :: e in before.locks && e !in now.locks ==> Dead(before, e))
    && (forall e :: e in before.locks && Dead(before, e) && e !in entries ==> e !in now.locks)
  }

  lemma PruneBegins(before: Disk)
    ensures PrunedBut(before, before, before.locks.Keys)
  {
  }

  lemma PruneStep(start: Disk, before: Disk, now: Disk, entries: set<Name>, entry: Name)
    requires before == Without(start, set e | e in start.locks && Orphan(start, e))
    requires PrunedBut(before, now, entries)
    ensures PrunedBut(before,
              if LeaseOf(entry).Some? && entry in now.locks && now.locks[entry].Lease?
              then Recover(now, now.locks[entry].branch).0 else now,
              entries - {entry})
  {
    if entry in before.locks && Dead(before, entry) {
      LeaseOfLockFile(before.locks[entry].branch);
    }
    if entry in now.locks && now.locks[entry].Lease? {
      LeaseOfLockFile(now.locks[entry].branch);
    }
  }

  lemma PruneEnds(start: Disk, before: Disk, now: Disk)
    requires before == Without(start, set e | e in start.locks && Orphan(start, e))
    requires PrunedBut(before, now, {})
    ensures now == Without(start, set e | e in start.locks && Prunable(start, e))
  {
    var dead := set e | e in before.locks && Dead(before, e);
    assert now.locks == before.locks - dead;
    DeadAfterOrphans(start, before);
  }

  lemma DeadAfterOrphans(start: Disk, before: Disk)
    requires before == Without(start, set e | e in start.locks && Orphan(start, e))
    ensures before.locks - (set e | e in before.locks && Dead(before, e))
         == start.locks - (set e | e in start.locks && Prunable(start, e))
  {
  }

  // ----- The same recovery, call by call

  /** The protocol's single path shows what the disk has for this branch. */
  ghost predicate Shows(w: LeaseProtocol.World, d: Disk, branch: string) {
    && ShowsFile(w, d, branch)
    && w.directory == (LeaseName(branch) in d.directories) && w.alive == d.alive
  }

  ghost predicate ShowsFile(w: LeaseProtocol.World, d: Disk, branch: string) {
    if LockFile(branch) in d.locks then w.file.Some? && w.file.value.content == d.locks[LockFile(branch)] else w.file.None?
  }

  /**
   * Recovery run to completion is what an undisturbed retry comes to, call by call: the same file is
   * left, no other lease is touched, and the answer is absent, cleared, still active or malformed
   * as the retry finds nothing, takes the lease away, or fails.
   */
  lemma RecoveryIsUndisturbedRetry(d: Disk, branch: string, w: LeaseProtocol.World, act: Act)
    requires Shows(w, d, branch) && act in w.activities
    requires w.activities[act].job == Retry && w.activities[act].pc == Exists && w.activities[act].branch == branch
    ensures var (after, r) := Recover(d, branch);
            var done := Solo(w, act, 7);
            && ShowsFile(done, after, branch) && Over(done, act)
            && after == d.(locks := after.locks) && after.locks - {LockFile(branch)} == d.locks - {LockFile(branch)}
            && match done.activities[act].pc
               case Done => r == Ok(if w.file.None? then Absent else Recovery.Cleared)
               case Failed(Active) => r == Ok(StillActive)
               case _ => r == Err(Malformed)
  {
    hide Solo;
    AloneTakesIffFree(w, act);
  }

  /** Likewise an acquisition: it succeeds, and leaves the file, as the undisturbed one does call by call. */
  lemma AcquisitionIsFree(d: Disk, branch: string, w: LeaseProtocol.World)
    requires Shows(w, d, branch)
    ensures Free(w, branch) <==>
      LockFile(branch) !in d.locks || Orphan(d, LockFile(branch)) || (Dead(d, LockFile(branch)) && d.locks[LockFile(branch)].branch == branch)
  {
    LeaseOfLockFile(branch);
  }

  // ----- Every order of atomic steps

  /** The steps acquisitions, retries and prunes are made of, recovery being one of them. */
  datatype Op =
    | RecoverOp(branch: string)
    | CreateOp(branch: string, pid: Pid)
    | RemoveOrphan(entry: Name)
    | ReleaseOp(branch: string)
    | World(directories: set<Name>, alive: set<Pid>)

  function Apply(d: Disk, op: Op): Disk {
    match op
    case RecoverOp(branch) => Recover(d, branch).0
    case CreateOp(branch, pid) => Create(d, branch, pid).0
    case RemoveOrphan(entry) => if Orphan(d, entry) then Without(d, {entry}) else d
    case ReleaseOp(branch) => Without(d, {LockFile(branch)})
    case World(directories, alive) => d.(directories := directories, alive := alive)
  }

  function ApplyAll(d: Disk, ops: seq<Op>): Disk {
    if ops == [] then d else Apply(ApplyAll(d, ops[..|ops| - 1]), ops[|ops| - 1])
  }

  /** A step removes a lease only by release, or because it is orphaned or its owner is dead. */
  lemma StepRemoves(d: Disk, op: Op, entry: Name)
    requires entry in d.locks && (entry !in Apply(d, op).locks || Apply(d, op).locks[entry] != d.locks[entry])
    ensures (op.ReleaseOp? && entry == LockFile(op.branch)) || Prunable(d, entry)
  {
    if op.RecoverOp? {
      LeaseOfLockFile(op.branch);
    }
  }

  /** The lease stays live over all the states the steps go through. */
  ghost predicate StaysLive(d: Disk, ops: seq<Op>, entry: Name) {
    forall n :: 0 <= n <= |ops| ==> LiveAt(d, ops, n, entry)
  }

  ghost predicate LiveAt(d: Disk, ops: seq<Op>, n: nat, entry: Name)
    requires n <= |ops|
  {
    var now := ApplyAll(d, ops[..n]);
    !Orphan(now, entry) && entry in d.locks && d.locks[entry].Lease? && d.locks[entry].pid in now.alive
  }

  /**
   * As long as the owner lives and the worktree directory exists, no order of recoveries, creations
   * and prune steps by anybody takes the lease away or rewrites it; only a release does.
   */
  lemma {:induction false} LiveLeaseIsKept(d: Disk, ops: seq<Op>, entry: Name)
    requires StaysLive(d, ops, entry)
    requires forall op :: op in ops && op.ReleaseOp? ==> LockFile(op.branch) != entry
    ensures entry in d.locks && entry in ApplyAll(d, ops).locks && ApplyAll(d, ops).locks[entry] == d.locks[entry]
  {
    assert LiveAt(d, ops, 0, entry);
    if ops != [] {
      var earlier, last := ops[..|ops| - 1], ops[|ops| - 1];
      forall n | 0 <= n <= |earlier|
        ensures LiveAt(d, earlier, n, entry)
      {
        assert LiveAt(d, ops, n, entry) && earlier[..n] == ops[..n];
      }
      LiveLeaseIsKept(d, earlier, entry);
      assert LiveAt(d, ops, |earlier|, entry) && ops[..|earlier|] == earlier;
      var now := ApplyAll(d, earlier);
      if entry !in Apply(now, last).locks || Apply(now, last).locks[entry] != now.locks[entry] {
        StepRemoves(now, last, entry);
        assert false;
      }
    }
  }
}
