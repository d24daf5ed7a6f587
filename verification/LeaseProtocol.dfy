/** One worktree lease path under any number of interleaved activities. */
module LeaseProtocol {
  // Activities are acquisitions, hub retries, prunes and releases run by any processes, interleaved at
  // every file-system call and every liveness probe. A killed process is one that never steps again.

  import opened Common

  type Pid = nat
  type Act = nat

  /** Who made the lease file: it was there before, or an acquisition created it. */
  datatype Maker = Before | By(act: Act)

  /** `open(path, "wx")` makes an empty file; the metadata follows in a separate write. */
  datatype Content = Unreadable | Lease(branch: string, pid: Pid)

  datatype File = File(maker: Maker, content: Content)

  datatype Job = Acquire | Retry | Prune | PruneOrphan | Release

  datatype Evidence = Asked | NoDirectory | DeadOwner(seen: Maker, pid: Pid)

  datatype Failure = Io | Malformed | Active | AlreadyExists

  datatype Pc =
    | Exists | Stat | Read | Probe(seen: Maker, pid: Pid) | ReadAgain | Remove(evidence: Evidence)
    | Create | Write | Acquired | Done | Failed(failure: Failure)

  datatype Activity = Activity(pid: Pid, branch: string, job: Job, pc: Pc, attempts: nat)

  datatype Event =
    | Statted(act: Act, directory: bool)
    | Looked(act: Act, lease: Maker, pid: Pid)
    | Probed(act: Act, pid: Pid, alive: bool)
    | Removed(act: Act, lease: Maker, evidence: Evidence)
    | Created(act: Act)

  datatype World = World(
    file: Option<File>, directory: bool, alive: set<Pid>, activities: map<Act, Activity>, log: seq<Event>)

  /** `fails`: the operating system refuses the call for a reason of its own. */
  datatype Action =
    | Begin(act: Act, pid: Pid, branch: string, job: Job)
    | Go(act: Act, fails: bool)
    | SetDirectory(present: bool)
    | Spawn(pid: Pid)
    | Die(pid: Pid)

  function FirstPc(job: Job): Pc {
    match job
    case Release => Remove(Asked)
    case PruneOrphan => Stat
    case _ => Exists
  }

  function At(w: World, act: Act, pc: Pc): World
    requires act in w.activities
  {
    w.(activities := w.activities[act := w.activities[act].(pc := pc)])
  }

  /** Recovery has cleared the way. */
  function Cleared(job: Job): Pc {
    if job == Acquire then Create else Done
  }

  function BadLease(job: Job): Pc {
    if job == Prune then Done else Failed(Malformed)
  }

  predicate Parses(w: World, branch: string) {
    w.file.Some? && w.file.value.content.Lease? && w.file.value.content.branch == branch
  }

  function Advance(w: World, act: Act, fails: bool): World
    requires act in w.activities
  {
    var a := w.activities[act];
    match a.pc
    case Exists =>
      At(w, act, if fails then Failed(Io) else if w.file.None? then Cleared(a.job) else Stat)
    case Stat =>
      var directory := w.directory && !fails;
      At(w, act, if !directory then Remove(NoDirectory) else if a.job == PruneOrphan then Done else Read)
        .(log := w.log + [Statted(act, directory)])
    case Read =>
      if fails || !Parses(w, a.branch) then At(w, act, BadLease(a.job))
      else
        At(w, act, Probe(w.file.value.maker, w.file.value.content.pid))
          .(log := w.log + [Looked(act, w.file.value.maker, w.file.value.content.pid)])
    case Probe(seen, pid) =>
      var alive := pid in w.alive;
      At(w, act, if !alive then Remove(DeadOwner(seen, pid)) else if a.job == Prune then Done else ReadAgain)
        .(log := w.log + [Probed(act, pid, alive)])
    case ReadAgain =>
      At(w, act, Failed(if fails || !Parses(w, a.branch) then Malformed else Active))
    case Remove(evidence) =>
      if fails then At(w, act, Failed(Io))
      else if w.file.None? then At(w, act, Cleared(a.job))
      else At(w, act, Cleared(a.job)).(file := None, log := w.log + [Removed(act, w.file.value.maker, evidence)])
    case Create =>
      var tried := w.(activities := w.activities[act := a.(attempts := a.attempts + 1)]);
      if fails then At(tried, act, Failed(Io))
      else if w.file.Some? then At(tried, act, if a.attempts == 0 then Exists else Failed(AlreadyExists))
      else At(tried, act, Write).(file := Some(File(By(act), Unreadable)), log := w.log + [Created(act)])
    case Write =>
      if fails then At(w, act, Failed(Io))
      else
        var mine := w.file.Some? && w.file.value.maker == By(act);
        At(w, act, Acquired).(file := if mine then Some(File(By(act), Lease(a.branch, a.pid))) else w.file)
    case Acquired => w
    case Done => w
    case Failed(_) => w
  }

  function Step(w: World, action: Action): World {
    match action
    case Begin(act, pid, branch, job) =>
      if act in w.activities then w
      else w.(activities := w.activities[act := Activity(pid, branch, job, FirstPc(job), 0)])
    case Go(act, fails) => if act in w.activities then Advance(w, act, fails) else w
    case SetDirectory(present) => w.(directory := present)
    case Spawn(pid) => w.(alive := w.alive + {pid})
    case Die(pid) => w.(alive := w.alive - {pid})
  }

  function Run(w: World, actions: seq<Action>): World {
    if actions == [] then w else Step(Run(w, actions[..|actions| - 1]), actions[|actions| - 1])
  }

  /** No activity has begun; the path may already hold a lease. */
  predicate Initial(w: World) {
    w.activities == map[] && w.log == [] && (w.file.Some? ==> w.file.value.maker == Before)
  }

  // ----- What the log says about the path

  function MakerOf(file: Option<File>): Option<Maker> {
    if file.Some? then Some(file.value.maker) else None
  }

  /** Whose lease the path holds after the logged creates and removals. */
  function Holder(start: Option<Maker>, log: seq<Event>): Option<Maker> {
    if log == [] then start
    else
      match log[|log| - 1]
      case Created(act) => Some(By(act))
      case Removed(_, _, _) => None
      case _ => Holder(start, log[..|log| - 1])
  }

  ghost predicate SawNoDirectory(log: seq<Event>, n: nat, act: Act) {
    exists m :: 0 <= m < n <= |log| && log[m] == Statted(act, false)
  }

  ghost predicate LookedAt(log: seq<Event>, m: int, act: Act, lease: Maker, pid: Pid) {
    0 <= m < |log| && log[m] == Looked(act, lease, pid)
  }

  /** The activity read this lease, and later found its owner not alive. */
  ghost predicate SawDeadOwner(log: seq<Event>, n: nat, act: Act, lease: Maker, pid: Pid) {
    exists m, p :: m < p < n <= |log| && LookedAt(log, m, act, lease, pid) && log[p] == Probed(act, pid, false)
  }

  ghost predicate Founded(log: seq<Event>, n: nat, act: Act, evidence: Evidence) {
    match evidence
    case Asked => true
    case NoDirectory => SawNoDirectory(log, n, act)
    case DeadOwner(seen, pid) => SawDeadOwner(log, n, act, seen, pid)
  }

  ghost predicate EventGood(start: Option<Maker>, log: seq<Event>, n: nat)
    requires n < |log|
  {
    match log[n]
    case Created(_) => Holder(start, log[..n]) == None
    case Removed(act, lease, evidence) => Holder(start, log[..n]) == Some(lease) && Founded(log, n, act, evidence)
    case Looked(_, lease, _) => Holder(start, log[..n]) == Some(lease)
    case _ => true
  }

  ghost predicate LogGood(start: Option<Maker>, log: seq<Event>) {
    forall n :: 0 <= n < |log| ==> EventGood(start, log, n)
  }

  /** What an activity's place in its program says about the past. */
  ghost predicate ActivityGood(w: World, act: Act)
    requires act in w.activities
  {
    var a := w.activities[act];
    && a.attempts <= 2
    && (a.pc.Exists? || a.pc.Stat? || a.pc.Read? || a.pc.Probe? || a.pc.ReadAgain? || a.pc.Remove? || a.pc.Create? ==>
          a.attempts <= 1 && Created(act) !in w.log)
    && (a.pc.Write? || a.pc.Acquired? ==> a.attempts >= 1 && Created(act) in w.log)
    && (a.pc.Create? || a.pc.Write? || a.pc.Acquired? ==> a.job == Acquire)
    && (a.attempts > 0 ==> a.job == Acquire)
    && (a.pc.Probe? ==> exists m :: LookedAt(w.log, m, act, a.pc.seen, a.pc.pid))
    && (a.pc.Remove? ==> Founded(w.log, |w.log|, act, a.pc.evidence) && (a.pc.evidence == Asked ==> a.job == Release))
  }

  ghost predicate Good(start: Option<Maker>, w: World) {
    && LogGood(start, w.log)
    && Holder(start, w.log) == MakerOf(w.file)
    && (forall act :: act in w.activities ==> ActivityGood(w, act))
    && (forall act :: Created(act) in w.log ==> act in w.activities)
  }

  lemma Extend(start: Option<Maker>, log: seq<Event>, e: Event)
    requires LogGood(start, log) && EventGood(start, log + [e], |log|)
    ensures LogGood(start, log + [e])
    ensures Holder(start, log + [e]) ==
      match e case Created(act) => Some(By(act)) case Removed(_, _, _) => None case _ => Holder(start, log)
  {
    assert (log + [e])[..|log|] == log;
    forall n | 0 <= n < |log|
      ensures EventGood(start, log + [e], n)
    {
      assert EventGood(start, log, n) && (log + [e])[..n] == log[..n];
      if log[n].Removed? {
        FoundedExtends(log, e, n, log[n].act, log[n].evidence);
      }
    }
  }

  lemma FoundedExtends(log: seq<Event>, e: Event, n: nat, act: Act, evidence: Evidence)
    requires n <= |log| && Founded(log, n, act, evidence)
    ensures Founded(log + [e], n, act, evidence)
  {
    match evidence
    case Asked =>
    case NoDirectory =>
      var m :| 0 <= m < n && log[m] == Statted(act, false);
      assert (log + [e])[m] == log[m];
    case DeadOwner(seen, pid) =>
      var m, p :| m < p < n && LookedAt(log, m, act, seen, pid) && log[p] == Probed(act, pid, false);
      assert LookedAt(log + [e], m, act, seen, pid) && (log + [e])[p] == log[p];
  }

  lemma FoundedLater(log: seq<Event>, n: nat, n': nat, act: Act, evidence: Evidence)
    requires n <= n' <= |log| && Founded(log, n, act, evidence)
    ensures Founded(log, n', act, evidence)
  {
  }

  /** Another activity's facts survive one more event of `act`. */
  lemma OthersKeep(w: World, w': World, act: Act, e: Event)
    requires w'.log == w.log || (w'.log == w.log + [e] && e.act == act)
    requires act in w.activities && act in w'.activities && w'.activities == w.activities[act := w'.activities[act]]
    requires forall a :: a in w.activities ==> ActivityGood(w, a)
    ensures forall a :: a in w'.activities && a != act ==> ActivityGood(w', a)
  {
    forall a | a in w'.activities && a != act
      ensures ActivityGood(w', a)
    {
      assert ActivityGood(w, a);
      var pc := w.activities[a].pc;
      if w'.log == w.log + [e] {
        if pc.Probe? {
          var m :| LookedAt(w.log, m, a, pc.seen, pc.pid);
          assert LookedAt(w'.log, m, a, pc.seen, pc.pid);
        } else if pc.Remove? {
          FoundedExtends(w.log, e, |w.log|, a, pc.evidence);
          FoundedLater(w'.log, |w.log|, |w'.log|, a, pc.evidence);
        }
      }
    }
  }

  /** The activity's own facts, when it steps from a place before creation to another one. */
  lemma StatGood(start: Option<Maker>, w: World, act: Act, fails: bool)
    requires Good(start, w) && act in w.activities && w.activities[act].pc.Stat?
    ensures Good(start, Advance(w, act, fails))
  {
    hide LogGood;
    var w' := Advance(w, act, fails);
    var e := Statted(act, w.directory && !fails);
    assert ActivityGood(w, act);
    Extend(start, w.log, e);
    OthersKeep(w, w', act, e);
    assert w'.log[|w.log|] == e;
  }

  lemma ReadGood(start: Option<Maker>, w: World, act: Act, fails: bool)
    requires Good(start, w) && act in w.activities && w.activities[act].pc.Read?
    ensures Good(start, Advance(w, act, fails))
  {
    hide LogGood, Founded;
    var w' := Advance(w, act, fails);
    assert ActivityGood(w, act);
    if fails || !Parses(w, w.activities[act].branch) {
      OthersKeep(w, w', act, Created(act));
    } else {
      var e := Looked(act, w.file.value.maker, w.file.value.content.pid);
      assert (w.log + [e])[..|w.log|] == w.log;
      Extend(start, w.log, e);
      OthersKeep(w, w', act, e);
      assert LookedAt(w'.log, |w.log|, act, e.lease, e.pid);
    }
  }

  lemma ProbeGood(start: Option<Maker>, w: World, act: Act, fails: bool)
    requires Good(start, w) && act in w.activities && w.activities[act].pc.Probe?
    ensures Good(start, Advance(w, act, fails))
  {
    hide LogGood;
    var w' := Advance(w, act, fails);
    var seen, pid := w.activities[act].pc.seen, w.activities[act].pc.pid;
    var e := Probed(act, pid, pid in w.alive);
    assert ActivityGood(w, act);
    Extend(start, w.log, e);
    OthersKeep(w, w', act, e);
    var m :| LookedAt(w.log, m, act, seen, pid);
    assert LookedAt(w'.log, m, act, seen, pid);
    assert w'.log[|w.log|] == e;
  }

  lemma RemoveGood(start: Option<Maker>, w: World, act: Act, fails: bool)
    requires Good(start, w) && act in w.activities && w.activities[act].pc.Remove?
    ensures Good(start, Advance(w, act, fails))
  {
    hide LogGood, Founded;
    var w' := Advance(w, act, fails);
    assert ActivityGood(w, act);
    if fails || w.file.None? {
      OthersKeep(w, w', act, Created(act));
    } else {
      var evidence := w.activities[act].pc.evidence;
      var e := Removed(act, w.file.value.maker, evidence);
      assert (w.log + [e])[..|w.log|] == w.log;
      FoundedExtends(w.log, e, |w.log|, act, evidence);
      Extend(start, w.log, e);
      OthersKeep(w, w', act, e);
    }
  }

  lemma CreateGood(start: Option<Maker>, w: World, act: Act, fails: bool)
    requires Good(start, w) && act in w.activities && w.activities[act].pc.Create?
    ensures Good(start, Advance(w, act, fails))
  {
    hide LogGood, Founded;
    var w' := Advance(w, act, fails);
    assert ActivityGood(w, act);
    OthersKeep(w, w', act, Created(act));
    if !fails && w.file.None? {
      assert (w.log + [Created(act)])[..|w.log|] == w.log;
      Extend(start, w.log, Created(act));
      assert w'.log[|w.log|] == Created(act);
      CreatedKnown(w, w', act);
    } else {
      assert ActivityGood(w', act);
    }
  }

  lemma CreatedKnown(w: World, w': World, act: Act)
    requires w'.log == w.log + [Created(act)] && w'.activities.Keys == w.activities.Keys && act in w.activities
    requires forall a :: Created(a) in w.log ==> a in w.activities
    ensures forall a :: Created(a) in w'.log ==> a in w'.activities
  {
  }

  lemma SilentGood(start: Option<Maker>, w: World, act: Act, fails: bool)
    requires Good(start, w) && act in w.activities
    requires var pc := w.activities[act].pc; pc.Exists? || pc.ReadAgain? || pc.Write? || pc.Acquired? || pc.Done? || pc.Failed?
    ensures Good(start, Advance(w, act, fails))
  {
    hide LogGood, Founded;
    var w' := Advance(w, act, fails);
    assert ActivityGood(w, act);
    assert w.activities == w.activities[act := w.activities[act]];
    OthersKeep(w, w', act, Created(act));
  }

  lemma StepGood(start: Option<Maker>, w: World, action: Action)
    requires Good(start, w)
    ensures Good(start, Step(w, action))
  {
    hide LogGood;
    match action
    case Begin(act, pid, branch, job) =>
      var w' := Step(w, action);
      forall a | a in w'.activities
        ensures ActivityGood(w', a)
      {
        if a in w.activities {
          assert ActivityGood(w, a) && w'.activities[a] == w.activities[a];
        }
      }
    case Go(act, fails) =>
      if act in w.activities {
        match w.activities[act].pc
        case Stat => StatGood(start, w, act, fails);
        case Read => ReadGood(start, w, act, fails);
        case Probe(_, _) => ProbeGood(start, w, act, fails);
        case Remove(_) => RemoveGood(start, w, act, fails);
        case Create => CreateGood(start, w, act, fails);
        case _ => SilentGood(start, w, act, fails);
      }
    case SetDirectory(_) => ContextGood(start, w, Step(w, action));
    case Spawn(_) => ContextGood(start, w, Step(w, action));
    case Die(_) => ContextGood(start, w, Step(w, action));
  }

  lemma ContextGood(start: Option<Maker>, w: World, w': World)
    requires Good(start, w) && w' == w.(directory := w'.directory, alive := w'.alive)
    ensures Good(start, w')
  {
    forall a | a in w'.activities
      ensures ActivityGood(w', a)
    {
      assert ActivityGood(w, a);
    }
  }

  lemma {:induction false} RunGood(w: World, actions: seq<Action>)
    requires Initial(w)
    ensures Good(MakerOf(w.file), Run(w, actions))
  {
    if actions != [] {
      RunGood(w, actions[..|actions| - 1]);
      StepGood(MakerOf(w.file), Run(w, actions[..|actions| - 1]), actions[|actions| - 1]);
    }
  }

  // ----- Leases name their owners

  ghost predicate NamesOwner(w: World, lease: Maker, pid: Pid) {
    lease.By? ==> lease.act in w.activities && w.activities[lease.act].pid == pid
  }

  /** A readable lease carries the pid of the process that acquired it, and so did every lease ever read. */
  ghost predicate Named(w: World) {
    && (w.file.Some? && w.file.value.content.Lease? ==> NamesOwner(w, w.file.value.maker, w.file.value.content.pid))
    && forall n :: 0 <= n < |w.log| && w.log[n].Looked? ==> NamesOwner(w, w.log[n].lease, w.log[n].pid)
  }

  ghost predicate SamePids(w: World, w': World) {
    forall a :: a in w.activities ==> a in w'.activities && w'.activities[a].pid == w.activities[a].pid
  }

  /** A step adds at most one event, reads only what is there, and writes only its own pid. */
  ghost predicate Keeps(w: World, w': World) {
    && SamePids(w, w')
    && w.log <= w'.log && |w'.log| <= |w.log| + 1
    && (forall n :: |w.log| <= n < |w'.log| && w'.log[n].Looked? ==>
          w.file.Some? && w.file.value.content.Lease?
          && w'.log[n].lease == w.file.value.maker && w'.log[n].pid == w.file.value.content.pid)
    && (w'.file.Some? && w'.file.value.content.Lease? ==>
          w'.file == w.file || NamesOwner(w', w'.file.value.maker, w'.file.value.content.pid))
  }

  lemma AdvanceKeeps(w: World, act: Act, fails: bool)
    requires act in w.activities
    ensures Keeps(w, Advance(w, act, fails))
  {
    match w.activities[act].pc
    case Create =>
    case Write =>
    case _ =>
  }

  lemma StepKeeps(w: World, action: Action)
    ensures Keeps(w, Step(w, action))
  {
    hide Advance;
    if action.Go? && action.act in w.activities {
      AdvanceKeeps(w, action.act, action.fails);
    }
  }

  lemma NamedStays(w: World, w': World)
    requires Named(w) && Keeps(w, w')
    ensures w.file.Some? && w.file.value.content.Lease? ==> NamesOwner(w', w.file.value.maker, w.file.value.content.pid)
    ensures forall n :: 0 <= n < |w'.log| && w'.log[n].Looked? ==> NamesOwner(w', w'.log[n].lease, w'.log[n].pid)
  {
    forall n | 0 <= n < |w'.log| && w'.log[n].Looked?
      ensures NamesOwner(w', w'.log[n].lease, w'.log[n].pid)
    {
      if n < |w.log| {
        assert w'.log[n] == w.log[n];
        assert NamesOwner(w, w.log[n].lease, w.log[n].pid);
      }
    }
  }

  lemma StepNamed(w: World, action: Action)
    requires Named(w)
    ensures Named(Step(w, action))
  {
    hide Step;
    StepKeeps(w, action);
    NamedStays(w, Step(w, action));
  }

  lemma {:induction false} RunNamed(w: World, actions: seq<Action>)
    requires Initial(w)
    ensures Named(Run(w, actions))
  {
    if actions != [] {
      RunNamed(w, actions[..|actions| - 1]);
      StepNamed(Run(w, actions[..|actions| - 1]), actions[|actions| - 1]);
    }
  }

  // ----- Leases are written last

  /** A lease made by an activity is unreadable until the acquisition has it, and then names branch and process. */
  ghost predicate WrittenLast(w: World) {
    w.file.Some? && w.file.value.maker.By? ==>
      && w.file.value.maker.act in w.activities
      && var a := w.activities[w.file.value.maker.act];
      && (a.pc.Write? || a.pc.Acquired? || a.pc.Failed?)
      && w.file.value.content == if a.pc.Acquired? then Lease(a.branch, a.pid) else Unreadable
  }

  lemma StepWrittenLast(w: World, action: Action)
    requires WrittenLast(w)
    ensures WrittenLast(Step(w, action))
  {
    if action.Go? && action.act in w.activities {
      match w.activities[action.act].pc
      case Remove(_) =>
      case Create =>
      case Write =>
      case _ =>
    }
  }

  /** In every interleaving, nobody can read a lease whose acquisition has not succeeded. */
  lemma {:induction false} RunWrittenLast(w: World, actions: seq<Action>)
    requires Initial(w)
    ensures WrittenLast(Run(w, actions))
  {
    if actions != [] {
      RunWrittenLast(w, actions[..|actions| - 1]);
      StepWrittenLast(Run(w, actions[..|actions| - 1]), actions[|actions| - 1]);
    }
  }

  // ----- What the protocol guarantees

  function Creations(log: seq<Event>): nat {
    if log == [] then 0
    else Creations(log[..|log| - 1]) + if log[|log| - 1].Created? then 1 else 0
  }

  function Removals(log: seq<Event>): nat {
    if log == [] then 0
    else Removals(log[..|log| - 1]) + if log[|log| - 1].Removed? then 1 else 0
  }

  function One(holder: Option<Maker>): nat {
    if holder.Some? then 1 else 0
  }

  lemma {:induction false} Conservation(start: Option<Maker>, log: seq<Event>)
    requires LogGood(start, log)
    ensures Creations(log) + One(start) == Removals(log) + One(Holder(start, log))
  {
    if log != [] {
      PrefixGood(start, log, |log| - 1);
      Conservation(start, log[..|log| - 1]);
      assert EventGood(start, log, |log| - 1);
    }
  }

  lemma PrefixGood(start: Option<Maker>, log: seq<Event>, n: nat)
    requires LogGood(start, log) && n <= |log|
    ensures LogGood(start, log[..n])
  {
    forall k | 0 <= k < n
      ensures EventGood(start, log[..n], k)
    {
      assert EventGood(start, log, k) && log[..n][..k] == log[..k];
      if log[k].Removed? {
        FoundedPrefix(log, n, k, log[k].act, log[k].evidence);
      }
    }
  }

  lemma FoundedPrefix(log: seq<Event>, n: nat, k: nat, act: Act, evidence: Evidence)
    requires k <= n <= |log| && Founded(log, k, act, evidence)
    ensures Founded(log[..n], k, act, evidence)
  {
    match evidence
    case Asked =>
    case NoDirectory =>
      var m :| 0 <= m < k && log[m] == Statted(act, false);
      assert log[..n][m] == log[m];
    case DeadOwner(seen, pid) =>
      var m, p :| m < p < k && LookedAt(log, m, act, seen, pid) && log[p] == Probed(act, pid, false);
      assert LookedAt(log[..n], m, act, seen, pid) && log[..n][p] == log[p];
  }

  /** Every run: exclusive creations and effective removals balance, whatever the interleaving. */
  lemma CreationsMatchRemovals(w: World, actions: seq<Action>)
    requires Initial(w)
    ensures var after := Run(w, actions);
            Creations(after.log) + One(MakerOf(w.file)) == Removals(after.log) + One(MakerOf(after.file))
  {
    RunGood(w, actions);
    Conservation(MakerOf(w.file), Run(w, actions).log);
  }

  /** Once the path holds a lease, it goes on holding it until that lease is removed. */
  lemma {:induction false} HeldUntilRemoved(start: Option<Maker>, log: seq<Event>, i: nat, j: nat) returns (k: nat)
    requires LogGood(start, log) && i <= j <= |log|
    requires Holder(start, log[..i]).Some? && Holder(start, log[..j]) != Holder(start, log[..i])
    ensures i <= k < j && log[k].Removed? && Some(log[k].lease) == Holder(start, log[..i])
    decreases j - i
  {
    assert log[..j][..j - 1] == log[..j - 1] && log[..j][j - 1] == log[j - 1];
    assert EventGood(start, log, j - 1);
    if Holder(start, log[..j - 1]) == Holder(start, log[..i]) {
      k := j - 1;
    } else {
      k := HeldUntilRemoved(start, log, i, j - 1);
    }
  }

  /** Two successful creations are of different leases, and the first lease was removed in between. */
  lemma CreationsAreSeparated(start: Option<Maker>, log: seq<Event>, i: nat, j: nat) returns (k: nat)
    requires LogGood(start, log) && i < j < |log| && log[i].Created? && log[j].Created?
    ensures i < k < j && log[k].Removed? && log[k].lease == By(log[i].act)
  {
    assert log[..i + 1][i] == log[i];
    assert EventGood(start, log, j);
    k := HeldUntilRemoved(start, log, i + 1, j);
  }

  ghost predicate RemovedBetween(log: seq<Event>, m: int, n: int, lease: Maker) {
    exists k :: 0 <= m < k < n <= |log| && log[k].Removed? && log[k].lease == lease
  }

  /** The removal at `n` rests on reading lease `seen` at `m`, and then finding its owner dead. */
  ghost predicate RestsOn(log: seq<Event>, n: nat, m: int, seen: Maker, pid: Pid)
    requires n < |log| && log[n].Removed?
  {
    && LookedAt(log, m, log[n].act, seen, pid)
    && (exists p :: m < p < n && log[p] == Probed(log[n].act, pid, false))
    && (seen != log[n].lease ==> RemovedBetween(log, m, n, seen))
  }

  /**
   * Every lease that disappeared was released, or was removed by an activity that had found no
   * worktree directory, or by one that had read a lease and found its owner dead. If the lease it
   * had read is not the one it removed, somebody else had removed that one in between.
   */
  ghost predicate Explained(w: World, n: nat)
    requires n < |w.log|
  {
    w.log[n].Removed? ==>
      match w.log[n].evidence
      case Asked => true
      case NoDirectory => SawNoDirectory(w.log, n, w.log[n].act)
      case DeadOwner(seen, pid) => NamesOwner(w, seen, pid) && exists m :: RestsOn(w.log, n, m, seen, pid)
  }

  lemma DeadOwnerExplained(start: Option<Maker>, log: seq<Event>, n: nat) returns (m: nat)
    requires LogGood(start, log) && n < |log| && log[n].Removed? && log[n].evidence.DeadOwner?
    ensures RestsOn(log, n, m, log[n].evidence.seen, log[n].evidence.pid)
  {
    hide LogGood;
    var act, seen, pid := log[n].act, log[n].evidence.seen, log[n].evidence.pid;
    LogAt(start, log, n);
    var m', p :| m' < p < n && LookedAt(log, m', act, seen, pid) && log[p] == Probed(act, pid, false);
    m := m';
    if seen != log[n].lease {
      LogAt(start, log, m);
      assert log[..m + 1][m] == log[m] && log[..m + 1][..m] == log[..m];
      var k := HeldUntilRemoved(start, log, m + 1, n);
      assert RemovedBetween(log, m, n, seen);
    }
  }

  lemma LogAt(start: Option<Maker>, log: seq<Event>, n: nat)
    requires LogGood(start, log) && n < |log|
    ensures EventGood(start, log, n)
  {
  }

  lemma RemovalsExplained(w: World, actions: seq<Action>, n: nat)
    requires Initial(w) && n < |Run(w, actions).log|
    ensures Explained(Run(w, actions), n)
  {
    hide LogGood, RestsOn, Run;
    var start, after := MakerOf(w.file), Run(w, actions);
    RunGood(w, actions);
    RunNamed(w, actions);
    LogAt(start, after.log, n);
    if after.log[n].Removed? && after.log[n].evidence.DeadOwner? {
      var m := DeadOwnerExplained(start, after.log, n);
      assert RestsOn(after.log, n, m, after.log[n].evidence.seen, after.log[n].evidence.pid);
      LookedNamed(after, n, m);
    }
  }

  lemma LookedNamed(w: World, n: nat, m: nat)
    requires Named(w) && n < |w.log| && w.log[n].Removed? && w.log[n].evidence.DeadOwner?
    requires RestsOn(w.log, n, m, w.log[n].evidence.seen, w.log[n].evidence.pid)
    ensures NamesOwner(w, w.log[n].evidence.seen, w.log[n].evidence.pid)
  {
    assert NamesOwner(w, w.log[m].lease, w.log[m].pid);
  }

  /**
   * Two acquisitions can both have succeeded only if the lease of the first was removed before the
   * second was created; neither tried to create more than twice.
   */
  lemma AcquisitionsAreExclusive(w: World, actions: seq<Action>, a: Act, b: Act)
    requires Initial(w)
    requires var after := Run(w, actions);
             a != b && {a, b} <= after.activities.Keys
             && after.activities[a].pc == Acquired && after.activities[b].pc == Acquired
    ensures var after := Run(w, actions);
            && after.activities[a].attempts in {1, 2} && after.activities[b].attempts in {1, 2}
            && exists i, j :: Separated(after.log, i, j) && {after.log[i], after.log[j]} == {Created(a), Created(b)}
  {
    hide LogGood, Run;
    var start, after := MakerOf(w.file), Run(w, actions);
    RunGood(w, actions);
    assert ActivityGood(after, a) && ActivityGood(after, b);
    var i :| 0 <= i < |after.log| && after.log[i] == Created(a);
    var j :| 0 <= j < |after.log| && after.log[j] == Created(b);
    if j < i {
      i, j := j, i;
    }
    var k := CreationsAreSeparated(start, after.log, i, j);
    assert Separated(after.log, i, j);
  }

  ghost predicate Separated(log: seq<Event>, i: int, j: int) {
    0 <= i < j < |log| && log[i].Created? && RemovedBetween(log, i, j, By(log[i].act))
  }

  /** However a run goes, an acquisition tries to create the lease file at most twice. */
  lemma AtMostTwoAttempts(w: World, actions: seq<Action>, act: Act)
    requires Initial(w) && act in Run(w, actions).activities
    ensures Run(w, actions).activities[act].attempts <= 2
  {
    RunGood(w, actions);
    assert ActivityGood(Run(w, actions), act);
  }

  // ----- What it does not guarantee

  lemma RunOn(w: World, actions: seq<Action>, more: seq<Action>)
    ensures Run(w, actions + more) == Run(Run(w, actions), more)
    decreases |more|
  {
    if more == [] {
      assert actions + more == actions;
    } else {
      assert (actions + more)[..|actions + more| - 1] == actions + more[..|more| - 1];
      RunOn(w, actions, more[..|more| - 1]);
    }
  }

  lemma RunOne(w: World, actions: seq<Action>, action: Action)
    ensures Run(w, actions + [action]) == Step(Run(w, actions), action)
  {
    hide Step;
    assert (actions + [action])[..|actions|] == actions;
  }

  lemma RunGoes(w: World, act: Act)
    ensures var g := Go(act, false);
            && Run(w, [g, g, g]) == Step(Step(Step(w, g), g), g)
            && Run(w, [g, g, g, g]) == Step(Step(Step(Step(w, g), g), g), g)
  {
    hide Step, Run;
    var g := Go(act, false);
    RunNone(w);
    RunOne(w, [], g);
    RunOne(w, [g], g);
    RunOne(w, [g, g], g);
    RunOne(w, [g, g, g], g);
    assert [] + [g] == [g] && [g] + [g] == [g, g] && [g, g] + [g] == [g, g, g] && [g, g, g] + [g] == [g, g, g, g];
  }

  lemma RunNone(w: World)
    ensures Run(w, []) == w
  {
  }

  /** An acquisition that looks at a dead owner's lease comes as far as the removal. */
  lemma FindsDeadOwner(w: World, act: Act)
    requires act in w.activities && w.activities[act].pc == Exists && w.directory
    requires w.activities[act].job == Acquire
    requires Parses(w, w.activities[act].branch) && w.file.value.content.pid !in w.alive
    ensures var g := Go(act, false);
            var after := Run(w, [g, g, g, g]);
            var found := Remove(DeadOwner(w.file.value.maker, w.file.value.content.pid));
            && after.file == w.file && after.directory == w.directory && after.alive == w.alive
            && after.activities == w.activities[act := w.activities[act].(pc := found)]
  {
    hide Run;
    RunGoes(w, act);
    var g := Go(act, false);
    var w1 := Step(w, g);
    var w2 := Step(w1, g);
    var w3 := Step(w2, g);
    assert w3.activities[act].pc == Probe(w.file.value.maker, w.file.value.content.pid);
  }

  /** From the removal on, it takes over whatever lease is there. */
  lemma TakesOver(w: World, act: Act)
    requires act in w.activities && w.activities[act].pc.Remove? && w.activities[act].job == Acquire
    requires w.activities[act].attempts == 0
    ensures var g := Go(act, false);
            var after := Run(w, [g, g, g]);
            && after.directory == w.directory && after.alive == w.alive
            && after.activities == w.activities[act := w.activities[act].(pc := Acquired, attempts := 1)]
            && after.file == Some(File(By(act), Lease(w.activities[act].branch, w.activities[act].pid)))
  {
    hide Run;
    RunGoes(w, act);
    var g := Go(act, false);
    var w1 := Step(w, g);
    assert w1.activities == w.activities[act := w.activities[act].(pc := Create)];
    var w2 := Step(w1, g);
    assert w2.activities[act].pc == Write && w2.file == Some(File(By(act), Unreadable));
  }

  // ----- An activity that nobody disturbs

  function Solo(w: World, act: Act, n: nat): World {
    if n == 0 then w else Step(Solo(w, act, n - 1), Go(act, false))
  }

  lemma {:induction false} SoloSplits(w: World, act: Act, m: nat, n: nat)
    ensures Solo(w, act, m + n) == Solo(Solo(w, act, m), act, n)
  {
    hide Step;
    if n > 0 {
      SoloSplits(w, act, m, n - 1);
    }
  }

  ghost predicate Over(w: World, act: Act) {
    act in w.activities && (w.activities[act].pc.Acquired? || w.activities[act].pc.Done? || w.activities[act].pc.Failed?)
  }

  lemma {:induction false} OverStays(w: World, act: Act, n: nat)
    requires Over(w, act)
    ensures Solo(w, act, n) == w
  {
    hide Over, Step;
    if n > 0 {
      OverStays(w, act, n - 1);
      OverSteps(w, act);
    }
  }

  lemma OverSteps(w: World, act: Act)
    requires Over(w, act)
    ensures Step(w, Go(act, false)) == w
  {
  }

  /** What one undisturbed step does to the activity and the file. */
  ghost predicate StepsTo(w: World, act: Act, pc: Pc, file: Option<File>) {
    var w' := Step(w, Go(act, false));
    && act in w.activities && act in w'.activities
    && w'.activities[act] == w.activities[act].(pc := pc, attempts := w'.activities[act].attempts)
    && w'.file == file && w'.directory == w.directory && w'.alive == w.alive
  }

  lemma SoloOne(w: World, act: Act)
    ensures Solo(w, act, 1) == Step(w, Go(act, false))
  {
    assert Solo(w, act, 0) == w;
  }

  /** The lease is there for the taking: nobody's, orphaned, or the branch's own with a dead owner. */
  predicate Free(w: World, branch: string) {
    || w.file.None?
    || !w.directory
    || (Parses(w, branch) && w.file.value.content.pid !in w.alive)
  }

  lemma CreatesAlone(w: World, act: Act)
    requires act in w.activities && w.activities[act].pc == Create && w.file.None?
    ensures var after := Solo(w, act, 2);
            && Over(after, act) && after.activities[act].pc == Acquired
            && after.file == Some(File(By(act), Lease(w.activities[act].branch, w.activities[act].pid)))
  {
    SoloOne(w, act);
    SoloSplits(w, act, 1, 1);
    SoloOne(Solo(w, act, 1), act);
    assert StepsTo(w, act, Write, Some(File(By(act), Unreadable)));
  }

  /** What is left on the path once the lease is taken off it: nothing, or the acquirer's own. */
  function Successor(a: Activity, act: Act): Option<File> {
    if a.job == Acquire then Some(File(By(act), Lease(a.branch, a.pid))) else None
  }

  lemma RemovesAlone(w: World, act: Act)
    requires act in w.activities && w.activities[act].pc.Remove?
    ensures var after := Solo(w, act, 3);
            var a := w.activities[act];
            && Over(after, act) && after.activities[act].pc == (if a.job == Acquire then Acquired else Done)
            && after.file == Successor(a, act)
  {
    hide Solo;
    var a := w.activities[act];
    SoloOne(w, act);
    SoloSplits(w, act, 1, 2);
    if a.job == Acquire {
      assert StepsTo(w, act, Create, None);
      CreatesAlone(Solo(w, act, 1), act);
    } else {
      assert StepsTo(w, act, Done, None);
      OverStays(Solo(w, act, 1), act, 2);
    }
  }

  /** A lease that cannot be taken stays, and everybody but a prune loop reports why. */
  ghost predicate Refused(a: Activity, parses: bool, pc: Pc) {
    pc == if a.job == Prune || a.job == PruneOrphan then Done else Failed(if parses then Active else Malformed)
  }

  predicate Recovers(job: Job) {
    job == Acquire || job == Retry || job == Prune
  }

  lemma ProbesAlone(w: World, act: Act)
    requires act in w.activities && w.activities[act].pc == Read && Recovers(w.activities[act].job) && w.file.Some?
    ensures var after := Solo(w, act, 5);
            var a := w.activities[act];
            Over(after, act) &&
            if Parses(w, a.branch) && w.file.value.content.pid !in w.alive
            then after.activities[act].pc == (if a.job == Acquire then Acquired else Done) && after.file == Successor(a, act)
            else Refused(a, Parses(w, a.branch), after.activities[act].pc) && after.file == w.file
  {
    hide Advance, Solo, Step, Parses;
    var a := w.activities[act];
    var w1 := Solo(w, act, 1);
    SoloOne(w, act);
    SoloSplits(w, act, 1, 4);
    ReadsAlone(w, act);
    if !Parses(w, a.branch) {
      OverStays(w1, act, 4);
    } else {
      var w2 := Solo(w1, act, 1);
      SoloOne(w1, act);
      SoloSplits(w1, act, 1, 3);
      ParsesStill(w, w1, a.branch);
      DecidesAlone(w1, act);
      if w.file.value.content.pid !in w.alive {
        RemovesAlone(w2, act);
      } else if a.job == Prune {
        OverStays(w2, act, 3);
      } else {
        SoloSplits(w2, act, 1, 2);
        SoloOne(w2, act);
        OverStays(Solo(w2, act, 1), act, 2);
      }
    }
  }

  lemma ParsesStill(w: World, w1: World, branch: string)
    requires w1.file == w.file
    ensures Parses(w1, branch) == Parses(w, branch) && (Parses(w, branch) ==> w.file.Some? && w.file.value.content.Lease?)
  {
  }

  lemma ReadsAlone(w: World, act: Act)
    requires act in w.activities && w.activities[act].pc == Read && Recovers(w.activities[act].job) && w.file.Some?
    ensures var a := w.activities[act];
            && (Parses(w, a.branch) ==> StepsTo(w, act, Probe(w.file.value.maker, w.file.value.content.pid), w.file))
            && (!Parses(w, a.branch) ==> StepsTo(w, act, if a.job == Prune then Done else Failed(Malformed), w.file))
  {
  }

  /** An active owner is read once more for the error; a dead one is removed. */
  lemma DecidesAlone(w: World, act: Act)
    requires act in w.activities && w.activities[act].pc.Probe? && Recovers(w.activities[act].job)
    requires Parses(w, w.activities[act].branch)
    ensures var a := w.activities[act];
            var alive := a.pc.pid in w.alive;
            var w' := Step(w, Go(act, false));
            && (!alive ==> StepsTo(w, act, Remove(DeadOwner(a.pc.seen, a.pc.pid)), w.file))
            && (alive && a.job == Prune ==> StepsTo(w, act, Done, w.file))
            && (alive && a.job != Prune ==> StepsTo(w, act, ReadAgain, w.file) && StepsTo(w', act, Failed(Active), w.file))
  {
  }

  /** Whether the activity takes the lease that is there off its path. */
  predicate Takes(w: World, a: Activity) {
    match a.job
    case Release => true
    case PruneOrphan => !w.directory
    case _ => Free(w, a.branch)
  }

  /** How an undisturbed activity ends. */
  ghost predicate EndsAlone(w: World, act: Act, after: World)
    requires act in w.activities
  {
    var a := w.activities[act];
    && Over(after, act)
    && if Takes(w, a)
       then after.activities[act].pc == (if a.job == Acquire then Acquired else Done) && after.file == Successor(a, act)
       else Refused(a, Parses(w, a.branch), after.activities[act].pc) && after.file == w.file
  }

  /**
   * Undisturbed, every activity is over after at most seven steps. A release always takes the lease
   * away, an orphan prune exactly if the directory is missing, the others exactly if the lease is
   * free; an acquisition then holds its own. Otherwise the file is left alone, and only the prune
   * loops do not report why.
   */
  lemma AloneTakesIffFree(w: World, act: Act)
    requires act in w.activities && w.activities[act].pc == FirstPc(w.activities[act].job)
    ensures EndsAlone(w, act, Solo(w, act, 7))
  {
    hide Advance, Solo, Step, EndsAlone;
    match w.activities[act].job
    case Release => ReleasesAlone(w, act);
    case PruneOrphan => PrunesAlone(w, act);
    case _ => RecoversAlone(w, act);
  }

  lemma ReleasesAlone(w: World, act: Act)
    requires act in w.activities && w.activities[act].job == Release && w.activities[act].pc.Remove?
    ensures EndsAlone(w, act, Solo(w, act, 7))
  {
    hide Advance, Solo, Step, Parses;
    SoloSplits(w, act, 3, 4);
    RemovesAlone(w, act);
    OverStays(Solo(w, act, 3), act, 4);
  }

  lemma PrunesAlone(w: World, act: Act)
    requires act in w.activities && w.activities[act].job == PruneOrphan && w.activities[act].pc == Stat
    ensures EndsAlone(w, act, Solo(w, act, 7))
  {
    hide Advance, Solo, Step, Parses;
    var w1 := Solo(w, act, 1);
    SoloOne(w, act);
    SoloSplits(w, act, 1, 6);
    StatsAlone(w, act);
    if w.directory {
      OverStays(w1, act, 6);
    } else {
      SoloSplits(w1, act, 3, 3);
      RemovesAlone(w1, act);
      OverStays(Solo(w1, act, 3), act, 3);
    }
  }

  lemma StatsAlone(w: World, act: Act)
    requires act in w.activities && w.activities[act].job == PruneOrphan && w.activities[act].pc == Stat
    ensures StepsTo(w, act, if w.directory then Done else Remove(NoDirectory), w.file)
  {
  }

  lemma RecoversAlone(w: World, act: Act)
    requires act in w.activities && Recovers(w.activities[act].job) && w.activities[act].pc == Exists
    ensures EndsAlone(w, act, Solo(w, act, 7))
  {
    hide Advance, Solo, Step, EndsAlone;
    if w.file.None? {
      FindsNothing(w, act);
    } else {
      FindsLease(w, act);
    }
  }

  lemma FindsNothing(w: World, act: Act)
    requires act in w.activities && Recovers(w.activities[act].job) && w.activities[act].pc == Exists && w.file.None?
    ensures EndsAlone(w, act, Solo(w, act, 7))
  {
    hide Advance, Solo, Step, Parses;
    var w1 := Solo(w, act, 1);
    SoloOne(w, act);
    SoloSplits(w, act, 1, 6);
    LooksAlone(w, act);
    if w.activities[act].job == Acquire {
      CreatesAlone(w1, act);
      SoloSplits(w1, act, 2, 4);
      OverStays(Solo(w1, act, 2), act, 4);
    } else {
      OverStays(w1, act, 6);
    }
  }

  lemma FindsLease(w: World, act: Act)
    requires act in w.activities && Recovers(w.activities[act].job) && w.activities[act].pc == Exists && w.file.Some?
    ensures EndsAlone(w, act, Solo(w, act, 7))
  {
    hide Advance, Solo, Step, Parses;
    var w1 := Solo(w, act, 1);
    SoloOne(w, act);
    SoloSplits(w, act, 1, 6);
    LooksAlone(w, act);
    var w2 := Solo(w1, act, 1);
    SoloOne(w1, act);
    SoloSplits(w1, act, 1, 5);
    if !w.directory {
      RemovesAlone(w2, act);
      SoloSplits(w2, act, 3, 2);
      OverStays(Solo(w2, act, 3), act, 2);
    } else {
      ParsesStill(w, w2, w.activities[act].branch);
      ProbesAlone(w2, act);
    }
  }

  lemma LooksAlone(w: World, act: Act)
    requires act in w.activities && Recovers(w.activities[act].job) && w.activities[act].pc == Exists
    ensures var w' := Step(w, Go(act, false));
            && (w.file.None? ==> StepsTo(w, act, if w.activities[act].job == Acquire then Create else Done, None))
            && (w.file.Some? ==> StepsTo(w, act, Stat, w.file)
                                 && StepsTo(w', act, if w.directory then Read else Remove(NoDirectory), w.file))
  {
  }

  /**
   * An acquisition that loses the race for creating the file leaves it alone. The first time it starts
   * over, and whatever the others have done by then, it ends as if it had only begun; the second time
   * it gives up.
   */
  lemma LostRaceStartsOver(w: World, act: Act, later: World)
    requires act in w.activities && w.activities[act].job == Acquire && w.activities[act].pc == Create && w.file.Some?
    requires act in later.activities && later.activities[act] == Step(w, Go(act, false)).activities[act]
    ensures Step(w, Go(act, false)).file == w.file
    ensures if w.activities[act].attempts == 0 then EndsAlone(later, act, Solo(later, act, 7))
            else later.activities[act].pc == Failed(AlreadyExists)
  {
    hide Solo;
    assert w.activities[act].attempts == 0 ==> later.activities[act].pc == Exists && later.activities[act].job == Acquire;
    if w.activities[act].attempts == 0 {
      RecoversAlone(later, act);
    }
  }

  /**
   * A call that the operating system refuses leaves the path as it is. A refused look at the directory
   * counts as a missing one and a refused read as a malformed lease, whatever is really there; every
   * other refusal ends the activity.
   */
  lemma RefusedCall(w: World, act: Act)
    requires act in w.activities
    ensures var w' := Step(w, Go(act, true));
            var a := w.activities[act];
            && w'.file == w.file && act in w'.activities
            && (a.pc.Stat? ==> w'.activities[act].pc == Remove(NoDirectory))
            && (a.pc.Read? ==> w'.activities[act].pc == if a.job == Prune then Done else Failed(Malformed))
            && (a.pc.ReadAgain? ==> w'.activities[act].pc == Failed(Malformed))
            && (a.pc.Exists? || a.pc.Remove? || a.pc.Create? || a.pc.Write? ==> w'.activities[act].pc == Failed(Io))
  {
  }

  lemma FailedStays(w: World, action: Action, act: Act)
    requires act in w.activities && w.activities[act].pc.Failed?
    ensures act in Step(w, action).activities && Step(w, action).activities[act] == w.activities[act]
  {
  }

  /**
   * In every interleaving, an activity that has a call refused changes nothing by it and has failed from
   * then on, unless it was the look at the directory, a probe, or the read of a prune loop.
   */
  lemma {:induction false} RefusalIsFinal(w: World, actions: seq<Action>, k: nat, act: Act)
    requires k < |actions| && actions[k] == Go(act, true)
    requires var before := Run(w, actions[..k]);
             && act in before.activities && !Over(before, act)
             && var a := before.activities[act]; !a.pc.Stat? && !a.pc.Probe? && (a.pc.Read? ==> a.job != Prune)
    ensures Run(w, actions[..k + 1]).file == Run(w, actions[..k]).file
    ensures act in Run(w, actions).activities && Run(w, actions).activities[act].pc.Failed?
  {
    hide Step, Over;
    var n := |actions| - 1;
    var next := actions[..k + 1];
    assert next[..k] == actions[..k] && next[k] == actions[k];
    var before := Run(w, actions[..k]);
    RefusedCall(before, act);
    NotOver(before, act);
    if k < n {
      assert actions[..n][..k] == actions[..k];
      RefusalIsFinal(w, actions[..n], k, act);
      FailedStays(Run(w, actions[..n]), actions[n], act);
    } else {
      assert next == actions;
    }
  }

  lemma NotOver(w: World, act: Act)
    requires act in w.activities && !Over(w, act)
    ensures var pc := w.activities[act].pc; !pc.Acquired? && !pc.Done? && !pc.Failed?
  {
  }

  // ----- When live owners exclude each other

  /** Nobody dies, the directory does not go away, no call fails, and nobody releases. */
  predicate Undisturbed(action: Action) {
    match action
    case Begin(_, _, _, job) => job != Release
    case Go(_, fails) => !fails
    case SetDirectory(present) => present
    case Spawn(_) => true
    case Die(_) => false
  }

  /** Undisturbed, and every activity belongs to a process that was alive from the start. */
  predicate Calm(alive: set<Pid>, actions: seq<Action>) {
    forall action :: action in actions ==> Undisturbed(action) && (action.Begin? ==> action.pid in alive)
  }

  predicate Holds(w: World, act: Act) {
    act in w.activities && w.activities[act].pc == Acquired
  }

  ghost predicate AtMostOneHolder(w: World) {
    forall a, b :: Holds(w, a) && Holds(w, b) ==> a == b
  }

  /** In no calm run do two activities acquire the lease. */
  ghost predicate Excludes(w: World) {
    forall actions: seq<Action> :: Calm(w.alive, actions) ==> AtMostOneHolder(Run(w, actions))
  }

  /** The worktree directory is there, and a readable lease has a living owner. */
  predicate NothingToRecover(w: World) {
    w.directory && (w.file.Some? && w.file.value.content.Lease? ==> w.file.value.content.pid in w.alive)
  }

  /** Nobody came near a removal. */
  ghost predicate Untouched(alive: set<Pid>, w: World) {
    && NothingToRecover(w) && alive <= w.alive
    && (forall a :: a in w.activities ==>
          && w.activities[a].pid in alive
          && !w.activities[a].pc.Remove?
          && (w.activities[a].pc.Probe? ==> w.activities[a].pc.pid in w.alive))
    && (forall n :: 0 <= n < |w.log| ==> !w.log[n].Removed?)
  }

  lemma AdvanceUntouched(alive: set<Pid>, w: World, act: Act)
    requires Untouched(alive, w) && act in w.activities
    ensures Untouched(alive, Advance(w, act, false))
  {
    assert w.activities[act].pid in alive;
    match w.activities[act].pc
    case Create =>
    case Write =>
    case Stat =>
    case Read =>
    case Probe(_, _) =>
    case _ =>
  }

  lemma {:induction false} CalmUntouched(w: World, actions: seq<Action>)
    requires Initial(w) && NothingToRecover(w) && Calm(w.alive, actions)
    ensures Untouched(w.alive, Run(w, actions))
  {
    hide Advance;
    if actions != [] {
      var earlier, last := actions[..|actions| - 1], actions[|actions| - 1];
      CalmUntouched(w, earlier);
      assert last in actions;
      if last.Go? && last.act in Run(w, earlier).activities {
        AdvanceUntouched(w.alive, Run(w, earlier), last.act);
      }
    }
  }

  lemma NothingToRecoverExcludes(w: World, actions: seq<Action>)
    requires Initial(w) && NothingToRecover(w) && Calm(w.alive, actions)
    ensures AtMostOneHolder(Run(w, actions))
  {
    hide Run, NothingToRecover;
    var after := Run(w, actions);
    CalmUntouched(w, actions);
    NoRemovalNoSeparation(after.log);
    forall a, b | Holds(after, a) && Holds(after, b)
      ensures a == b
    {
      if a != b {
        AcquisitionsAreExclusive(w, actions, a, b);
        assert false;
      }
    }
  }

  lemma NoRemovalNoSeparation(log: seq<Event>)
    requires forall n :: 0 <= n < |log| ==> !log[n].Removed?
    ensures forall i, j :: !Separated(log, i, j)
  {
  }

  lemma {:induction false} SoloIsRun(w: World, act: Act, n: nat) returns (actions: seq<Action>)
    ensures Run(w, actions) == Solo(w, act, n) && forall action :: action in actions ==> action == Go(act, false)
  {
    if n == 0 {
      actions := [];
    } else {
      var before := SoloIsRun(w, act, n - 1);
      RunOne(w, before, Go(act, false));
      actions := before + [Go(act, false)];
    }
  }

  /** A step changes no other activity, neither the context nor who the activity is. */
  ghost predicate Local(w: World, act: Act, w': World) {
    && act in w.activities && w'.activities.Keys == w.activities.Keys
    && (forall other :: other in w.activities && other != act ==> w'.activities[other] == w.activities[other])
    && w'.activities[act].pid == w.activities[act].pid && w'.activities[act].branch == w.activities[act].branch
    && w'.directory == w.directory && w'.alive == w.alive
  }

  lemma AdvanceLocal(w: World, act: Act, fails: bool)
    requires act in w.activities
    ensures Local(w, act, Advance(w, act, fails))
  {
    match w.activities[act].pc
    case Create =>
    case Remove(_) =>
    case Write =>
    case _ =>
  }

  lemma {:induction false} SoloLocal(w: World, act: Act, n: nat)
    requires act in w.activities
    ensures Local(w, act, Solo(w, act, n))
  {
    hide Advance;
    if n > 0 {
      SoloLocal(w, act, n - 1);
      AdvanceLocal(Solo(w, act, n - 1), act, false);
    }
  }

  function BeginTwo(p: Pid, q: Pid, branch: string): seq<Action> {
    [Begin(1, p, branch, Acquire), Begin(2, q, branch, Acquire)]
  }

  lemma BegunTwo(w: World, p: Pid, q: Pid, branch: string)
    requires w.activities == map[]
    ensures Run(w, BeginTwo(p, q, branch)) ==
      w.(activities := map[1 := Activity(p, branch, Acquire, Exists, 0), 2 := Activity(q, branch, Acquire, Exists, 0)])
  {
    hide Run;
    var begin := BeginTwo(p, q, branch);
    RunNone(w);
    RunOne(w, [], begin[0]);
    RunOne(w, [begin[0]], begin[1]);
    assert [] + [begin[0]] == [begin[0]] && [begin[0]] + [begin[1]] == begin;
  }

  /** What shows that exclusion fails: both activities hold the lease and nothing was disturbed. */
  ghost predicate BothHold(w: World, actions: seq<Action>, p: Pid, q: Pid, branch: string) {
    var after := Run(w, actions);
    && Calm({p, q}, actions)
    && {1, 2} <= after.activities.Keys
    && after.activities[1].pid == p && after.activities[1].branch == branch && after.activities[1].pc == Acquired
    && after.activities[2].pid == q && after.activities[2].branch == branch && after.activities[2].pc == Acquired
    && after.alive == w.alive && after.directory == w.directory
  }

  /** Without the directory, one acquisition after the other succeeds. */
  lemma MissingDirectoryIsNoHindrance(w: World, p: Pid, q: Pid, branch: string) returns (actions: seq<Action>)
    requires Initial(w) && !w.directory
    ensures BothHold(w, actions, p, q, branch)
  {
    hide Run, Solo, Step;
    var begin := BeginTwo(p, q, branch);
    BegunTwo(w, p, q, branch);
    var w1 := Run(w, begin);
    var first := SoloIsRun(w1, 1, 7);
    AloneTakesIffFree(w1, 1);
    SoloLocal(w1, 1, 7);
    var w2 := Solo(w1, 1, 7);
    var second := SoloIsRun(w2, 2, 7);
    AloneTakesIffFree(w2, 2);
    SoloLocal(w2, 2, 7);
    RunOn(w, begin, first);
    RunOn(w, begin + first, second);
    actions := begin + first + second;
  }

  /**
   * Exclusion among live owners is not guaranteed: two acquisitions that both find the lease of a
   * dead owner can both succeed, the slower one removing the lease of the faster one.
   */
  lemma LiveLeaseCanBeLost(w: World, p: Pid, q: Pid) returns (actions: seq<Action>)
    requires Initial(w) && w.directory
    requires w.file.Some? && w.file.value.content.Lease? && w.file.value.content.pid !in w.alive
    ensures BothHold(w, actions, p, q, w.file.value.content.branch)
  {
    hide Advance, Run;
    var branch := w.file.value.content.branch;
    var begin := BeginTwo(p, q, branch);
    var g1, g2 := Go(1, false), Go(2, false);
    BegunTwo(w, p, q, branch);
    var w1 := Run(w, begin);
    FindsDeadOwner(w1, 1);
    var w2 := Run(w1, [g1, g1, g1, g1]);
    FindsDeadOwner(w2, 2);
    var w3 := Run(w2, [g2, g2, g2, g2]);
    TakesOver(w3, 2);
    var w4 := Run(w3, [g2, g2, g2]);
    TakesOver(w4, 1);
    RunOn(w, begin, [g1, g1, g1, g1]);
    RunOn(w, begin + [g1, g1, g1, g1], [g2, g2, g2, g2]);
    RunOn(w, begin + [g1, g1, g1, g1] + [g2, g2, g2, g2], [g2, g2, g2]);
    RunOn(w, begin + [g1, g1, g1, g1] + [g2, g2, g2, g2] + [g2, g2, g2], [g1, g1, g1]);
    actions := begin + [g1, g1, g1, g1] + [g2, g2, g2, g2] + [g2, g2, g2] + [g1, g1, g1];
  }

  /**
   * Exactly when live owners exclude each other: from a path where the worktree directory exists and
   * no dead owner's lease is left, no interleaving of acquisitions, retries and prunes lets two
   * acquire; from any other, some interleaving does.
   */
  lemma ExcludesIffNothingToRecover(w: World)
    requires Initial(w) && w.alive != {}
    ensures Excludes(w) <==> NothingToRecover(w)
  {
    hide Run, AtMostOneHolder, Calm;
    if NothingToRecover(w) {
      forall actions: seq<Action> | Calm(w.alive, actions)
        ensures AtMostOneHolder(Run(w, actions))
      {
        NothingToRecoverExcludes(w, actions);
      }
    } else {
      var p :| p in w.alive;
      var actions;
      var branch := if w.directory then w.file.value.content.branch else "";
      if w.directory {
        actions := LiveLeaseCanBeLost(w, p, p);
      } else {
        actions := MissingDirectoryIsNoHindrance(w, p, p, branch);
      }
      BothHoldBreaks(w, actions, p, branch);
    }
  }

  lemma BothHoldBreaks(w: World, actions: seq<Action>, p: Pid, branch: string)
    requires p in w.alive && BothHold(w, actions, p, p, branch)
    ensures Calm(w.alive, actions) && !AtMostOneHolder(Run(w, actions))
  {
    hide Run;
    assert Holds(Run(w, actions), 1) && Holds(Run(w, actions), 2);
  }
}
