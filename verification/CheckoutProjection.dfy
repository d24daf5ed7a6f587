/** The checkout outbox: items replayed against host branches until these contain them. */
module CheckoutProjection {
  // The user and the machine act between any two steps of the Hub: at every point where the code
  // reads or writes a branch or an item file, `Env` may first move branches or kill the process.
  // A run is a history of enqueues and syncs under one `Env`; all statements hold for every `Env`.

  import opened Common
  import opened CommitGraph

  type Ref = string
  type Branches = map<Ref, Commit>

  datatype Reason =
    | StagedChanges | UnstagedChanges | UntrackedPaths | RenameOrDelete | OperationInProgress
    | SparseCheckout | Submodule | MultipleWorktrees | BranchDiverged

  datatype Status = Pending(reason: Option<Reason>) | Succeeded(projected: Commit)

  /** Outbox ids hash exactly these three values. */
  datatype ItemId = ItemId(transactionId: string, branch: Ref, candidate: Commit)

  datatype Item = Item(id: ItemId, taskId: string, expected: Commit, status: Status)

  /** User worktrees that have the host branch checked out, and why a single owner is unsafe to touch. */
  datatype Owners = NoOwner | OneOwner(unsafe: Option<Reason>) | ManyOwners

  /** Whether the git command does its work; one that fails may have moved the branch before it failed. */
  datatype GitCommand = Works | FailsAtOnce | FailsAfterMoving

  datatype Env = Env(
    user: (nat, Branches) -> Branches,
    crash: nat -> bool,
    owners: (nat, ItemId) -> Owners,
    command: nat -> GitCommand,
    laterReason: nat -> Option<Reason>)   // what the owner's worktree shows after a failed fast-forward

  datatype Event =
    | UserMoved(before: Branches, after: Branches)
    | Observed(branch: Ref, at: Option<Commit>)
    | HubMoved(branch: Ref, from: Commit, to: Commit)
    | Marked(id: ItemId, status: Status, at: Option<Commit>)

  datatype World = World(clock: nat, items: seq<Item>, branches: Branches, crashed: bool, log: seq<Event>)

  function At(branches: Branches, branch: Ref): Option<Commit> {
    if branch in branches then Some(branches[branch]) else None
  }

  /** The host branch contains the candidate. */
  predicate Contains(at: Option<Commit>, candidate: Commit) {
    at.Some? && IsAncestor(candidate, at.value)
  }

  predicate FastForwards(at: Option<Commit>, candidate: Commit) {
    at.Some? && IsAncestor(at.value, candidate)
  }

  ghost predicate DistinctItems(items: seq<Item>) {
    forall i, j :: 0 <= i < j < |items| ==> items[i].id != items[j].id
  }

  function Find(items: seq<Item>, id: ItemId): Option<Item> {
    if items == [] then None
    else if items[0].id == id then Some(items[0])
    else Find(items[1..], id)
  }

  /** Writing an item file replaces the item with the same id. */
  function Replace(items: seq<Item>, item: Item): seq<Item> {
    if items == [] then []
    else [if items[0].id == item.id then item else items[0]] + Replace(items[1..], item)
  }

  // ----- Steps

  /** The rest of the world takes its turn: it may kill the Hub, or move branches. */
  function Yield(env: Env, w: World): World {
    if w.crashed then w
    else if env.crash(w.clock) then w.(clock := w.clock + 1, crashed := true)
    else
      var moved := env.user(w.clock, w.branches);
      w.(clock := w.clock + 1, branches := moved, log := w.log + [UserMoved(w.branches, moved)])
  }

  function Observe(w: World, branch: Ref): World {
    if w.crashed then w else w.(log := w.log + [Observed(branch, At(w.branches, branch))])
  }

  function Mark(env: Env, w: World, item: Item, status: Status): World {
    var w' := Yield(env, w);
    if w'.crashed then w'
    else
      w'.(items := Replace(w'.items, item.(status := status)),
          log := w'.log + [Marked(item.id, status, At(w'.branches, item.id.branch))])
  }

  datatype Plan = AlreadyThere(at: Commit) | Hold(reason: Reason) | CompareAndSwap(current: Commit) | FastForward

  /** What to do about a pending item after reading its branch. */
  function Decide(env: Env, clock: nat, id: ItemId, at: Option<Commit>): Plan {
    if Contains(at, id.candidate) then AlreadyThere(at.value)
    else if !FastForwards(at, id.candidate) then Hold(BranchDiverged)
    else
      match env.owners(clock, id)
      case ManyOwners => Hold(MultipleWorktrees)
      case NoOwner => CompareAndSwap(at.value)
      case OneOwner(Some(reason)) => Hold(reason)
      case OneOwner(None) => FastForward
  }

  /** `update-ref` with an expected value, or `merge --ff-only` in the owning worktree. */
  function Mutate(env: Env, w: World, id: ItemId, plan: Plan): (World, bool)
    requires plan.CompareAndSwap? || plan.FastForward?
  {
    var w' := Yield(env, w);
    var at := At(w'.branches, id.branch);
    var command := env.command(w'.clock);
    if w'.crashed || command == FailsAtOnce || at.None? then (w', false)
    else if plan.CompareAndSwap? then
      if at == Some(plan.current) then (MoveTo(w', id, at.value), command == Works) else (w', false)
    else if FastForwards(at, id.candidate) then (MoveTo(w', id, at.value), command == Works)
    else if Contains(at, id.candidate) then (Observe(w', id.branch), command == Works)
    else (w', false)
  }

  function MoveTo(w: World, id: ItemId, from: Commit): World {
    w.(branches := w.branches[id.branch := id.candidate],
       log := w.log + [HubMoved(id.branch, from, id.candidate)])
  }

  function FailureReason(env: Env, clock: nat, plan: Plan, id: ItemId, observed: Option<Commit>): Reason {
    if plan.FastForward? then
      if env.laterReason(clock).Some? then env.laterReason(clock).value else OperationInProgress
    else if observed.Some? && !FastForwards(observed, id.candidate) then BranchDiverged
    else OperationInProgress
  }

  function Advance(env: Env, w: World, item: Item, plan: Plan): World
    requires plan.CompareAndSwap? || plan.FastForward?
  {
    var (mutated, done) := Mutate(env, w, item.id, plan);
    if done then Mark(env, mutated, item, Succeeded(item.id.candidate))
    else
      var w' := Yield(env, mutated);
      var observed := At(w'.branches, item.id.branch);
      var seen := Observe(w', item.id.branch);
      if Contains(observed, item.id.candidate) then Mark(env, seen, item, Succeeded(observed.value))
      else Mark(env, seen, item, Pending(Some(FailureReason(env, w'.clock, plan, item.id, observed))))
  }

  function ProjectOne(env: Env, w: World, item: Item): World {
    if item.status.Succeeded? || w.crashed then w
    else
      var w' := Yield(env, w);
      var at := At(w'.branches, item.id.branch);
      var seen := Observe(w', item.id.branch);
      match Decide(env, w'.clock, item.id, at)
      case AlreadyThere(oid) => Mark(env, seen, item, Succeeded(oid))
      case Hold(reason) => Mark(env, seen, item, Pending(Some(reason)))
      case plan => Advance(env, seen, item, plan)
  }

  /** One pass over the items as they were listed when it began, from position `k` on. */
  function Project(env: Env, w: World, listed: seq<Item>, k: nat): World
    requires k <= |listed|
    decreases |listed| - k
  {
    if k == |listed| || w.crashed then w
    else Project(env, ProjectOne(env, w, listed[k]), listed, k + 1)
  }

  function Pass(env: Env, w: World): World {
    var start := w.(crashed := false);
    Project(env, start, start.items, 0)
  }

  function Enqueue(w: World, id: ItemId, taskId: string): World {
    if Find(w.items, id).Some? then w
    else
      var at := At(w.branches, id.branch);
      var expected := if at.Some? then at.value else id.candidate;
      w.(items := w.items + [Item(id, taskId, expected, Pending(None))])
  }

  /** Attempts worth an event: still pending, or not yet succeeded before this sync. */
  function Deltas(before: seq<Item>, attempts: seq<Item>): seq<Item> {
    if attempts == [] then []
    else
      var last := attempts[|attempts| - 1];
      var prior := Find(before, last.id);
      Deltas(before, attempts[..|attempts| - 1])
      + if last.status.Pending? || prior.None? || prior.value.status.Pending? then [last] else []
  }

  /** A crashed sync reports nothing. */
  function SyncDeltas(env: Env, w: World): seq<Item> {
    var after := Pass(env, w);
    if after.crashed then [] else Deltas(w.items, after.items)
  }

  datatype Op = EnqueueOp(id: ItemId, taskId: string) | SyncOp

  function Apply(env: Env, w: World, op: Op): (World, seq<Item>) {
    match op
    case EnqueueOp(id, taskId) => (Enqueue(w, id, taskId), [])
    case SyncOp => (Pass(env, w), SyncDeltas(env, w))
  }

  /** The world after a history, and everything its syncs reported. */
  function History(env: Env, w: World, ops: seq<Op>): (World, seq<Item>) {
    if ops == [] then (w, [])
    else
      var (before, reported) := History(env, w, ops[..|ops| - 1]);
      var (after, deltas) := Apply(env, before, ops[|ops| - 1]);
      (after, reported + deltas)
  }

  // ----- Safety under every interleaving

  /** The Hub's own last action, the user's moves aside. */
  ghost function LastHub(log: seq<Event>): Option<Event> {
    if log == [] then None
    else
      var last := log[|log| - 1];
      if last.UserMoved? then LastHub(log[..|log| - 1]) else Some(last)
  }

  /** An observation of, or a move to, a commit that contains the candidate. */
  ghost predicate Evidence(e: Option<Event>, id: ItemId) {
    e.Some? &&
    match e.value
    case Observed(branch, at) => branch == id.branch && Contains(at, id.candidate)
    case HubMoved(branch, _, to) => branch == id.branch && IsAncestor(id.candidate, to)
    case _ => false
  }

  /** `forward`: the user only ever moves branches to descendants. */
  ghost predicate EventGood(forward: bool, log: seq<Event>, n: nat)
    requires n < |log|
  {
    match log[n]
    case HubMoved(_, from, to) => IsAncestor(from, to)
    case Marked(id, Succeeded(_), at) => Evidence(LastHub(log[..n]), id) && (forward ==> Contains(at, id.candidate))
    case _ => true
  }

  /** Branches still contain what the Hub last saw or put there. */
  ghost predicate Linked(w: World) {
    match LastHub(w.log)
    case Some(Observed(branch, Some(v))) => Contains(At(w.branches, branch), v)
    case Some(HubMoved(branch, _, to)) => Contains(At(w.branches, branch), to)
    case _ => true
  }

  ghost predicate Good(forward: bool, w: World) {
    && (forall n :: 0 <= n < |w.log| ==> EventGood(forward, w.log, n))
    && (forward ==> Linked(w))
  }

  ghost predicate Forward(from: Option<Commit>, to: Option<Commit>) {
    from.Some? ==> Contains(to, from.value)
  }

  ghost predicate ForwardUser(env: Env) {
    forall n, b, r :: Forward(At(b, r), At(env.user(n, b), r))
  }

  lemma AppendGood(forward: bool, log: seq<Event>, e: Event)
    requires forall n :: 0 <= n < |log| ==> EventGood(forward, log, n)
    requires EventGood(forward, log + [e], |log|)
    ensures forall n :: 0 <= n < |log + [e]| ==> EventGood(forward, log + [e], n)
    ensures LastHub(log + [e]) == if e.UserMoved? then LastHub(log) else Some(e)
  {
    forall n | 0 <= n < |log|
      ensures EventGood(forward, log + [e], n)
    {
      assert EventGood(forward, log, n);
      assert (log + [e])[..n] == log[..n];
    }
    assert (log + [e])[..|log|] == log;
  }

  lemma YieldGood(forward: bool, env: Env, w: World)
    requires Good(forward, w) && (forward ==> ForwardUser(env))
    ensures Good(forward, Yield(env, w))
    ensures LastHub(Yield(env, w).log) == LastHub(w.log)
  {
    var moved := env.user(w.clock, w.branches);
    AppendGood(forward, w.log, UserMoved(w.branches, moved));
    if forward {
      match LastHub(w.log)
      case Some(Observed(branch, Some(v))) => StaysContained(env, w.clock, w.branches, branch, v);
      case Some(HubMoved(branch, _, to)) => StaysContained(env, w.clock, w.branches, branch, to);
      case _ =>
    }
  }

  lemma StaysContained(env: Env, clock: nat, branches: Branches, branch: Ref, v: Commit)
    requires ForwardUser(env) && Contains(At(branches, branch), v)
    ensures Contains(At(env.user(clock, branches), branch), v)
  {
    assert Forward(At(branches, branch), At(env.user(clock, branches), branch));
    AncestorTrans(v, At(branches, branch).value, At(env.user(clock, branches), branch).value);
  }

  lemma ObserveGood(forward: bool, w: World, branch: Ref)
    requires Good(forward, w)
    ensures Good(forward, Observe(w, branch))
    ensures w.crashed || LastHub(Observe(w, branch).log) == Some(Observed(branch, At(w.branches, branch)))
  {
    AppendGood(forward, w.log, Observed(branch, At(w.branches, branch)));
  }

  lemma MoveGood(forward: bool, w: World, id: ItemId, from: Commit)
    requires Good(forward, w) && IsAncestor(from, id.candidate)
    ensures Good(forward, MoveTo(w, id, from)) && Evidence(LastHub(MoveTo(w, id, from).log), id)
  {
    AppendGood(forward, w.log, HubMoved(id.branch, from, id.candidate));
  }

  lemma MarkGood(forward: bool, env: Env, w: World, item: Item, status: Status)
    requires Good(forward, w) && (forward ==> ForwardUser(env))
    requires status.Succeeded? && !w.crashed ==> Evidence(LastHub(w.log), item.id)
    ensures Good(forward, Mark(env, w, item, status))
  {
    YieldGood(forward, env, w);
    var w' := Yield(env, w);
    if !w'.crashed {
      var e := Marked(item.id, status, At(w'.branches, item.id.branch));
      assert (w'.log + [e])[..|w'.log|] == w'.log;
      if forward && status.Succeeded? {
        match LastHub(w'.log).value
        case Observed(branch, at) => AncestorTrans(item.id.candidate, at.value, At(w'.branches, branch).value);
        case HubMoved(branch, _, to) => AncestorTrans(item.id.candidate, to, At(w'.branches, branch).value);
      }
      AppendGood(forward, w'.log, e);
    }
  }

  lemma MutateGood(forward: bool, env: Env, w: World, id: ItemId, plan: Plan)
    requires plan.CompareAndSwap? || plan.FastForward?
    requires plan.CompareAndSwap? ==> IsAncestor(plan.current, id.candidate)
    requires Good(forward, w) && (forward ==> ForwardUser(env))
    ensures var (mutated, done) := Mutate(env, w, id, plan);
            Good(forward, mutated) && (done ==> Evidence(LastHub(mutated.log), id))
  {
    hide Good;
    YieldGood(forward, env, w);
    var w' := Yield(env, w);
    var at := At(w'.branches, id.branch);
    if at.Some? && IsAncestor(at.value, id.candidate) {
      MoveGood(forward, w', id, at.value);
    }
    ObserveGood(forward, w', id.branch);
  }

  lemma AdvanceGood(forward: bool, env: Env, w: World, item: Item, plan: Plan)
    requires plan.CompareAndSwap? || plan.FastForward?
    requires plan.CompareAndSwap? ==> IsAncestor(plan.current, item.id.candidate)
    requires Good(forward, w) && (forward ==> ForwardUser(env))
    ensures Good(forward, Advance(env, w, item, plan))
  {
    hide Good, Mutate, Mark;
    MutateGood(forward, env, w, item.id, plan);
    var (mutated, done) := Mutate(env, w, item.id, plan);
    if done {
      MarkGood(forward, env, mutated, item, Succeeded(item.id.candidate));
    } else {
      YieldGood(forward, env, mutated);
      var w' := Yield(env, mutated);
      var observed := At(w'.branches, item.id.branch);
      ObserveGood(forward, w', item.id.branch);
      var seen := Observe(w', item.id.branch);
      if Contains(observed, item.id.candidate) {
        MarkGood(forward, env, seen, item, Succeeded(observed.value));
      } else {
        MarkGood(forward, env, seen, item, Pending(Some(FailureReason(env, w'.clock, plan, item.id, observed))));
      }
    }
  }

  lemma ProjectOneGood(forward: bool, env: Env, w: World, item: Item)
    requires Good(forward, w) && (forward ==> ForwardUser(env))
    ensures Good(forward, ProjectOne(env, w, item))
  {
    hide Good, Mark, Advance;
    YieldGood(forward, env, w);
    var w' := Yield(env, w);
    var at := At(w'.branches, item.id.branch);
    ObserveGood(forward, w', item.id.branch);
    var seen := Observe(w', item.id.branch);
    match Decide(env, w'.clock, item.id, at)
    case AlreadyThere(oid) => MarkGood(forward, env, seen, item, Succeeded(oid));
    case Hold(reason) => MarkGood(forward, env, seen, item, Pending(Some(reason)));
    case plan => AdvanceGood(forward, env, seen, item, plan);
  }

  lemma {:induction false} ProjectGood(forward: bool, env: Env, w: World, listed: seq<Item>, k: nat)
    requires k <= |listed| && Good(forward, w) && (forward ==> ForwardUser(env))
    ensures Good(forward, Project(env, w, listed, k))
    decreases |listed| - k
  {
    if k < |listed| && !w.crashed {
      ProjectOneGood(forward, env, w, listed[k]);
      ProjectGood(forward, env, ProjectOne(env, w, listed[k]), listed, k + 1);
    }
  }

  /**
   * In every history: the Hub moves branches only forward, and marks an item succeeded only right
   * after it saw or made the branch contain the candidate. If the user too only moves forward, the
   * branch contains the candidate at the very moment of the mark.
   */
  lemma {:induction false} HistoryGood(forward: bool, env: Env, w: World, ops: seq<Op>)
    requires Good(forward, w) && (forward ==> ForwardUser(env))
    ensures Good(forward, History(env, w, ops).0)
  {
    if ops != [] {
      var before := History(env, w, ops[..|ops| - 1]).0;
      HistoryGood(forward, env, w, ops[..|ops| - 1]);
      if ops[|ops| - 1].SyncOp? {
        var start := before.(crashed := false);
        ProjectGood(forward, env, start, start.items, 0);
      }
    }
  }

  // ----- Which users keep every mark true

  /** What the user may do to one branch in one move. */
  type Discipline = (Option<Commit>, Option<Commit>) -> bool

  ghost predicate Obeys(env: Env, d: Discipline) {
    forall n, b, r :: d(At(b, r), At(env.user(n, b), r))
  }

  ghost predicate MarksContained(log: seq<Event>) {
    forall n :: 0 <= n < |log| && log[n].Marked? && log[n].status.Succeeded? ==>
      Contains(log[n].at, log[n].id.candidate)
  }

  function MoveRef(b: Branches, branch: Ref, from: Option<Commit>, to: Option<Commit>): Branches {
    if At(b, branch) != from then b
    else if to.None? then b - {branch}
    else b[branch := to.value]
  }

  /** A user who takes one branch from one commit to another right before the Hub marks an item. */
  ghost function RewindingUser(from: Option<Commit>, to: Option<Commit>): Env {
    Env((n, b) => if n == 1 then MoveRef(b, "main", from, to) else b,
        n => false, (n, id) => NoOwner, n => Works, n => None)
  }

  lemma RewindBreaksMark(d: Discipline, from: Option<Commit>, to: Option<Commit>)
    requires forall x :: d(x, x)
    requires d(from, to) && !Forward(from, to)
    ensures Obeys(RewindingUser(from, to), d)
    ensures var item := Item(ItemId("t", "main", from.value), "task", from.value, Pending(None));
            !MarksContained(History(RewindingUser(from, to), World(0, [item], map["main" := from.value], false, []), [SyncOp]).0.log)
  {
    var env := RewindingUser(from, to);
    var id := ItemId("t", "main", from.value);
    var item := Item(id, "task", from.value, Pending(None));
    var w := World(0, [item], map["main" := from.value], false, []);
    forall n, b, r
      ensures d(At(b, r), At(env.user(n, b), r))
    {
    }
    var w1 := Yield(env, w);
    assert w1.branches == w.branches;
    var seen := Observe(w1, "main");
    assert Decide(env, w1.clock, id, Some(from.value)) == AlreadyThere(from.value);
    var done := Mark(env, seen, item, Succeeded(from.value));
    assert ProjectOne(env, w, item) == done;
    assert Project(env, w, [item], 0) == Project(env, done, [item], 1) == done;
    assert [SyncOp][..0] == [];
    assert History(env, w, [SyncOp]).0 == done;
    assert done.log[|done.log| - 1] == Marked(id, Succeeded(from.value), to);
  }

  /** Every succeeded item is contained in its branch when it is marked, in every run, exactly if the user never rewinds. */
  lemma ContainedAtMarkIffForward(d: Discipline)
    requires forall x :: d(x, x)
    ensures (forall env: Env, w: World, ops: seq<Op> :: Obeys(env, d) && w.log == [] ==> MarksContained(History(env, w, ops).0.log))
       <==> (forall from, to :: d(from, to) ==> Forward(from, to))
  {
    if forall from, to :: d(from, to) ==> Forward(from, to) {
      forall env: Env, w: World, ops: seq<Op> | Obeys(env, d) && w.log == []
        ensures MarksContained(History(env, w, ops).0.log)
      {
        HistoryGood(true, env, w, ops);
        var log := History(env, w, ops).0.log;
        forall n | 0 <= n < |log| && log[n].Marked? && log[n].status.Succeeded?
          ensures Contains(log[n].at, log[n].id.candidate)
        {
          assert EventGood(true, log, n);
        }
      }
    } else {
      var from, to :| d(from, to) && !Forward(from, to);
      RewindBreaksMark(d, from, to);
    }
  }

  // ----- A succeeded item stays as it is

  lemma {:induction false} FindNone(items: seq<Item>, id: ItemId)
    ensures Find(items, id).None? <==> forall k :: 0 <= k < |items| ==> items[k].id != id
  {
    if items != [] {
      FindNone(items[1..], id);
    }
  }

  lemma {:induction false} FindAt(items: seq<Item>, k: nat)
    requires DistinctItems(items) && k < |items|
    ensures Find(items, items[k].id) == Some(items[k])
  {
    if k > 0 {
      FindAt(items[1..], k - 1);
    }
  }

  lemma {:induction false} ReplaceAt(items: seq<Item>, item: Item, k: nat)
    requires DistinctItems(items) && k < |items| && items[k].id == item.id
    ensures Replace(items, item) == items[k := item]
  {
    if k == 0 {
      ReplaceOther(items[1..], item);
    } else {
      ReplaceAt(items[1..], item, k - 1);
    }
  }

  lemma {:induction false} ReplaceOther(items: seq<Item>, item: Item)
    requires forall k :: 0 <= k < |items| ==> items[k].id != item.id
    ensures Replace(items, item) == items
  {
    if items != [] {
      ReplaceOther(items[1..], item);
    }
  }

  /** `after` has every item of `before` in its place, the succeeded ones unchanged. */
  ghost predicate Kept(before: seq<Item>, after: seq<Item>) {
    && |before| <= |after|
    && forall k :: 0 <= k < |before| ==>
         after[k].id == before[k].id && (before[k].status.Succeeded? ==> after[k] == before[k])
  }

  lemma MarkItems(env: Env, w: World, item: Item, status: Status, k: nat)
    requires DistinctItems(w.items) && k < |w.items| && w.items[k] == item
    ensures var after := Mark(env, w, item, status);
            after.items == if after.crashed then w.items else w.items[k := item.(status := status)]
  {
    ReplaceAt(w.items, item.(status := status), k);
  }

  /** A step changes at most the status of its own, pending item. */
  lemma ProjectOneItems(env: Env, w: World, k: nat)
    requires DistinctItems(w.items) && k < |w.items|
    ensures var after := ProjectOne(env, w, w.items[k]);
            && (exists status :: after.items == w.items[k := w.items[k].(status := status)])
            && (w.items[k].status.Succeeded? ==> after == w)
  {
    hide Mark;
    var item := w.items[k];
    if !item.status.Succeeded? && !w.crashed {
      var w' := Yield(env, w);
      var at := At(w'.branches, item.id.branch);
      var seen := Observe(w', item.id.branch);
      assert w.items == w.items[k := item.(status := item.status)];
      match Decide(env, w'.clock, item.id, at)
      case AlreadyThere(oid) => MarkItems(env, seen, item, Succeeded(oid), k);
      case Hold(reason) => MarkItems(env, seen, item, Pending(Some(reason)), k);
      case plan => AdvanceItems(env, seen, k, plan);
    }
  }

  lemma MutateItems(env: Env, w: World, id: ItemId, plan: Plan)
    requires plan.CompareAndSwap? || plan.FastForward?
    ensures Mutate(env, w, id, plan).0.items == w.items
  {
  }

  lemma AdvanceItems(env: Env, w: World, k: nat, plan: Plan)
    requires plan.CompareAndSwap? || plan.FastForward?
    requires DistinctItems(w.items) && k < |w.items|
    ensures exists status :: Advance(env, w, w.items[k], plan).items == w.items[k := w.items[k].(status := status)]
  {
    hide Mark, Mutate;
    var item := w.items[k];
    assert w.items == w.items[k := item.(status := item.status)];
    MutateItems(env, w, item.id, plan);
    var (mutated, done) := Mutate(env, w, item.id, plan);
    MarkItems(env, mutated, item, Succeeded(item.id.candidate), k);
    var w' := Yield(env, mutated);
    var observed := At(w'.branches, item.id.branch);
    var seen := Observe(w', item.id.branch);
    if Contains(observed, item.id.candidate) {
      MarkItems(env, seen, item, Succeeded(observed.value), k);
    } else {
      MarkItems(env, seen, item, Pending(Some(FailureReason(env, w'.clock, plan, item.id, observed))), k);
    }
  }

  lemma {:induction false} ProjectItems(env: Env, w: World, listed: seq<Item>, k: nat)
    requires k <= |listed| == |w.items| && DistinctItems(w.items)
    requires forall j :: k <= j < |listed| ==> w.items[j] == listed[j]
    ensures var after := Project(env, w, listed, k);
            && DistinctItems(after.items) && |after.items| == |w.items| && Kept(w.items, after.items)
            && forall j :: 0 <= j < k ==> after.items[j] == w.items[j]
    decreases |listed| - k
  {
    if k < |listed| && !w.crashed {
      ProjectOneItems(env, w, k);
      ProjectItems(env, ProjectOne(env, w, listed[k]), listed, k + 1);
    }
  }

  lemma ApplyItems(env: Env, w: World, op: Op)
    requires DistinctItems(w.items)
    ensures var after := Apply(env, w, op).0;
            DistinctItems(after.items) && Kept(w.items, after.items)
  {
    match op
    case EnqueueOp(id, taskId) => FindNone(w.items, id);
    case SyncOp =>
      var start := w.(crashed := false);
      ProjectItems(env, start, start.items, 0);
  }

  /** From any point of a history on, no item disappears and no succeeded item is written again, re-enqueued or not. */
  lemma {:induction false} NeverBackToPending(env: Env, w: World, ops: seq<Op>, i: nat)
    requires DistinctItems(w.items) && i <= |ops|
    ensures DistinctItems(History(env, w, ops).0.items)
    ensures Kept(History(env, w, ops[..i]).0.items, History(env, w, ops).0.items)
    decreases |ops|
  {
    if ops == [] || i == |ops| {
      assert ops[..i] == ops;
      if ops != [] {
        NeverBackToPending(env, w, ops[..|ops| - 1], 0);
        ApplyItems(env, History(env, w, ops[..|ops| - 1]).0, ops[|ops| - 1]);
      }
    } else {
      var earlier := ops[..|ops| - 1];
      NeverBackToPending(env, w, earlier, i);
      assert earlier[..i] == ops[..i];
      ApplyItems(env, History(env, w, earlier).0, ops[|ops| - 1]);
    }
  }

  // ----- Events

  function Succeedings(deltas: seq<Item>, id: ItemId): nat {
    if deltas == [] then 0
    else
      var last := deltas[|deltas| - 1];
      Succeedings(deltas[..|deltas| - 1], id) + if last.id == id && last.status.Succeeded? then 1 else 0
  }

  ghost predicate HasSucceeded(items: seq<Item>, id: ItemId) {
    exists k :: 0 <= k < |items| && items[k].id == id && items[k].status.Succeeded?
  }

  lemma FindSucceeded(items: seq<Item>, id: ItemId)
    requires DistinctItems(items)
    ensures HasSucceeded(items, id) <==> Find(items, id).Some? && Find(items, id).value.status.Succeeded?
  {
    FindNone(items, id);
    if k :| 0 <= k < |items| && items[k].id == id {
      FindAt(items, k);
    }
  }

  lemma {:induction false} SucceedingsConcat(a: seq<Item>, b: seq<Item>, id: ItemId)
    ensures Succeedings(a + b, id) == Succeedings(a, id) + Succeedings(b, id)
    decreases |b|
  {
    if b == [] {
      assert a + b == a;
    } else {
      assert (a + b)[..|a + b| - 1] == a + b[..|b| - 1];
      SucceedingsConcat(a, b[..|b| - 1], id);
    }
  }

  /** A sync reports a success for an item exactly once, in the sync that brought it about. */
  lemma {:induction false} DeltasCount(before: seq<Item>, attempts: seq<Item>, id: ItemId)
    requires DistinctItems(before) && DistinctItems(attempts)
    ensures Succeedings(Deltas(before, attempts), id)
         == if HasSucceeded(attempts, id) && !HasSucceeded(before, id) then 1 else 0
    decreases |attempts|
  {
    hide HasSucceeded, DistinctItems, Find;
    if attempts == [] {
      NoneSucceeded(attempts, id);
    } else {
      var n := |attempts| - 1;
      var init, last := attempts[..n], attempts[n];
      DistinctPrefix(attempts, n);
      DeltasCount(before, init, id);
      FindSucceeded(before, last.id);
      var prior := Find(before, last.id);
      SucceedingsOneMore(Deltas(before, init), last, last.status.Pending? || prior.None? || prior.value.status.Pending?, id);
      assert attempts == init + [last];
      SucceededExtends(init, last, id);
    }
  }

  /** The deltas are the attempts at these positions: those still pending, and those that had not succeeded before. */
  ghost predicate DeltasAt(before: seq<Item>, attempts: seq<Item>, deltas: seq<Item>, at: seq<nat>) {
    && |at| == |deltas|
    && (forall k :: 0 <= k < |at| ==> at[k] < |attempts| && deltas[k] == attempts[at[k]])
    && (forall j, k :: 0 <= j < k < |at| ==> at[j] < at[k])
    && (forall j :: j in at <==> 0 <= j < |attempts| && Reported(before, attempts[j]))
  }

  ghost predicate Reported(before: seq<Item>, attempt: Item) {
    attempt.status.Pending? || !HasSucceeded(before, attempt.id)
  }

  /** Reported, in order and each once: every attempt that is still pending or newly succeeded. */
  lemma {:induction false} DeltasInOrder(before: seq<Item>, attempts: seq<Item>) returns (at: seq<nat>)
    requires DistinctItems(before)
    ensures DeltasAt(before, attempts, Deltas(before, attempts), at)
  {
    hide HasSucceeded, Find, DistinctItems;
    if attempts == [] {
      at := [];
    } else {
      var n := |attempts| - 1;
      at := DeltasInOrder(before, attempts[..n]);
      FindSucceeded(before, attempts[n].id);
      DeltasOneMore(before, attempts, Deltas(before, attempts[..n]), at);
      at := at + if Reported(before, attempts[n]) then [n] else [];
    }
  }

  lemma DeltasOneMore(before: seq<Item>, attempts: seq<Item>, deltas: seq<Item>, at: seq<nat>)
    requires attempts != [] && DeltasAt(before, attempts[..|attempts| - 1], deltas, at)
    ensures var n := |attempts| - 1;
            var more := Reported(before, attempts[n]);
            DeltasAt(before, attempts, deltas + (if more then [attempts[n]] else []), at + (if more then [n] else []))
  {
    hide Reported;
    var n := |attempts| - 1;
    assert forall j :: 0 <= j < n ==> attempts[..n][j] == attempts[j];
    assert deltas + [] == deltas && at + [] == at;
  }

  lemma DistinctPrefix(items: seq<Item>, n: nat)
    requires DistinctItems(items) && n <= |items|
    ensures DistinctItems(items[..n])
  {
  }

  lemma NoneSucceeded(items: seq<Item>, id: ItemId)
    requires items == []
    ensures !HasSucceeded(items, id)
  {
  }

  lemma SucceedingsOneMore(deltas: seq<Item>, last: Item, more: bool, id: ItemId)
    ensures Succeedings(deltas + if more then [last] else [], id)
         == Succeedings(deltas, id) + if more && last.id == id && last.status.Succeeded? then 1 else 0
  {
    assert deltas + [] == deltas;
    assert (deltas + [last])[..|deltas|] == deltas;
  }

  lemma SucceededExtends(init: seq<Item>, last: Item, id: ItemId)
    requires DistinctItems(init + [last])
    ensures HasSucceeded(init + [last], id) <==> HasSucceeded(init, id) || (last.id == id && last.status.Succeeded?)
    ensures last.id == id ==> !HasSucceeded(init, id)
  {
    assert (init + [last])[|init|] == last;
    forall k | 0 <= k < |init|
      ensures (init + [last])[k] == init[k] && init[k].id != last.id
    {
    }
  }

  lemma KeptSucceeded(before: seq<Item>, after: seq<Item>, id: ItemId)
    requires Kept(before, after) && HasSucceeded(before, id)
    ensures HasSucceeded(after, id)
  {
    var k :| 0 <= k < |before| && before[k].id == id && before[k].status.Succeeded?;
    assert after[k] == before[k];
  }

  /** No sync of the history was cut short. */
  ghost predicate CrashFree(env: Env) {
    forall n :: !env.crash(n)
  }

  /**
   * Over any history, crashes included, each item is reported succeeded at most once; without
   * crashes exactly once if it went from not succeeded to succeeded.
   */
  lemma {:induction false} SucceedsOnce(env: Env, w: World, ops: seq<Op>, id: ItemId)
    requires DistinctItems(w.items)
    ensures var (after, reported) := History(env, w, ops);
            var became := HasSucceeded(after.items, id) && !HasSucceeded(w.items, id);
            && Succeedings(reported, id) <= (if became then 1 else 0)
            && (CrashFree(env) ==> Succeedings(reported, id) == if became then 1 else 0)
            && (HasSucceeded(w.items, id) ==> HasSucceeded(after.items, id))
    decreases |ops|
  {
    if ops != [] {
      var earlier, op := ops[..|ops| - 1], ops[|ops| - 1];
      var (before, reported) := History(env, w, earlier);
      var (after, deltas) := Apply(env, before, op);
      SucceedsOnce(env, w, earlier, id);
      NeverBackToPending(env, w, earlier, 0);
      ApplyItems(env, before, op);
      SucceedingsConcat(reported, deltas, id);
      if HasSucceeded(before.items, id) {
        KeptSucceeded(before.items, after.items, id);
      }
      match op
      case EnqueueOp(new', taskId) => EnqueuedNotSucceeded(before, new', taskId, id);
      case SyncOp =>
        DeltasCount(before.items, after.items, id);
        if CrashFree(env) {
          NoCrash(env, before.(crashed := false), before.items, 0);
        }
    }
  }

  lemma EnqueuedNotSucceeded(w: World, enqueued: ItemId, taskId: string, id: ItemId)
    ensures HasSucceeded(Enqueue(w, enqueued, taskId).items, id) ==> HasSucceeded(w.items, id)
  {
  }

  lemma {:induction false} NoCrash(env: Env, w: World, listed: seq<Item>, k: nat)
    requires CrashFree(env) && !w.crashed && k <= |listed|
    ensures !Project(env, w, listed, k).crashed
    decreases |listed| - k
  {
    if k < |listed| {
      NoCrash(env, ProjectOne(env, w, listed[k]), listed, k + 1);
    }
  }

  // ----- Convergence in a quiet environment

  type Safety = ItemId -> Owners

  /** Nobody else moves branches, git does as told, and safety is decided per candidate. Crashes stay possible. */
  ghost predicate Quiet(env: Env, safety: Safety) {
    && (forall n, b :: env.user(n, b) == b)
    && (forall n :: env.command(n) == Works)
    && (forall n, id :: env.owners(n, id) == safety(id))
  }

  predicate Permitted(owners: Owners) {
    owners == NoOwner || owners == OneOwner(None)
  }

  /** Where one item takes the branches. */
  function Land(safety: Safety, id: ItemId, b: Branches): Branches {
    if !Contains(At(b, id.branch), id.candidate) && FastForwards(At(b, id.branch), id.candidate) && Permitted(safety(id))
    then b[id.branch := id.candidate]
    else b
  }

  /** Where the first `n` items take the branches, one after the other. */
  function LandAll(safety: Safety, ids: seq<ItemId>, n: nat, b: Branches): Branches
    requires n <= |ids|
  {
    if n == 0 then b else Land(safety, ids[n - 1], LandAll(safety, ids, n - 1, b))
  }

  function Ids(items: seq<Item>): seq<ItemId> {
    seq(|items|, i requires 0 <= i < |items| => items[i].id)
  }

  ghost predicate Grown(b: Branches, b': Branches) {
    forall r :: Forward(At(b, r), At(b', r)) && (At(b, r).None? ==> At(b', r).None?)
  }

  lemma LandGrows(safety: Safety, id: ItemId, b: Branches)
    ensures Grown(b, Land(safety, id, b))
    ensures Land(safety, id, Land(safety, id, b)) == Land(safety, id, b)
  {
  }

  /** An item that has nothing left to do has nothing to do on any later state of its branch. */
  lemma StaysLanded(safety: Safety, id: ItemId, b: Branches, b': Branches)
    requires Land(safety, id, b) == b && Grown(b, b')
    ensures Land(safety, id, b') == b'
  {
    var at, at' := At(b, id.branch), At(b', id.branch);
    assert Forward(at, at');
    if Land(safety, id, b') != b' {
      AncestorTrans(at.value, at'.value, id.candidate);
      if Contains(at, id.candidate) {
        AncestorTrans(id.candidate, at.value, at'.value);
      }
    }
  }

  lemma {:induction false} LandAllStable(safety: Safety, ids: seq<ItemId>, n: nat, b: Branches, k: nat)
    requires k < n <= |ids|
    ensures Land(safety, ids[k], LandAll(safety, ids, n, b)) == LandAll(safety, ids, n, b)
  {
    var before := LandAll(safety, ids, n - 1, b);
    LandGrows(safety, ids[n - 1], before);
    if k < n - 1 {
      LandAllStable(safety, ids, n - 1, b, k);
      StaysLanded(safety, ids[k], before, Land(safety, ids[n - 1], before));
    }
  }

  /** Every succeeded item is contained in its branch. */
  ghost predicate Honest(w: World) {
    forall k :: 0 <= k < |w.items| && w.items[k].status.Succeeded? ==>
      Contains(At(w.branches, w.items[k].id.branch), w.items[k].id.candidate)
  }

  /** What a step makes of an item once no branch moves any more. */
  function Settled(safety: Safety, b: Branches, item: Item): Item {
    if item.status.Succeeded? then item
    else
      var at := At(b, item.id.branch);
      item.(status :=
        if Contains(at, item.id.candidate) then Succeeded(at.value)
        else if !FastForwards(at, item.id.candidate) then Pending(Some(BranchDiverged))
        else
          match safety(item.id)
          case OneOwner(Some(reason)) => Pending(Some(reason))
          case _ => Pending(Some(MultipleWorktrees)))
  }

  /** A step that was not killed did its whole job; a killed one did it, half of it, or nothing. */
  ghost predicate QuietStep(safety: Safety, w: World, after: World, k: nat)
    requires k < |w.items|
  {
    var landed := Land(safety, w.items[k].id, w.branches);
    && (after.crashed ==> after.items == w.items && (after.branches == w.branches || after.branches == landed))
    && (!after.crashed ==>
          && after.branches == landed
          && exists status ::
               && after.items == w.items[k := w.items[k].(status := status)]
               && (status.Succeeded? ==> Contains(At(landed, w.items[k].id.branch), w.items[k].id.candidate))
               && (landed == w.branches ==> w.items[k].(status := status) == Settled(safety, landed, w.items[k])))
  }

  lemma QuietMark(env: Env, safety: Safety, w: World, k: nat, status: Status)
    requires Quiet(env, safety) && DistinctItems(w.items) && k < |w.items|
    ensures var after := Mark(env, w, w.items[k], status);
            && after.branches == w.branches
            && after.items == (if after.crashed then w.items else w.items[k := w.items[k].(status := status)])
  {
    MarkItems(env, w, w.items[k], status, k);
  }

  lemma QuietOne(env: Env, safety: Safety, w: World, k: nat)
    requires Quiet(env, safety) && DistinctItems(w.items) && Honest(w) && k < |w.items| && !w.crashed
    ensures QuietStep(safety, w, ProjectOne(env, w, w.items[k]), k)
  {
    hide Mark, Advance;
    var item := w.items[k];
    var id := item.id;
    if item.status.Succeeded? {
      assert w.items == w.items[k := item.(status := item.status)];
    } else {
      var w' := Yield(env, w);
      var at := At(w.branches, id.branch);
      var seen := Observe(w', id.branch);
      match Decide(env, w'.clock, id, at)
      case AlreadyThere(oid) => QuietMark(env, safety, seen, k, Succeeded(oid));
      case Hold(reason) => QuietMark(env, safety, seen, k, Pending(Some(reason)));
      case plan => QuietAdvance(env, safety, seen, k, plan, at.value);
    }
  }

  lemma QuietAdvance(env: Env, safety: Safety, w: World, k: nat, plan: Plan, at: Commit)
    requires Quiet(env, safety) && DistinctItems(w.items) && k < |w.items|
    requires w.items[k].status.Pending? && At(w.branches, w.items[k].id.branch) == Some(at)
    requires plan == CompareAndSwap(at) || plan == FastForward
    requires !Contains(Some(at), w.items[k].id.candidate) && FastForwards(Some(at), w.items[k].id.candidate)
    requires Permitted(safety(w.items[k].id))
    ensures var after := Advance(env, w, w.items[k], plan);
            var landed := w.branches[w.items[k].id.branch := w.items[k].id.candidate];
            && (!after.crashed ==>
                  && after.branches == landed
                  && after.items == w.items[k := w.items[k].(status := Succeeded(w.items[k].id.candidate))])
            && (after.crashed ==> after.items == w.items && (after.branches == w.branches || after.branches == landed))
  {
    hide Mark;
    var (mutated, done) := Mutate(env, w, w.items[k].id, plan);
    if done {
      QuietMark(env, safety, mutated, k, Succeeded(w.items[k].id.candidate));
    } else {
      assert mutated.crashed;
      var seen := Observe(Yield(env, mutated), w.items[k].id.branch);
      CrashedMark(env, seen, w.items[k]);
    }
  }

  lemma CrashedMark(env: Env, w: World, item: Item)
    requires w.crashed
    ensures forall status :: Mark(env, w, item, status) == w
  {
  }

  /** The branches are where the first `j` items took them from `b`, and nothing claims more. */
  ghost predicate Reached(safety: Safety, b: Branches, ids: seq<ItemId>, w: World, j: nat) {
    && j <= |ids|
    && Ids(w.items) == ids
    && DistinctItems(w.items)
    && Honest(w)
    && w.branches == LandAll(safety, ids, j, b)
  }

  lemma StepReaches(safety: Safety, b: Branches, ids: seq<ItemId>, w: World, after: World, j: nat, k: nat) returns (j': nat)
    requires Reached(safety, b, ids, w, j) && k < |ids| && k <= j
    requires QuietStep(safety, w, after, k)
    ensures j <= j' && Reached(safety, b, ids, after, j')
    ensures !after.crashed ==> k < j'
  {
    assert ids[k] == w.items[k].id;
    j' := j;
    if k < j {
      LandAllStable(safety, ids, j, b, k);
    } else if after.branches != w.branches || !after.crashed {
      j' := j + 1;
    }
    LandGrows(safety, ids[k], w.branches);
    HonestStep(safety, w, after, k);
  }

  lemma HonestStep(safety: Safety, w: World, after: World, k: nat)
    requires k < |w.items| && Honest(w) && QuietStep(safety, w, after, k) && DistinctItems(w.items)
    requires Grown(w.branches, Land(safety, w.items[k].id, w.branches))
    ensures Honest(after) && DistinctItems(after.items) && Ids(after.items) == Ids(w.items)
  {
    forall i | 0 <= i < |after.items| && after.items[i].status.Succeeded?
      ensures Contains(At(after.branches, after.items[i].id.branch), after.items[i].id.candidate)
    {
      if i != k || after.items == w.items {
        var at := At(w.branches, w.items[i].id.branch);
        assert Forward(at, At(Land(safety, w.items[k].id, w.branches), w.items[i].id.branch));
        assert Contains(at, w.items[i].id.candidate);
        ContainsForward(at, At(after.branches, w.items[i].id.branch), w.items[i].id.candidate);
      }
    }
  }

  lemma ContainsForward(from: Option<Commit>, to: Option<Commit>, candidate: Commit)
    requires Contains(from, candidate) && (from == to || Forward(from, to))
    ensures Contains(to, candidate)
  {
    AncestorTrans(candidate, from.value, to.value);
  }

  lemma {:induction false} ProjectReaches(env: Env, safety: Safety, b: Branches, ids: seq<ItemId>, w: World, listed: seq<Item>, j: nat, k: nat)
    returns (j': nat)
    requires Quiet(env, safety) && Reached(safety, b, ids, w, j) && !w.crashed
    requires |listed| == |ids| && k <= j && forall i :: k <= i < |listed| ==> w.items[i] == listed[i]
    ensures j <= j' && Reached(safety, b, ids, Project(env, w, listed, k), j')
    ensures !Project(env, w, listed, k).crashed ==> j' == |ids|
    decreases |listed| - k
  {
    hide ProjectOne;
    j' := j;
    if k < |listed| {
      assert |w.items| == |Ids(w.items)|;
      QuietOne(env, safety, w, k);
      var next := ProjectOne(env, w, listed[k]);
      j' := StepReaches(safety, b, ids, w, next, j, k);
      if !next.crashed {
        j' := ProjectReaches(env, safety, b, ids, next, listed, j', k + 1);
      }
    }
  }

  function Passes(env: Env, w: World, n: nat): World {
    if n == 0 then w else Pass(env, Passes(env, w, n - 1))
  }

  lemma PassReaches(env: Env, safety: Safety, b: Branches, ids: seq<ItemId>, w: World, j: nat) returns (j': nat)
    requires Quiet(env, safety) && Reached(safety, b, ids, w, j)
    ensures j <= j' && Reached(safety, b, ids, Pass(env, w), j')
    ensures !Pass(env, w).crashed ==> j' == |ids|
  {
    assert |w.items| == |Ids(w.items)|;
    j' := ProjectReaches(env, safety, b, ids, w.(crashed := false), w.items, j, 0);
  }

  /** Any number of passes, crashed or not, gets some way along the one crash-free path. */
  lemma {:induction false} PassesReach(env: Env, safety: Safety, w: World, n: nat) returns (j: nat)
    requires Quiet(env, safety) && DistinctItems(w.items) && Honest(w)
    ensures Reached(safety, w.branches, Ids(w.items), Passes(env, w, n), j)
  {
    if n == 0 {
      j := 0;
    } else {
      j := PassesReach(env, safety, w, n - 1);
      j := PassReaches(env, safety, w.branches, Ids(w.items), Passes(env, w, n - 1), j);
    }
  }

  /** With every branch final, each step only settles its item. */
  ghost predicate Final(safety: Safety, w: World) {
    && DistinctItems(w.items) && Honest(w)
    && forall k :: 0 <= k < |w.items| ==> Land(safety, w.items[k].id, w.branches) == w.branches
  }

  lemma ReachedFinal(safety: Safety, b: Branches, ids: seq<ItemId>, w: World)
    requires Reached(safety, b, ids, w, |ids|)
    ensures Final(safety, w)
  {
    assert |w.items| == |Ids(w.items)|;
    forall k | 0 <= k < |w.items|
      ensures Land(safety, w.items[k].id, w.branches) == w.branches
    {
      assert ids[k] == w.items[k].id;
      LandAllStable(safety, ids, |ids|, b, k);
    }
  }

  lemma {:induction false} ProjectSettles(env: Env, safety: Safety, w: World, listed: seq<Item>, k: nat)
    requires Quiet(env, safety) && Final(safety, w) && !w.crashed
    requires |listed| == |w.items| && k <= |listed| && forall i :: k <= i < |listed| ==> w.items[i] == listed[i]
    ensures var after := Project(env, w, listed, k);
            && after.branches == w.branches
            && |after.items| == |listed|
            && (forall i :: 0 <= i < k ==> after.items[i] == w.items[i])
            && (forall i :: k <= i < |listed| ==>
                  after.items[i] == Settled(safety, w.branches, listed[i]) || (after.crashed && after.items[i] == listed[i]))
    decreases |listed| - k
  {
    hide ProjectOne;
    if k < |listed| {
      QuietOne(env, safety, w, k);
      var next := ProjectOne(env, w, listed[k]);
      LandGrows(safety, w.items[k].id, w.branches);
      HonestStep(safety, w, next, k);
      if !next.crashed {
        ProjectSettles(env, safety, next, listed, k + 1);
      }
    }
  }

  lemma PassSettles(env: Env, safety: Safety, w: World)
    requires Quiet(env, safety) && Final(safety, w)
    ensures var after := Pass(env, w);
            && after.branches == w.branches && |after.items| == |w.items|
            && forall i :: 0 <= i < |w.items| ==>
                 after.items[i] == Settled(safety, w.branches, w.items[i]) || (after.crashed && after.items[i] == w.items[i])
  {
    ProjectSettles(env, safety, w.(crashed := false), w.items, 0);
  }

  /**
   * After any number of passes, crashed or not, two complete ones reach the end: branches are where
   * one crash-free pass would have taken them, an item is succeeded exactly if its branch contains
   * it, and no further pass changes a thing.
   */
  lemma TwoPassesConverge(env: Env, safety: Safety, w: World, n: nat, calm: Env)
    requires Quiet(env, safety) && DistinctItems(w.items) && Honest(w)
    requires Quiet(calm, safety) && CrashFree(calm)
    requires !Passes(env, w, n + 1).crashed && !Passes(env, w, n + 2).crashed
    ensures var done := Passes(env, w, n + 2);
            && done.branches == Pass(calm, w).branches
            && |done.items| == |w.items|
            && (forall k :: 0 <= k < |done.items| ==>
                  && done.items[k].id == w.items[k].id
                  && (done.items[k].status.Succeeded? <==>
                        Contains(At(done.branches, done.items[k].id.branch), done.items[k].id.candidate)))
            && Pass(env, done).branches == done.branches && Pass(env, done).items == done.items
  {
    hide Pass;
    var ids := Ids(w.items);
    var j := PassesReach(env, safety, w, n);
    var first, done := Passes(env, w, n + 1), Passes(env, w, n + 2);
    j := PassReaches(env, safety, w.branches, ids, Passes(env, w, n), j);
    ReachedFinal(safety, w.branches, ids, first);
    CalmPass(calm, safety, w);
    PassSettles(env, safety, first);
    j := PassReaches(env, safety, w.branches, ids, first, j);
    ReachedFinal(safety, w.branches, ids, done);
    PassSettles(env, safety, done);
    assert |done.items| == |Ids(done.items)|;
    forall k | 0 <= k < |done.items|
      ensures done.items[k].id == w.items[k].id
      ensures done.items[k].status.Succeeded? <==> Contains(At(done.branches, done.items[k].id.branch), done.items[k].id.candidate)
      ensures Pass(env, done).items[k] == done.items[k]
    {
      assert Ids(done.items)[k] == ids[k];
    }
  }

  lemma CalmPass(calm: Env, safety: Safety, w: World)
    requires Quiet(calm, safety) && CrashFree(calm) && DistinctItems(w.items) && Honest(w)
    ensures Pass(calm, w).branches == LandAll(safety, Ids(w.items), |w.items|, w.branches)
  {
    var j := PassReaches(calm, safety, w.branches, Ids(w.items), w, 0);
    NoCrash(calm, w.(crashed := false), w.items, 0);
  }
}
