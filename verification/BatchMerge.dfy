/** Shipping a batch: a walk that merges a task once its blockers are. */
module BatchMerge {
  // The walk follows the dependency order and hands a task to the merger only when every one of its
  // blockers is completed on the board or was merged earlier in the same walk. The landing queue, the
  // merge of one task and the host-contribution reconciliation are oracles: functions of the position
  // in the walk (and of what the code passes them), so a statement about every `Env` is a statement
  // about every behaviour they can have.

  import opened Common
  import opened TaskBoard
  import DependencyOrder
  import Graph

  type Oid = string

  datatype Outcome =
    | Merged | MergeConflict | MergeFailed | VerificationFailed | CloseFailed
    | Pending | PendingDelivery | Skipped

  datatype Reason =
    | NoReason | UnshippedPrerequisite | TargetQuietWait | QueueHeadBlocked
    | HostContributionPending | HostContributionConflict | RepairExhausted | PendingDeliveryReason

  /** What processing one task reports. */
  datatype Report = Report(outcome: Outcome, reason: Reason, candidateOid: Option<Oid>)

  datatype TaskResult = TaskResult(taskId: TaskId, outcome: Outcome, reason: Reason, candidateOid: Option<Oid>)

  datatype Ticket = Ticket(taskId: TaskId, sequence: nat, quietWait: bool)

  datatype Resume = Resumed | Waiting | NotWaiting

  datatype Env = Env(
    tickets: nat -> seq<Ticket>,
    resume: (nat, TaskId) -> Resume,
    process: (nat, Task, Option<Oid>) -> Report)

  /** `None` when reconciliation reports nothing; a contribution is pending or may carry a commit. */
  datatype HostContribution = NoContribution | PendingContribution(reason: Reason) | SettledContribution(commit: Option<Oid>)

  datatype BatchStatus = DoneStatus | PartialFailed | PendingStatus | SkippedStatus

  /** A call of the merger: which task, on top of which predecessor, and what came back. */
  datatype Call = Call(taskId: TaskId, predecessor: Option<Oid>, report: Report)

  datatype Batch = Batch(
    results: seq<TaskResult>,
    shipped: set<TaskId>,
    predecessor: Option<Oid>,
    calls: seq<Call>)

  function PendingResult(task: Task, reason: Reason): TaskResult {
    TaskResult(task.id, Pending, reason, None)
  }

  function FindTicket(tickets: seq<Ticket>, id: TaskId): Option<Ticket> {
    if tickets == [] then None
    else if tickets[0].taskId == id then Some(tickets[0])
    else FindTicket(tickets[1..], id)
  }

  function FirstQuiet(tickets: seq<Ticket>): Option<Ticket> {
    if tickets == [] then None
    else if tickets[0].quietWait then Some(tickets[0])
    else FirstQuiet(tickets[1..])
  }

  /** A quiet-waiting ticket ahead of mine; a task without a ticket is behind every ticket. */
  predicate EarlierQuiet(tickets: seq<Ticket>, mine: Option<Ticket>) {
    exists t :: t in tickets && t.quietWait && (mine.Some? ==> t.sequence < mine.value.sequence)
  }

  predicate HeldByQuietWait(env: Env, i: nat, task: Task) {
    var tickets := env.tickets(i);
    var mine := FindTicket(tickets, task.id);
    && ((mine.Some? && mine.value.quietWait) || EarlierQuiet(tickets, mine))
    && var head := if FirstQuiet(tickets).Some? then FirstQuiet(tickets) else mine;
       head.Some? && env.resume(i, head.value.taskId) == Waiting
  }

  function QuietHoldReason(env: Env, i: nat, task: Task): Reason {
    var head := FirstQuiet(env.tickets(i));
    if head.Some? && head.value.taskId != task.id then QueueHeadBlocked else TargetQuietWait
  }

  predicate Unshipped(task: Task, shipped: set<TaskId>) {
    exists b :: b in Blockers(task) && b !in shipped
  }

  /** One turn of the walk. */
  function Turn(env: Env, i: nat, task: Task, b: Batch): Batch {
    if Unshipped(task, b.shipped) then
      b.(results := b.results + [TaskResult(task.id, Skipped, UnshippedPrerequisite, None)])
    else if HeldByQuietWait(env, i, task) then
      b.(results := b.results + [PendingResult(task, QuietHoldReason(env, i, task))])
    else
      var report := env.process(i, task, b.predecessor);
      var result := TaskResult(task.id, report.outcome, report.reason, report.candidateOid);
      Batch(
        b.results + [result],
        if report.outcome == Merged then b.shipped + {task.id} else b.shipped,
        if report.outcome == Merged && report.candidateOid.Some? then report.candidateOid else b.predecessor,
        b.calls + [Call(task.id, b.predecessor, report)])
  }

  /** The turn called the merger and the merger left the task in quiet wait. */
  predicate EndsWalk(env: Env, i: nat, task: Task, b: Batch) {
    && !Unshipped(task, b.shipped)
    && !HeldByQuietWait(env, i, task)
    && env.process(i, task, b.predecessor).reason == TargetQuietWait
  }

  /** Tasks without a result yet, in order, are blocked behind the waiting head. */
  function BlockRest(tasks: seq<Task>, results: seq<TaskResult>): seq<TaskResult> {
    if tasks == [] then results
    else if exists r :: r in results && r.taskId == tasks[0].id then BlockRest(tasks[1..], results)
    else BlockRest(tasks[1..], results + [PendingResult(tasks[0], QueueHeadBlocked)])
  }

  function Ship(env: Env, ordered: seq<Task>, i: nat, b: Batch): Batch
    requires i <= |ordered|
    decreases |ordered| - i
  {
    if i == |ordered| then b
    else
      var next := Turn(env, i, ordered[i], b);
      if EndsWalk(env, i, ordered[i], b) then next.(results := BlockRest(ordered, next.results))
      else Ship(env, ordered, i + 1, next)
  }

  function Completed(board: seq<Task>): set<TaskId> {
    set t | t in board && IsCompleted(t.hubStatus) :: t.id
  }

  function Start(board: seq<Task>, host: HostContribution): Batch {
    Batch([], Completed(board), if host.SettledContribution? then host.commit else None, [])
  }

  function AllPending(ordered: seq<Task>, reason: Reason): seq<TaskResult> {
    seq(|ordered|, i requires 0 <= i < |ordered| => PendingResult(ordered[i], reason))
  }

  /** The batch after walking `ordered`, whatever order that is. */
  function Shipped(env: Env, host: HostContribution, board: seq<Task>, ordered: seq<Task>): Batch {
    if host.PendingContribution? then Start(board, host).(results := AllPending(ordered, host.reason))
    else Ship(env, ordered, 0, Start(board, host))
  }

  function Status(results: seq<TaskResult>): BatchStatus {
    if results == [] then DoneStatus
    else if forall r :: r in results ==> r.outcome == Pending then PendingStatus
    else if forall r :: r in results ==> r.outcome == Merged then DoneStatus
    else PartialFailed
  }

  method HoldAll(ordered: seq<Task>, reason: Reason) returns (results: seq<TaskResult>)
    ensures results == AllPending(ordered, reason)
  {
    results := [];
    for k := 0 to |ordered|
      invariant results == AllPending(ordered, reason)[..k]
    {
      results := results + [PendingResult(ordered[k], reason)];
    }
  }

  method HoldRest(ordered: seq<Task>, results: seq<TaskResult>) returns (r: seq<TaskResult>)
    ensures r == BlockRest(ordered, results)
  {
    r := results;
    var j := 0;
    while j < |ordered|
      invariant j <= |ordered|
      invariant BlockRest(ordered[j..], r) == BlockRest(ordered, results)
    {
      if !exists entry :: entry in r && entry.taskId == ordered[j].id {
        r := r + [PendingResult(ordered[j], QueueHeadBlocked)];
      }
      assert ordered[j..][1..] == ordered[j + 1..];
      j := j + 1;
    }
  }

  method RunBatchMerge(env: Env, host: HostContribution, board: seq<Task>, selected: seq<Task>)
    returns (status: BatchStatus, results: seq<TaskResult>, calls: seq<Call>)
    ensures var done := Shipped(env, host, board, DependencyOrder.Order(selected));
            results == done.results && calls == done.calls
    ensures status == if selected == [] then SkippedStatus else Status(results)
  {
    if selected == [] {
      assert DependencyOrder.Order(selected) == [];
      return SkippedStatus, [], [];
    }
    results := [];
    calls := [];
    var shipped := Completed(board);
    var ordered := DependencyOrder.OrderTasksByDependencies(selected);
    if host.PendingContribution? {
      results := HoldAll(ordered, host.reason);
      return Status(results), results, calls;
    }
    var predecessor := if host.SettledContribution? then host.commit else None;
    var i := 0;
    while i < |ordered|
      invariant i <= |ordered|
      invariant Ship(env, ordered, i, Batch(results, shipped, predecessor, calls))
             == Shipped(env, host, board, ordered)
    {
      var task := ordered[i];
      ghost var before := Batch(results, shipped, predecessor, calls);
      if Unshipped(task, shipped) {
        results := results + [TaskResult(task.id, Skipped, UnshippedPrerequisite, None)];
        assert Batch(results, shipped, predecessor, calls) == Turn(env, i, task, before);
        i := i + 1;
        continue;
      }
      if HeldByQuietWait(env, i, task) {
        results := results + [PendingResult(task, QuietHoldReason(env, i, task))];
        assert Batch(results, shipped, predecessor, calls) == Turn(env, i, task, before);
        i := i + 1;
        continue;
      }
      var report := env.process(i, task, predecessor);
      calls := calls + [Call(task.id, predecessor, report)];
      results := results + [TaskResult(task.id, report.outcome, report.reason, report.candidateOid)];
      if report.outcome == Merged {
        shipped := shipped + {task.id};
        predecessor := if report.candidateOid.Some? then report.candidateOid else predecessor;
      }
      assert Batch(results, shipped, predecessor, calls) == Turn(env, i, task, before);
      if report.reason == TargetQuietWait {
        results := HoldRest(ordered, results);
        break;
      }
      i := i + 1;
    }
    status := Status(results);
  }

  // ----- What every walk keeps, in any order and under any oracle

  function MergedIds(results: seq<TaskResult>): set<TaskId> {
    set r | r in results && r.outcome == Merged :: r.taskId
  }

  /** The candidate the next merge builds on: the last merged one, or the host contribution. */
  function Tip(host: Option<Oid>, results: seq<TaskResult>): Option<Oid> {
    if results == [] then host
    else
      var last := results[|results| - 1];
      if last.outcome == Merged && last.candidateOid.Some? then last.candidateOid
      else Tip(host, results[..|results| - 1])
  }

  /** Result `k` belongs to task `k`, and is `Merged` only if the blockers were shipped by then. */
  ghost predicate Explained(ordered: seq<Task>, shipped0: set<TaskId>, results: seq<TaskResult>, k: nat)
    requires k < |results| <= |ordered|
  {
    && results[k].taskId == ordered[k].id
    && (results[k].outcome == Merged ==> !Unshipped(ordered[k], shipped0 + MergedIds(results[..k])))
  }

  /** The call produced result `k` on top of everything merged before it. */
  ghost predicate Answers(ordered: seq<Task>, host: Option<Oid>, results: seq<TaskResult>, c: Call, k: nat) {
    && k < |results| <= |ordered|
    && c.taskId == ordered[k].id
    && c.predecessor == Tip(host, results[..k])
    && results[k] == TaskResult(c.taskId, c.report.outcome, c.report.reason, c.report.candidateOid)
  }

  ghost predicate Sound(ordered: seq<Task>, start: Batch, b: Batch) {
    && |b.results| <= |ordered|
    && (forall k :: 0 <= k < |b.results| ==> Explained(ordered, start.shipped, b.results, k))
    && (forall c :: c in b.calls ==> exists k: nat :: Answers(ordered, start.predecessor, b.results, c, k))
  }

  /** Mid-walk, shipped ids and predecessor are the ones the results account for. */
  ghost predicate Accounted(start: Batch, b: Batch) {
    && b.shipped == start.shipped + MergedIds(b.results)
    && b.predecessor == Tip(start.predecessor, b.results)
    && forall c :: c in b.calls ==> c.report.reason != TargetQuietWait
  }

  lemma MergedAppend(results: seq<TaskResult>, r: TaskResult)
    ensures MergedIds(results + [r]) == MergedIds(results) + (if r.outcome == Merged then {r.taskId} else {})
  {
    assert forall x :: x in results + [r] <==> x in results || x == r;
  }

  /** Appending a result disturbs nothing that was explained before. */
  lemma SoundAppend(ordered: seq<Task>, start: Batch, b: Batch, r: TaskResult)
    requires Sound(ordered, start, b) && |b.results| < |ordered|
    requires r.taskId == ordered[|b.results|].id
    requires r.outcome == Merged ==> !Unshipped(ordered[|b.results|], start.shipped + MergedIds(b.results))
    ensures Sound(ordered, start, b.(results := b.results + [r]))
  {
    var longer := b.results + [r];
    forall k | 0 <= k < |longer|
      ensures Explained(ordered, start.shipped, longer, k)
    {
      assert longer[..k] == b.results[..k];
      if k < |b.results| {
        assert Explained(ordered, start.shipped, b.results, k);
      } else {
        assert b.results[..k] == b.results;
      }
    }
    forall c | c in b.calls
      ensures exists k: nat :: Answers(ordered, start.predecessor, longer, c, k)
    {
      var k: nat :| Answers(ordered, start.predecessor, b.results, c, k);
      assert longer[..k] == b.results[..k];
      assert Answers(ordered, start.predecessor, longer, c, k);
    }
  }

  lemma TurnSound(env: Env, ordered: seq<Task>, i: nat, start: Batch, b: Batch)
    requires i < |ordered| && |b.results| == i && Sound(ordered, start, b) && Accounted(start, b)
    ensures var next := Turn(env, i, ordered[i], b);
            && |next.results| == i + 1 && b.results <= next.results
            && Sound(ordered, start, next)
            && (!EndsWalk(env, i, ordered[i], b) ==> Accounted(start, next))
            && (EndsWalk(env, i, ordered[i], b) ==>
                  next.calls == b.calls + [Call(ordered[i].id, b.predecessor, env.process(i, ordered[i], b.predecessor))])
  {
    var next := Turn(env, i, ordered[i], b);
    var r := next.results[i];
    assert next.results == b.results + [r];
    SoundAppend(ordered, start, b, r);
    MergedAppend(b.results, r);
    assert next.results[..i] == b.results;
    if next.calls != b.calls {
      var c := next.calls[|b.calls|];
      assert Answers(ordered, start.predecessor, next.results, c, i);
    }
  }

  ghost predicate Blocked(ordered: seq<Task>, results: seq<TaskResult>, from: nat) {
    && |results| == |ordered|
    && forall k :: from <= k < |ordered| ==> results[k] == PendingResult(ordered[k], QueueHeadBlocked)
  }

  lemma {:induction false} BlockRestSound(ordered: seq<Task>, j: nat, start: Batch, b: Batch, from: nat)
    requires DistinctIds(ordered) && j <= |ordered| && from <= |b.results|
    requires Sound(ordered, start, b)
    requires j <= |b.results| || |b.results| == |ordered|
    requires forall k :: from <= k < |b.results| ==> b.results[k] == PendingResult(ordered[k], QueueHeadBlocked)
    ensures var results := BlockRest(ordered[j..], b.results);
            && Sound(ordered, start, b.(results := results))
            && b.results <= results
            && Blocked(ordered, results, from)
    decreases |ordered| - j
  {
    if j < |ordered| {
      assert ordered[j..][1..] == ordered[j + 1..];
      if j < |b.results| {
        assert Explained(ordered, start.shipped, b.results, j);
        assert b.results[j] in b.results;
        BlockRestSound(ordered, j + 1, start, b, from);
      } else {
        forall r | r in b.results
          ensures r.taskId != ordered[j].id
        {
          var k :| 0 <= k < |b.results| && b.results[k] == r;
          assert Explained(ordered, start.shipped, b.results, k);
        }
        var r := PendingResult(ordered[j], QueueHeadBlocked);
        SoundAppend(ordered, start, b, r);
        BlockRestSound(ordered, j + 1, start, b.(results := b.results + [r]), from);
      }
    } else {
      assert ordered[j..] == [];
    }
  }

  /** A quiet-waiting call is the last call, and everything after its task is blocked behind it. */
  ghost predicate QuietLast(ordered: seq<Task>, b: Batch) {
    forall c :: 0 <= c < |b.calls| && b.calls[c].report.reason == TargetQuietWait ==>
      && c == |b.calls| - 1
      && exists i: nat :: i < |ordered| && ordered[i].id == b.calls[c].taskId && Blocked(ordered, b.results, i + 1)
  }

  lemma {:induction false} ShipSound(env: Env, ordered: seq<Task>, i: nat, start: Batch, b: Batch)
    requires DistinctIds(ordered) && i <= |ordered| && |b.results| == i
    requires Sound(ordered, start, b) && Accounted(start, b)
    ensures var done := Ship(env, ordered, i, b);
            && |done.results| == |ordered| && b.results <= done.results
            && Sound(ordered, start, done)
            && QuietLast(ordered, done)
    decreases |ordered| - i
  {
    if i < |ordered| {
      var next := Turn(env, i, ordered[i], b);
      TurnSound(env, ordered, i, start, b);
      if EndsWalk(env, i, ordered[i], b) {
        BlockRestSound(ordered, 0, start, next, i + 1);
        assert ordered[0..] == ordered;
        assert Blocked(ordered, BlockRest(ordered, next.results), i + 1);
        assert next.calls == b.calls + [next.calls[|b.calls|]];
      } else {
        ShipSound(env, ordered, i + 1, start, next);
      }
    }
  }

  /**
   * Every path through a batch, host contribution pending included: one result per task in walk
   * order, merges only after blockers, calls on top of the last merge, nothing called after a
   * quiet wait.
   */
  lemma BatchSound(env: Env, host: HostContribution, board: seq<Task>, ordered: seq<Task>)
    requires DistinctIds(ordered)
    ensures var done := Shipped(env, host, board, ordered);
            && |done.results| == |ordered|
            && Sound(ordered, Start(board, host), done)
            && QuietLast(ordered, done)
  {
    var start := Start(board, host);
    if host.PendingContribution? {
      var results := AllPending(ordered, host.reason);
      assert start.(results := results).calls == [];
    } else {
      ShipSound(env, ordered, 0, start, start);
    }
  }

  // ----- The merged tasks are a least fixed point

  /** Whether merging `id` succeeds is decided by the task alone, and nothing ever waits for a quiet target. */
  ghost predicate Steady(env: Env, succeeds: set<TaskId>) {
    && (forall i, t, p :: env.process(i, t, p).outcome == Merged <==> t.id in succeeds)
    && (forall i, t, p :: env.process(i, t, p).reason != TargetQuietWait)
    && (forall i, t :: !HeldByQuietWait(env, i, t))
  }

  /** Tasks that would merge if exactly the completed ids and `x` were shipped. */
  ghost function Enabled(selected: seq<Task>, completed: set<TaskId>, succeeds: set<TaskId>, x: set<TaskId>): set<TaskId> {
    set t | t in selected && t.id in succeeds && !Unshipped(t, completed + x) :: t.id
  }

  ghost predicate LeastFixedPoint(selected: seq<Task>, completed: set<TaskId>, succeeds: set<TaskId>, m: set<TaskId>) {
    && Enabled(selected, completed, succeeds, m) == m
    && forall x :: Enabled(selected, completed, succeeds, x) <= x ==> m <= x
  }

  /** Selected tasks are distinct tasks of a board without duplicates and all wait for their merge. */
  ghost predicate SelectedFrom(board: seq<Task>, selected: seq<Task>) {
    && DistinctIds(board) && DistinctIds(selected)
    && forall t :: t in selected ==> t in board && t.hubStatus == WaitingForMerge
  }

  /** `k` merged exactly when the oracle agrees and its blockers were shipped before it. */
  ghost predicate Decided(ordered: seq<Task>, shipped0: set<TaskId>, succeeds: set<TaskId>, results: seq<TaskResult>, k: nat)
    requires k < |results| <= |ordered|
  {
    results[k].outcome == Merged <==>
      ordered[k].id in succeeds && !Unshipped(ordered[k], shipped0 + MergedIds(results[..k]))
  }

  lemma {:induction false} ShipDecides(env: Env, ordered: seq<Task>, i: nat, start: Batch, b: Batch, succeeds: set<TaskId>)
    requires Steady(env, succeeds) && DistinctIds(ordered)
    requires i <= |ordered| && |b.results| == i && Sound(ordered, start, b) && Accounted(start, b)
    requires forall k :: 0 <= k < i ==> Decided(ordered, start.shipped, succeeds, b.results, k)
    ensures var done := Ship(env, ordered, i, b);
            && |done.results| == |ordered|
            && forall k :: 0 <= k < |ordered| ==> Decided(ordered, start.shipped, succeeds, done.results, k)
    decreases |ordered| - i
  {
    if i < |ordered| {
      var next := Turn(env, i, ordered[i], b);
      TurnSound(env, ordered, i, start, b);
      assert !EndsWalk(env, i, ordered[i], b);
      forall k | 0 <= k < i + 1
        ensures Decided(ordered, start.shipped, succeeds, next.results, k)
      {
        assert next.results[..k] == b.results[..k];
        assert k < i ==> Decided(ordered, start.shipped, succeeds, b.results, k);
        assert b.results[..i] == b.results;
      }
      ShipDecides(env, ordered, i + 1, start, next, succeeds);
    }
  }

  /** No order and no oracle merges a task outside a set that `Enabled` does not leave. */
  lemma {:induction false} MergedWithin(ordered: seq<Task>, start: Batch, done: Batch, succeeds: set<TaskId>, x: set<TaskId>, n: nat)
    requires Sound(ordered, start, done) && n <= |done.results|
    requires Enabled(ordered, start.shipped, succeeds, x) <= x
    requires MergedIds(done.results) <= succeeds
    ensures MergedIds(done.results[..n]) <= x
  {
    if n > 0 {
      var k := n - 1;
      MergedWithin(ordered, start, done, succeeds, x, k);
      assert done.results[..n] == done.results[..k] + [done.results[k]];
      MergedAppend(done.results[..k], done.results[k]);
      if done.results[k].outcome == Merged {
        assert Explained(ordered, start.shipped, done.results, k);
        assert done.results[k].taskId in MergedIds(done.results);
        assert ordered[k].id in Enabled(ordered, start.shipped, succeeds, x);
      }
    }
  }

  ghost predicate MergedAt(results: seq<TaskResult>, k: nat, id: TaskId) {
    k < |results| && results[k].outcome == Merged && results[k].taskId == id
  }

  lemma MergedPosition(results: seq<TaskResult>, id: TaskId) returns (k: nat)
    requires id in MergedIds(results)
    ensures MergedAt(results, k, id)
  {
    var r :| r in results && r.outcome == Merged && r.taskId == id;
    k :| 0 <= k < |results| && results[k] == r;
  }

  /** Task `k` was not taken too early: everything it needs that merges at all merged before it. */
  lemma NotTakenTooEarly(selected: seq<Task>, completed: set<TaskId>, results: seq<TaskResult>, k: nat, b: TaskId)
    requires DistinctIds(selected) && completed !! IdSet(selected)
    requires var ordered := DependencyOrder.Order(selected);
             && |results| == |ordered| && k < |ordered|
             && (forall j :: 0 <= j < |results| ==> Explained(ordered, completed, results, j))
             && !Unshipped(ordered[k], completed + MergedIds(results))
             && b in Blockers(ordered[k]) && b !in completed
    requires results[k].outcome != Merged
    ensures b in MergedIds(results[..k])
  {
    var ordered := DependencyOrder.Order(selected);
    DependencyOrder.OrderIsGreedy(selected);
    var i := DependencyOrder.NextAt(selected, k);
    var at := MergedPosition(results, b);
    assert Explained(ordered, completed, results, at);
    if at >= k {
      assert ordered[at] in selected && b in IdSet(selected);
      if !DependencyOrder.Ready(ordered[k], IdSet(selected), ordered[..k]) {
        var m := FirstMergedFrom(results, k, at);
        MergedWasReady(selected, completed, results, k, m);
      }
      assert false;
    }
    assert results[at] in results[..k];
  }

  lemma FirstMergedFrom(results: seq<TaskResult>, k: nat, at: nat) returns (m: nat)
    requires k <= at < |results| && results[at].outcome == Merged
    ensures k <= m <= at && results[m].outcome == Merged
    ensures forall j :: k <= j < m ==> results[j].outcome != Merged
  {
    m := k;
    while results[m].outcome != Merged
      invariant k <= m <= at
      invariant forall j :: k <= j < m ==> results[j].outcome != Merged
      decreases at - m
    {
      m := m + 1;
    }
  }

  /** The first merge from position `k` on was already ready, and open, when position `k` was filled. */
  lemma MergedWasReady(selected: seq<Task>, completed: set<TaskId>, results: seq<TaskResult>, k: nat, m: nat)
    requires DistinctIds(selected) && completed !! IdSet(selected)
    requires var ordered := DependencyOrder.Order(selected);
             && |results| == |ordered| && k <= m < |ordered|
             && (forall j :: 0 <= j < |results| ==> Explained(ordered, completed, results, j))
    requires results[m].outcome == Merged && forall j :: k <= j < m ==> results[j].outcome != Merged
    ensures var ordered := DependencyOrder.Order(selected);
            && ordered[m] in selected
            && DependencyOrder.Open(ordered[m], ordered[..k])
            && DependencyOrder.Ready(ordered[m], IdSet(selected), ordered[..k])
  {
    var ordered := DependencyOrder.Order(selected);
    DependencyOrder.OrderIsGreedy(selected);
    assert ordered[m] in ordered;
    assert Explained(ordered, completed, results, m);
    forall b | b in Blockers(ordered[m]) && b in IdSet(selected)
      ensures b in IdSet(ordered[..k])
    {
      assert b in MergedIds(results[..m]);
      var at := MergedPosition(results[..m], b);
      assert Explained(ordered, completed, results, at);
      assert ordered[at] in ordered[..k];
    }
  }

  /** A whole walk in dependency order: every result is explained, and decided by the oracle. */
  ghost predicate Walked(selected: seq<Task>, completed: set<TaskId>, succeeds: set<TaskId>, results: seq<TaskResult>) {
    var ordered := DependencyOrder.Order(selected);
    && |results| == |ordered|
    && (forall j :: 0 <= j < |results| ==> Explained(ordered, completed, results, j))
    && (forall j :: 0 <= j < |results| ==> Decided(ordered, completed, succeeds, results, j))
  }

  lemma MergedIsEnabled(selected: seq<Task>, completed: set<TaskId>, succeeds: set<TaskId>, results: seq<TaskResult>, id: TaskId)
    requires DistinctIds(selected) && Walked(selected, completed, succeeds, results) && id in MergedIds(results)
    ensures id in succeeds && id in Enabled(selected, completed, succeeds, MergedIds(results))
  {
    var ordered := DependencyOrder.Order(selected);
    DependencyOrder.OrderIsGreedy(selected);
    var k := MergedPosition(results, id);
    assert Decided(ordered, completed, succeeds, results, k);
    assert Explained(ordered, completed, results, k);
    assert ordered[k] in ordered;
    MergedMonotone(results, k);
  }

  lemma EnabledIsMerged(selected: seq<Task>, completed: set<TaskId>, succeeds: set<TaskId>, results: seq<TaskResult>, id: TaskId)
    requires DistinctIds(selected) && completed !! IdSet(selected) && Walked(selected, completed, succeeds, results)
    requires id in Enabled(selected, completed, succeeds, MergedIds(results))
    ensures id in MergedIds(results)
  {
    var ordered := DependencyOrder.Order(selected);
    DependencyOrder.OrderIsGreedy(selected);
    var t :| t in selected && t.id == id && t.id in succeeds && !Unshipped(t, completed + MergedIds(results));
    var k :| 0 <= k < |ordered| && ordered[k] == t;
    assert Decided(ordered, completed, succeeds, results, k);
    EnabledMerges(selected, completed, succeeds, results, k);
    assert Explained(ordered, completed, results, k);
    assert results[k] in results;
  }

  lemma WalkIsSteady(env: Env, host: HostContribution, board: seq<Task>, selected: seq<Task>, succeeds: set<TaskId>)
    requires DistinctIds(selected) && Steady(env, succeeds) && !host.PendingContribution?
    ensures Walked(selected, Completed(board), succeeds, Shipped(env, host, board, DependencyOrder.Order(selected)).results)
    ensures var ordered := DependencyOrder.Order(selected);
            Sound(ordered, Start(board, host), Shipped(env, host, board, ordered))
  {
    hide Steady, Sound, Explained, Decided;
    var ordered, start := DependencyOrder.Order(selected), Start(board, host);
    DependencyOrder.OrderIsGreedy(selected);
    BatchSound(env, host, board, ordered);
    StartSound(ordered, start);
    ShipDecides(env, ordered, 0, start, start, succeeds);
    SoundExplains(ordered, start, Shipped(env, host, board, ordered));
  }

  lemma StartSound(ordered: seq<Task>, start: Batch)
    requires start.results == [] && start.calls == []
    ensures Sound(ordered, start, start) && Accounted(start, start)
  {
  }

  lemma SoundExplains(ordered: seq<Task>, start: Batch, b: Batch)
    requires Sound(ordered, start, b)
    ensures |b.results| <= |ordered| && forall k :: 0 <= k < |b.results| ==> Explained(ordered, start.shipped, b.results, k)
  {
  }

  /**
   * For any blocker graph, cyclic or not: the tasks that end merged are the least fixed point of
   * "the oracle succeeds and every blocker is completed or merged".
   */
  lemma MergedIsLeastFixedPoint(env: Env, host: HostContribution, board: seq<Task>, selected: seq<Task>, succeeds: set<TaskId>)
    requires SelectedFrom(board, selected) && Steady(env, succeeds) && !host.PendingContribution?
    ensures LeastFixedPoint(selected, Completed(board), succeeds,
              MergedIds(Shipped(env, host, board, DependencyOrder.Order(selected)).results))
  {
    hide Walked, Enabled, MergedIds, Shipped, DependencyOrder.Order, Sound, Steady;
    var ordered, completed := DependencyOrder.Order(selected), Completed(board);
    var done := Shipped(env, host, board, ordered);
    var m := MergedIds(done.results);
    WalkIsSteady(env, host, board, selected, succeeds);
    SelectedNotCompleted(board, selected);
    forall id
      ensures id in m <==> id in Enabled(selected, completed, succeeds, m)
      ensures id in m ==> id in succeeds
    {
      if id in m {
        MergedIsEnabled(selected, completed, succeeds, done.results, id);
      } else if id in Enabled(selected, completed, succeeds, m) {
        EnabledIsMerged(selected, completed, succeeds, done.results, id);
      }
    }
    forall x | Enabled(selected, completed, succeeds, x) <= x
      ensures m <= x
    {
      EnabledInOrder(selected, completed, succeeds, x);
      MergedWithin(ordered, Start(board, host), done, succeeds, x, |done.results|);
      assert done.results[..|done.results|] == done.results;
    }
  }

  lemma EnabledInOrder(selected: seq<Task>, completed: set<TaskId>, succeeds: set<TaskId>, x: set<TaskId>)
    requires DistinctIds(selected)
    ensures Enabled(DependencyOrder.Order(selected), completed, succeeds, x) == Enabled(selected, completed, succeeds, x)
  {
    DependencyOrder.OrderIsGreedy(selected);
  }

  lemma MergedMonotone(results: seq<TaskResult>, k: nat)
    requires k <= |results|
    ensures MergedIds(results[..k]) <= MergedIds(results)
  {
  }

  lemma SelectedNotCompleted(board: seq<Task>, selected: seq<Task>)
    requires SelectedFrom(board, selected)
    ensures Completed(board) !! IdSet(selected)
  {
    forall t, u | t in selected && u in board && t.id == u.id
      ensures t == u
    {
      var i :| 0 <= i < |board| && board[i] == t;
      var j :| 0 <= j < |board| && board[j] == u;
    }
  }

  lemma EnabledMerges(selected: seq<Task>, completed: set<TaskId>, succeeds: set<TaskId>, results: seq<TaskResult>, k: nat)
    requires DistinctIds(selected) && completed !! IdSet(selected)
    requires var ordered := DependencyOrder.Order(selected);
             && |results| == |ordered| && k < |ordered|
             && (forall j :: 0 <= j < |results| ==> Explained(ordered, completed, results, j))
             && Decided(ordered, completed, succeeds, results, k)
             && ordered[k].id in succeeds
             && !Unshipped(ordered[k], completed + MergedIds(results))
    ensures results[k].outcome == Merged
  {
    if results[k].outcome != Merged {
      var ordered := DependencyOrder.Order(selected);
      var b :| b in Blockers(ordered[k]) && b !in completed + MergedIds(results[..k]);
      NotTakenTooEarly(selected, completed, results, k, b);
    }
  }

  /** No other processing order merges more, even with the queue free to hold tasks back. */
  lemma NoOrderMergesMore(env: Env, other: Env, host: HostContribution, host': HostContribution, board: seq<Task>,
    selected: seq<Task>, order: seq<Task>, succeeds: set<TaskId>)
    requires SelectedFrom(board, selected) && Steady(env, succeeds) && !host.PendingContribution?
    requires DistinctIds(order) && forall t :: t in order ==> t in selected
    requires forall i, t, p :: other.process(i, t, p).outcome == Merged ==> t.id in succeeds
    ensures MergedIds(Shipped(other, host', board, order).results)
         <= MergedIds(Shipped(env, host, board, DependencyOrder.Order(selected)).results)
  {
    var completed := Completed(board);
    var m := MergedIds(Shipped(env, host, board, DependencyOrder.Order(selected)).results);
    MergedIsLeastFixedPoint(env, host, board, selected, succeeds);
    BatchSound(other, host', board, order);
    var done := Shipped(other, host', board, order);
    OnlyOracleMerges(other, host', board, order, succeeds);
    assert Enabled(order, completed, succeeds, m) <= Enabled(selected, completed, succeeds, m);
    MergedWithin(order, Start(board, host'), done, succeeds, m, |done.results|);
    assert done.results[..|done.results|] == done.results;
  }

  lemma BlockRestMergesNothing(tasks: seq<Task>, results: seq<TaskResult>)
    ensures MergedIds(BlockRest(tasks, results)) == MergedIds(results)
    decreases |tasks|
  {
    if tasks != [] && !exists r :: r in results && r.taskId == tasks[0].id {
      MergedAppend(results, PendingResult(tasks[0], QueueHeadBlocked));
    }
  }

  lemma {:induction false} ShipOracleMerges(env: Env, ordered: seq<Task>, i: nat, b: Batch, succeeds: set<TaskId>)
    requires i <= |ordered| && MergedIds(b.results) <= succeeds
    requires forall i, t, p :: env.process(i, t, p).outcome == Merged ==> t.id in succeeds
    ensures MergedIds(Ship(env, ordered, i, b).results) <= succeeds
    decreases |ordered| - i
  {
    if i < |ordered| {
      var next := Turn(env, i, ordered[i], b);
      MergedAppend(b.results, next.results[|b.results|]);
      if EndsWalk(env, i, ordered[i], b) {
        BlockRestMergesNothing(ordered, next.results);
      } else {
        ShipOracleMerges(env, ordered, i + 1, next, succeeds);
      }
    }
  }

  lemma OnlyOracleMerges(env: Env, host: HostContribution, board: seq<Task>, ordered: seq<Task>, succeeds: set<TaskId>)
    requires forall i, t, p :: env.process(i, t, p).outcome == Merged ==> t.id in succeeds
    ensures MergedIds(Shipped(env, host, board, ordered).results) <= succeeds
  {
    if !host.PendingContribution? {
      ShipOracleMerges(env, ordered, 0, Start(board, host), succeeds);
    }
  }

  // ----- Cycles

  /** What a selected task still waits for when the batch starts, selected or not. */
  ghost function WaitsFor(ordered: seq<Task>, completed: set<TaskId>): set<(TaskId, TaskId)> {
    set t, b | t in ordered && b in Blockers(t) && b !in completed :: (t.id, b)
  }

  lemma {:induction false} MergedAlong(ordered: seq<Task>, start: Batch, done: Batch, w: seq<TaskId>, from: nat, to: nat, p: nat) returns (q: nat)
    requires DistinctIds(ordered) && Sound(ordered, start, done)
    requires Graph.Walk(WaitsFor(ordered, start.shipped), w) && from <= to < |w|
    requires MergedAt(done.results, p, w[from])
    ensures MergedAt(done.results, q, w[to]) && q + (to - from) <= p
    decreases |w| - from
  {
    if from == to {
      q := p;
    } else {
      assert Graph.StepAt(WaitsFor(ordered, start.shipped), w, from);
      var t :| t in ordered && w[from + 1] in Blockers(t) && w[from + 1] !in start.shipped && t.id == w[from];
      assert Explained(ordered, start.shipped, done.results, p);
      var k :| 0 <= k < |ordered| && ordered[k] == t;
      assert k == p;
      assert w[from + 1] in MergedIds(done.results[..p]);
      var next := MergedPosition(done.results[..p], w[from + 1]);
      q := MergedAlong(ordered, start, done, w, from + 1, to, next);
    }
  }

  lemma OnePosition(ordered: seq<Task>, start: Batch, done: Batch, p: nat, q: nat, id: TaskId)
    requires DistinctIds(ordered) && Sound(ordered, start, done)
    requires MergedAt(done.results, p, id) && MergedAt(done.results, q, id)
    ensures p == q
  {
    assert Explained(ordered, start.shipped, done.results, p);
    assert Explained(ordered, start.shipped, done.results, q);
  }

  /** Under any oracle and in any order, no task on or downstream of a cycle of open blockers merges. */
  lemma CyclesNeverMerge(env: Env, host: HostContribution, board: seq<Task>, ordered: seq<Task>, w: seq<TaskId>, i: nat, j: nat)
    requires DistinctIds(ordered)
    requires Graph.Walk(WaitsFor(ordered, Completed(board)), w) && i < j < |w| && w[i] == w[j]
    ensures w[0] !in MergedIds(Shipped(env, host, board, ordered).results)
  {
    BatchSound(env, host, board, ordered);
    var start, done := Start(board, host), Shipped(env, host, board, ordered);
    if w[0] in MergedIds(done.results) {
      var p := MergedPosition(done.results, w[0]);
      var q := MergedAlong(ordered, start, done, w, 0, i, p);
      var r := MergedAlong(ordered, start, done, w, i, j, q);
      OnePosition(ordered, start, done, q, r, w[i]);
    }
  }
}
