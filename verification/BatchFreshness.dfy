/**
 * The whole choice of a batch: by strategy, with the conservative batch as fallback, and the last
 * check against the board as it is when the batch starts.
 */
module BatchFreshness {
  import opened Common
  import opened TaskBoard
  import opened PlannerCandidates
  import opened BatchPlanner

  datatype Strategy = Planned | Limited | Conservative

  datatype InvalidReason =
    | DuplicateSelection | OverLimit | NotInCandidateSet | NotReadyForAgent | ActiveClaimHeld

  datatype FallbackReason = PlannerFallback(reason: Fallback) | StaleSelection(reasons: seq<InvalidReason>)

  datatype Batch = Batch(
    selected: seq<Task>, deferred: seq<Deferred>, requested: Strategy, used: Strategy,
    maxTasks: int, fallback: Option<FallbackReason>, diagnosed: bool)

  // ----- Choosing by strategy

  /** The first eligible task alone; what a planner had deferred is kept unless it is that task. */
  function ConservativeBatch(
    candidates: seq<Task>, requested: Strategy, maxTasks: int, fallback: Option<FallbackReason>, planned: seq<Deferred>): Batch
  {
    var eligible := Eligible(candidates);
    var selected := Take(eligible, 1);
    var ids := IdSet(selected);
    Batch(
      selected,
      Filter((d: Deferred) => d.taskId !in ids, planned) + AsOverMax(IdsOf(Filter((t: Task) => t.id !in ids, eligible))),
      requested, Conservative, maxTasks, fallback, false)
  }

  function IdsOf(tasks: seq<Task>): (r: seq<TaskId>)
    ensures forall id :: id in r <==> id in IdSet(tasks)
  {
    var r := seq(|tasks|, i requires 0 <= i < |tasks| => tasks[i].id);
    assert forall i :: 0 <= i < |tasks| ==> r[i] == tasks[i].id;
    r
  }

  function LimitedBatch(candidates: seq<Task>, maxTasks: nat): Batch {
    var eligible := Eligible(candidates);
    var n := if maxTasks < |eligible| then maxTasks else |eligible|;
    Batch(eligible[..n], AsOverMax(IdsOf(eligible[n..])), Limited, Limited, maxTasks, None, false)
  }

  /** The first eligible tasks are selected, the others deferred in order for lack of room, and none is both. */
  lemma LimitedPartitions(candidates: seq<Task>, maxTasks: nat)
    requires DistinctIds(Eligible(candidates))
    ensures var b := LimitedBatch(candidates, maxTasks);
            && b.requested == b.used == Limited && b.fallback.None?
            && |b.selected| <= maxTasks
            && (|b.selected| < maxTasks ==> b.deferred == [])
            && b.selected <= Eligible(candidates)
            && OthersInOrder(b.deferred, Eligible(candidates)[|b.selected|..])
            && forall task :: task in Eligible(candidates) ==>
                 (task in b.selected <==> Deferred(task.id, OverMaxTasks) !in b.deferred)
  {
    hide Eligible, DistinctIds;
    var eligible, b := Eligible(candidates), LimitedBatch(candidates, maxTasks);
    var n := |b.selected|;
    assert b.deferred == AsOverMax(IdsOf(eligible[n..]));
    forall task | task in eligible
      ensures task in b.selected <==> Deferred(task.id, OverMaxTasks) !in b.deferred
    {
      BeforeOrBehind(eligible, n, task);
    }
  }

  lemma BeforeOrBehind(tasks: seq<Task>, n: nat, task: Task)
    requires DistinctIds(tasks) && n <= |tasks| && task in tasks
    ensures task in tasks[..n] <==> task.id !in IdSet(tasks[n..])
  {
    var k :| 0 <= k < |tasks| && tasks[k] == task;
    if k >= n {
      assert tasks[n..][k - n] == task;
    } else {
      assert tasks[..n][k] == task;
    }
  }

  datatype Reply = NotConfigured | Threw | Unparsable | Replied(plan: Plan)

  method PlanPlannedBatch(candidates: seq<Task>, sources: Sources, reply: Reply, maxTasks: int) returns (b: Batch)
    requires DistinctIds(candidates)
    ensures b.requested == Planned && b.maxTasks == maxTasks
    ensures var eligible := Eligible(candidates);
            if reply.Replied? && ValidPlan(reply.plan, IdSet(eligible), maxTasks) then
              && b.used == Planned && b.fallback.None?
              && (reply.plan.selected == [] ==> b.selected == [] && b.deferred == reply.plan.deferred && !b.diagnosed)
              && (reply.plan.selected != [] ==>
                    Selection(b.selected, b.deferred, b.diagnosed)
                    == PlannedSelection(eligible, EnrichAll(eligible, sources), reply.plan, maxTasks))
            else
              && b.fallback.Some?
              && FallsBack(b, eligible, if reply.Replied? then reply.plan.deferred else [])
              && (reply.NotConfigured? ==> b.fallback == Some(PlannerFallback(PlannerUnavailable)))
              && (reply.Threw? ==> b.fallback == Some(PlannerFallback(PlannerFailed)))
              && (reply.Unparsable? ==> b.fallback == Some(PlannerFallback(MalformedOutput)))
              && (reply.Replied? ==>
                    b.fallback.value.PlannerFallback? && Faulty(reply.plan, IdSet(eligible), maxTasks, b.fallback.value.reason))
    ensures forall task :: task in b.selected ==> task in candidates && IsEligible(task)
    ensures |b.selected| <= if maxTasks >= 1 then maxTasks else 1
  {
    hide EnrichAll, Overridden, Kept, Recovered, SelectById, ValidPlan, Faulty;
    var eligible := Eligible(candidates);
    EligibleDistinct(candidates);
    if !reply.Replied? {
      var why := match reply case NotConfigured => PlannerUnavailable case Threw => PlannerFailed case _ => MalformedOutput;
      b := ConservativeBatch(candidates, Planned, maxTasks, Some(PlannerFallback(why)), []);
      ghost var kept := ConservativeIsFirstAlone(candidates, Planned, maxTasks, b.fallback, []);
      return;
    }
    var issue := ValidatePlannerOutput(reply.plan, IdSet(eligible), maxTasks);
    if issue.Some? {
      b := ConservativeBatch(candidates, Planned, maxTasks, Some(PlannerFallback(issue.value)), reply.plan.deferred);
      ghost var kept := ConservativeIsFirstAlone(candidates, Planned, maxTasks, b.fallback, reply.plan.deferred);
      return;
    }
    if reply.plan.selected == [] {
      return Batch([], reply.plan.deferred, Planned, Planned, maxTasks, None, false);
    }
    var s := ResolvePlannedSelection(eligible, EnrichAll(eligible, sources), reply.plan, maxTasks);
    PlannedIsEligible(eligible, sources, reply.plan, maxTasks);
    return Batch(s.selected, s.deferred, Planned, Planned, maxTasks, None, s.diagnosed);
  }

  lemma EligibleDistinct(candidates: seq<Task>)
    requires DistinctIds(candidates)
    ensures DistinctIds(Eligible(candidates))
  {
    FilterPicks(IsEligible, candidates);
    PickedDistinct(Eligible(candidates), candidates, Positions(IsEligible, candidates));
  }

  lemma PlannedIsEligible(eligible: seq<Task>, sources: Sources, plan: Plan, maxTasks: int)
    requires DistinctIds(eligible) && ValidPlan(plan, IdSet(eligible), maxTasks)
    ensures var s := PlannedSelection(eligible, EnrichAll(eligible, sources), plan, maxTasks);
            |s.selected| <= maxTasks && forall task :: task in s.selected ==> task in eligible
  {
    hide EnrichAll, ValidPlan, WrongId, Wrong, DistinctIds;
    var s := PlannedSelection(eligible, EnrichAll(eligible, sources), plan, maxTasks);
    var n := |plan.selected|;
    var at := PlannedSelectionSound(eligible, sources, plan, maxTasks);
    forall k | 0 <= k < |s.selected|
      ensures s.selected[k] in eligible
    {
      if k >= n {
        assert s.selected[n..][k - n] == eligible[at[k - n]];
      }
    }
  }

  /** The first eligible task; kept deferrals at their places in `planned`; then the other eligible tasks in order. */
  ghost predicate FirstAlone(b: Batch, eligible: seq<Task>, planned: seq<Deferred>, kept: seq<nat>) {
    && b.used == Conservative && !b.diagnosed && b.selected == Take(eligible, 1)
    && if eligible == [] then b.deferred == planned
       else
         && |b.deferred| == |kept| + |eligible| - 1
         && PickedAt(b.deferred[..|kept|], planned, kept)
         && (forall j :: j in kept <==> 0 <= j < |planned| && planned[j].taskId != eligible[0].id)
         && OthersInOrder(b.deferred[|kept|..], eligible[1..])
  }

  ghost predicate FallsBack(b: Batch, eligible: seq<Task>, planned: seq<Deferred>) {
    exists kept :: FirstAlone(b, eligible, planned, kept)
  }

  ghost predicate OthersInOrder(deferred: seq<Deferred>, tasks: seq<Task>) {
    |deferred| == |tasks| && forall k :: 0 <= k < |tasks| ==> deferred[k] == Deferred(tasks[k].id, OverMaxTasks)
  }

  lemma {:induction false} FilterAll<T>(keep: T -> bool, s: seq<T>)
    requires forall x :: x in s ==> keep(x)
    ensures Filter(keep, s) == s
  {
    if s != [] {
      var init, last := s[..|s| - 1], s[|s| - 1];
      assert s == init + [last];
      FilterAll(keep, init);
      assert last in s;
    }
  }

  lemma {:induction false} FilterHead(eligible: seq<Task>, ids: set<TaskId>)
    requires DistinctIds(eligible) && eligible != [] && ids == {eligible[0].id}
    ensures Filter((t: Task) => t.id !in ids, eligible) == eligible[1..]
    decreases |eligible|
  {
    if |eligible| > 1 {
      FilterHead(eligible[..|eligible| - 1], ids);
      assert eligible[1..] == eligible[..|eligible| - 1][1..] + [eligible[|eligible| - 1]];
    }
  }

  /** The fallback batch in full: no eligible task is lost, and no deferral of the planner but the selected task's own. */
  lemma ConservativeIsFirstAlone(
    candidates: seq<Task>, requested: Strategy, maxTasks: int, fallback: Option<FallbackReason>, planned: seq<Deferred>)
    returns (kept: seq<nat>)
    requires DistinctIds(Eligible(candidates))
    ensures FirstAlone(ConservativeBatch(candidates, requested, maxTasks, fallback, planned), Eligible(candidates), planned, kept)
  {
    hide Filter, Positions;
    var eligible := Eligible(candidates);
    var ids := IdSet(Take(eligible, 1));
    var keep := (d: Deferred) => d.taskId !in ids;
    kept := Positions(keep, planned);
    FilterPicks(keep, planned);
    if eligible == [] {
      FilterAll(keep, planned);
    } else {
      assert Take(eligible, 1) == [eligible[0]];
      FilterHead(eligible, ids);
    }
  }

  // ----- Checking the selection against the fresh board

  datatype Limit = AtMost(n: int) | Unlimited

  function TaskReason(task: Option<Task>): Option<InvalidReason> {
    if task.None? then Some(NotInCandidateSet)
    else if task.value.claimState == ActiveClaim then Some(ActiveClaimHeld)
    else if task.value.hubStatus != ReadyForAgent then Some(NotReadyForAgent)
    else if !IsEligible(task.value) then Some(NotInCandidateSet)
    else None
  }

  /** The board still has the task, and it is eligible. */
  predicate EligibleNow(board: seq<Task>, id: TaskId) {
    LastById(board, id).Some? && IsEligible(LastById(board, id).value)
  }

  function TaskReasons(ids: seq<TaskId>, board: seq<Task>): seq<InvalidReason> {
    if ids == [] then []
    else
      var reason := TaskReason(LastById(board, ids[|ids| - 1]));
      TaskReasons(ids[..|ids| - 1], board) + if reason.Some? then [reason.value] else []
  }

  /** Every reason once, in the order the checks come upon it. */
  ghost function FreshnessReasons(ids: seq<TaskId>, board: seq<Task>, limit: Limit): seq<InvalidReason> {
    Unique(
      (if Distinct(ids) then [] else [DuplicateSelection])
      + (if limit.AtMost? && |ids| > limit.n then [OverLimit] else [])
      + TaskReasons(ids, board))
  }

  ghost predicate Fresh(ids: seq<TaskId>, board: seq<Task>, limit: Limit) {
    && Distinct(ids)
    && (limit.AtMost? ==> |ids| <= limit.n)
    && forall id :: id in ids ==> EligibleNow(board, id)
  }

  lemma {:induction false} NoTaskReasons(ids: seq<TaskId>, board: seq<Task>)
    ensures TaskReasons(ids, board) == [] <==>
      forall id :: id in ids ==> EligibleNow(board, id)
  {
    hide LastById, TaskReason, EligibleNow;
    if ids != [] {
      var init, last := ids[..|ids| - 1], ids[|ids| - 1];
      NoTaskReasons(init, board);
      assert forall id :: id in ids <==> id in init || id == last by {
        assert ids == init + [last];
      }
      var reason := TaskReason(LastById(board, last));
      assert |TaskReasons(ids, board)| == |TaskReasons(init, board)| + if reason.Some? then 1 else 0;
      NoTaskReason(board, last);
    }
  }

  lemma NoTaskReason(board: seq<Task>, id: TaskId)
    ensures TaskReason(LastById(board, id)).None? <==> EligibleNow(board, id)
  {
  }

  /** There is nothing to object to exactly if the ids are distinct, few enough, and all eligible now. */
  lemma FreshIffNoReasons(ids: seq<TaskId>, board: seq<Task>, limit: Limit)
    ensures FreshnessReasons(ids, board, limit) == [] <==> Fresh(ids, board, limit)
  {
    NoTaskReasons(ids, board);
    var all := (if Distinct(ids) then [] else [DuplicateSelection])
               + (if limit.AtMost? && |ids| > limit.n then [OverLimit] else [])
               + TaskReasons(ids, board);
    assert all != [] ==> all[0] in Unique(all);
  }

  /** What a reason says about one id and the board. */
  ghost predicate OneApplies(board: seq<Task>, id: TaskId, reason: InvalidReason) {
    match reason
    case DuplicateSelection => false
    case OverLimit => false
    case NotInCandidateSet => forall task :: task in board ==> task.id != id
    case ActiveClaimHeld => exists task :: StandsFor(board, id, task) && task.claimState == ActiveClaim
    case NotReadyForAgent =>
      exists task :: StandsFor(board, id, task) && task.claimState != ActiveClaim && task.hubStatus != ReadyForAgent
  }

  /** What a reason says about the whole selection. */
  ghost predicate Applies(ids: seq<TaskId>, board: seq<Task>, limit: Limit, reason: InvalidReason) {
    match reason
    case DuplicateSelection => exists i, j :: 0 <= i < j < |ids| && ids[i] == ids[j]
    case OverLimit => limit.AtMost? && |ids| > limit.n
    case _ => exists id :: id in ids && OneApplies(board, id, reason)
  }

  lemma OneReasonMeans(board: seq<Task>, id: TaskId, reason: InvalidReason)
    ensures TaskReason(LastById(board, id)) == Some(reason) <==> OneApplies(board, id, reason)
  {
    hide LastById, StandsFor;
    LastStandsFor(board, id);
    NothingStands(board, id);
  }

  lemma {:induction false} NothingStands(board: seq<Task>, id: TaskId)
    ensures LastById(board, id).None? <==> forall task :: task in board ==> task.id != id
  {
    if board != [] {
      NothingStands(board[..|board| - 1], id);
      assert board == board[..|board| - 1] + [board[|board| - 1]];
    }
  }

  lemma {:induction false} TaskReasonsOf(ids: seq<TaskId>, board: seq<Task>)
    ensures forall reason :: reason in TaskReasons(ids, board) <==>
              exists id :: id in ids && TaskReason(LastById(board, id)) == Some(reason)
  {
    hide LastById, TaskReason;
    if ids != [] {
      var init, last := ids[..|ids| - 1], ids[|ids| - 1];
      TaskReasonsOf(init, board);
      assert forall id :: id in ids <==> id in init || id == last by {
        assert ids == init + [last];
      }
      var found := TaskReason(LastById(board, last));
      assert TaskReasons(ids, board) == TaskReasons(init, board) + if found.Some? then [found.value] else [];
    }
  }

  lemma TaskReasonMeans(ids: seq<TaskId>, board: seq<Task>, limit: Limit, reason: InvalidReason)
    requires !reason.DuplicateSelection? && !reason.OverLimit?
    ensures Applies(ids, board, limit, reason) <==> exists id :: id in ids && TaskReason(LastById(board, id)) == Some(reason)
  {
    hide LastById, TaskReason, OneApplies;
    forall id | id in ids
      ensures TaskReason(LastById(board, id)) == Some(reason) <==> OneApplies(board, id, reason)
    {
      OneReasonMeans(board, id, reason);
    }
  }

  lemma ReasonsApply(ids: seq<TaskId>, board: seq<Task>, limit: Limit)
    ensures var reasons := FreshnessReasons(ids, board, limit);
            Distinct(reasons) && forall reason :: reason in reasons <==> Applies(ids, board, limit, reason)
  {
    hide LastById, TaskReason, TaskReasons, OneApplies;
    TaskReasonsOf(ids, board);
    forall reason
      ensures reason in FreshnessReasons(ids, board, limit) <==> Applies(ids, board, limit, reason)
    {
      if !reason.DuplicateSelection? && !reason.OverLimit? {
        TaskReasonMeans(ids, board, limit, reason);
      } else {
        NoSuchTaskReason(ids, board, reason);
      }
    }
  }

  lemma NoSuchTaskReason(ids: seq<TaskId>, board: seq<Task>, reason: InvalidReason)
    requires reason.DuplicateSelection? || reason.OverLimit?
    ensures reason !in TaskReasons(ids, board)
  {
    TaskReasonsOf(ids, board);
  }

  method AddReason(reasons: seq<InvalidReason>, reason: InvalidReason, ghost all: seq<InvalidReason>)
    returns (r: seq<InvalidReason>)
    requires reasons == Unique(all)
    ensures r == Unique(all + [reason])
  {
    UniqueGrows(all, reason);
    r := if reason in reasons then reasons else reasons + [reason];
  }

  method HasDuplicate(ids: seq<TaskId>) returns (r: bool)
    ensures r <==> !Distinct(ids)
  {
    var seen: set<TaskId> := {};
    for k := 0 to |ids|
      invariant forall id :: id in seen <==> id in ids[..k]
      invariant Distinct(ids[..k])
    {
      if ids[k] in seen {
        RepeatIsNotDistinct(ids, k);
        return true;
      }
      seen := seen + {ids[k]};
      assert ids[..k + 1] == ids[..k] + [ids[k]];
    }
    assert ids[..|ids|] == ids;
    return false;
  }

  lemma RepeatIsNotDistinct(ids: seq<TaskId>, k: nat)
    requires k < |ids| && ids[k] in ids[..k]
    ensures !Distinct(ids)
  {
    var j :| 0 <= j < k && ids[..k][j] == ids[k];
  }

  method ValidateFreshness(ids: seq<TaskId>, board: seq<Task>, limit: Limit) returns (reasons: seq<InvalidReason>)
    ensures reasons == FreshnessReasons(ids, board, limit)
    ensures reasons == [] <==> Fresh(ids, board, limit)
    ensures Distinct(reasons) && forall reason :: reason in reasons <==> Applies(ids, board, limit, reason)
  {
    hide LastById, Unique, Distinct, Fresh, TaskReason, Applies;
    FreshIffNoReasons(ids, board, limit);
    ReasonsApply(ids, board, limit);
    ghost var all: seq<InvalidReason> := [];
    reasons := [];
    UniqueNone<InvalidReason>();
    var repeated := HasDuplicate(ids);
    if repeated {
      reasons := AddReason(reasons, DuplicateSelection, all);
      all := all + [DuplicateSelection];
    }
    if limit.AtMost? && |ids| > limit.n {
      reasons := AddReason(reasons, OverLimit, all);
      all := all + [OverLimit];
    }
    ghost var before := all;
    assert before == (if repeated then [DuplicateSelection] else []) + (if limit.AtMost? && |ids| > limit.n then [OverLimit] else []);
    assert all + [] == all;
    for i := 0 to |ids|
      invariant all == before + TaskReasons(ids[..i], board)
      invariant reasons == Unique(all)
    {
      assert ids[..i + 1][..i] == ids[..i];
      var reason := TaskReason(LastById(board, ids[i]));
      if reason.Some? {
        reasons := AddReason(reasons, reason.value, all);
        all := all + [reason.value];
      }
    }
    assert ids[..|ids|] == ids;
  }

  lemma UniqueNone<T(!new)>()
    ensures Unique<T>([]) == []
  {
  }

  datatype Resolved = Resolved(selected: seq<Task>, batch: Option<Batch>, fallback: Option<seq<InvalidReason>>)

  function EffectiveLimit(strategy: Option<Strategy>, maxTasks: Option<int>): Limit {
    if maxTasks.Some? then AtMost(maxTasks.value)
    else if strategy.Some? then AtMost(DEFAULT_MAX_TASKS) else Unlimited
  }

  /**
   * Whatever ids the planner came up with and whatever the board has become: the result names no
   * task twice, holds only tasks eligible now, and keeps the limit. It is the given ids in order
   * exactly if all of them are fresh, and the first eligible task otherwise.
   */
  method ResolveFreshSelection(
    ids: seq<TaskId>, board: seq<Task>, strategy: Option<Strategy>, maxTasks: Option<int>, batch: Option<Batch>)
    returns (r: Resolved)
    ensures var limit := EffectiveLimit(strategy, maxTasks);
            && DistinctIds(r.selected)
            && (forall task :: task in r.selected ==> task in board && IsEligible(task))
            && (limit.AtMost? && limit.n >= 1 ==> |r.selected| <= limit.n)
    ensures maxTasks.Some? && maxTasks.value >= 1 ==> |r.selected| <= maxTasks.value
    ensures maxTasks.None? && strategy.Some? ==> |r.selected| <= DEFAULT_MAX_TASKS
    ensures var limit := EffectiveLimit(strategy, maxTasks);
            if Fresh(ids, board, limit) then
              && r.fallback.None? && r.batch == batch
              && |r.selected| == |ids| && forall k :: 0 <= k < |ids| ==> r.selected[k].id == ids[k]
            else
              && r.fallback == Some(FreshnessReasons(ids, board, limit)) && r.fallback.value != []
              && r.selected == Take(Eligible(board), 1)
              && (r.batch.Some? <==> batch.Some?)
              && (batch.Some? ==>
                    r.batch.value.requested == batch.value.requested && r.batch.value.used == Conservative
                    && r.batch.value.selected == r.selected
                    && (DistinctIds(board) ==> FallsBack(r.batch.value, Eligible(board), []))
                    && r.batch.value.fallback == Some(StaleSelection(r.fallback.value)))
  {
    hide LastById, SelectById, FreshnessReasons;
    var limit := EffectiveLimit(strategy, maxTasks);
    var reasons := ValidateFreshness(ids, board, limit);
    if reasons == [] {
      var selected := SelectById(board, ids);
      assert forall id :: id in ids ==> id in IdSet(board);
      SelectedInOrder(board, ids);
      PicksDistinct(selected, ids);
      assert forall k :: 0 <= k < |ids| ==> ids[k] in ids;
      return Resolved(selected, batch, None);
    }
    var limitOrDefault := if maxTasks.Some? then maxTasks.value else DEFAULT_MAX_TASKS;
    var fallback := ConservativeBatch(board, Conservative, limitOrDefault, Some(StaleSelection(reasons)), []);
    if DistinctIds(board) {
      EligibleDistinct(board);
      ghost var kept := ConservativeIsFirstAlone(board, Conservative, limitOrDefault, Some(StaleSelection(reasons)), []);
      assert FirstAlone(fallback.(requested := if batch.Some? then batch.value.requested else Conservative), Eligible(board), [], kept);
    }
    if batch.Some? {
      return Resolved(fallback.selected, Some(fallback.(requested := batch.value.requested)), Some(reasons));
    }
    return Resolved(fallback.selected, None, Some(reasons));
  }
}
