/** Choosing a batch from an untrusted plan. */
module BatchPlanner {
  // The plan is validated, and its wrong deferrals are overridden as far as there is room. The outcome
  // is checked once more against a freshly read board in `BatchFreshness`.

  import opened Common
  import opened TaskBoard
  import opened PlannerCandidates

  const DEFAULT_MAX_TASKS := 3

  datatype DeferredReason =
    | ExplicitBlocker | SelectedApiShapeDependency | SameCoreModule | DocsOrQaForSelectedBehavior
    | DesignDecisionDependency | OverMaxTasks | LowerPriority

  datatype Deferred = Deferred(taskId: TaskId, reason: DeferredReason)

  datatype Plan = Plan(selected: seq<TaskId>, deferred: seq<Deferred>)

  datatype Fallback =
    | PlannerUnavailable | PlannerFailed | MalformedOutput | InvalidTaskIds | DuplicateTaskIds | TooManyTasks

  function Filter<T>(keep: T -> bool, s: seq<T>): (r: seq<T>)
    ensures forall x :: x in r ==> x in s && keep(x)
    ensures forall x :: x in s && keep(x) ==> x in r
    ensures |r| <= |s|
  {
    if s == [] then []
    else
      assert s == s[..|s| - 1] + [s[|s| - 1]];
      Filter(keep, s[..|s| - 1]) + if keep(s[|s| - 1]) then [s[|s| - 1]] else []
  }

  function Take<T>(s: seq<T>, n: int): (r: seq<T>) {
    if n <= 0 then [] else if n < |s| then s[..n] else s
  }

  function Eligible(tasks: seq<Task>): seq<Task> {
    Filter(IsEligible, tasks)
  }

  // ----- Validating the plan

  ghost predicate ValidPlan(plan: Plan, eligible: set<TaskId>, maxTasks: int) {
    && (forall id :: id in plan.selected ==> id in eligible)
    && Distinct(plan.selected)
    && |plan.selected| <= maxTasks
  }

  /** Everything before position `k` is fine. */
  ghost predicate FineBefore(selected: seq<TaskId>, eligible: set<TaskId>, k: nat)
    requires k <= |selected|
  {
    Distinct(selected[..k]) && forall j :: 0 <= j < k ==> selected[j] in eligible
  }

  ghost predicate FirstFault(selected: seq<TaskId>, eligible: set<TaskId>, k: nat, fault: Fallback)
    requires k < |selected|
  {
    && FineBefore(selected, eligible, k)
    && match fault
       case InvalidTaskIds => selected[k] !in eligible
       case DuplicateTaskIds => selected[k] in eligible && selected[k] in selected[..k]
       case _ => false
  }

  /** The first thing wrong with the plan; that it is too long counts last. */
  ghost predicate Faulty(plan: Plan, eligible: set<TaskId>, maxTasks: int, fault: Fallback) {
    if fault.TooManyTasks?
    then FineBefore(plan.selected, eligible, |plan.selected|) && |plan.selected| > maxTasks
    else exists k :: 0 <= k < |plan.selected| && FirstFault(plan.selected, eligible, k, fault)
  }

  method ValidatePlannerOutput(plan: Plan, eligible: set<TaskId>, maxTasks: int) returns (r: Option<Fallback>)
    ensures r.None? <==> ValidPlan(plan, eligible, maxTasks)
    ensures r.Some? ==> Faulty(plan, eligible, maxTasks, r.value)
  {
    var seen: set<TaskId> := {};
    for k := 0 to |plan.selected|
      invariant FineBefore(plan.selected, eligible, k)
      invariant forall id :: id in seen <==> id in plan.selected[..k]
    {
      var id := plan.selected[k];
      if id !in eligible {
        assert FirstFault(plan.selected, eligible, k, InvalidTaskIds);
        return Some(InvalidTaskIds);
      }
      if id in seen {
        assert FirstFault(plan.selected, eligible, k, DuplicateTaskIds);
        return Some(DuplicateTaskIds);
      }
      seen := seen + {id};
      assert plan.selected[..k + 1] == plan.selected[..k] + [id];
    }
    assert plan.selected[..|plan.selected|] == plan.selected;
    return if |plan.selected| > maxTasks then Some(TooManyTasks) else None;
  }

  // ----- The planned selection

  function SelectById(tasks: seq<Task>, ids: seq<TaskId>): seq<Task> {
    if ids == [] then []
    else
      var task := LastById(tasks, ids[|ids| - 1]);
      SelectById(tasks, ids[..|ids| - 1]) + if task.Some? then [task.value] else []
  }

  function CandidateById(candidates: seq<Candidate>, id: TaskId): (r: Option<Candidate>)
    ensures r.Some? ==> r.value in candidates && r.value.id == id
    ensures r.None? <==> forall c :: c in candidates ==> c.id != id
  {
    if candidates == [] then None
    else
      var n := |candidates| - 1;
      assert candidates == candidates[..n] + [candidates[n]];
      if candidates[n].id == id then Some(candidates[n]) else CandidateById(candidates[..n], id)
  }

  /** The tasks that the selected candidates' blockers resolve to. */
  function BlockersOfPicks(candidates: seq<Candidate>, selected: seq<TaskId>): set<TaskId> {
    set c, b | c in candidates && c.id in selected && b in c.resolution.resolved :: b.taskId
  }

  predicate Overrides(candidates: seq<Candidate>, selected: seq<TaskId>, d: Deferred) {
    && d.reason == ExplicitBlocker
    && CandidateById(candidates, d.taskId).Some?
    && CandidateById(candidates, d.taskId).value.resolution.open == []
    && CandidateById(candidates, d.taskId).value.resolution.unknown == []
    && d.taskId !in BlockersOfPicks(candidates, selected)
  }

  function TaskIds(deferred: seq<Deferred>): (r: seq<TaskId>)
    ensures forall id :: id in r <==> exists d :: d in deferred && d.taskId == id
  {
    var r := seq(|deferred|, i requires 0 <= i < |deferred| => deferred[i].taskId);
    assert forall i :: 0 <= i < |deferred| ==> r[i] == deferred[i].taskId;
    r
  }

  /** The deferrals that are overridden, or those that are not. */
  function Deferrals(candidates: seq<Candidate>, selected: seq<TaskId>, deferred: seq<Deferred>, overridden: bool): (r: seq<Deferred>)
    ensures forall d :: d in r <==> d in deferred && Overrides(candidates, selected, d) == overridden
  {
    if deferred == [] then []
    else
      var n := |deferred| - 1;
      assert deferred == deferred[..n] + [deferred[n]];
      Deferrals(candidates, selected, deferred[..n], overridden)
      + if Overrides(candidates, selected, deferred[n]) == overridden then [deferred[n]] else []
  }

  function Overridden(candidates: seq<Candidate>, plan: Plan): seq<TaskId> {
    Unique(TaskIds(Deferrals(candidates, plan.selected, plan.deferred, true)))
  }

  function Kept(candidates: seq<Candidate>, plan: Plan): seq<Deferred> {
    Deferrals(candidates, plan.selected, plan.deferred, false)
  }

  /** The overridden tasks there is room for, in candidate order. */
  function Recovered(eligible: seq<Task>, overridden: seq<TaskId>, capacity: int): seq<Task> {
    Take(Filter((t: Task) => t.id in overridden, eligible), capacity)
  }

  function AsOverMax(ids: seq<TaskId>): (r: seq<Deferred>)
    ensures forall d :: d in r <==> d.reason == OverMaxTasks && d.taskId in ids
  {
    var r := seq(|ids|, i requires 0 <= i < |ids| => Deferred(ids[i], OverMaxTasks));
    assert forall i :: 0 <= i < |ids| ==> r[i].taskId == ids[i];
    r
  }

  datatype Selection = Selection(selected: seq<Task>, deferred: seq<Deferred>, diagnosed: bool)

  function PlannedSelection(eligible: seq<Task>, candidates: seq<Candidate>, plan: Plan, maxTasks: int): Selection {
    var picks := SelectById(eligible, plan.selected);
    var overridden := Overridden(candidates, plan);
    var recovered := Recovered(eligible, overridden, maxTasks - |picks|);
    Selection(
      picks + recovered,
      Kept(candidates, plan) + AsOverMax(Filter(id => id !in IdSet(recovered), overridden)),
      overridden != [])
  }

  method CollectBlockersOfPicks(candidates: seq<Candidate>, selected: seq<TaskId>) returns (blockers: set<TaskId>)
    ensures blockers == BlockersOfPicks(candidates, selected)
  {
    blockers := {};
    for i := 0 to |candidates|
      invariant blockers == BlockersOfPicks(candidates[..i], selected)
    {
      var c := candidates[i];
      assert candidates[..i + 1] == candidates[..i] + [c];
      if c.id in selected {
        for j := 0 to |c.resolution.resolved|
          invariant blockers == BlockersOfPicks(candidates[..i], selected)
                             + (set b | b in c.resolution.resolved[..j] :: b.taskId)
        {
          assert c.resolution.resolved[..j + 1] == c.resolution.resolved[..j] + [c.resolution.resolved[j]];
          blockers := blockers + {c.resolution.resolved[j].taskId};
        }
        assert c.resolution.resolved[..|c.resolution.resolved|] == c.resolution.resolved;
      }
    }
    assert candidates[..|candidates|] == candidates;
  }

  lemma OverriddenGrows(candidates: seq<Candidate>, selected: seq<TaskId>, deferred: seq<Deferred>, d: Deferred)
    ensures var more := Plan(selected, deferred + [d]);
            var plan := Plan(selected, deferred);
            && Kept(candidates, more) == Kept(candidates, plan) + (if Overrides(candidates, selected, d) then [] else [d])
            && Overridden(candidates, more) ==
                 if Overrides(candidates, selected, d) && d.taskId !in Overridden(candidates, plan)
                 then Overridden(candidates, plan) + [d.taskId] else Overridden(candidates, plan)
  {
    hide Overrides;
    assert (deferred + [d])[..|deferred|] == deferred;
    var before, kept := Deferrals(candidates, selected, deferred, true), Deferrals(candidates, selected, deferred, false);
    assert before + [] == before && kept + [] == kept;
    if Overrides(candidates, selected, d) {
      assert TaskIds(before + [d]) == TaskIds(before) + [d.taskId];
      UniqueGrows(TaskIds(before), d.taskId);
    }
  }

  method ResolvePlannedSelection(eligible: seq<Task>, candidates: seq<Candidate>, plan: Plan, maxTasks: int) returns (r: Selection)
    ensures r == PlannedSelection(eligible, candidates, plan, maxTasks)
  {
    hide Overrides, Overridden, Kept, Recovered, BlockersOfPicks;
    var picks := SelectById(eligible, plan.selected);
    var blockers := CollectBlockersOfPicks(candidates, plan.selected);
    var kept: seq<Deferred> := [];
    var overridden: seq<TaskId> := [];
    OverriddenNone(candidates, plan.selected);
    for i := 0 to |plan.deferred|
      invariant kept == Kept(candidates, Plan(plan.selected, plan.deferred[..i]))
      invariant overridden == Overridden(candidates, Plan(plan.selected, plan.deferred[..i]))
    {
      var d := plan.deferred[i];
      assert plan.deferred[..i + 1] == plan.deferred[..i] + [d];
      OverriddenGrows(candidates, plan.selected, plan.deferred[..i], d);
      var candidate := CandidateById(candidates, d.taskId);
      OverridesUnfolds(candidates, plan.selected, d);
      if d.reason == ExplicitBlocker && candidate.Some? && candidate.value.resolution.open == []
         && candidate.value.resolution.unknown == [] && candidate.value.id !in blockers {
        if d.taskId !in overridden {
          overridden := overridden + [d.taskId];
        }
      } else {
        kept := kept + [d];
      }
    }
    assert plan.deferred[..|plan.deferred|] == plan.deferred;
    var capacity := if maxTasks - |picks| > 0 then maxTasks - |picks| else 0;
    var recovered := Recovered(eligible, overridden, capacity);
    NoRoom(eligible, overridden, maxTasks - |picks|);
    var remaining := Filter(id => id !in IdSet(recovered), overridden);
    return Selection(picks + recovered, kept + AsOverMax(remaining), overridden != []);
  }

  lemma NoRoom(eligible: seq<Task>, overridden: seq<TaskId>, room: int)
    ensures room <= 0 ==> Recovered(eligible, overridden, room) == Recovered(eligible, overridden, 0)
  {
  }

  lemma OverriddenNone(candidates: seq<Candidate>, selected: seq<TaskId>)
    ensures Kept(candidates, Plan(selected, [])) == [] && Overridden(candidates, Plan(selected, [])) == []
  {
  }

  lemma OverridesUnfolds(candidates: seq<Candidate>, selected: seq<TaskId>, d: Deferred)
    ensures var candidate := CandidateById(candidates, d.taskId);
            Overrides(candidates, selected, d) <==>
              && d.reason == ExplicitBlocker && candidate.Some? && candidate.value.resolution.open == []
              && candidate.value.resolution.unknown == [] && candidate.value.id !in BlockersOfPicks(candidates, selected)
  {
  }

  // ----- What the planned selection promises

  lemma {:induction false} SelectedInOrder(tasks: seq<Task>, ids: seq<TaskId>)
    requires forall id :: id in ids ==> id in IdSet(tasks)
    ensures |SelectById(tasks, ids)| == |ids|
    ensures forall k :: 0 <= k < |ids| ==> SelectById(tasks, ids)[k].id == ids[k] && SelectById(tasks, ids)[k] in tasks
    ensures forall k :: 0 <= k < |ids| ==> Some(SelectById(tasks, ids)[k]) == LastById(tasks, ids[k])
  {
    hide IdSet, LastById;
    if ids != [] {
      var n := |ids| - 1;
      assert forall id :: id in ids[..n] ==> id in ids;
      SelectedInOrder(tasks, ids[..n]);
      LastByIdFinds(tasks, ids[n]);
      var before, task := SelectById(tasks, ids[..n]), LastById(tasks, ids[n]).value;
      assert SelectById(tasks, ids) == before + [task];
      assert forall k :: 0 <= k < n ==> ids[..n][k] == ids[k];
    }
  }

  lemma LastByIdFinds(tasks: seq<Task>, id: TaskId)
    requires id in IdSet(tasks)
    ensures LastById(tasks, id).Some?
  {
  }

  /** `s` is what is left of `all` at the increasing positions `at`. */
  ghost predicate PickedAt<T>(s: seq<T>, all: seq<T>, at: seq<nat>) {
    && |at| == |s|
    && (forall k :: 0 <= k < |s| ==> at[k] < |all| && s[k] == all[at[k]])
    && (forall j, k :: 0 <= j < k < |s| ==> at[j] < at[k])
  }

  /** Where in `all` the elements to keep are. */
  function Positions<T>(keep: T -> bool, all: seq<T>): (at: seq<nat>)
    ensures forall j :: j in at <==> 0 <= j < |all| && keep(all[j])
  {
    if all == [] then []
    else
      var n := |all| - 1;
      assert forall j :: 0 <= j < n ==> all[..n][j] == all[j];
      Positions(keep, all[..n]) + if keep(all[n]) then [n] else []
  }

  lemma {:induction false} FilterPicks<T>(keep: T -> bool, all: seq<T>)
    ensures PickedAt(Filter(keep, all), all, Positions(keep, all))
  {
    if all != [] {
      var n := |all| - 1;
      FilterPicks(keep, all[..n]);
      PicksExtend(Filter(keep, all[..n]), all, Positions(keep, all[..n]));
    }
  }

  lemma PicksExtend<T>(s: seq<T>, all: seq<T>, at: seq<nat>)
    requires all != [] && PickedAt(s, all[..|all| - 1], at)
    ensures PickedAt(s, all, at) && s + [] == s && at + [] == at
    ensures PickedAt(s + [all[|all| - 1]], all, at + [|all| - 1])
  {
    assert forall k :: 0 <= k < |at| ==> all[..|all| - 1][at[k]] == all[at[k]];
  }

  /** The added tasks are the first overridden ones in candidate order; others are left out only for lack of room. */
  ghost predicate FirstOverridden(added: seq<Task>, eligible: seq<Task>, overridden: seq<TaskId>, at: seq<nat>, capacity: nat) {
    && PickedAt(added, eligible, at)
    && |added| <= capacity
    && (forall task :: task in added ==> task.id in overridden)
    && (forall j :: 0 <= j < |eligible| && eligible[j].id in overridden && j !in at ==>
          |added| == capacity && forall k :: 0 <= k < |at| ==> at[k] < j)
  }

  lemma RecoveredFirst(eligible: seq<Task>, overridden: seq<TaskId>, capacity: nat) returns (at: seq<nat>)
    ensures FirstOverridden(Recovered(eligible, overridden, capacity), eligible, overridden, at, capacity)
  {
    hide Filter, Positions;
    var keep := (t: Task) => t.id in overridden;
    FilterPicks(keep, eligible);
    var all := Positions(keep, eligible);
    var added := Recovered(eligible, overridden, capacity);
    assert added == Take(Filter(keep, eligible), capacity);
    at := all[..|added|];
    assert forall k :: 0 <= k < |added| ==> at[k] == all[k];
    forall j | 0 <= j < |eligible| && eligible[j].id in overridden && j !in at
      ensures |added| == capacity && forall k :: 0 <= k < |at| ==> at[k] < j
    {
      assert j in all by { assert keep(eligible[j]); }
      var k :| 0 <= k < |all| && all[k] == j;
      assert k >= |added|;
    }
  }

  /** Every deferral of the task for a blocker reason is refuted: all it declares is done, and no pick waits for it. */
  ghost predicate Refuted(eligible: seq<Task>, sources: Sources, selected: seq<TaskId>, id: TaskId) {
    && (exists task :: task in eligible && task.id == id && Clear(task, sources))
    && !PickWaits(eligible, sources, selected, id)
  }

  /** Some pick declares a blocker that names the task. */
  ghost predicate PickWaits(eligible: seq<Task>, sources: Sources, selected: seq<TaskId>, id: TaskId) {
    && sources.board.Some?
    && exists pick :: pick in eligible && pick.id in selected && WaitsOn(sources.board.value, Enrich(pick, sources).blockersDeclared, id)
  }

  ghost predicate WaitsOn(board: seq<Task>, declared: seq<BlockerRef>, id: TaskId) {
    exists b, task :: b in declared && Names(board, b, task) && task.id == id
  }

  lemma ResolvedWaits(declared: seq<BlockerRef>, board: seq<Task>, id: TaskId)
    ensures WaitsOn(board, declared, id)
       <==> exists b :: b in ResolveBlockers(declared, Some(board)).resolved && b.taskId == id
  {
    hide Resolve, Names;
    ScanSplits(declared, board);
    if b, task :| b in declared && Names(board, b, task) && task.id == id {
      ResolvesToNamed(board, b);
      assert ResolvedBlocker(b, task.id, task.hubStatus) in ResolveBlockers(declared, Some(board)).resolved;
    }
    if b :| b in ResolveBlockers(declared, Some(board)).resolved && b.taskId == id {
      ResolvesToNamed(board, b.blockerRef);
    }
  }

  lemma BlockersOfPicksAreWaitedFor(eligible: seq<Task>, sources: Sources, selected: seq<TaskId>, id: TaskId)
    ensures id in BlockersOfPicks(EnrichAll(eligible, sources), selected) <==> PickWaits(eligible, sources, selected, id)
  {
    hide WaitsOn, ResolveBlockers, MetadataBlockers;
    var candidates := EnrichAll(eligible, sources);
    if id in BlockersOfPicks(candidates, selected) {
      var c, b :| c in candidates && c.id in selected && b in c.resolution.resolved && b.taskId == id;
      var k :| 0 <= k < |candidates| && candidates[k] == c;
      assert c == Enrich(eligible[k], sources) && eligible[k] in eligible;
      NothingWithoutBoard(c.blockersDeclared);
      ResolvedWaits(c.blockersDeclared, sources.board.value, id);
    }
    if PickWaits(eligible, sources, selected, id) {
      var pick :| pick in eligible && pick.id in selected && WaitsOn(sources.board.value, Enrich(pick, sources).blockersDeclared, id);
      var k :| 0 <= k < |eligible| && eligible[k] == pick;
      assert candidates[k] == Enrich(pick, sources);
      ResolvedWaits(candidates[k].blockersDeclared, sources.board.value, id);
    }
  }

  lemma NothingWithoutBoard(declared: seq<BlockerRef>)
    ensures ResolveBlockers(declared, None).resolved == []
  {
  }

  ghost predicate Clear(task: Task, sources: Sources) {
    var declared := Enrich(task, sources).blockersDeclared;
    declared == [] || (sources.board.Some? && forall b :: b in declared ==> Settled(sources.board.value, b))
  }

  lemma CandidateOf(eligible: seq<Task>, sources: Sources, task: Task)
    requires DistinctIds(eligible) && task in eligible
    ensures CandidateById(EnrichAll(eligible, sources), task.id) == Some(Enrich(task, sources))
  {
    hide Enrich;
    EnrichKeepsId(eligible, sources);
    var candidates := EnrichAll(eligible, sources);
    var k :| 0 <= k < |eligible| && eligible[k] == task;
    assert candidates[k] == Enrich(task, sources);
    var found := CandidateById(candidates, task.id);
    assert found.Some?;
    var j :| 0 <= j < |candidates| && candidates[j] == found.value;
    assert j == k;
  }

  lemma EnrichKeepsId(eligible: seq<Task>, sources: Sources)
    ensures forall k :: 0 <= k < |eligible| ==> EnrichAll(eligible, sources)[k].id == eligible[k].id
  {
  }

  /** A deferral is overridden exactly if it gives a blocker as its reason and that is refuted. */
  lemma OverridesIffRefuted(eligible: seq<Task>, sources: Sources, selected: seq<TaskId>, d: Deferred)
    requires DistinctIds(eligible)
    ensures Overrides(EnrichAll(eligible, sources), selected, d)
       <==> d.reason == ExplicitBlocker && Refuted(eligible, sources, selected, d.taskId)
  {
    hide BlockersOfPicks, PickWaits, ResolveBlockers;
    var candidates := EnrichAll(eligible, sources);
    BlockersOfPicksAreWaitedFor(eligible, sources, selected, d.taskId);
    if task :| task in eligible && task.id == d.taskId {
      CandidateOf(eligible, sources, task);
      ClearIffSettled(Enrich(task, sources).blockersDeclared, sources.board);
      forall other | other in eligible && other.id == d.taskId
        ensures other == task
      {
      }
    } else {
      EnrichKeepsId(eligible, sources);
      assert forall c :: c in candidates ==> c.id != d.taskId;
    }
  }

  /** A deferral that the code overrides. */
  ghost predicate Wrong(eligible: seq<Task>, sources: Sources, plan: Plan, d: Deferred) {
    d in plan.deferred && d.reason == ExplicitBlocker && Refuted(eligible, sources, plan.selected, d.taskId)
  }

  ghost predicate WrongId(eligible: seq<Task>, sources: Sources, plan: Plan, id: TaskId) {
    exists d :: Wrong(eligible, sources, plan, d) && d.taskId == id
  }

  lemma OverridesAreWrong(eligible: seq<Task>, sources: Sources, plan: Plan)
    requires DistinctIds(eligible)
    ensures forall d :: d in plan.deferred ==>
              (Overrides(EnrichAll(eligible, sources), plan.selected, d) <==> Wrong(eligible, sources, plan, d))
  {
    hide Overrides, Refuted;
    forall d | d in plan.deferred
      ensures Overrides(EnrichAll(eligible, sources), plan.selected, d) <==> Wrong(eligible, sources, plan, d)
    {
      OverridesIffRefuted(eligible, sources, plan.selected, d);
    }
  }

  lemma OverriddenAreWrong(eligible: seq<Task>, sources: Sources, plan: Plan)
    requires DistinctIds(eligible)
    ensures var candidates := EnrichAll(eligible, sources);
            && (forall id :: id in Overridden(candidates, plan) <==> WrongId(eligible, sources, plan, id))
            && (forall d :: d in Kept(candidates, plan) <==> d in plan.deferred && !Wrong(eligible, sources, plan, d))
  {
    hide Overrides, Refuted;
    var candidates := EnrichAll(eligible, sources);
    OverridesAreWrong(eligible, sources, plan);
    var overriding := Deferrals(candidates, plan.selected, plan.deferred, true);
    forall id
      ensures id in Overridden(candidates, plan) <==> WrongId(eligible, sources, plan, id)
    {
      if id in TaskIds(overriding) {
        var d :| d in overriding && d.taskId == id;
        assert Wrong(eligible, sources, plan, d);
      }
      if d :| Wrong(eligible, sources, plan, d) && d.taskId == id {
        assert d in overriding;
      }
    }
  }

  /** The picks come first, and what is added are the first wrongly deferred tasks in candidate order that fit. */
  ghost predicate AddedAt(eligible: seq<Task>, sources: Sources, plan: Plan, maxTasks: int, s: Selection, at: seq<nat>) {
    var n := |plan.selected|;
    && n <= |s.selected| <= maxTasks
    && (forall k :: 0 <= k < n ==> s.selected[k].id == plan.selected[k] && s.selected[k] in eligible)
    && PickedAt(s.selected[n..], eligible, at)
    && (forall task :: task in s.selected[n..] ==> WrongId(eligible, sources, plan, task.id))
    && (forall j :: 0 <= j < |eligible| && WrongId(eligible, sources, plan, eligible[j].id) && j !in at ==>
          |s.selected| == maxTasks && forall k :: 0 <= k < |at| ==> at[k] < j)
  }

  /** What is deferred: right deferrals, and wrongly deferred tasks that were not added. */
  ghost predicate DefersOnly(eligible: seq<Task>, sources: Sources, plan: Plan, deferred: seq<Deferred>, added: seq<Task>) {
    && (forall d :: d in plan.deferred && !Wrong(eligible, sources, plan, d) ==> d in deferred)
    && (forall id :: WrongId(eligible, sources, plan, id) && id !in IdSet(added) ==> Deferred(id, OverMaxTasks) in deferred)
    && (forall d :: d in deferred ==>
          || (d in plan.deferred && !Wrong(eligible, sources, plan, d))
          || (d.reason == OverMaxTasks && WrongId(eligible, sources, plan, d.taskId) && d.taskId !in IdSet(added)))
  }

  /**
   * A valid plan becomes: its picks in order, then the first wrongly deferred tasks in candidate
   * order, never more than the limit. A wrongly deferred task is added, or deferred for lack of room
   * in a full batch; right deferrals stay, and nothing else is deferred.
   */
  ghost predicate Sound(eligible: seq<Task>, sources: Sources, plan: Plan, maxTasks: int, s: Selection, at: seq<nat>) {
    && AddedAt(eligible, sources, plan, maxTasks, s, at)
    && (s.diagnosed <==> exists d :: Wrong(eligible, sources, plan, d))
    && DefersOnly(eligible, sources, plan, s.deferred, s.selected[|plan.selected|..])
  }

  lemma DiagnosedIffWrong(eligible: seq<Task>, sources: Sources, plan: Plan)
    requires DistinctIds(eligible)
    ensures Overridden(EnrichAll(eligible, sources), plan) != [] <==> exists d :: Wrong(eligible, sources, plan, d)
  {
    hide Overridden, EnrichAll, Wrong;
    OverriddenAreWrong(eligible, sources, plan);
    var overridden := Overridden(EnrichAll(eligible, sources), plan);
    if overridden != [] {
      assert overridden[0] in overridden;
    }
    if d :| Wrong(eligible, sources, plan, d) {
      assert WrongId(eligible, sources, plan, d.taskId);
    }
  }

  lemma PlannedParts(eligible: seq<Task>, candidates: seq<Candidate>, plan: Plan, maxTasks: int)
    requires DistinctIds(eligible) && ValidPlan(plan, IdSet(eligible), maxTasks)
    ensures var s := PlannedSelection(eligible, candidates, plan, maxTasks);
            var added := Recovered(eligible, Overridden(candidates, plan), maxTasks - |plan.selected|);
            && s.selected == SelectById(eligible, plan.selected) + added
            && |SelectById(eligible, plan.selected)| == |plan.selected| && s.selected[|plan.selected|..] == added
            && s.deferred == Kept(candidates, plan) + AsOverMax(Filter(id => id !in IdSet(added), Overridden(candidates, plan)))
  {
    hide Overridden, Kept, Recovered, SelectById, DistinctIds, Distinct, Filter, AsOverMax;
    SelectedInOrder(eligible, plan.selected);
  }

  lemma SelectionAdds(eligible: seq<Task>, sources: Sources, plan: Plan, maxTasks: int) returns (at: seq<nat>)
    requires DistinctIds(eligible) && ValidPlan(plan, IdSet(eligible), maxTasks)
    ensures AddedAt(eligible, sources, plan, maxTasks, PlannedSelection(eligible, EnrichAll(eligible, sources), plan, maxTasks), at)
  {
    hide Overridden, Kept, Recovered, Wrong, WrongId, EnrichAll, SelectById, DistinctIds, Distinct, PlannedSelection, PickedAt;
    var candidates := EnrichAll(eligible, sources);
    PlannedParts(eligible, candidates, plan, maxTasks);
    SelectedInOrder(eligible, plan.selected);
    OverriddenAreWrong(eligible, sources, plan);
    at := RecoveredFirst(eligible, Overridden(candidates, plan), maxTasks - |plan.selected|);
  }

  lemma SelectionDefers(eligible: seq<Task>, sources: Sources, plan: Plan, maxTasks: int)
    requires DistinctIds(eligible) && ValidPlan(plan, IdSet(eligible), maxTasks)
    ensures var s := PlannedSelection(eligible, EnrichAll(eligible, sources), plan, maxTasks);
            |plan.selected| <= |s.selected| && DefersOnly(eligible, sources, plan, s.deferred, s.selected[|plan.selected|..])
  {
    hide Overridden, Kept, Recovered, Wrong, WrongId, EnrichAll, SelectById, DistinctIds, Distinct, PlannedSelection, IdSet;
    PlannedParts(eligible, EnrichAll(eligible, sources), plan, maxTasks);
    OverriddenAreWrong(eligible, sources, plan);
  }

  lemma PlannedSelectionSound(eligible: seq<Task>, sources: Sources, plan: Plan, maxTasks: int) returns (at: seq<nat>)
    requires DistinctIds(eligible) && ValidPlan(plan, IdSet(eligible), maxTasks)
    ensures Sound(eligible, sources, plan, maxTasks, PlannedSelection(eligible, EnrichAll(eligible, sources), plan, maxTasks), at)
  {
    hide AddedAt, DefersOnly, Overridden, Kept, Recovered, Wrong, EnrichAll, SelectById, DistinctIds, Distinct;
    at := SelectionAdds(eligible, sources, plan, maxTasks);
    SelectionDefers(eligible, sources, plan, maxTasks);
    DiagnosedIffWrong(eligible, sources, plan);
  }

  /** The first position in the plan of a wrong deferral of that task. */
  ghost predicate FirstWrong(eligible: seq<Task>, sources: Sources, plan: Plan, j: int) {
    && 0 <= j < |plan.deferred| && Wrong(eligible, sources, plan, plan.deferred[j])
    && forall i :: 0 <= i < j && plan.deferred[i].taskId == plan.deferred[j].taskId ==>
         !Wrong(eligible, sources, plan, plan.deferred[i])
  }

  /** The right deferrals, at their places in the plan. */
  ghost predicate RightAt(eligible: seq<Task>, sources: Sources, plan: Plan, stay: seq<Deferred>, kept: seq<nat>) {
    && PickedAt(stay, plan.deferred, kept)
    && (forall j :: j in kept <==> 0 <= j < |plan.deferred| && !Wrong(eligible, sources, plan, plan.deferred[j]))
  }

  /** The wrongly deferred tasks that are not added, each once, where the plan first has it. */
  ghost predicate LeftOverAt(
    eligible: seq<Task>, sources: Sources, plan: Plan, added: set<TaskId>, ids: seq<TaskId>, left: seq<nat>)
  {
    && IdsAt(ids, plan.deferred, left)
    && (forall j :: j in left <==> FirstWrong(eligible, sources, plan, j) && plan.deferred[j].taskId !in added)
  }

  /** What is deferred, in order: the plan's right deferrals as they stand, then the left-over tasks for lack of room. */
  ghost predicate DeferredAt(
    eligible: seq<Task>, sources: Sources, plan: Plan, s: Selection, ids: seq<TaskId>, kept: seq<nat>, left: seq<nat>)
  {
    && |plan.selected| <= |s.selected| && |s.deferred| == |kept| + |ids|
    && RightAt(eligible, sources, plan, s.deferred[..|kept|], kept)
    && LeftOverAt(eligible, sources, plan, IdSet(s.selected[|plan.selected|..]), ids, left)
    && forall k :: 0 <= k < |ids| ==> s.deferred[|kept|..][k] == Deferred(ids[k], OverMaxTasks)
  }

  lemma {:induction false} DeferralsFilter(candidates: seq<Candidate>, selected: seq<TaskId>, deferred: seq<Deferred>, overridden: bool)
    ensures Deferrals(candidates, selected, deferred, overridden)
         == Filter((d: Deferred) => Overrides(candidates, selected, d) == overridden, deferred)
  {
    hide Overrides;
    if deferred != [] {
      DeferralsFilter(candidates, selected, deferred[..|deferred| - 1], overridden);
    }
  }

  ghost predicate NewAt<T(!new)>(s: seq<T>, j: int) {
    0 <= j < |s| && forall i :: 0 <= i < j ==> s[i] != s[j]
  }

  lemma NewGrows<T(!new)>(s: seq<T>, j: int)
    requires s != []
    ensures NewAt(s, j) <==> NewAt(s[..|s| - 1], j) || (j == |s| - 1 && s[|s| - 1] !in s[..|s| - 1])
  {
    assert forall i :: 0 <= i < |s| - 1 ==> s[..|s| - 1][i] == s[i];
  }

  lemma {:induction false} UniqueFirsts<T(!new)>(s: seq<T>) returns (at: seq<nat>)
    ensures PickedAt(Unique(s), s, at) && forall j :: j in at <==> NewAt(s, j)
  {
    hide NewAt, PickedAt;
    at := [];
    if s == [] {
      NoneNew(s, at);
    } else {
      var n := |s| - 1;
      var before := UniqueFirsts(s[..n]);
      PicksExtend(Unique(s[..n]), s, before);
      at := if s[n] !in s[..n] then before + [n] else before;
      forall j ensures j in at <==> NewAt(s, j) {
        NewGrows(s, j);
      }
    }
  }

  lemma NoneNew<T(!new)>(s: seq<T>, at: seq<nat>)
    requires s == [] && at == []
    ensures PickedAt(s, s, at) && forall j :: !NewAt(s, j)
  {
  }

  /** The first deferral of that task that the code overrides. */
  ghost predicate FirstOverride(candidates: seq<Candidate>, plan: Plan, j: int) {
    && 0 <= j < |plan.deferred| && Overrides(candidates, plan.selected, plan.deferred[j])
    && forall i :: 0 <= i < j && plan.deferred[i].taskId == plan.deferred[j].taskId ==>
         !Overrides(candidates, plan.selected, plan.deferred[i])
  }

  lemma {:induction false} FirstsCompose(
    over: Deferred -> bool, deferred: seq<Deferred>, picked: seq<Deferred>, ids: seq<TaskId>, r: seq<nat>, m: nat)
    requires PickedAt(picked, deferred, r) && forall j :: j in r <==> 0 <= j < |deferred| && over(deferred[j])
    requires |ids| == |picked| && forall k :: 0 <= k < |ids| ==> ids[k] == picked[k].taskId
    requires m < |r|
    ensures NewAt(ids, m) <==>
      forall i :: 0 <= i < r[m] && deferred[i].taskId == deferred[r[m]].taskId ==> !over(deferred[i])
  {
    if i :| 0 <= i < r[m] && deferred[i].taskId == deferred[r[m]].taskId && over(deferred[i]) {
      assert i in r;
      var k :| 0 <= k < |r| && r[k] == i;
      assert k < m && ids[k] == ids[m];
    }
    if k :| 0 <= k < m && ids[k] == ids[m] {
      assert r[k] in r && r[k] < r[m];
    }
  }

  /** The ids of the deferrals to override, each where the plan has it for the first time. */
  lemma FirstOverrides(candidates: seq<Candidate>, plan: Plan) returns (at: seq<nat>)
    ensures IdsAt(Overridden(candidates, plan), plan.deferred, at)
    ensures forall j :: j in at <==> FirstOverride(candidates, plan, j)
  {
    hide Overrides, Unique, Filter, Positions, PickedAt, IdsAt, NewAt;
    var over := (d: Deferred) => Overrides(candidates, plan.selected, d) == true;
    DeferralsFilter(candidates, plan.selected, plan.deferred, true);
    FilterPicks(over, plan.deferred);
    var picked, r := Filter(over, plan.deferred), Positions(over, plan.deferred);
    var ids := TaskIds(picked);
    var q := UniqueFirsts(ids);
    at := ComposedAt(Unique(ids), ids, picked, plan.deferred, q, r);
    forall j
      ensures j in at <==> FirstOverride(candidates, plan, j)
    {
      if j in r {
        var m :| 0 <= m < |r| && r[m] == j;
        FirstsCompose(over, plan.deferred, picked, ids, r, m);
      }
    }
  }

  /** `ids` are the task ids of `deferred` at the increasing positions `at`. */
  ghost predicate IdsAt(ids: seq<TaskId>, deferred: seq<Deferred>, at: seq<nat>) {
    && |at| == |ids|
    && (forall i, k :: 0 <= i < k < |at| ==> at[i] < at[k])
    && (forall k :: 0 <= k < |at| ==> at[k] < |deferred| && deferred[at[k]].taskId == ids[k])
  }

  lemma ComposedAt(firsts: seq<TaskId>, ids: seq<TaskId>, picked: seq<Deferred>, deferred: seq<Deferred>, q: seq<nat>, r: seq<nat>)
    returns (at: seq<nat>)
    requires PickedAt(firsts, ids, q) && PickedAt(picked, deferred, r)
    requires |ids| == |picked| && forall k :: 0 <= k < |ids| ==> ids[k] == picked[k].taskId
    ensures IdsAt(firsts, deferred, at)
    ensures forall m :: 0 <= m < |r| ==> (r[m] in at <==> m in q)
    ensures forall j :: j in at ==> j in r
  {
    at := seq(|q|, k requires 0 <= k < |q| => r[q[k]]);
    assert forall k :: 0 <= k < |q| ==> at[k] == r[q[k]];
    forall m | 0 <= m < |r|
      ensures r[m] in at <==> m in q
    {
      if m in q {
        var k :| 0 <= k < |q| && q[k] == m;
        assert at[k] == r[m];
      }
      if r[m] in at {
        var k :| 0 <= k < |at| && at[k] == r[m];
        assert q[k] == m;
      }
    }
  }

  lemma LeftAt(ids: seq<TaskId>, deferred: seq<Deferred>, at: seq<nat>, added: set<TaskId>) returns (left: seq<nat>)
    requires IdsAt(ids, deferred, at)
    ensures IdsAt(Filter(id => id !in added, ids), deferred, left)
    ensures forall j :: j in left <==> j in at && deferred[j].taskId !in added
  {
    hide Filter, Positions;
    var keep := id => id !in added;
    FilterPicks(keep, ids);
    var p := Positions(keep, ids);
    left := seq(|p|, k requires 0 <= k < |p| => at[p[k]]);
    assert forall k :: 0 <= k < |p| ==> left[k] == at[p[k]];
    LeftHas(at, p, left);
    assert forall i :: 0 <= i < |at| ==> (i in p <==> deferred[at[i]].taskId !in added);
  }

  lemma LeftHas(at: seq<nat>, p: seq<nat>, left: seq<nat>)
    requires |left| == |p| && forall k :: 0 <= k < |p| ==> p[k] < |at| && left[k] == at[p[k]]
    ensures forall j :: j in left <==> exists i :: 0 <= i < |at| && at[i] == j && i in p
  {
    forall j
      ensures j in left <==> exists i :: 0 <= i < |at| && at[i] == j && i in p
    {
      if j in left {
        var k :| 0 <= k < |left| && left[k] == j;
        assert p[k] in p;
      }
      if i :| 0 <= i < |at| && at[i] == j && i in p {
        var k :| 0 <= k < |p| && p[k] == i;
        assert left[k] == j;
      }
    }
  }

  lemma FirstOverrideIsWrong(eligible: seq<Task>, sources: Sources, plan: Plan, j: int)
    requires DistinctIds(eligible)
    ensures FirstOverride(EnrichAll(eligible, sources), plan, j) <==> FirstWrong(eligible, sources, plan, j)
  {
    hide Overrides, Wrong, EnrichAll;
    OverridesAreWrong(eligible, sources, plan);
  }

  lemma RightInOrder(eligible: seq<Task>, sources: Sources, plan: Plan) returns (kept: seq<nat>)
    requires DistinctIds(eligible)
    ensures RightAt(eligible, sources, plan, Kept(EnrichAll(eligible, sources), plan), kept)
  {
    hide Overrides, Wrong, EnrichAll, Filter, Positions, PickedAt, DistinctIds;
    var candidates := EnrichAll(eligible, sources);
    OverridesAreWrong(eligible, sources, plan);
    var stays := (d: Deferred) => Overrides(candidates, plan.selected, d) == false;
    DeferralsFilter(candidates, plan.selected, plan.deferred, false);
    FilterPicks(stays, plan.deferred);
    kept := Positions(stays, plan.deferred);
  }

  lemma LeftOverInOrder(eligible: seq<Task>, sources: Sources, plan: Plan, added: set<TaskId>) returns (left: seq<nat>)
    requires DistinctIds(eligible)
    ensures LeftOverAt(eligible, sources, plan, added, Filter(id => id !in added, Overridden(EnrichAll(eligible, sources), plan)), left)
  {
    hide Wrong, EnrichAll, Filter, Overridden, DistinctIds, FirstOverride, FirstWrong, IdsAt;
    var candidates := EnrichAll(eligible, sources);
    var at := FirstOverrides(candidates, plan);
    left := LeftAt(Overridden(candidates, plan), plan.deferred, at, added);
    forall j
      ensures FirstOverride(candidates, plan, j) <==> FirstWrong(eligible, sources, plan, j)
    {
      FirstOverrideIsWrong(eligible, sources, plan, j);
    }
  }

  /** The deferrals of a planned selection are in the order of the plan. */
  lemma DeferredInOrder(eligible: seq<Task>, sources: Sources, plan: Plan, maxTasks: int)
    returns (ids: seq<TaskId>, kept: seq<nat>, left: seq<nat>)
    requires DistinctIds(eligible) && ValidPlan(plan, IdSet(eligible), maxTasks)
    ensures DeferredAt(eligible, sources, plan, PlannedSelection(eligible, EnrichAll(eligible, sources), plan, maxTasks), ids, kept, left)
  {
    hide EnrichAll, Filter, Overridden, Kept, Recovered, DistinctIds, SelectById, IdSet, LeftOverAt, PlannedSelection, PickedAt;
    var candidates := EnrichAll(eligible, sources);
    PlannedParts(eligible, candidates, plan, maxTasks);
    var s := PlannedSelection(eligible, candidates, plan, maxTasks);
    var added := IdSet(s.selected[|plan.selected|..]);
    kept := RightInOrder(eligible, sources, plan);
    left := LeftOverInOrder(eligible, sources, plan, added);
    ids := Filter(id => id !in added, Overridden(candidates, plan));
    KeptPlaces(Kept(candidates, plan), plan.deferred, kept);
    assert s.deferred[..|kept|] == Kept(candidates, plan) && s.deferred[|kept|..] == AsOverMax(ids);
  }

  lemma KeptPlaces(stay: seq<Deferred>, deferred: seq<Deferred>, kept: seq<nat>)
    requires PickedAt(stay, deferred, kept)
    ensures |stay| == |kept|
  {
  }

  lemma DistinctConcat(a: seq<Task>, b: seq<Task>)
    requires DistinctIds(a) && DistinctIds(b)
    ensures DistinctIds(a + b) <==> forall task :: task in b ==> task.id !in IdSet(a)
  {
    var all := a + b;
    if DistinctIds(all) {
      forall task | task in b
        ensures task.id !in IdSet(a)
      {
        var j :| 0 <= j < |b| && b[j] == task;
        forall i | 0 <= i < |a|
          ensures a[i].id != task.id
        {
          assert all[i] == a[i] && all[|a| + j] == task;
        }
      }
    }
  }

  lemma {:induction false} RankInFilter<T>(keep: T -> bool, all: seq<T>, j: nat)
    requires j < |all| && keep(all[j])
    ensures var rank := |Filter(keep, all[..j])|;
            rank < |Filter(keep, all)| && Filter(keep, all)[rank] == all[j]
  {
    var n := |all| - 1;
    assert all[..n][..j] == all[..j];
    if j < n {
      RankInFilter(keep, all[..n], j);
      assert Filter(keep, all[..n]) <= Filter(keep, all);
    }
  }

  /**
   * The selection names no task twice exactly if every id that is both picked and wrongly deferred
   * has enough wrongly deferred candidates ahead of it to use up the room that is left.
   */
  lemma DistinctIffPicksAreCrowdedOut(eligible: seq<Task>, sources: Sources, plan: Plan, maxTasks: int)
    requires DistinctIds(eligible) && ValidPlan(plan, IdSet(eligible), maxTasks)
    ensures var candidates := EnrichAll(eligible, sources);
            var overridden := Overridden(candidates, plan);
            var wrong := (t: Task) => t.id in overridden;
            DistinctIds(PlannedSelection(eligible, candidates, plan, maxTasks).selected)
            <==> CrowdedOut(eligible, plan.selected, wrong, maxTasks - |plan.selected|)
  {
    hide Overridden, EnrichAll, SelectById, Filter, Recovered, DistinctIds, Distinct, PlannedSelection, ValidPlan, IdSet, Take, CrowdedOut, Ranked;
    var candidates := EnrichAll(eligible, sources);
    var overridden := Overridden(candidates, plan);
    var wrong := (t: Task) => t.id in overridden;
    var room := maxTasks - |plan.selected|;
    DistinctIffAddedAreNew(eligible, sources, plan, maxTasks);
    var added := Recovered(eligible, overridden, room);
    RecoveredIs(eligible, overridden, room);
    AddedAreRanked(eligible, wrong, room);
    assert Ranked(eligible, added, wrong, room);
    NewIffCrowdedOut(eligible, added, plan.selected, wrong, room);
  }

  /** Every pick among the wrongly deferred tasks has enough of them ahead of it to use up the room. */
  ghost predicate CrowdedOut(eligible: seq<Task>, picks: seq<TaskId>, wrong: Task -> bool, room: int) {
    forall j :: 0 <= j < |eligible| && eligible[j].id in picks && wrong(eligible[j]) ==> |Filter(wrong, eligible[..j])| >= room
  }

  ghost predicate Ranked(eligible: seq<Task>, added: seq<Task>, wrong: Task -> bool, room: int) {
    && (forall task :: task in added ==> task in eligible && wrong(task))
    && (forall j :: 0 <= j < |eligible| && wrong(eligible[j]) ==> (eligible[j] in added <==> |Filter(wrong, eligible[..j])| < room))
  }

  lemma AddedAreRanked(eligible: seq<Task>, wrong: Task -> bool, room: int)
    requires DistinctIds(eligible)
    ensures Ranked(eligible, Take(Filter(wrong, eligible), room), wrong, room)
  {
    hide DistinctIds, Filter;
    forall j | 0 <= j < |eligible| && wrong(eligible[j])
      ensures eligible[j] in Take(Filter(wrong, eligible), room) <==> |Filter(wrong, eligible[..j])| < room
    {
      AddedIffRoom(eligible, wrong, room, j);
    }
  }

  lemma NewIffCrowdedOut(eligible: seq<Task>, added: seq<Task>, picks: seq<TaskId>, wrong: Task -> bool, room: int)
    requires Ranked(eligible, added, wrong, room)
    ensures (forall task :: task in added ==> task.id !in picks) <==> CrowdedOut(eligible, picks, wrong, room)
  {
    hide Filter;
    if task :| task in added && task.id in picks {
      var j :| 0 <= j < |eligible| && eligible[j] == task;
    }
  }

  lemma RecoveredIs(eligible: seq<Task>, overridden: seq<TaskId>, room: int)
    ensures var wrong := (t: Task) => t.id in overridden;
            var added := Recovered(eligible, overridden, room);
            added == Take(Filter(wrong, eligible), room)
  {
  }

  lemma AddedIffRoom(all: seq<Task>, keep: Task -> bool, room: int, j: nat)
    requires DistinctIds(all) && j < |all| && keep(all[j])
    ensures all[j] in Take(Filter(keep, all), room) <==> |Filter(keep, all[..j])| < room
  {
    hide Filter, Positions, DistinctIds;
    var kept, added, rank := Filter(keep, all), Take(Filter(keep, all), room), |Filter(keep, all[..j])|;
    RankInFilter(keep, all, j);
    FilterPicks(keep, all);
    PickedDistinct(kept, all, Positions(keep, all));
    if rank < room {
      assert added[rank] == all[j];
    } else {
      forall k | 0 <= k < |added|
        ensures added[k] != all[j]
      {
        DistinctAt(kept, k, rank);
      }
    }
  }

  lemma DistinctAt(tasks: seq<Task>, i: nat, j: nat)
    requires DistinctIds(tasks) && i < j < |tasks|
    ensures tasks[i].id != tasks[j].id
  {
  }

  lemma DistinctIffAddedAreNew(eligible: seq<Task>, sources: Sources, plan: Plan, maxTasks: int)
    requires DistinctIds(eligible) && ValidPlan(plan, IdSet(eligible), maxTasks)
    ensures var candidates := EnrichAll(eligible, sources);
            var added := Recovered(eligible, Overridden(candidates, plan), maxTasks - |plan.selected|);
            DistinctIds(PlannedSelection(eligible, candidates, plan, maxTasks).selected)
            <==> forall task :: task in added ==> task.id !in plan.selected
  {
    hide Overridden, Recovered, EnrichAll, SelectById, DistinctIds, Distinct, IdSet, Filter, Positions;
    var overridden := Overridden(EnrichAll(eligible, sources), plan);
    var picks := SelectById(eligible, plan.selected);
    SelectedInOrder(eligible, plan.selected);
    PicksDistinct(picks, plan.selected);
    var room := maxTasks - |plan.selected|;
    var at := RecoveredFirst(eligible, overridden, room);
    PickedDistinct(Recovered(eligible, overridden, room), eligible, at);
    DistinctConcat(picks, Recovered(eligible, overridden, room));
  }

  lemma PicksDistinct(picks: seq<Task>, ids: seq<TaskId>)
    requires |picks| == |ids| && Distinct(ids) && forall k :: 0 <= k < |ids| ==> picks[k].id == ids[k]
    ensures DistinctIds(picks) && forall id :: id in ids <==> id in IdSet(picks)
  {
    assert forall k :: 0 <= k < |ids| ==> picks[k] in picks;
  }

  lemma PickedDistinct(s: seq<Task>, all: seq<Task>, at: seq<nat>)
    requires DistinctIds(all) && PickedAt(s, all, at)
    ensures DistinctIds(s)
  {
    forall i, j | 0 <= i < j < |s|
      ensures s[i].id != s[j].id
    {
      assert at[i] < at[j];
    }
  }

  /** A task picked and wrongly deferred at once is selected twice. */
  lemma PickedAndDeferredTwice(task: Task, sources: Sources)
    requires Refuted([task], sources, [task.id], task.id)
    ensures var plan := Plan([task.id], [Deferred(task.id, ExplicitBlocker)]);
            && ValidPlan(plan, IdSet([task]), 2)
            && PlannedSelection([task], EnrichAll([task], sources), plan, 2).selected == [task, task]
  {
    hide Enrich, EnrichAll, Refuted;
    var eligible := [task];
    var plan := Plan([task.id], [Deferred(task.id, ExplicitBlocker)]);
    assert task in eligible;
    var at := PlannedSelectionSound(eligible, sources, plan, 2);
    var s := PlannedSelection(eligible, EnrichAll(eligible, sources), plan, 2);
    assert Wrong(eligible, sources, plan, plan.deferred[0]);
    assert WrongId(eligible, sources, plan, eligible[0].id);
    if 0 in at {
      assert |s.selected| == 2;
    }
  }
}
