/** The order in which the merge phase walks a batch. */
module DependencyOrder {
  // Repeatedly, the first remaining task is taken whose selected blockers were all taken already, or
  // the first remaining task when there is none.

  import opened Common
  import opened TaskBoard
  import Graph

  predicate Ready(task: Task, selected: set<TaskId>, ordered: seq<Task>) {
    forall b :: b in Blockers(task) ==> b !in selected || b in IdSet(ordered)
  }

  function FirstReady(remaining: seq<Task>, selected: set<TaskId>, ordered: seq<Task>): (k: Option<nat>)
    ensures k.Some? ==> k.value < |remaining| && Ready(remaining[k.value], selected, ordered)
    ensures k.Some? ==> forall i :: 0 <= i < k.value ==> !Ready(remaining[i], selected, ordered)
    ensures k.None? ==> forall i :: 0 <= i < |remaining| ==> !Ready(remaining[i], selected, ordered)
  {
    if remaining == [] then None
    else if Ready(remaining[0], selected, ordered) then Some(0)
    else
      match FirstReady(remaining[1..], selected, ordered)
      case None => None
      case Some(k) => Some(k + 1)
  }

  /** Where the next task sits in `remaining`. */
  function Choice(remaining: seq<Task>, selected: set<TaskId>, ordered: seq<Task>): (k: nat)
    requires remaining != []
    ensures k < |remaining|
  {
    match FirstReady(remaining, selected, ordered)
    case Some(k) => k
    case None => 0
  }

  function RemoveAt<T>(s: seq<T>, k: nat): seq<T>
    requires k < |s|
  {
    s[..k] + s[k + 1..]
  }

  lemma RemoveAtMultiset<T>(s: seq<T>, k: nat)
    requires k < |s|
    ensures multiset([s[k]]) + multiset(RemoveAt(s, k)) == multiset(s)
  {
    assert s == s[..k] + ([s[k]] + s[k + 1..]);
  }

  ghost function Greedy(remaining: seq<Task>, selected: set<TaskId>, ordered: seq<Task>): seq<Task>
    decreases |remaining|
  {
    if remaining == [] then ordered
    else
      var k := Choice(remaining, selected, ordered);
      Greedy(RemoveAt(remaining, k), selected, ordered + [remaining[k]])
  }

  ghost function Order(tasks: seq<Task>): seq<Task> {
    Greedy(tasks, IdSet(tasks), [])
  }

  method OrderTasksByDependencies(tasks: seq<Task>) returns (ordered: seq<Task>)
    ensures ordered == Order(tasks)
    ensures multiset(ordered) == multiset(tasks)
  {
    var selected := IdSet(tasks);
    var remaining := tasks;
    ordered := [];
    while |remaining| > 0
      invariant Greedy(remaining, selected, ordered) == Order(tasks)
      invariant multiset(ordered) + multiset(remaining) == multiset(tasks)
    {
      var readyIndex := FirstReady(remaining, selected, ordered);
      var k := if readyIndex.Some? then readyIndex.value else 0;
      RemoveAtMultiset(remaining, k);
      ordered := ordered + [remaining[k]];
      remaining := RemoveAt(remaining, k);
    }
  }

  // ----- One step of the loop, seen from the input sequence

  ghost predicate Open(task: Task, ordered: seq<Task>) {
    task.id !in IdSet(ordered)
  }

  /** The tasks not yet taken, in input order: the loop's `remaining`. */
  ghost function OpenTasks(tasks: seq<Task>, ordered: seq<Task>): seq<Task> {
    if tasks == [] then []
    else (if Open(tasks[0], ordered) then [tasks[0]] else []) + OpenTasks(tasks[1..], ordered)
  }

  /** `i` is the input position the loop takes next after `ordered`. */
  ghost predicate Next(tasks: seq<Task>, selected: set<TaskId>, ordered: seq<Task>, i: nat) {
    && i < |tasks|
    && Open(tasks[i], ordered)
    && (Ready(tasks[i], selected, ordered) ==>
          forall j :: 0 <= j < i && Open(tasks[j], ordered) ==> !Ready(tasks[j], selected, ordered))
    && (!Ready(tasks[i], selected, ordered) ==>
          && (forall j :: 0 <= j < i ==> !Open(tasks[j], ordered))
          && (forall j :: 0 <= j < |tasks| && Open(tasks[j], ordered) ==> !Ready(tasks[j], selected, ordered)))
  }

  lemma {:induction false} OpenTasksAt(tasks: seq<Task>, ordered: seq<Task>, k: nat) returns (i: nat)
    requires k < |OpenTasks(tasks, ordered)|
    ensures i < |tasks| && tasks[i] == OpenTasks(tasks, ordered)[k] && Open(tasks[i], ordered)
    ensures OpenTasks(tasks[..i], ordered) == OpenTasks(tasks, ordered)[..k]
    ensures OpenTasks(tasks[i + 1..], ordered) == OpenTasks(tasks, ordered)[k + 1..]
  {
    var skip := if Open(tasks[0], ordered) then 1 else 0;
    if Open(tasks[0], ordered) && k == 0 {
      i := 0;
    } else {
      var rest := OpenTasksAt(tasks[1..], ordered, k - skip);
      i := rest + 1;
      assert tasks[..i][1..] == tasks[1..][..rest];
      assert tasks[1..][rest + 1..] == tasks[i + 1..];
    }
  }

  lemma {:induction false} OpenTasksHas(tasks: seq<Task>, ordered: seq<Task>, j: nat)
    requires j < |tasks| && Open(tasks[j], ordered)
    ensures tasks[j] in OpenTasks(tasks, ordered)
  {
    if j > 0 {
      OpenTasksHas(tasks[1..], ordered, j - 1);
    }
  }

  lemma {:induction false} OpenTasksKeep(tasks: seq<Task>, ordered: seq<Task>, next: Task)
    requires forall i :: 0 <= i < |tasks| ==> tasks[i].id != next.id
    ensures OpenTasks(tasks, ordered + [next]) == OpenTasks(tasks, ordered)
  {
    if tasks != [] {
      OpenTasksKeep(tasks[1..], ordered, next);
      assert forall t :: t in ordered + [next] <==> t in ordered || t == next;
    }
  }

  lemma {:induction false} OpenTasksSplit(left: seq<Task>, right: seq<Task>, ordered: seq<Task>)
    ensures OpenTasks(left + right, ordered) == OpenTasks(left, ordered) + OpenTasks(right, ordered)
  {
    if left == [] {
      assert left + right == right;
    } else {
      assert (left + right)[1..] == left[1..] + right;
      OpenTasksSplit(left[1..], right, ordered);
    }
  }

  /** Taking the loop's choice out of `remaining` leaves exactly the open tasks. */
  lemma TakeNext(tasks: seq<Task>, selected: set<TaskId>, ordered: seq<Task>) returns (i: nat)
    requires DistinctIds(tasks) && OpenTasks(tasks, ordered) != []
    ensures Next(tasks, selected, ordered, i)
    ensures var remaining := OpenTasks(tasks, ordered);
            var k := Choice(remaining, selected, ordered);
            && tasks[i] == remaining[k]
            && RemoveAt(remaining, k) == OpenTasks(tasks, ordered + [tasks[i]])
  {
    var k := Choice(OpenTasks(tasks, ordered), selected, ordered);
    i := OpenTasksAt(tasks, ordered, k);
    forall j | 0 <= j < |tasks| && Open(tasks[j], ordered)
      ensures j < i ==> tasks[j] in OpenTasks(tasks, ordered)[..k]
      ensures tasks[j] in OpenTasks(tasks, ordered)
    {
      OpenTasksHas(tasks, ordered, j);
      if j < i {
        OpenTasksHas(tasks[..i], ordered, j);
      }
    }
    RemoveOpen(tasks, ordered, i, k);
  }

  lemma RemoveOpen(tasks: seq<Task>, ordered: seq<Task>, i: nat, k: nat)
    requires DistinctIds(tasks) && i < |tasks| && k < |OpenTasks(tasks, ordered)|
    requires OpenTasks(tasks[..i], ordered) == OpenTasks(tasks, ordered)[..k]
    requires OpenTasks(tasks[i + 1..], ordered) == OpenTasks(tasks, ordered)[k + 1..]
    ensures RemoveAt(OpenTasks(tasks, ordered), k) == OpenTasks(tasks, ordered + [tasks[i]])
  {
    hide OpenTasks;
    assert tasks == tasks[..i] + ([tasks[i]] + tasks[i + 1..]);
    OpenTasksWithout(tasks[..i], tasks[i], tasks[i + 1..], ordered);
  }

  lemma OpenTasksWithout(left: seq<Task>, next: Task, right: seq<Task>, ordered: seq<Task>)
    requires forall j :: 0 <= j < |left| ==> left[j].id != next.id
    requires forall j :: 0 <= j < |right| ==> right[j].id != next.id
    ensures OpenTasks(left + ([next] + right), ordered + [next]) == OpenTasks(left, ordered) + OpenTasks(right, ordered)
  {
    calc {
      OpenTasks(left + ([next] + right), ordered + [next]);
      { OpenTasksSplit(left, [next] + right, ordered + [next]); }
      OpenTasks(left, ordered + [next]) + OpenTasks([next] + right, ordered + [next]);
      { OpenTasksKeep(left, ordered, next); OpenTasksTaken(next, right, ordered); }
      OpenTasks(left, ordered) + OpenTasks(right, ordered + [next]);
      { OpenTasksKeep(right, ordered, next); }
      OpenTasks(left, ordered) + OpenTasks(right, ordered);
    }
  }

  lemma OpenTasksTaken(next: Task, right: seq<Task>, ordered: seq<Task>)
    ensures OpenTasks([next] + right, ordered + [next]) == OpenTasks(right, ordered + [next])
  {
    assert next in ordered + [next];
    assert ([next] + right)[1..] == right;
  }

  ghost predicate FollowsAt(tasks: seq<Task>, ordered: seq<Task>, k: nat)
    requires k < |ordered|
  {
    exists i: nat :: Next(tasks, IdSet(tasks), ordered[..k], i) && ordered[k] == tasks[i]
  }

  /** Every element of `ordered` is the loop's choice after the elements before it. */
  ghost predicate Follows(tasks: seq<Task>, ordered: seq<Task>) {
    forall k: nat :: k < |ordered| ==> FollowsAt(tasks, ordered, k)
  }

  lemma FollowsExtends(tasks: seq<Task>, ordered: seq<Task>, i: nat)
    requires Follows(tasks, ordered) && Next(tasks, IdSet(tasks), ordered, i)
    ensures Follows(tasks, ordered + [tasks[i]])
  {
    var longer := ordered + [tasks[i]];
    forall k: nat | k < |longer|
      ensures FollowsAt(tasks, longer, k)
    {
      assert k < |ordered| ==> FollowsAt(tasks, ordered, k);
      assert longer[..k] == ordered[..k];
      assert ordered[..|ordered|] == ordered;
    }
  }

  lemma {:induction false} GreedyFollows(tasks: seq<Task>, ordered: seq<Task>)
    requires DistinctIds(tasks) && Follows(tasks, ordered)
    ensures var r := Greedy(OpenTasks(tasks, ordered), IdSet(tasks), ordered);
            Follows(tasks, r) && OpenTasks(tasks, r) == []
    decreases |OpenTasks(tasks, ordered)|
  {
    if OpenTasks(tasks, ordered) != [] {
      var i := TakeNext(tasks, IdSet(tasks), ordered);
      FollowsExtends(tasks, ordered, i);
      GreedyFollows(tasks, ordered + [tasks[i]]);
    }
  }

  lemma {:induction false} AllOpen(tasks: seq<Task>)
    ensures OpenTasks(tasks, []) == tasks
  {
    if tasks != [] {
      AllOpen(tasks[1..]);
    }
  }

  /** `order` lists exactly the tasks of `tasks`, each once. */
  ghost predicate Arranges(order: seq<Task>, tasks: seq<Task>) {
    DistinctIds(order) && forall t :: t in order <==> t in tasks
  }

  lemma FollowedDistinct(tasks: seq<Task>, order: seq<Task>)
    requires Follows(tasks, order)
    ensures DistinctIds(order)
    ensures forall t :: t in order ==> t in tasks
  {
    forall k | 0 <= k < |order|
      ensures order[k] in tasks && Open(order[k], order[..k])
    {
      assert FollowsAt(tasks, order, k);
      var i: nat :| Next(tasks, IdSet(tasks), order[..k], i) && order[k] == tasks[i];
    }
    forall m, k | 0 <= m < k < |order|
      ensures order[m].id != order[k].id
    {
      assert order[m] in order[..k];
    }
  }

  lemma FollowedComplete(tasks: seq<Task>, order: seq<Task>, t: Task)
    requires DistinctIds(tasks) && Follows(tasks, order) && OpenTasks(tasks, order) == []
    requires t in tasks
    ensures t in order
  {
    FollowedDistinct(tasks, order);
    var j :| 0 <= j < |tasks| && tasks[j] == t;
    if Open(t, order) {
      OpenTasksHas(tasks, order, j);
    }
    var u :| u in order && u.id == t.id;
  }

  /** The order is a rearrangement of the input in which every step is the loop's own choice. */
  lemma OrderIsGreedy(tasks: seq<Task>)
    requires DistinctIds(tasks)
    ensures Follows(tasks, Order(tasks))
    ensures Arranges(Order(tasks), tasks)
  {
    AllOpen(tasks);
    GreedyFollows(tasks, []);
    FollowedDistinct(tasks, Order(tasks));
    forall t | t in tasks
      ensures t in Order(tasks)
    {
      FollowedComplete(tasks, Order(tasks), t);
    }
  }

  // ----- Topological orders

  ghost predicate Topological(order: seq<Task>, selected: set<TaskId>) {
    forall k :: 0 <= k < |order| ==> Ready(order[k], selected, order[..k])
  }

  ghost predicate Before(tasks: seq<Task>, x: Task, y: Task) {
    exists i, j :: 0 <= i < j < |tasks| && tasks[i] == x && tasks[j] == y
  }

  /** `a` precedes or equals `b` when both are compared by the input positions of their tasks. */
  ghost predicate LexLeq(tasks: seq<Task>, a: seq<Task>, b: seq<Task>) {
    || a == b
    || exists k :: 0 <= k < |a| && k < |b| && a[..k] == b[..k] && Before(tasks, a[k], b[k])
  }

  /** As long as some arrangement is topological, an open task is ready. */
  lemma SomeReady(tasks: seq<Task>, p: seq<Task>, ordered: seq<Task>, t: Task) returns (j: nat)
    requires Arranges(p, tasks) && Topological(p, IdSet(tasks))
    requires t in tasks && Open(t, ordered)
    ensures j < |tasks| && Open(tasks[j], ordered) && Ready(tasks[j], IdSet(tasks), ordered)
  {
    assert t in p;
    var m: nat :| m < |p| && p[m] == t;
    m := FirstOpen(p, ordered, m);
    ReadyFromEarlier(p[m], IdSet(tasks), p[..m], ordered);
    assert p[m] in tasks;
    j :| 0 <= j < |tasks| && tasks[j] == p[m];
  }

  lemma {:induction false} FirstOpen(p: seq<Task>, ordered: seq<Task>, m: nat) returns (f: nat)
    requires m < |p| && Open(p[m], ordered)
    ensures f < |p| && Open(p[f], ordered)
    ensures forall t :: t in p[..f] ==> !Open(t, ordered)
  {
    if k :| 0 <= k < m && Open(p[k], ordered) {
      f := FirstOpen(p, ordered, k);
    } else {
      f := m;
    }
  }

  lemma ReadyFromEarlier(task: Task, selected: set<TaskId>, earlier: seq<Task>, ordered: seq<Task>)
    requires Ready(task, selected, earlier)
    requires forall t :: t in earlier ==> !Open(t, ordered)
    ensures Ready(task, selected, ordered)
  {
  }

  /** A ready open task is never passed over: what the loop takes is ready and sits no later. */
  lemma NextIsFirst(tasks: seq<Task>, selected: set<TaskId>, ordered: seq<Task>, i: nat, j: nat)
    requires Next(tasks, selected, ordered, i)
    requires j < |tasks| && Open(tasks[j], ordered) && Ready(tasks[j], selected, ordered)
    ensures i <= j && Ready(tasks[i], selected, ordered)
  {
  }

  lemma ArrangedNext(tasks: seq<Task>, p: seq<Task>, k: nat) returns (j: nat)
    requires Arranges(p, tasks) && Topological(p, IdSet(tasks)) && k < |p|
    ensures j < |tasks| && tasks[j] == p[k]
    ensures Open(p[k], p[..k]) && Ready(p[k], IdSet(tasks), p[..k])
  {
    assert p[k] in tasks;
    j :| 0 <= j < |tasks| && tasks[j] == p[k];
  }

  lemma NextAt(tasks: seq<Task>, k: nat) returns (i: nat)
    requires DistinctIds(tasks) && k < |Order(tasks)|
    ensures Next(tasks, IdSet(tasks), Order(tasks)[..k], i) && Order(tasks)[k] == tasks[i]
  {
    OrderIsGreedy(tasks);
    assert FollowsAt(tasks, Order(tasks), k);
    i :| Next(tasks, IdSet(tasks), Order(tasks)[..k], i) && Order(tasks)[k] == tasks[i];
  }

  /** Wherever the order departs from a topological arrangement, it takes an earlier input task. */
  lemma DepartsEarlier(tasks: seq<Task>, p: seq<Task>, k: nat)
    requires DistinctIds(tasks) && Arranges(p, tasks) && Topological(p, IdSet(tasks))
    requires k < |p| && k < |Order(tasks)| && Order(tasks)[..k] == p[..k] && Order(tasks)[k] != p[k]
    ensures Before(tasks, Order(tasks)[k], p[k])
  {
    var i := NextAt(tasks, k);
    var j := ArrangedNext(tasks, p, k);
    NextIsFirst(tasks, IdSet(tasks), p[..k], i, j);
  }

  lemma {:induction false} FirstDifference(a: seq<Task>, b: seq<Task>, k: nat) returns (d: nat)
    requires |a| == |b| && k <= |a| && a[..k] == b[..k] && a != b
    ensures d < |a| && a[..d] == b[..d] && a[d] != b[d]
    decreases |a| - k
  {
    assert a[..|a|] == a && b[..|b|] == b;
    if a[k] != b[k] {
      d := k;
    } else {
      assert a[..k + 1] == a[..k] + [a[k]];
      assert b[..k + 1] == b[..k] + [b[k]];
      d := FirstDifference(a, b, k + 1);
    }
  }

  lemma ArrangedLength(tasks: seq<Task>, p: seq<Task>)
    requires DistinctIds(tasks) && Arranges(p, tasks)
    ensures |p| == |tasks|
  {
    DistinctFits(p, set t | t in tasks);
    DistinctFits(tasks, set t | t in p);
    SetSize(p);
    SetSize(tasks);
  }

  lemma {:induction false} SetSize(tasks: seq<Task>)
    ensures |set t | t in tasks| <= |tasks|
  {
    if tasks != [] {
      SetSize(tasks[1..]);
      assert (set t | t in tasks) == {tasks[0]} + set t | t in tasks[1..];
    }
  }

  lemma ReadyWhileTopological(tasks: seq<Task>, p: seq<Task>, k: nat)
    requires DistinctIds(tasks) && Arranges(p, tasks) && Topological(p, IdSet(tasks))
    requires k < |Order(tasks)|
    ensures Ready(Order(tasks)[k], IdSet(tasks), Order(tasks)[..k])
  {
    var i := NextAt(tasks, k);
    var j := SomeReady(tasks, p, Order(tasks)[..k], tasks[i]);
    NextIsFirst(tasks, IdSet(tasks), Order(tasks)[..k], i, j);
  }

  /** Whenever some arrangement is topological, so is the order, and no topological arrangement comes before it. */
  lemma OrderIsLeastTopological(tasks: seq<Task>, p: seq<Task>)
    requires DistinctIds(tasks) && Arranges(p, tasks) && Topological(p, IdSet(tasks))
    ensures Topological(Order(tasks), IdSet(tasks))
    ensures LexLeq(tasks, Order(tasks), p)
  {
    var order := Order(tasks);
    forall k | 0 <= k < |order|
      ensures Ready(order[k], IdSet(tasks), order[..k])
    {
      ReadyWhileTopological(tasks, p, k);
    }
    if order != p {
      OrderDeparts(tasks, p);
    }
  }

  lemma OrderDeparts(tasks: seq<Task>, p: seq<Task>)
    requires DistinctIds(tasks) && Arranges(p, tasks) && Topological(p, IdSet(tasks))
    requires Order(tasks) != p
    ensures LexLeq(tasks, Order(tasks), p)
  {
    OrderIsGreedy(tasks);
    ArrangedLength(tasks, Order(tasks));
    ArrangedLength(tasks, p);
    var k := FirstDifference(Order(tasks), p, 0);
    DepartsEarlier(tasks, p, k);
  }

  /** An input that already respects its blockers comes back unchanged. */
  lemma TopologicalInputUnchanged(tasks: seq<Task>)
    requires DistinctIds(tasks) && Topological(tasks, IdSet(tasks))
    ensures Order(tasks) == tasks
  {
    OrderIsGreedy(tasks);
    ArrangedLength(tasks, Order(tasks));
    if Order(tasks) != tasks {
      var k := FirstDifference(Order(tasks), tasks, 0);
      DepartsEarlier(tasks, tasks, k);
    }
  }

  // ----- Cycles

  /** Blocker edges among the tasks of a batch. */
  ghost function Edges(tasks: seq<Task>): set<(TaskId, TaskId)> {
    set t, b | t in tasks && b in Blockers(t) && b in IdSet(tasks) :: (t.id, b)
  }

  /** Input position of an id, -1 when it is absent. */
  ghost function Position(order: seq<Task>, id: TaskId): (p: int)
    ensures -1 <= p < |order|
    ensures p >= 0 ==> order[p].id == id
    ensures forall i :: 0 <= i < p ==> order[i].id != id
    ensures p < 0 ==> id !in IdSet(order)
  {
    if order == [] then -1
    else if order[0].id == id then 0
    else
      var rest := Position(order[1..], id);
      if rest < 0 then -1 else rest + 1
  }

  lemma PositionAt(order: seq<Task>, k: nat)
    requires DistinctIds(order) && k < |order|
    ensures Position(order, order[k].id) == k
  {
    var p := Position(order, order[k].id);
    assert order[k].id in IdSet(order);
  }

  lemma BlockersDescend(tasks: seq<Task>, order: seq<Task>, a: TaskId, b: TaskId)
    requires Arranges(order, tasks) && Topological(order, IdSet(tasks))
    requires (a, b) in Edges(tasks)
    ensures Position(order, b) < Position(order, a)
  {
    var t :| t in tasks && t.id == a && b in Blockers(t) && b in IdSet(tasks);
    var k :| 0 <= k < |order| && order[k] == t;
    PositionAt(order, k);
    assert Ready(order[k], IdSet(tasks), order[..k]);
    var u :| u in order[..k] && u.id == b;
    var m :| 0 <= m < k && order[m] == u;
    PositionAt(order, m);
  }

  lemma StuckMeansCycle(tasks: seq<Task>, ordered: seq<Task>, first: Task) returns (w: seq<TaskId>)
    requires first in tasks && Open(first, ordered)
    requires forall t :: t in tasks && Open(t, ordered) ==> !Ready(t, IdSet(tasks), ordered)
    ensures Graph.Cycle(Edges(tasks), w)
  {
    var open := set t | t in tasks && Open(t, ordered) :: t.id;
    forall a | a in open
      ensures Graph.StepsInto(Edges(tasks), open, a)
    {
      var t :| t in tasks && Open(t, ordered) && t.id == a;
      var b :| b in Blockers(t) && b in IdSet(tasks) && b !in IdSet(ordered);
      assert (a, b) in Edges(tasks);
    }
    assert first.id in open;
    w := Graph.NoSinkMeansCycle(Edges(tasks), open);
  }

  lemma AcyclicGivesTopological(tasks: seq<Task>, k: nat) returns (w: seq<TaskId>)
    requires DistinctIds(tasks)
    requires k < |Order(tasks)| && !Ready(Order(tasks)[k], IdSet(tasks), Order(tasks)[..k])
    ensures Graph.Cycle(Edges(tasks), w)
  {
    var prefix := Order(tasks)[..k];
    var i := NextAt(tasks, k);
    forall t | t in tasks && Open(t, prefix)
      ensures !Ready(t, IdSet(tasks), prefix)
    {
      var j :| 0 <= j < |tasks| && tasks[j] == t;
    }
    w := StuckMeansCycle(tasks, prefix, tasks[i]);
  }

  /** The order respects every blocker among the tasks exactly when those blockers form no cycle. */
  lemma OrderTopologicalIffAcyclic(tasks: seq<Task>)
    requires DistinctIds(tasks)
    ensures Topological(Order(tasks), IdSet(tasks)) <==> !exists w :: Graph.Cycle(Edges(tasks), w)
  {
    var order := Order(tasks);
    if w :| Graph.Cycle(Edges(tasks), w) && Topological(order, IdSet(tasks)) {
      OrderIsGreedy(tasks);
      forall a, b | (a, b) in Edges(tasks)
        ensures Position(order, b) < Position(order, a)
      {
        BlockersDescend(tasks, order, a, b);
      }
      Graph.WalkDescends(Edges(tasks), id => Position(order, id), w);
    }
    if k :| 0 <= k < |order| && !Ready(order[k], IdSet(tasks), order[..k]) {
      var w := AcyclicGivesTopological(tasks, k);
    }
  }
}
