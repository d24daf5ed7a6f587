/**
 * The checkout outbox as it runs: item files and branch refs are the fields of an object, rewritten
 * step by step. Every method is proved to do what the functions of `CheckoutProjection` say.
 */
module CheckoutOutbox {
  import opened Common
  import opened CommitGraph
  import opened CheckoutProjection

  function CountPending(items: seq<Item>): nat {
    if items == [] then 0
    else CountPending(items[..|items| - 1]) + if items[|items| - 1].status.Pending? then 1 else 0
  }

  function CountSucceeded(items: seq<Item>): nat {
    if items == [] then 0
    else CountSucceeded(items[..|items| - 1]) + if items[|items| - 1].status.Succeeded? then 1 else 0
  }

  lemma {:induction false} CountsSum(items: seq<Item>)
    ensures CountPending(items) + CountSucceeded(items) == |items|
  {
    if items != [] {
      CountsSum(items[..|items| - 1]);
    }
  }

  /** A step leaves its own item, rewritten, in the place it was listed at. */
  lemma StepKeepsPlaces(env: Env, w: World, k: nat)
    requires DistinctItems(w.items) && k < |w.items|
    ensures var after := ProjectOne(env, w, w.items[k]);
            && DistinctItems(after.items) && |after.items| == |w.items|
            && after.items[k].id == w.items[k].id
            && forall j :: 0 <= j < |w.items| && j != k ==> after.items[j] == w.items[j]
  {
    ProjectOneItems(env, w, k);
  }

  lemma FindInPlace(items: seq<Item>, k: nat, id: ItemId)
    requires DistinctItems(items) && k < |items| && items[k].id == id
    ensures Find(items, id) == Some(items[k])
  {
    FindAt(items, k);
  }

  class Outbox {
    var clock: nat
    var items: seq<Item>
    var branches: Branches
    var crashed: bool
    var log: seq<Event>

    ghost function View(): World
      reads this
    {
      World(clock, items, branches, crashed, log)
    }

    constructor (branches: Branches)
      ensures View() == World(0, [], branches, false, [])
    {
      clock := 0;
      items := [];
      this.branches := branches;
      crashed := false;
      log := [];
    }

    /** The user and the machine act. */
    method LetOthersAct(env: Env)
      modifies this`clock, this`branches, this`crashed, this`log
      ensures View() == Yield(env, old(View()))
    {
      if !crashed {
        if env.crash(clock) {
          crashed := true;
        } else {
          var moved := env.user(clock, branches);
          log := log + [UserMoved(branches, moved)];
          branches := moved;
        }
        clock := clock + 1;
      }
    }

    method ReadBranch(branch: Ref) returns (oid: Option<Commit>)
      modifies this`log
      ensures View() == Observe(old(View()), branch)
      ensures oid == At(branches, branch)
    {
      oid := At(branches, branch);
      if !crashed {
        log := log + [Observed(branch, oid)];
      }
    }

    /** Writes the item file; a crash may come first. */
    method WriteItem(env: Env, item: Item, status: Status)
      modifies this
      ensures View() == Mark(env, old(View()), item, status)
    {
      LetOthersAct(env);
      if !crashed {
        items := Replace(items, item.(status := status));
        log := log + [Marked(item.id, status, At(branches, item.id.branch))];
      }
    }

    /** Returns the item that is already there, or adds a pending one at the end. */
    method EnqueueProjection(id: ItemId, taskId: string) returns (item: Item)
      modifies this`items
      ensures View() == Enqueue(old(View()), id, taskId)
      ensures Find(old(items), id).Some? ==> item == Find(old(items), id).value
      ensures Find(old(items), id).None? ==>
        && items == old(items) + [item] && item.id == id && item.taskId == taskId && item.status == Pending(None)
        && item.expected == if id.branch in branches then branches[id.branch] else id.candidate
    {
      var existing := Find(items, id);
      if existing.Some? {
        return existing.value;
      }
      var expected := if id.branch in branches then branches[id.branch] else id.candidate;
      item := Item(id, taskId, expected, Pending(None));
      items := items + [item];
    }

    /** `update-ref` with an expected old value. */
    method AttemptCas(env: Env, id: ItemId, current: Commit) returns (ok: bool)
      modifies this
      ensures (View(), ok) == Mutate(env, old(View()), id, CompareAndSwap(current))
    {
      LetOthersAct(env);
      var command := env.command(clock);
      if crashed || command == FailsAtOnce || id.branch !in branches || branches[id.branch] != current {
        return false;
      }
      branches := branches[id.branch := id.candidate];
      log := log + [HubMoved(id.branch, current, id.candidate)];
      return command == Works;
    }

    /** `merge --ff-only` in the owning worktree. */
    method AttemptFastForward(env: Env, id: ItemId) returns (ok: bool)
      modifies this
      ensures (View(), ok) == Mutate(env, old(View()), id, FastForward)
    {
      LetOthersAct(env);
      var command := env.command(clock);
      if crashed || command == FailsAtOnce || id.branch !in branches {
        return false;
      }
      var current := branches[id.branch];
      if IsAncestor(current, id.candidate) {
        branches := branches[id.branch := id.candidate];
        log := log + [HubMoved(id.branch, current, id.candidate)];
      } else if IsAncestor(id.candidate, current) {
        log := log + [Observed(id.branch, Some(current))];
      } else {
        return false;
      }
      return command == Works;
    }

    method AdvanceHostBranch(env: Env, item: Item, plan: Plan)
      requires plan.CompareAndSwap? || plan.FastForward?
      modifies this
      ensures View() == Advance(env, old(View()), item, plan)
    {
      hide Mutate, Mark;
      var moved;
      if plan.CompareAndSwap? {
        moved := AttemptCas(env, item.id, plan.current);
      } else {
        moved := AttemptFastForward(env, item.id);
      }
      if moved {
        WriteItem(env, item, Succeeded(item.id.candidate));
        return;
      }
      LetOthersAct(env);
      ghost var turn := clock;
      var observed := ReadBranch(item.id.branch);
      assert clock == turn;
      if Contains(observed, item.id.candidate) {
        WriteItem(env, item, Succeeded(observed.value));
      } else {
        WriteItem(env, item, Pending(Some(FailureReason(env, clock, plan, item.id, observed))));
      }
    }

    method ProjectOneItem(env: Env, item: Item)
      modifies this
      ensures View() == ProjectOne(env, old(View()), item)
    {
      hide Mark, Advance;
      if item.status.Succeeded? || crashed {
        return;
      }
      LetOthersAct(env);
      var current := ReadBranch(item.id.branch);
      if Contains(current, item.id.candidate) {
        WriteItem(env, item, Succeeded(current.value));
        return;
      }
      if !FastForwards(current, item.id.candidate) {
        WriteItem(env, item, Pending(Some(BranchDiverged)));
        return;
      }
      var owners := env.owners(clock, item.id);
      if owners.ManyOwners? {
        WriteItem(env, item, Pending(Some(MultipleWorktrees)));
      } else if owners.NoOwner? {
        AdvanceHostBranch(env, item, CompareAndSwap(current.value));
      } else if owners.unsafe.Some? {
        WriteItem(env, item, Pending(Some(owners.unsafe.value)));
      } else {
        AdvanceHostBranch(env, item, FastForward);
      }
    }

    /** One pass over the listed items. A finished pass reports every item once, as it left it. */
    method ProjectOutbox(env: Env) returns (attempts: seq<Item>, pendingCount: nat, succeededCount: nat)
      requires DistinctItems(items)
      modifies this
      ensures View() == Pass(env, old(View()))
      ensures DistinctItems(items) && Kept(old(items), items) && |items| == |old(items)|
      ensures !crashed ==> attempts == items
      ensures pendingCount == CountPending(attempts) && succeededCount == CountSucceeded(attempts)
      ensures !crashed ==> pendingCount + succeededCount == |old(items)|
    {
      hide ProjectOne, Find, DistinctItems, Kept;
      crashed := false;
      var listed := items;
      ghost var start := View();
      ProjectItems(env, start, listed, 0);
      attempts, pendingCount, succeededCount := [], 0, 0;
      var k := 0;
      while k < |listed| && !crashed
        invariant k <= |listed| == |items| && DistinctItems(items)
        invariant Project(env, View(), listed, k) == Project(env, start, listed, 0)
        invariant forall j :: k <= j < |listed| ==> items[j] == listed[j]
        invariant !crashed ==> attempts == items[..k]
        invariant pendingCount == CountPending(attempts) && succeededCount == CountSucceeded(attempts)
        decreases |listed| - k, !crashed
      {
        StepKeepsPlaces(env, View(), k);
        ProjectOneItem(env, listed[k]);
        if !crashed {
          FindInPlace(items, k, listed[k].id);
          var projected := Find(items, listed[k].id).value;
          assert (attempts + [projected])[..|attempts|] == attempts;
          attempts := attempts + [projected];
          if projected.status.Pending? {
            pendingCount := pendingCount + 1;
          } else {
            succeededCount := succeededCount + 1;
          }
        }
        k := k + 1;
      }
      CountsSum(attempts);
    }

    /** A sync: list, project, and report what is still pending or newly succeeded. */
    method SyncProjections(env: Env) returns (deltas: seq<Item>, pendingCount: nat, succeededCount: nat)
      requires DistinctItems(items)
      modifies this
      ensures View() == Pass(env, old(View())) && deltas == SyncDeltas(env, old(View()))
      ensures !crashed ==> exists at :: DeltasAt(old(items), items, deltas, at)
      ensures crashed ==> deltas == []
      ensures DistinctItems(items) && Kept(old(items), items) && |items| == |old(items)|
      ensures !crashed ==> pendingCount == CountPending(items) && succeededCount == CountSucceeded(items)
      ensures !crashed ==> pendingCount + succeededCount == |old(items)|
    {
      hide Pass, Kept;
      var before := items;
      var attempts;
      attempts, pendingCount, succeededCount := ProjectOutbox(env);
      deltas := [];
      if crashed {
        return;
      }
      var k := 0;
      while k < |attempts|
        invariant k <= |attempts|
        invariant deltas == Deltas(before, attempts[..k])
      {
        var attempt := attempts[k];
        var prior := Find(before, attempt.id);
        assert attempts[..k + 1][..k] == attempts[..k];
        if attempt.status.Pending? || prior.None? || prior.value.status.Pending? {
          deltas := deltas + [attempt];
        }
        k := k + 1;
      }
      assert attempts[..k] == attempts;
      ghost var at := DeltasInOrder(before, attempts);
    }
  }
}
