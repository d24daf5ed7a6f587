/**
 * What one step of a projection makes of one pending item, in terms of what the user, the machine and
 * git do during the step.
 */
module CheckoutAnswers {
  import opened Common
  import opened CommitGraph
  import opened CheckoutProjection

  /** Where the branches are after the user's next move. */
  function Moved(env: Env, clock: nat, b: Branches): Branches {
    env.user(clock, b)
  }

  /** The command moves the branch: with nobody owning it only from where it was seen, else by fast-forward. */
  ghost predicate Moves(env: Env, clock: nat, id: ItemId, owned: bool, seen: Option<Commit>, at: Option<Commit>) {
    && env.command(clock) != FailsAtOnce && at.Some?
    && if owned then IsAncestor(at.value, id.candidate) else at == seen
  }

  /** The command reports success: it works, and the branch was moved or needed no move. */
  ghost predicate Reports(env: Env, clock: nat, id: ItemId, owned: bool, seen: Option<Commit>, at: Option<Commit>) {
    && env.command(clock) == Works && at.Some?
    && (Moves(env, clock, id, owned, seen, at) || (owned && IsAncestor(id.candidate, at.value)))
  }

  /** After a command that did not report success, the branch is looked at once more. */
  ghost predicate LookedAgain(env: Env, clock: nat, id: ItemId, owned: bool, at: Option<Commit>, status: Status) {
    if at.Some? && IsAncestor(id.candidate, at.value) then status == Succeeded(at.value)
    else
      && status.Pending? && status.reason.Some?
      && (owned && env.laterReason(clock).Some? ==> status.reason == env.laterReason(clock))
      && (owned && env.laterReason(clock).None? ==> status.reason == Some(OperationInProgress))
      && (!owned ==>
            (status.reason == Some(BranchDiverged) <==> at.Some? && !IsAncestor(at.value, id.candidate))
            && (status.reason == Some(BranchDiverged) || status.reason == Some(OperationInProgress)))
  }

  ghost predicate Attempted(env: Env, clock: nat, b: Branches, id: ItemId, owned: bool, seen: Option<Commit>, status: Status) {
    var b' := Moved(env, clock, b);
    var at := At(b', id.branch);
    if Reports(env, clock + 1, id, owned, seen, at) then status == Succeeded(id.candidate)
    else
      var left := if Moves(env, clock + 1, id, owned, seen, at) then b'[id.branch := id.candidate] else b';
      LookedAgain(env, clock + 2, id, owned, At(Moved(env, clock + 1, left), id.branch), status)
  }

  /** The status a step that was not killed leaves a pending item with. */
  ghost predicate Projected(env: Env, clock: nat, b: Branches, id: ItemId, status: Status) {
    var b' := Moved(env, clock, b);
    var at := At(b', id.branch);
    if at.Some? && IsAncestor(id.candidate, at.value) then status == Succeeded(at.value)
    else if at.None? || !IsAncestor(at.value, id.candidate) then status == Pending(Some(BranchDiverged))
    else
      match env.owners(clock + 1, id)
      case ManyOwners => status == Pending(Some(MultipleWorktrees))
      case OneOwner(Some(reason)) => status == Pending(Some(reason))
      case OneOwner(None) => Attempted(env, clock + 1, b', id, true, at, status)
      case NoOwner => Attempted(env, clock + 1, b', id, false, at, status)
  }

  lemma MarkAnswers(env: Env, w: World, k: nat, status: Status)
    requires DistinctItems(w.items) && k < |w.items|
    ensures var after := Mark(env, w, w.items[k], status);
            !after.crashed ==> after.items == w.items[k := w.items[k].(status := status)]
  {
    MarkItems(env, w, w.items[k], status, k);
  }

  lemma MutateAnswers(env: Env, w: World, id: ItemId, plan: Plan, seen: Option<Commit>)
    requires plan == FastForward || (plan.CompareAndSwap? && seen == Some(plan.current))
    requires !w.crashed
    ensures var (mutated, done) := Mutate(env, w, id, plan);
            !mutated.crashed ==>
              var b' := Moved(env, w.clock, w.branches);
              var at := At(b', id.branch);
              && mutated.clock == w.clock + 1 && mutated.items == w.items
              && (done <==> Reports(env, w.clock + 1, id, plan.FastForward?, seen, at))
              && mutated.branches ==
                   if Moves(env, w.clock + 1, id, plan.FastForward?, seen, at) then b'[id.branch := id.candidate] else b'
  {
  }

  lemma AdvanceAnswers(env: Env, w: World, k: nat, plan: Plan, seen: Option<Commit>)
    requires DistinctItems(w.items) && k < |w.items| && !w.crashed
    requires plan == FastForward || (plan.CompareAndSwap? && seen == Some(plan.current))
    ensures var after := Advance(env, w, w.items[k], plan);
            !after.crashed ==>
              exists status :: after.items == w.items[k := w.items[k].(status := status)]
                && Attempted(env, w.clock, w.branches, w.items[k].id, plan.FastForward?, seen, status)
  {
    hide Mark, Mutate, Reports, Moves;
    var item := w.items[k];
    MutateAnswers(env, w, item.id, plan, seen);
    var (mutated, done) := Mutate(env, w, item.id, plan);
    if mutated.crashed {
      CrashedEnds(env, mutated, item);
    } else if done {
      MarkAnswers(env, mutated, k, Succeeded(item.id.candidate));
    } else {
      var w' := Yield(env, mutated);
      var observed := At(w'.branches, item.id.branch);
      var seen' := Observe(w', item.id.branch);
      if w'.crashed {
        CrashedEnds(env, seen', item);
      } else if Contains(observed, item.id.candidate) {
        MarkAnswers(env, seen', k, Succeeded(observed.value));
      } else {
        MarkAnswers(env, seen', k, Pending(Some(FailureReason(env, w'.clock, plan, item.id, observed))));
      }
    }
  }

  lemma CrashedEnds(env: Env, w: World, item: Item)
    requires w.crashed
    ensures Yield(env, w) == w && (forall branch :: Observe(w, branch) == w)
    ensures forall status :: Mark(env, w, item, status) == w
  {
  }

  /** Every step that was not killed leaves a pending item as the branch, the worktrees and the command have it. */
  lemma StepAnswers(env: Env, w: World, k: nat)
    requires DistinctItems(w.items) && k < |w.items| && w.items[k].status.Pending? && !w.crashed
    ensures var after := ProjectOne(env, w, w.items[k]);
            !after.crashed ==>
              exists status :: after.items == w.items[k := w.items[k].(status := status)]
                && Projected(env, w.clock, w.branches, w.items[k].id, status)
  {
    hide Mark, Advance, Attempted;
    var item := w.items[k];
    var w' := Yield(env, w);
    var at := At(w'.branches, item.id.branch);
    var seen := Observe(w', item.id.branch);
    if w'.crashed {
      CrashedEnds(env, w', item);
      CrashedAdvance(env, w', item);
    } else {
      match Decide(env, w'.clock, item.id, at)
      case AlreadyThere(oid) => MarkAnswers(env, seen, k, Succeeded(oid));
      case Hold(reason) => MarkAnswers(env, seen, k, Pending(Some(reason)));
      case plan => AdvanceAnswers(env, seen, k, plan, at);
    }
  }

  lemma CrashedAdvance(env: Env, w: World, item: Item)
    requires w.crashed
    ensures forall plan: Plan :: plan.CompareAndSwap? || plan.FastForward? ==> Advance(env, w, item, plan).crashed
  {
    forall plan: Plan | plan.CompareAndSwap? || plan.FastForward?
      ensures Advance(env, w, item, plan).crashed
    {
      CrashedEnds(env, w, item);
    }
  }
}
