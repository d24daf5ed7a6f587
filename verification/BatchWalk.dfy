/** What a walk over a batch answers to each task, in terms of board, queue and merger alone. */
module BatchWalk {
  import opened Common
  import opened TaskBoard
  import opened BatchMerge
  import DependencyOrder

  // ----- Waiting in the queue

  /** The first ticket of the task. */
  ghost predicate OwnTicket(tickets: seq<Ticket>, id: TaskId, k: int) {
    0 <= k < |tickets| && tickets[k].taskId == id && forall j :: 0 <= j < k ==> tickets[j].taskId != id
  }

  /** The first ticket that waits for a quiet target. */
  ghost predicate WaitingHead(tickets: seq<Ticket>, h: int) {
    0 <= h < |tickets| && tickets[h].quietWait && forall j :: 0 <= j < h ==> !tickets[j].quietWait
  }

  /** Some ticket waits that the task may not overtake: any, if it has none itself, else its own or one of lower number. */
  ghost predicate StandsBehind(tickets: seq<Ticket>, id: TaskId) {
    exists t :: t in tickets && t.quietWait
      && forall k :: OwnTicket(tickets, id, k) ==> tickets[k].quietWait || t.sequence < tickets[k].sequence
  }

  ghost predicate StillWaiting(env: Env, i: nat, h: int) {
    WaitingHead(env.tickets(i), h) && env.resume(i, env.tickets(i)[h].taskId) == Waiting
  }

  /** The queue keeps the task from being merged, because of the ticket at `h`. */
  ghost predicate KeptBack(env: Env, i: nat, id: TaskId, h: int) {
    StandsBehind(env.tickets(i), id) && StillWaiting(env, i, h)
  }

  lemma {:induction false} FindTicketIsOwn(tickets: seq<Ticket>, id: TaskId)
    ensures FindTicket(tickets, id).Some? ==>
      exists k :: OwnTicket(tickets, id, k) && tickets[k] == FindTicket(tickets, id).value
    ensures FindTicket(tickets, id).None? ==> forall t :: t in tickets ==> t.taskId != id
  {
    if tickets != [] {
      if tickets[0].taskId == id {
        assert OwnTicket(tickets, id, 0);
      } else {
        FindTicketIsOwn(tickets[1..], id);
        if k :| OwnTicket(tickets[1..], id, k) && tickets[1..][k] == FindTicket(tickets[1..], id).value {
          assert OwnTicket(tickets, id, k + 1);
        }
      }
    }
  }

  lemma OwnTicketOnce(tickets: seq<Ticket>, id: TaskId, j: int, k: int)
    requires OwnTicket(tickets, id, j) && OwnTicket(tickets, id, k)
    ensures j == k
  {
  }

  lemma {:induction false} FirstQuietIsHead(tickets: seq<Ticket>)
    ensures FirstQuiet(tickets).Some? ==> exists h :: WaitingHead(tickets, h) && tickets[h] == FirstQuiet(tickets).value
    ensures FirstQuiet(tickets).None? ==> forall t :: t in tickets ==> !t.quietWait
  {
    if tickets != [] {
      if tickets[0].quietWait {
        assert WaitingHead(tickets, 0);
      } else {
        FirstQuietIsHead(tickets[1..]);
        if h :| WaitingHead(tickets[1..], h) && tickets[1..][h] == FirstQuiet(tickets[1..]).value {
          assert WaitingHead(tickets, h + 1);
        }
      }
    }
  }

  lemma WaitingHeadOnce(tickets: seq<Ticket>, g: int, h: int)
    requires WaitingHead(tickets, g) && WaitingHead(tickets, h)
    ensures g == h
  {
  }

  lemma StandsBehindMeans(tickets: seq<Ticket>, id: TaskId)
    ensures var mine := FindTicket(tickets, id);
            StandsBehind(tickets, id) <==> (mine.Some? && mine.value.quietWait) || EarlierQuiet(tickets, mine)
  {
    hide FindTicket;
    FindTicketIsOwn(tickets, id);
    var mine := FindTicket(tickets, id);
    if mine.Some? {
      var k :| OwnTicket(tickets, id, k) && tickets[k] == mine.value;
      forall j | OwnTicket(tickets, id, j)
        ensures j == k
      {
        OwnTicketOnce(tickets, id, j, k);
      }
      assert mine.value in tickets;
    }
  }

  lemma KeptBackMeans(env: Env, i: nat, task: Task)
    ensures HeldByQuietWait(env, i, task) <==> exists h :: KeptBack(env, i, task.id, h)
    ensures forall h :: KeptBack(env, i, task.id, h) ==>
              QuietHoldReason(env, i, task) == if env.tickets(i)[h].taskId == task.id then TargetQuietWait else QueueHeadBlocked
  {
    hide FindTicket, FirstQuiet, EarlierQuiet, StandsBehind;
    var tickets := env.tickets(i);
    StandsBehindMeans(tickets, task.id);
    FirstQuietIsHead(tickets);
    BehindSomebody(tickets, task.id);
    if FirstQuiet(tickets).Some? {
      var g :| WaitingHead(tickets, g) && tickets[g] == FirstQuiet(tickets).value;
      forall h | WaitingHead(tickets, h)
        ensures h == g
      {
        WaitingHeadOnce(tickets, g, h);
      }
      assert StillWaiting(env, i, g) <==> env.resume(i, tickets[g].taskId) == Waiting;
      assert StandsBehind(tickets, task.id) && StillWaiting(env, i, g) ==> KeptBack(env, i, task.id, g);
    }
  }

  lemma BehindSomebody(tickets: seq<Ticket>, id: TaskId)
    ensures StandsBehind(tickets, id) ==> exists t :: t in tickets && t.quietWait
  {
  }

  // ----- What was shipped, and what the next merge builds on

  ghost predicate MergedBefore(results: seq<TaskResult>, k: nat, id: TaskId) {
    exists j :: 0 <= j < k <= |results| && results[j].outcome == Merged && results[j].taskId == id
  }

  ghost predicate DoneOnBoard(board: seq<Task>, id: TaskId) {
    exists t :: t in board && t.id == id && (t.hubStatus == Done || t.hubStatus == Wontfix)
  }

  /** A blocker that is neither done on the board nor merged earlier in the walk. */
  ghost predicate MissesBlocker(board: seq<Task>, results: seq<TaskResult>, k: nat, task: Task) {
    exists b :: b in Blockers(task) && !DoneOnBoard(board, b) && !MergedBefore(results, k, b)
  }

  ghost predicate GivesBase(r: TaskResult) {
    r.outcome == Merged && r.candidateOid.Some?
  }

  ghost predicate LastBase(results: seq<TaskResult>, k: nat, j: int) {
    0 <= j < k <= |results| && GivesBase(results[j]) && forall m :: j < m < k ==> !GivesBase(results[m])
  }

  /** The candidate of the last task merged before position `k`, or else the settled host contribution. */
  ghost predicate BuildsOn(host: HostContribution, results: seq<TaskResult>, k: nat, p: Option<Oid>)
    requires k <= |results|
  {
    || (exists j :: LastBase(results, k, j) && p == results[j].candidateOid)
    || ((forall j :: 0 <= j < k ==> !GivesBase(results[j]))
        && p == match host case SettledContribution(commit) => commit case _ => None)
  }

  lemma MergedIdsBefore(results: seq<TaskResult>, k: nat)
    requires k <= |results|
    ensures forall id :: id in MergedIds(results[..k]) <==> MergedBefore(results, k, id)
  {
    forall id
      ensures id in MergedIds(results[..k]) <==> MergedBefore(results, k, id)
    {
      if id in MergedIds(results[..k]) {
        var j := MergedPosition(results[..k], id);
        assert results[j] == results[..k][j];
      }
      if j :| 0 <= j < k && results[j].outcome == Merged && results[j].taskId == id {
        assert results[..k][j] in results[..k];
      }
    }
  }

  lemma MissesMeans(board: seq<Task>, results: seq<TaskResult>, k: nat, task: Task)
    requires k <= |results|
    ensures MissesBlocker(board, results, k, task) <==> Unshipped(task, Completed(board) + MergedIds(results[..k]))
  {
    MergedIdsBefore(results, k);
    assert forall id :: id in Completed(board) <==> DoneOnBoard(board, id);
  }

  lemma {:induction false} TipIsBase(host: HostContribution, results: seq<TaskResult>, k: nat)
    requires k <= |results|
    ensures BuildsOn(host, results, k, Tip(if host.SettledContribution? then host.commit else None, results[..k]))
  {
    hide BuildsOn, GivesBase;
    if k == 0 {
      NoBaseYet(host, results);
    } else {
      var n := k - 1;
      assert results[..k][..n] == results[..n];
      TipIsBase(host, results, n);
      BaseAfter(host, results, n, Tip(if host.SettledContribution? then host.commit else None, results[..n]));
      GivesBaseMeans(results[n]);
    }
  }

  lemma GivesBaseMeans(r: TaskResult)
    ensures GivesBase(r) <==> r.outcome == Merged && r.candidateOid.Some?
  {
  }

  lemma NoBaseYet(host: HostContribution, results: seq<TaskResult>)
    ensures BuildsOn(host, results, 0, if host.SettledContribution? then host.commit else None)
  {
  }

  lemma BaseAfter(host: HostContribution, results: seq<TaskResult>, n: nat, p: Option<Oid>)
    requires n < |results| && BuildsOn(host, results, n, p)
    ensures BuildsOn(host, results, n + 1, if GivesBase(results[n]) then results[n].candidateOid else p)
  {
    if GivesBase(results[n]) {
      assert LastBase(results, n + 1, n);
    } else if j :| LastBase(results, n, j) && p == results[j].candidateOid {
      assert LastBase(results, n + 1, j);
    }
  }

  // ----- The answer to the task at one position

  ghost predicate Called(calls: seq<Call>, id: TaskId) {
    exists c :: c in calls && c.taskId == id
  }

  /** A merger call for an earlier task came back waiting for a quiet target. */
  ghost predicate EndedBefore(ordered: seq<Task>, calls: seq<Call>, k: nat) {
    exists c :: c in calls && c.report.reason == TargetQuietWait && CallFor(ordered, k, c)
  }

  ghost predicate CallFor(ordered: seq<Task>, k: nat, c: Call) {
    exists j :: 0 <= j < k <= |ordered| && ordered[j].id == c.taskId
  }

  ghost predicate KeptBackAnswer(env: Env, k: nat, task: Task, r: TaskResult) {
    exists h :: KeptBack(env, k, task.id, h)
      && r == TaskResult(task.id, Pending, if env.tickets(k)[h].taskId == task.id then TargetQuietWait else QueueHeadBlocked, None)
  }

  ghost predicate MergerAnswer(env: Env, host: HostContribution, task: Task, results: seq<TaskResult>, calls: seq<Call>, k: nat)
    requires k < |results|
  {
    exists p :: BuildsOn(host, results, k, p)
      && var report := env.process(k, task, p);
         Call(task.id, p, report) in calls
         && results[k] == TaskResult(task.id, report.outcome, report.reason, report.candidateOid)
  }

  ghost predicate AnsweredAt(env: Env, host: HostContribution, board: seq<Task>, ordered: seq<Task>,
    results: seq<TaskResult>, calls: seq<Call>, k: nat)
    requires k < |results| <= |ordered|
  {
    var task := ordered[k];
    if EndedBefore(ordered, calls, k) then
      !Called(calls, task.id) && results[k] == TaskResult(task.id, Pending, QueueHeadBlocked, None)
    else if MissesBlocker(board, results, k, task) then
      !Called(calls, task.id) && results[k] == TaskResult(task.id, Skipped, UnshippedPrerequisite, None)
    else if exists h :: KeptBack(env, k, task.id, h) then
      !Called(calls, task.id) && KeptBackAnswer(env, k, task, results[k])
    else
      MergerAnswer(env, host, task, results, calls, k)
  }

  ghost predicate AllAnswered(env: Env, host: HostContribution, board: seq<Task>, ordered: seq<Task>,
    results: seq<TaskResult>, calls: seq<Call>)
    requires |results| <= |ordered|
  {
    forall k :: 0 <= k < |results| ==> AnsweredAt(env, host, board, ordered, results, calls, k)
  }

  /** The merger is called in walk order, for each task at most once. */
  ghost predicate CallsAt(ordered: seq<Task>, calls: seq<Call>, at: seq<nat>) {
    && |at| == |calls|
    && (forall m :: 0 <= m < |at| ==> at[m] < |ordered| && calls[m].taskId == ordered[at[m]].id)
    && (forall m, n :: 0 <= m < n < |at| ==> at[m] < at[n])
  }

  lemma PrefixFacts(board: seq<Task>, host: HostContribution, results: seq<TaskResult>, more: seq<TaskResult>, k: nat, task: Task)
    requires results <= more && k <= |results|
    ensures MissesBlocker(board, results, k, task) <==> MissesBlocker(board, more, k, task)
    ensures forall p :: BuildsOn(host, results, k, p) <==> BuildsOn(host, more, k, p)
  {
    assert forall j :: 0 <= j < k ==> results[j] == more[j];
    assert forall b :: MergedBefore(results, k, b) <==> MergedBefore(more, k, b);
    assert forall j :: LastBase(results, k, j) <==> LastBase(more, k, j);
  }

  /** One more turn changes no earlier answer. */
  lemma AnswersStay(env: Env, host: HostContribution, board: seq<Task>, ordered: seq<Task>,
    results: seq<TaskResult>, calls: seq<Call>, more: seq<TaskResult>, calls': seq<Call>)
    requires DistinctIds(ordered) && |results| < |more| <= |ordered| && results <= more
    requires calls' == calls || exists c :: calls' == calls + [c] && c.taskId == ordered[|results|].id
    requires AllAnswered(env, host, board, ordered, results, calls)
    ensures forall k :: 0 <= k < |results| ==> AnsweredAt(env, host, board, ordered, more, calls', k)
  {
    hide MissesBlocker, KeptBack, KeptBackAnswer, BuildsOn;
    forall k | 0 <= k < |results|
      ensures AnsweredAt(env, host, board, ordered, more, calls', k)
    {
      assert AnsweredAt(env, host, board, ordered, results, calls, k);
      PrefixFacts(board, host, results, more, k, ordered[k]);
      CallsStay(ordered, calls, calls', k, |results|);
      assert more[k] == results[k];
      if MergerAnswer(env, host, ordered[k], results, calls, k) {
        MergerAnswerStays(env, host, ordered[k], results, calls, more, calls', k);
      }
    }
  }

  lemma CallsStay(ordered: seq<Task>, calls: seq<Call>, calls': seq<Call>, k: nat, i: nat)
    requires DistinctIds(ordered) && k < i < |ordered|
    requires calls' == calls || exists c :: calls' == calls + [c] && c.taskId == ordered[i].id
    ensures Called(calls, ordered[k].id) <==> Called(calls', ordered[k].id)
    ensures EndedBefore(ordered, calls, k) <==> EndedBefore(ordered, calls', k)
    ensures forall c :: c in calls ==> c in calls'
  {
  }

  lemma MergerAnswerStays(env: Env, host: HostContribution, task: Task, results: seq<TaskResult>, calls: seq<Call>,
    more: seq<TaskResult>, calls': seq<Call>, k: nat)
    requires k < |results| && results <= more && forall c :: c in calls ==> c in calls'
    requires MergerAnswer(env, host, task, results, calls, k)
    ensures MergerAnswer(env, host, task, more, calls', k)
  {
    hide BuildsOn;
    PrefixFacts([], host, results, more, k, task);
    var p :| BuildsOn(host, results, k, p)
      && var report := env.process(k, task, p);
         Call(task.id, p, report) in calls
         && results[k] == TaskResult(task.id, report.outcome, report.reason, report.candidateOid);
    assert BuildsOn(host, more, k, p);
  }

  /** Mid-walk: everything so far is answered, and no call has ended the walk. */
  ghost predicate Underway(env: Env, host: HostContribution, board: seq<Task>, ordered: seq<Task>, b: Batch, at: seq<nat>) {
    && |b.results| <= |ordered|
    && AllAnswered(env, host, board, ordered, b.results, b.calls)
    && Accounted(Start(board, host), b)
    && CallsAt(ordered, b.calls, at)
    && (forall m :: 0 <= m < |at| ==> at[m] < |b.results|)
  }

  lemma TurnOwnAnswer(env: Env, host: HostContribution, board: seq<Task>, ordered: seq<Task>, b: Batch, at: seq<nat>)
    requires DistinctIds(ordered) && Underway(env, host, board, ordered, b, at) && |b.results| < |ordered|
    ensures var next := Turn(env, |b.results|, ordered[|b.results|], b);
            |next.results| == |b.results| + 1 && AnsweredAt(env, host, board, ordered, next.results, next.calls, |b.results|)
  {
    hide Unshipped, HeldByQuietWait, QuietHoldReason, KeptBack, AllAnswered, MissesBlocker, BuildsOn, Tip, MergedIds, EndedBefore;
    var i, task := |b.results|, ordered[|b.results|];
    var next := Turn(env, i, task, b);
    assert next.results[..i] == b.results;
    MissesMeans(board, next.results, i, task);
    KeptBackMeans(env, i, task);
    TipIsBase(host, next.results, i);
    NotEndedYet(ordered, b.calls, i);
    NotCalledYet(ordered, b.calls, at, i);
    TurnCalls(env, i, task, b);
    NotEndedByOwn(ordered, b.calls, next.calls, i);
    if next.calls != b.calls {
      assert next.calls[|b.calls|] in next.calls;
      assert BuildsOn(host, next.results, i, b.predecessor);
      assert MergerAnswer(env, host, task, next.results, next.calls, i);
    } else {
      assert Unshipped(task, b.shipped) || HeldByQuietWait(env, i, task);
    }
  }

  lemma TurnCalls(env: Env, i: nat, task: Task, b: Batch)
    ensures var next := Turn(env, i, task, b);
            && (next.calls == b.calls || exists c :: next.calls == b.calls + [c] && c.taskId == task.id)
            && (next.calls == b.calls <==> Unshipped(task, b.shipped) || HeldByQuietWait(env, i, task))
            && (next.calls != b.calls ==>
                  next.calls == b.calls + [Call(task.id, b.predecessor, env.process(i, task, b.predecessor))])
  {
    hide Unshipped, HeldByQuietWait;
    assert |b.calls + [Call(task.id, b.predecessor, env.process(i, task, b.predecessor))]| == |b.calls| + 1;
  }

  lemma TurnAnswers(env: Env, host: HostContribution, board: seq<Task>, ordered: seq<Task>, b: Batch, at: seq<nat>) returns (at': seq<nat>)
    requires DistinctIds(ordered) && Underway(env, host, board, ordered, b, at) && |b.results| < |ordered|
    requires b.results <= Turn(env, |b.results|, ordered[|b.results|], b).results
    ensures var i := |b.results|;
            var next := Turn(env, i, ordered[i], b);
            && |next.results| == i + 1
            && AllAnswered(env, host, board, ordered, next.results, next.calls)
            && CallsAt(ordered, next.calls, at') && (forall m :: 0 <= m < |at'| ==> at'[m] <= i)
            && (EndsWalk(env, i, ordered[i], b) ==> EndedBefore(ordered, next.calls, i + 1))
  {
    hide AllAnswered, AnsweredAt, Accounted, Turn, EndsWalk, EndedBefore;
    var i, task := |b.results|, ordered[|b.results|];
    var next := Turn(env, i, task, b);
    TurnOwnAnswer(env, host, board, ordered, b, at);
    TurnCalls(env, i, task, b);
    AnswersStay(env, host, board, ordered, b.results, b.calls, next.results, next.calls);
    AllAnsweredFrom(env, host, board, ordered, next.results, next.calls, i);
    at' := CallsExtend(ordered, b.calls, next.calls, at, i);
    if EndsWalk(env, i, task, b) {
      EndsWithCall(env, ordered, b);
    }
  }

  lemma CallsExtend(ordered: seq<Task>, calls: seq<Call>, calls': seq<Call>, at: seq<nat>, i: nat) returns (at': seq<nat>)
    requires CallsAt(ordered, calls, at) && i < |ordered| && forall m :: 0 <= m < |at| ==> at[m] < i
    requires calls' == calls || exists c :: calls' == calls + [c] && c.taskId == ordered[i].id
    ensures CallsAt(ordered, calls', at') && forall m :: 0 <= m < |at'| ==> at'[m] <= i
  {
    at' := if calls' == calls then at else at + [i];
  }

  lemma EndsWithCall(env: Env, ordered: seq<Task>, b: Batch)
    requires |b.results| < |ordered| && EndsWalk(env, |b.results|, ordered[|b.results|], b)
    ensures EndedBefore(ordered, Turn(env, |b.results|, ordered[|b.results|], b).calls, |b.results| + 1)
  {
    var i, task := |b.results|, ordered[|b.results|];
    var next := Turn(env, i, task, b);
    var c := Call(task.id, b.predecessor, env.process(i, task, b.predecessor));
    assert next.calls == b.calls + [c] && c in next.calls;
    assert CallFor(ordered, i + 1, c);
  }

  lemma AllAnsweredFrom(env: Env, host: HostContribution, board: seq<Task>, ordered: seq<Task>,
    results: seq<TaskResult>, calls: seq<Call>, i: nat)
    requires i + 1 == |results| <= |ordered|
    requires forall k :: 0 <= k < i ==> AnsweredAt(env, host, board, ordered, results, calls, k)
    requires AnsweredAt(env, host, board, ordered, results, calls, i)
    ensures AllAnswered(env, host, board, ordered, results, calls)
  {
  }

  lemma NotEndedYet(ordered: seq<Task>, calls: seq<Call>, i: nat)
    requires forall c :: c in calls ==> c.report.reason != TargetQuietWait
    ensures !EndedBefore(ordered, calls, i)
  {
  }

  lemma NotEndedByOwn(ordered: seq<Task>, calls: seq<Call>, calls': seq<Call>, i: nat)
    requires DistinctIds(ordered) && i < |ordered| && !EndedBefore(ordered, calls, i)
    requires calls' == calls || exists c :: calls' == calls + [c] && c.taskId == ordered[i].id
    ensures !EndedBefore(ordered, calls', i)
  {
  }

  lemma NotCalledYet(ordered: seq<Task>, calls: seq<Call>, at: seq<nat>, i: nat)
    requires DistinctIds(ordered) && CallsAt(ordered, calls, at) && i < |ordered| && forall m :: 0 <= m < |at| ==> at[m] < i
    ensures !Called(calls, ordered[i].id)
  {
    forall c | c in calls
      ensures c.taskId != ordered[i].id
    {
      var m :| 0 <= m < |calls| && calls[m] == c;
      assert at[m] < i;
    }
  }

  /** After a quiet wait everybody else is blocked behind it. */
  lemma BlockedAnswers(env: Env, host: HostContribution, board: seq<Task>, ordered: seq<Task>,
    results: seq<TaskResult>, calls: seq<Call>, at: seq<nat>, done: seq<TaskResult>, i: nat)
    requires DistinctIds(ordered) && |results| == i + 1 <= |ordered| && results <= done
    requires AllAnswered(env, host, board, ordered, results, calls) && EndedBefore(ordered, calls, i + 1)
    requires CallsAt(ordered, calls, at) && forall m :: 0 <= m < |at| ==> at[m] <= i
    requires BatchMerge.Blocked(ordered, done, i + 1)
    ensures AllAnswered(env, host, board, ordered, done, calls)
  {
    hide MissesBlocker, KeptBack, KeptBackAnswer, MergerAnswer;
    forall k | 0 <= k < |done|
      ensures AnsweredAt(env, host, board, ordered, done, calls, k)
    {
      if k <= i {
        if |results| < |done| {
          AnswersStay(env, host, board, ordered, results, calls, done, calls);
        } else {
          assert results == done;
        }
      } else {
        NotCalledYet(ordered, calls, at, k);
        assert EndedBefore(ordered, calls, k);
      }
    }
  }

  lemma {:induction false} ShipAnswers(env: Env, host: HostContribution, board: seq<Task>, ordered: seq<Task>, b: Batch, at: seq<nat>)
    returns (at': seq<nat>)
    requires DistinctIds(ordered) && Underway(env, host, board, ordered, b, at) && Sound(ordered, Start(board, host), b)
    ensures var done := Ship(env, ordered, |b.results|, b);
            && |done.results| == |ordered|
            && AllAnswered(env, host, board, ordered, done.results, done.calls)
            && CallsAt(ordered, done.calls, at')
    decreases |ordered| - |b.results|
  {
    hide Turn, EndsWalk, Sound, AllAnswered, Accounted;
    var i := |b.results|;
    at' := at;
    if i < |ordered| {
      var next := Turn(env, i, ordered[i], b);
      TurnSound(env, ordered, i, Start(board, host), b);
      at' := TurnAnswers(env, host, board, ordered, b, at);
      if EndsWalk(env, i, ordered[i], b) {
        assert ordered[0..] == ordered;
        BlockRestSound(ordered, 0, Start(board, host), next, i + 1);
        BlockedAnswers(env, host, board, ordered, next.results, next.calls, at', BlockRest(ordered, next.results), i);
      } else {
        at' := ShipAnswers(env, host, board, ordered, next, at');
      }
    }
  }

  /**
   * The walk, task by task: once a merger call has come back waiting for a quiet target, everybody
   * else is blocked behind it; a task that misses a blocker is skipped; one that the queue keeps back
   * is pending; every other one is merged on top of the last merged candidate, and only those are.
   */
  lemma WalkAnswersEveryTask(env: Env, host: HostContribution, board: seq<Task>, ordered: seq<Task>) returns (at: seq<nat>)
    requires DistinctIds(ordered) && !host.PendingContribution?
    ensures var done := Shipped(env, host, board, ordered);
            && |done.results| == |ordered|
            && AllAnswered(env, host, board, ordered, done.results, done.calls)
            && CallsAt(ordered, done.calls, at)
  {
    var start := Start(board, host);
    at := ShipAnswers(env, host, board, ordered, start, []);
  }

  /** A pending host contribution holds everybody, with its own reason. */
  lemma PendingContributionHoldsAll(env: Env, reason: Reason, board: seq<Task>, ordered: seq<Task>)
    ensures var done := Shipped(env, PendingContribution(reason), board, ordered);
            && done.calls == [] && |done.results| == |ordered|
            && forall k :: 0 <= k < |ordered| ==> done.results[k] == TaskResult(ordered[k].id, Pending, reason, None)
  {
  }

  /** Done if everything merged, pending if everything is, and otherwise a partial failure. */
  lemma StatusOfResults(results: seq<TaskResult>)
    ensures Status(results) == DoneStatus <==> forall r :: r in results ==> r.outcome == Merged
    ensures Status(results) == PendingStatus <==> results != [] && forall r :: r in results ==> r.outcome == Pending
    ensures Status(results) == PartialFailed <==>
      (exists r :: r in results && r.outcome != Merged) && (exists r :: r in results && r.outcome != Pending)
  {
    if results != [] {
      assert results[0] in results;
    }
  }
}
