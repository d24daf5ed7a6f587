/**
 * The idle timeout and the warning interval of an agent run. Time advances in milliseconds; a timer
 * fires at exactly its due time, and output may arrive at any time before.
 */
module IdleTimer {
  import opened Common

  datatype Config = Config(timeout: nat, interval: nat) {
    predicate Valid() {
      timeout > 0 && interval > 0
    }
  }

  datatype Cause = Started | Output | ChildActive

  datatype Event =
    | Reset(at: nat, cause: Cause)
    | Warned(at: nat, number: nat, childActive: bool)
    | Quieted(at: nat)
    | TimedOut(at: nat, childActive: bool)

  /** `timeoutAt` and `warningAt` are when the two handles are due; both are unset once the run is over. */
  datatype Timer = Timer(now: nat, timeoutAt: Option<nat>, warningAt: Option<nat>, counter: nat, log: seq<Event>)

  function Restart(c: Config, t: Timer, cause: Cause): Timer {
    t.(timeoutAt := Some(t.now + c.timeout), warningAt := Some(t.now + c.interval), counter := 0,
       log := t.log + [Reset(t.now, cause)])
  }

  function Begin(c: Config): Timer {
    Restart(c, Timer(0, None, None, 0, []), Started)
  }

  function OnTimeout(c: Config, t: Timer, childActive: bool): Timer {
    if childActive then Restart(c, t, ChildActive)
    else t.(timeoutAt := None, warningAt := None, log := t.log + [TimedOut(t.now, childActive)])
  }

  function OnWarning(c: Config, t: Timer, childActive: bool): Timer {
    var next := t.(warningAt := Some(t.now + c.interval));
    if childActive then next.(counter := 0, log := t.log + [Quieted(t.now)])
    else next.(counter := t.counter + 1, log := t.log + [Warned(t.now, t.counter + 1, childActive)])
  }

  /** What happens next: a line of output, a due timer (either one if both are due), or the end of the run. */
  datatype Step = Line(delay: nat) | Fire(timeoutFirst: bool, childActive: bool) | Finish

  predicate Live(t: Timer) {
    t.timeoutAt.Some? && t.warningAt.Some?
  }

  function Due(t: Timer): nat
    requires Live(t)
  {
    if t.timeoutAt.value < t.warningAt.value then t.timeoutAt.value else t.warningAt.value
  }

  function Next(c: Config, t: Timer, step: Step): Timer {
    if !Live(t) then t
    else
      match step
      case Line(delay) => Restart(c, t.(now := if t.now + delay < Due(t) then t.now + delay else Due(t)), Output)
      case Fire(timeoutFirst, childActive) =>
        var due := t.(now := Due(t));
        if t.timeoutAt.value < t.warningAt.value || (t.timeoutAt == t.warningAt && timeoutFirst)
        then OnTimeout(c, due, childActive)
        else OnWarning(c, due, childActive)
      case Finish => t.(timeoutAt := None, warningAt := None)
  }

  function Run(c: Config, steps: seq<Step>): Timer {
    if steps == [] then Begin(c) else Next(c, Run(c, steps[..|steps| - 1]), steps[|steps| - 1])
  }

  /** The two handles and the counter as the callbacks update them. */
  class Watch {
    const c: Config
    var now: nat
    var timeoutHandle: Option<nat>
    var warningHandle: Option<nat>
    var idleMinuteCounter: nat
    var log: seq<Event>

    ghost function View(): Timer
      reads this
    {
      Timer(now, timeoutHandle, warningHandle, idleMinuteCounter, log)
    }

    constructor (c: Config)
      ensures this.c == c && View() == Begin(c)
    {
      this.c := c;
      now := 0;
      idleMinuteCounter := 0;
      log := [Reset(0, Started)];
      timeoutHandle := Some(c.timeout);
      warningHandle := Some(c.interval);
    }

    method StartWarningInterval()
      modifies this`warningHandle, this`idleMinuteCounter
      ensures warningHandle == Some(now + c.interval) && idleMinuteCounter == 0
    {
      warningHandle := None;
      idleMinuteCounter := 0;
      warningHandle := Some(now + c.interval);
    }

    method ResetIdleTimer(cause: Cause)
      modifies this
      ensures View() == Restart(c, old(View()), cause)
    {
      timeoutHandle := None;
      timeoutHandle := Some(now + c.timeout);
      StartWarningInterval();
      log := log + [Reset(now, cause)];
    }

    method TimeoutCallback(childActive: bool)
      modifies this
      ensures View() == OnTimeout(c, old(View()), childActive)
    {
      if childActive {
        ResetIdleTimer(ChildActive);
        return;
      }
      log := log + [TimedOut(now, childActive)];
      ClearTimers();
    }

    method WarningCallback(childActive: bool)
      modifies this`warningHandle, this`idleMinuteCounter, this`log
      ensures View() == OnWarning(c, old(View()), childActive)
    {
      warningHandle := Some(now + c.interval);
      if childActive {
        idleMinuteCounter := 0;
        log := log + [Quieted(now)];
        return;
      }
      idleMinuteCounter := idleMinuteCounter + 1;
      log := log + [Warned(now, idleMinuteCounter, childActive)];
    }

    method ClearTimers()
      modifies this`timeoutHandle, this`warningHandle
      ensures timeoutHandle.None? && warningHandle.None?
    {
      timeoutHandle := None;
      warningHandle := None;
    }

    /** The event loop: time passes up to the next event, and its callback runs. */
    method Advance(step: Step)
      modifies this
      ensures View() == Next(c, old(View()), step)
    {
      if timeoutHandle.None? || warningHandle.None? {
        return;
      }
      var due := if timeoutHandle.value < warningHandle.value then timeoutHandle.value else warningHandle.value;
      match step
      case Line(delay) =>
        now := if now + delay < due then now + delay else due;
        ResetIdleTimer(Output);
      case Fire(timeoutFirst, childActive) =>
        now := due;
        if timeoutHandle.value < warningHandle.value || (timeoutHandle == warningHandle && timeoutFirst) {
          TimeoutCallback(childActive);
        } else {
          WarningCallback(childActive);
        }
      case Finish =>
        ClearTimers();
    }
  }

  // ----- What the log shows

  function LastReset(log: seq<Event>): Option<nat> {
    if log == [] then None
    else
      var last := log[|log| - 1];
      if last.Reset? then Some(last.at) else LastReset(log[..|log| - 1])
  }

  /** Warnings since the last reset. */
  function Warnings(log: seq<Event>): nat {
    if log == [] then 0
    else
      match log[|log| - 1]
      case Reset(_, _) => 0
      case Warned(_, _, _) => Warnings(log[..|log| - 1]) + 1
      case _ => Warnings(log[..|log| - 1])
  }

  /** Warnings since the last reset or the last time an active child was seen. */
  function Numbered(log: seq<Event>): nat {
    if log == [] then 0
    else if log[|log| - 1].Warned? then Numbered(log[..|log| - 1]) + 1 else 0
  }

  ghost predicate EventGood(c: Config, log: seq<Event>, n: nat)
    requires n < |log| && c.Valid()
  {
    var before := log[..n];
    match log[n]
    case Reset(at, _) => LastReset(before).Some? ==> LastReset(before).value <= at <= LastReset(before).value + c.timeout
    case Warned(at, number, childActive) =>
      && !childActive && number == Numbered(before) + 1
      && LastReset(before).Some? && at <= LastReset(before).value + c.timeout
      && Warnings(before) + 1 <= c.timeout / c.interval
    case Quieted(_) => true
    case TimedOut(at, childActive) => !childActive && LastReset(before) == Some(at - c.timeout)
  }

  ghost predicate LogGood(c: Config, log: seq<Event>)
    requires c.Valid()
  {
    forall n :: 0 <= n < |log| ==> EventGood(c, log, n)
  }

  ghost predicate Good(c: Config, t: Timer)
    requires c.Valid()
  {
    && LogGood(c, t.log)
    && (Live(t) ==>
          && t.counter == Numbered(t.log)
          && LastReset(t.log).Some?
          && LastReset(t.log).value <= t.now <= t.timeoutAt.value
          && t.timeoutAt.value == LastReset(t.log).value + c.timeout
          && t.now <= t.warningAt.value
          && LastReset(t.log).value + (Warnings(t.log) + 1) * c.interval <= t.warningAt.value)
  }

  lemma Extend(c: Config, log: seq<Event>, e: Event)
    requires c.Valid() && LogGood(c, log) && EventGood(c, log + [e], |log|)
    ensures LogGood(c, log + [e])
    ensures (log + [e])[..|log|] == log
  {
    assert (log + [e])[..|log|] == log;
    forall n | 0 <= n < |log|
      ensures EventGood(c, log + [e], n)
    {
      assert EventGood(c, log, n) && (log + [e])[..n] == log[..n];
    }
  }

  lemma TimesMonotone(a: nat, b: nat, width: nat)
    requires a <= b
    ensures a * width <= b * width
  {
  }

  lemma FitsIn(n: nat, width: nat, total: nat)
    requires width > 0 && n * width <= total
    ensures n <= total / width
  {
    var q := total / width;
    assert total < (q + 1) * width;
    if q + 1 <= n {
      TimesMonotone(q + 1, n, width);
      assert false;
    }
  }

  lemma RestartGood(c: Config, t: Timer, cause: Cause)
    requires c.Valid() && LogGood(c, t.log)
    requires LastReset(t.log).Some? ==> LastReset(t.log).value <= t.now <= LastReset(t.log).value + c.timeout
    ensures Good(c, Restart(c, t, cause))
  {
    hide LogGood;
    var e := Reset(t.now, cause);
    assert (t.log + [e])[..|t.log|] == t.log;
    Extend(c, t.log, e);
  }

  lemma WarningGood(c: Config, t: Timer, childActive: bool)
    requires c.Valid() && Good(c, t) && Live(t) && t.warningAt.value <= t.timeoutAt.value
    ensures Good(c, OnWarning(c, t.(now := t.warningAt.value), childActive))
  {
    hide LogGood;
    var due := t.(now := t.warningAt.value);
    var e := if childActive then Quieted(due.now) else Warned(due.now, t.counter + 1, childActive);
    assert (t.log + [e])[..|t.log|] == t.log;
    FitsIn(Warnings(t.log) + 1, c.interval, c.timeout);
    Extend(c, t.log, e);
    assert (Warnings(t.log) + 2) * c.interval == (Warnings(t.log) + 1) * c.interval + c.interval;
  }

  lemma TimeoutGood(c: Config, t: Timer, childActive: bool)
    requires c.Valid() && Good(c, t) && Live(t)
    ensures Good(c, OnTimeout(c, t.(now := t.timeoutAt.value), childActive))
  {
    hide LogGood;
    var due := t.(now := t.timeoutAt.value);
    if childActive {
      RestartGood(c, due, ChildActive);
    } else {
      var e := TimedOut(due.now, childActive);
      assert (t.log + [e])[..|t.log|] == t.log;
      Extend(c, t.log, e);
    }
  }

  lemma NextGood(c: Config, t: Timer, step: Step)
    requires c.Valid() && Good(c, t)
    ensures Good(c, Next(c, t, step))
  {
    hide LogGood, Restart, OnTimeout, OnWarning;
    if Live(t) {
      match step
      case Line(delay) =>
        RestartGood(c, t.(now := if t.now + delay < Due(t) then t.now + delay else Due(t)), Output);
      case Fire(timeoutFirst, childActive) =>
        TimeoutGood(c, t, childActive);
        if t.warningAt.value <= t.timeoutAt.value {
          WarningGood(c, t, childActive);
        }
      case Finish =>
    }
  }

  /**
   * In every run: the timeout fires exactly a full timeout after the last reset, with no child
   * active; consecutive resets and warnings are never further apart than that; warnings are numbered
   * from one after a reset or an active child, and between two resets there are at most as many as
   * intervals fit into the timeout.
   */
  lemma {:induction false} RunGood(c: Config, steps: seq<Step>)
    requires c.Valid()
    ensures Good(c, Run(c, steps))
  {
    if steps == [] {
      RestartGood(c, Timer(0, None, None, 0, []), Started);
    } else {
      RunGood(c, steps[..|steps| - 1]);
      NextGood(c, Run(c, steps[..|steps| - 1]), steps[|steps| - 1]);
    }
  }

  /** The run after `n` more due timers, none of which sees an active child. */
  function Silence(c: Config, t: Timer, n: nat): Timer {
    if n == 0 then t else Next(c, Silence(c, t, n - 1), Fire(true, false))
  }

  lemma {:induction false} SilenceShifts(c: Config, t: Timer, n: nat)
    ensures Silence(c, Next(c, t, Fire(true, false)), n) == Silence(c, t, n + 1)
  {
    hide Next;
    if n > 0 {
      SilenceShifts(c, t, n - 1);
    }
  }

  /** Without output and active children, the timeout does fire, and exactly a full timeout after the last reset. */
  lemma {:induction false} SilenceTimesOut(c: Config, t: Timer) returns (n: nat)
    requires c.Valid() && Good(c, t) && Live(t)
    ensures var log := Silence(c, t, n).log;
            && n > 0 && |log| == |t.log| + n
            && log[|log| - 1] == TimedOut(LastReset(t.log).value + c.timeout, false)
    decreases t.timeoutAt.value - t.warningAt.value
  {
    hide LogGood, OnTimeout, OnWarning;
    var next := Next(c, t, Fire(true, false));
    assert Silence(c, t, 0) == t && Silence(c, t, 1) == next;
    if t.timeoutAt.value <= t.warningAt.value {
      n := 1;
      assert next == OnTimeout(c, t.(now := t.timeoutAt.value), false);
      TimeoutEnds(c, t.(now := t.timeoutAt.value));
    } else {
      NextGood(c, t, Fire(true, false));
      WarningContinues(c, t.(now := t.warningAt.value));
      n := SilenceTimesOut(c, next);
      SilenceShifts(c, t, n);
      n := n + 1;
    }
  }

  lemma TimeoutEnds(c: Config, t: Timer)
    ensures OnTimeout(c, t, false).log == t.log + [TimedOut(t.now, false)]
  {
  }

  lemma WarningContinues(c: Config, t: Timer)
    requires t.timeoutAt.Some?
    ensures var next := OnWarning(c, t, false);
            && next.timeoutAt == t.timeoutAt && next.warningAt == Some(t.now + c.interval)
            && |next.log| == |t.log| + 1 && LastReset(next.log) == LastReset(t.log)
  {
    var e := Warned(t.now, t.counter + 1, false);
    assert (t.log + [e])[..|t.log|] == t.log;
  }

  // ----- Silence measured from the output, not from the log

  /** Time at which step `m` was a line of output in a run that was still going on. */
  ghost predicate LineAt(c: Config, steps: seq<Step>, m: nat, time: nat) {
    m < |steps| && steps[m].Line? && Live(Run(c, steps[..m])) && time == Run(c, steps[..m + 1]).now
  }

  /** When the last line came, or the start of the run. */
  ghost function LastLine(c: Config, steps: seq<Step>): nat {
    if steps == [] then 0
    else
      var earlier := steps[..|steps| - 1];
      if steps[|steps| - 1].Line? && Live(Run(c, earlier)) then Run(c, steps).now else LastLine(c, earlier)
  }

  ghost predicate NoChildren(steps: seq<Step>) {
    forall n :: 0 <= n < |steps| && steps[n].Fire? ==> !steps[n].childActive
  }

  /** Neither timer is due earlier than its full time after the last line, and without children the timeout not later either. */
  ghost predicate SilentSince(c: Config, line: nat, children: bool, t: Timer) {
    && line <= t.now
    && (Live(t) ==>
          && t.now <= t.timeoutAt.value && t.now <= t.warningAt.value
          && line + c.timeout <= t.timeoutAt.value
          && line + (t.counter + 1) * c.interval <= t.warningAt.value
          && (!children ==> t.timeoutAt.value == line + c.timeout))
  }

  /** A line of output takes its time and restarts both timers and the numbering. */
  lemma LineRestarts(c: Config, t: Timer, delay: nat)
    requires Live(t) && t.now <= Due(t)
    ensures var after := Next(c, t, Line(delay));
            && t.now <= after.now <= t.now + delay && after.now <= Due(t)
            && after.timeoutAt == Some(after.now + c.timeout)
            && after.warningAt == Some(after.now + c.interval)
            && after.counter == 0
  {
  }

  lemma NextSilent(c: Config, t: Timer, step: Step, line: nat, children: bool)
    requires c.Valid() && SilentSince(c, line, children, t) && (step.Fire? && step.childActive ==> children)
    ensures var after := Next(c, t, step);
            SilentSince(c, if step.Line? && Live(t) then after.now else line, children, after)
  {
    if Live(t) {
      match step
      case Line(delay) =>
        LineRestarts(c, t, delay);
        assert (0 + 1) * c.interval == c.interval;
      case Fire(_, childActive) =>
        assert (t.counter + 2) * c.interval == (t.counter + 1) * c.interval + c.interval;
        assert (0 + 1) * c.interval == c.interval;
        CounterFits(c, t, line);
      case Finish =>
    }
  }

  lemma CounterFits(c: Config, t: Timer, line: nat)
    requires c.Valid() && Live(t) && line + (t.counter + 1) * c.interval <= t.warningAt.value
    ensures line + c.interval <= t.warningAt.value
  {
    TimesMonotone(1, t.counter + 1, c.interval);
  }

  lemma {:induction false} RunSilent(c: Config, steps: seq<Step>, children: bool)
    requires c.Valid() && (!children ==> NoChildren(steps))
    ensures SilentSince(c, LastLine(c, steps), children, Run(c, steps))
  {
    hide Next, SilentSince;
    if steps == [] {
      BeginSilent(c, children);
    } else {
      var earlier, step := steps[..|steps| - 1], steps[|steps| - 1];
      assert NoChildren(steps) ==> NoChildren(earlier);
      RunSilent(c, earlier, children);
      NextSilent(c, Run(c, earlier), step, LastLine(c, earlier), children);
    }
  }

  lemma BeginSilent(c: Config, children: bool)
    ensures SilentSince(c, 0, children, Begin(c))
  {
    assert (0 + 1) * c.interval == c.interval;
  }

  lemma {:induction false} LastLineIsLast(c: Config, steps: seq<Step>, m: nat, time: nat)
    requires c.Valid() && LineAt(c, steps, m, time)
    ensures time <= LastLine(c, steps)
  {
    hide Next;
    var n := |steps| - 1;
    assert steps[..|steps|] == steps;
    if m < n {
      assert steps[..n][..m] == steps[..m] && steps[..n][..m + 1] == steps[..m + 1];
      LastLineIsLast(c, steps[..n], m, time);
      RunSilent(c, steps[..n], true);
      NowGrows(c, Run(c, steps[..n]), steps[n]);
    }
  }

  lemma NowGrows(c: Config, t: Timer, step: Step)
    requires Live(t) ==> t.now <= Due(t)
    ensures t.now <= Next(c, t, step).now
  {
  }

  /** The last step of the trace logs this event. */
  ghost predicate Logs(c: Config, steps: seq<Step>, e: Event) {
    steps != [] && Run(c, steps).log == Run(c, steps[..|steps| - 1]).log + [e]
  }

  /**
   * Whenever the timeout fires, every line of output is at least a full timeout old, no child was
   * active at that instant, and if none ever was the last line is exactly that old. A warning with
   * number n comes at least n intervals after the last line.
   */
  lemma SilencePrecedes(c: Config, steps: seq<Step>, e: Event)
    requires c.Valid() && Logs(c, steps, e)
    ensures var step := steps[|steps| - 1];
            && (e.TimedOut? ==>
                  && step.Fire? && !step.childActive
                  && (forall m: nat, time: nat :: LineAt(c, steps, m, time) ==> time + c.timeout <= e.at)
                  && (NoChildren(steps) ==> e.at == LastLine(c, steps) + c.timeout))
            && (e.Warned? ==>
                  && step.Fire? && !step.childActive
                  && forall m: nat, time: nat :: LineAt(c, steps, m, time) ==> time + e.number * c.interval <= e.at)
  {
    hide Next, LineAt;
    var earlier, step := steps[..|steps| - 1], steps[|steps| - 1];
    var t := Run(c, earlier);
    RunSilent(c, earlier, true);
    if NoChildren(steps) {
      assert NoChildren(earlier);
      RunSilent(c, earlier, false);
    }
    EventOf(c, t, step, e);
    forall m: nat, time: nat | LineAt(c, steps, m, time)
      ensures e.TimedOut? || e.Warned? ==> time <= LastLine(c, earlier)
    {
      if e.TimedOut? || e.Warned? {
        LastLineIsLast(c, steps, m, time);
      }
    }
  }

  /** Once the run has ended or timed out, nothing is logged any more. */
  lemma {:induction false} OverLogsNothing(c: Config, steps: seq<Step>, k: nat)
    requires k < |steps| && (steps[k].Finish? || exists at, childActive :: Logs(c, steps[..k + 1], TimedOut(at, childActive)))
    ensures Run(c, steps).log == Run(c, steps[..k + 1]).log && !Live(Run(c, steps))
    ensures steps[k].Finish? ==> Run(c, steps).log == Run(c, steps[..k]).log
  {
    var n := |steps| - 1;
    if k < n {
      assert steps[..n][..k + 1] == steps[..k + 1] && steps[..n][..k] == steps[..k];
      OverLogsNothing(c, steps[..n], k);
    } else {
      assert steps[..k + 1] == steps;
      if at, childActive :| Logs(c, steps, TimedOut(at, childActive)) {
        TimeoutIsOver(c, Run(c, steps[..k]), steps[k], TimedOut(at, childActive));
      }
    }
  }

  lemma TimeoutIsOver(c: Config, t: Timer, step: Step, e: Event)
    requires Next(c, t, step).log == t.log + [e] && e.TimedOut?
    ensures !Live(Next(c, t, step))
  {
    EventOf(c, t, step, e);
    assert Next(c, t, step).log[|t.log|] == e;
  }

  lemma EventOf(c: Config, t: Timer, step: Step, e: Event)
    requires Next(c, t, step).log == t.log + [e]
    ensures Live(t)
    ensures e.TimedOut? ==> step.Fire? && !step.childActive && e.at == t.timeoutAt.value
    ensures e.Warned? ==> step.Fire? && !step.childActive && e.at == t.warningAt.value && e.number == t.counter + 1
  {
    var log := Next(c, t, step).log;
    assert |log| == |t.log| + 1 && log[|t.log|] == e;
  }
}
