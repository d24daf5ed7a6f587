/**
 * The buffer that joins streamed text deltas into readable chunks. Pending timers belong to the
 * runtime: `clearTimeout` takes one away, firing takes one away and runs its callback, and the
 * buffer's own handle may be left naming a timer that has already fired.
 */
module TextDeltaBuffer {
  import opened Common

  const LENGTH_THRESHOLD := 80

  predicate EndsSentence(s: string) {
    |s| >= 2 && s[|s| - 1] == ' ' && s[|s| - 2] in ".!?"
  }

  predicate ShouldFlush(s: string) {
    '\n' in s || EndsSentence(s) || |s| >= LENGTH_THRESHOLD
  }

  /** A chunk handed to the callback, and the length of the write that ended it (none for a timer or a flush). */
  datatype Chunk = Chunk(text: string, ender: nat)

  datatype State = State(
    buffer: string, timer: Option<nat>, pending: set<nat>, nextTimer: nat, written: string, flushed: seq<Chunk>)

  function Initial(): State {
    State("", None, {}, 0, "", [])
  }

  function ClearTimer(s: State): State {
    if s.timer.None? then s else s.(timer := None, pending := s.pending - {s.timer.value})
  }

  function DoFlush(s: State, ender: nat): State {
    if s.buffer == "" then s else s.(buffer := "", flushed := s.flushed + [Chunk(s.buffer, ender)])
  }

  function Write(s: State, text: string): State {
    if text == "" then s
    else
      var s' := ClearTimer(s.(buffer := s.buffer + text, written := s.written + text));
      if ShouldFlush(s'.buffer) then DoFlush(s', |text|)
      else s'.(timer := Some(s'.nextTimer), pending := s'.pending + {s'.nextTimer}, nextTimer := s'.nextTimer + 1)
  }

  function Flush(s: State): State {
    DoFlush(ClearTimer(s), 0)
  }

  /** The runtime fires a pending timer. */
  function TimerFires(s: State, timer: nat): State {
    if timer in s.pending then DoFlush(s.(pending := s.pending - {timer}), 0) else s
  }

  datatype Op = WriteOp(text: string) | FlushOp | DisposeOp | FireOp(timer: nat)

  function Apply(s: State, op: Op): State {
    match op
    case WriteOp(text) => Write(s, text)
    case FlushOp => Flush(s)
    case DisposeOp => Flush(s)
    case FireOp(timer) => TimerFires(s, timer)
  }

  function Run(ops: seq<Op>): State {
    if ops == [] then Initial() else Apply(Run(ops[..|ops| - 1]), ops[|ops| - 1])
  }

  class Buffer {
    var buffer: string
    var timer: Option<nat>
    var pending: set<nat>
    var nextTimer: nat
    ghost var written: string
    var flushed: seq<Chunk>

    ghost function View(): State
      reads this
    {
      State(buffer, timer, pending, nextTimer, written, flushed)
    }

    constructor ()
      ensures View() == Initial()
    {
      buffer := "";
      timer := None;
      pending := {};
      nextTimer := 0;
      written := "";
      flushed := [];
    }

    method CancelTimer()
      modifies this`timer, this`pending
      ensures View() == ClearTimer(old(View()))
    {
      if timer.Some? {
        pending := pending - {timer.value};
        timer := None;
      }
    }

    method EmitBuffer(ender: nat)
      modifies this`buffer, this`flushed
      ensures View() == DoFlush(old(View()), ender)
    {
      if |buffer| == 0 {
        return;
      }
      var text := buffer;
      buffer := "";
      flushed := flushed + [Chunk(text, ender)];
    }

    method WriteText(text: string)
      modifies this
      ensures View() == Write(old(View()), text)
    {
      if |text| == 0 {
        return;
      }
      buffer := buffer + text;
      written := written + text;
      CancelTimer();
      if ShouldFlush(buffer) {
        EmitBuffer(|text|);
        return;
      }
      timer := Some(nextTimer);
      pending := pending + {nextTimer};
      nextTimer := nextTimer + 1;
    }

    method FlushNow()
      modifies this
      ensures View() == Flush(old(View()))
    {
      CancelTimer();
      EmitBuffer(0);
    }

    method Dispose()
      modifies this
      ensures View() == Flush(old(View()))
    {
      FlushNow();
    }

    /** The debounce callback; it leaves the handle as it is. */
    method DebounceElapsed(fired: nat)
      requires fired in pending
      modifies this
      ensures View() == TimerFires(old(View()), fired)
    {
      pending := pending - {fired};
      EmitBuffer(0);
    }
  }

  // ----- What every run keeps

  function Concat(chunks: seq<Chunk>): string {
    if chunks == [] then "" else Concat(chunks[..|chunks| - 1]) + chunks[|chunks| - 1].text
  }

  /**
   * A chunk is not empty and not overlong; a write ended it exactly if it is complete: a line, a
   * sentence or a full buffer. Timers and flushes only cut off what is incomplete.
   */
  ghost predicate ChunkGood(c: Chunk) {
    && c.text != ""
    && |c.text| < 80 + c.ender
    && (c.ender > 0 <==> Complete(c.text))
  }

  /** It has a newline, ends a sentence, or is eighty characters long. */
  ghost predicate Complete(s: string) {
    (exists a, b :: s == a + "\n" + b) || (exists a, c :: s == a + [c, ' '] && c in ['.', '!', '?']) || |s| >= 80
  }

  lemma CompleteIffShouldFlush(s: string)
    ensures Complete(s) <==> ShouldFlush(s)
  {
    if i :| 0 <= i < |s| && s[i] == '\n' {
      assert s == s[..i] + "\n" + s[i + 1..];
    }
    if EndsSentence(s) {
      assert s == s[..|s| - 2] + [s[|s| - 2], ' '];
    }
  }

  ghost predicate Good(s: State) {
    && Concat(s.flushed) + s.buffer == s.written
    && (forall k :: 0 <= k < |s.flushed| ==> ChunkGood(s.flushed[k]))
    && !Complete(s.buffer)
    && (s.buffer != "" ==> s.timer.Some? && s.pending == {s.timer.value})
    && (s.buffer == "" ==> s.pending == {})
  }

  lemma FlushGood(s: State, ender: nat)
    requires Concat(s.flushed) + s.buffer == s.written && s.pending == {}
    requires forall k :: 0 <= k < |s.flushed| ==> ChunkGood(s.flushed[k])
    requires s.buffer != "" ==> ChunkGood(Chunk(s.buffer, ender))
    ensures Good(DoFlush(s, ender))
  {
    var s' := DoFlush(s, ender);
    if s.buffer != "" {
      assert s'.flushed[..|s.flushed|] == s.flushed;
    }
    assert Concat(s'.flushed) + "" == Concat(s'.flushed);
  }

  lemma NothingToComplete()
    ensures !Complete("") && forall s :: |s| >= 80 ==> Complete(s)
  {
  }

  lemma ApplyGood(s: State, op: Op)
    requires Good(s)
    ensures Good(Apply(s, op))
  {
    hide DoFlush, Complete, ShouldFlush;
    forall text ensures Complete(text) <==> ShouldFlush(text) {
      CompleteIffShouldFlush(text);
    }
    NothingToComplete();
    match op
    case WriteOp(text) =>
      if text != "" {
        var s' := ClearTimer(s.(buffer := s.buffer + text, written := s.written + text));
        assert Concat(s.flushed) + (s.buffer + text) == s.written + text;
        if ShouldFlush(s'.buffer) {
          FlushGood(s', |text|);
        }
      }
    case FlushOp => FlushGood(ClearTimer(s), 0);
    case DisposeOp => FlushGood(ClearTimer(s), 0);
    case FireOp(timer) =>
      if timer in s.pending {
        FlushGood(s.(pending := s.pending - {timer}), 0);
      }
  }

  /**
   * After any sequence of writes, timer firings and flushes: the chunks and the buffer are what was
   * written, every chunk is good, and a non-empty buffer is a short, unfinished piece of a
   * line with exactly one timer pending, the one the handle names.
   */
  lemma {:induction false} RunGood(ops: seq<Op>)
    ensures Good(Run(ops))
  {
    if ops != [] {
      RunGood(ops[..|ops| - 1]);
      ApplyGood(Run(ops[..|ops| - 1]), ops[|ops| - 1]);
    }
  }

  function Written(ops: seq<Op>): string {
    if ops == [] then ""
    else Written(ops[..|ops| - 1]) + if ops[|ops| - 1].WriteOp? then ops[|ops| - 1].text else ""
  }

  lemma {:induction false} RunWrites(ops: seq<Op>)
    ensures Run(ops).written == Written(ops)
  {
    if ops != [] {
      RunWrites(ops[..|ops| - 1]);
    }
  }

  /** Nothing written is lost, duplicated or reordered, and a final dispose delivers it all. */
  lemma DisposeDeliversAll(ops: seq<Op>)
    ensures var s := Run(ops + [DisposeOp]);
            s.buffer == "" && s.pending == {} && Concat(s.flushed) == Written(ops)
  {
    assert (ops + [DisposeOp])[..|ops|] == ops;
    RunGood(ops + [DisposeOp]);
    RunWrites(ops);
    var s := Run(ops + [DisposeOp]);
    assert s == Flush(Run(ops));
    assert Concat(s.flushed) + "" == Concat(s.flushed);
  }
}
