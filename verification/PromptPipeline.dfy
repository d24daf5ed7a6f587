/**
 * The two prompt phases together. Whatever commands run, they are started by the template's author;
 * and when the values leave the blocks whole, substituting first and running afterwards does what
 * one reading of the template says.
 */
module PromptPipeline {
  import opened Common
  import opened PromptPatterns
  import opened PromptPreprocessor
  import opened PromptArguments

  function Blocks(pieces: seq<Piece>): seq<string> {
    if pieces == [] then []
    else (if pieces[0].Shell? then [pieces[0].command] else []) + Blocks(pieces[1..])
  }

  function Substituted(commands: seq<string>, args: Args): seq<string> {
    seq(|commands|, i requires 0 <= i < |commands| => Subst(commands[i], args))
  }

  function NonEmpty(commands: seq<string>): seq<string> {
    if commands == [] then []
    else (if commands[0] != [] then [commands[0]] else []) + NonEmpty(commands[1..])
  }

  /** What the template says: placeholders replaced by values, blocks by outputs, text as it is. */
  function Fill(pieces: seq<Piece>, args: Args, outputs: seq<string>): string
    requires |outputs| == |Blocks(pieces)|
  {
    if pieces == [] then []
    else
      match pieces[0]
      case Literal(c) => [c] + Fill(pieces[1..], args, outputs)
      case Hole(key) => Value(args, key) + Fill(pieces[1..], args, outputs)
      case Shell(_) => outputs[0] + Fill(pieces[1..], args, outputs[1..])
  }

  /** No value splits a block in two. */
  ghost predicate Whole(commands: seq<string>) {
    forall i :: 0 <= i < |commands| ==> '`' !in commands[i]
  }

  ghost predicate NoneEmpty(commands: seq<string>) {
    forall i :: 0 <= i < |commands| ==> commands[i] != []
  }

  // ----- Reading the template

  lemma {:induction false} CommandsLocal(open: string, t: string, n: nat)
    requires n <= |t| && open != [] && forall i :: 0 <= i < n ==> t[i] != open[0]
    ensures Commands(open, t) == Commands(open, t[n..])
  {
    hide AfterBlock;
    if n > 0 {
      assert BlockAt(open, t).None?;
      CommandsLocal(open, t[1..], n - 1);
      assert t[1..][n - 1..] == t[n..];
    } else {
      assert t[0..] == t;
    }
  }

  lemma {:induction false} BlocksAreCommands(t: string)
    ensures Blocks(Parse(t)) == Commands(PLAIN, t)
    decreases |t|
  {
    hide BlockAt, AfterBlock, PlaceholderAt;
    assert forall p: Piece :: [p][1..] == [];
    if BlockAt(PLAIN, t).Some? {
      BlocksAreCommands(AfterBlock(PLAIN, t));
    } else if PlaceholderAt(t).Some? {
      PlaceholderStands(t, []);
      CommandsLocal(PLAIN, t, PlaceholderAt(t).value.length);
      BlocksAreCommands(AfterPlaceholder(t));
    } else if t != [] {
      BlocksAreCommands(t[1..]);
    }
  }

  ghost predicate Unmarked(pieces: seq<Piece>) {
    forall i :: 0 <= i < |pieces| ==> pieces[i] != Literal(MARKER)
  }

  lemma {:induction false} ParseUnmarked(t: string)
    requires MARKER !in t
    ensures Unmarked(Parse(t))
    decreases |t|
  {
    hide BlockAt, PlaceholderAt;
    if BlockAt(PLAIN, t).Some? {
      ParseUnmarked(AfterBlock(PLAIN, t));
    } else if PlaceholderAt(t).Some? {
      ParseUnmarked(AfterPlaceholder(t));
    } else if t != [] {
      ParseUnmarked(t[1..]);
    }
  }

  // ----- Running what was assembled

  lemma NotMarked(s: string)
    requires |s| < 2 || s[0] != '!' || s[1] != MARKER
    ensures BlockAt(MARKED, s).None?
  {
    assert MARKED[0] == '!' && MARKED[1] == MARKER;
  }

  lemma {:induction false} NoLeadingMarker(pieces: seq<Piece>, args: Args)
    requires Unmarked(pieces)
    ensures var s := Assemble(pieces, args); s == [] || s[0] != MARKER
  {
    if pieces != [] {
      NoLeadingMarker(pieces[1..], args);
      assert MARKED[0] == '!';
    }
  }

  /** Text without markers starts no command. */
  lemma {:induction false} TextRunsNothing(v: string, rest: string, outputs: seq<string>)
    requires MARKER !in v && (rest == [] || rest[0] != MARKER)
    requires |outputs| == |Commands(MARKED, rest)|
    ensures Commands(MARKED, v + rest) == Commands(MARKED, rest)
    ensures Expand(v + rest, outputs) == v + Expand(rest, outputs)
  {
    hide BlockAt, AfterBlock;
    if v == [] {
      assert v + rest == rest;
    } else {
      NotMarked(v + rest);
      assert (v + rest)[1..] == v[1..] + rest;
      TextRunsNothing(v[1..], rest, outputs);
    }
  }

  lemma BlockRuns(command: string, rest: string, outputs: seq<string>)
    requires command != [] && '`' !in command && |outputs| == |Commands(MARKED, rest)| + 1
    ensures var s := MARKED + command + "`" + rest;
            Commands(MARKED, s) == [command] + Commands(MARKED, rest)
            && Expand(s, outputs) == outputs[0] + Expand(rest, outputs[1..])
  {
    hide BlockAt, AfterBlock;
    BlockIs(MARKED, command, rest);
  }

  lemma EmptyBlockRunsNothing(rest: string)
    ensures Commands(MARKED, MARKED + "" + "`" + rest) == Commands(MARKED, rest)
  {
    hide AfterBlock;
    var s := MARKED + "" + "`" + rest;
    assert s[|MARKED|..][0] == '`';
    assert Span(NotTick, s[|MARKED|..]) == 0;
    assert BlockAt(MARKED, s).None?;
    var s1 := s[1..];
    assert s1[0] == MARKER && s1[1] == '`' && s1[2] == '`' && s1[3..] == rest;
    CommandsLocal(MARKED, s1, 3);
  }

  lemma SubstitutedHead(pieces: seq<Piece>, args: Args)
    requires pieces != []
    ensures pieces[0].Shell? ==>
      Substituted(Blocks(pieces), args) == [Subst(pieces[0].command, args)] + Substituted(Blocks(pieces[1..]), args)
    ensures !pieces[0].Shell? ==> Substituted(Blocks(pieces), args) == Substituted(Blocks(pieces[1..]), args)
  {
    hide Subst;
    var rest := Blocks(pieces[1..]);
    if pieces[0].Shell? {
      var all := Substituted([pieces[0].command] + rest, args);
      assert all == [Subst(pieces[0].command, args)] + Substituted(rest, args);
    } else {
      assert Blocks(pieces) == rest;
    }
  }

  lemma WholeHead(first: string, rest: seq<string>)
    requires Whole([first] + rest)
    ensures '`' !in first && Whole(rest)
  {
    var all := [first] + rest;
    assert all[0] == first;
    forall i | 0 <= i < |rest| ensures '`' !in rest[i] { assert all[i + 1] == rest[i]; }
  }

  lemma NonEmptyHead(first: string, rest: seq<string>)
    ensures NonEmpty([first] + rest) == (if first != [] then [first] else []) + NonEmpty(rest)
  {
    assert ([first] + rest)[1..] == rest;
  }

  /** Without split blocks, what runs are the blocks that did not become empty. */
  lemma {:induction false} RunsNonEmpty(pieces: seq<Piece>, args: Args)
    requires Unmarked(pieces) && Whole(Substituted(Blocks(pieces), args))
    ensures Commands(MARKED, Assemble(pieces, args)) == NonEmpty(Substituted(Blocks(pieces), args))
  {
    hide Commands, Subst, Expand, Value, Whole, NonEmpty;
    if pieces == [] {
      NothingRuns();
      assert Substituted([], args) == [];
    } else {
      var rest := Assemble(pieces[1..], args);
      SubstitutedHead(pieces, args);
      NoLeadingMarker(pieces[1..], args);
      if pieces[0].Shell? {
        var command := Subst(pieces[0].command, args);
        var others := Substituted(Blocks(pieces[1..]), args);
        WholeHead(command, others);
        NonEmptyHead(command, others);
        RunsNonEmpty(pieces[1..], args);
        if command == [] {
          EmptyBlockRunsNothing(rest);
        } else {
          BlockRuns(command, rest, [""] + Commands(MARKED, rest));
        }
      } else {
        RunsNonEmpty(pieces[1..], args);
        TextRunsNothing(Shown(pieces[0], args), rest, Commands(MARKED, rest));
      }
    }
  }

  lemma NothingRuns()
    ensures Commands(MARKED, []) == [] && NonEmpty([]) == []
  {
  }

  /** With every block whole and non-empty, expanding is filling in the outputs. */
  lemma {:induction false} ExpandFills(pieces: seq<Piece>, args: Args, outputs: seq<string>)
    requires Unmarked(pieces) && |outputs| == |Blocks(pieces)|
    requires Whole(Substituted(Blocks(pieces), args)) && NoneEmpty(Substituted(Blocks(pieces), args))
    ensures Commands(MARKED, Assemble(pieces, args)) == Substituted(Blocks(pieces), args)
    ensures Expand(Assemble(pieces, args), outputs) == Fill(pieces, args, outputs)
  {
    hide Commands, Subst, Value, Whole;
    if pieces == [] {
      NothingRuns();
      assert Substituted([], args) == [];
    } else {
      var rest := Assemble(pieces[1..], args);
      SubstitutedHead(pieces, args);
      NoLeadingMarker(pieces[1..], args);
      if pieces[0].Shell? {
        var command := Subst(pieces[0].command, args);
        var others := Substituted(Blocks(pieces[1..]), args);
        WholeHead(command, others);
        assert Substituted(Blocks(pieces), args)[0] == command;
        assert forall i :: 0 <= i < |others| ==> others[i] == Substituted(Blocks(pieces), args)[i + 1];
        ExpandFills(pieces[1..], args, outputs[1..]);
        BlockRuns(command, rest, outputs);
      } else {
        ExpandFills(pieces[1..], args, outputs);
        TextRunsNothing(Shown(pieces[0], args), rest, outputs);
      }
    }
  }

  lemma {:induction false} NonEmptyIsAll(commands: seq<string>)
    ensures NonEmpty(commands) == commands <==> NoneEmpty(commands)
    ensures |NonEmpty(commands)| <= |commands|
  {
    if commands != [] {
      NonEmptyIsAll(commands[1..]);
      assert commands == [commands[0]] + commands[1..];
      assert NoneEmpty(commands) <==> commands[0] != [] && NoneEmpty(commands[1..]) by {
        assert forall i :: 0 < i < |commands| ==> commands[i] == commands[1..][i - 1];
      }
    }
  }

  lemma {:induction false} CommandsAreWhole(s: string)
    ensures Whole(Commands(MARKED, s)) && NoneEmpty(Commands(MARKED, s))
    decreases |s|
  {
    hide AfterBlock, BlockAt;
    if BlockAt(MARKED, s).Some? {
      BlockParts(MARKED, s);
      CommandsAreWhole(AfterBlock(MARKED, s));
    } else if s != [] {
      CommandsAreWhole(s[1..]);
    }
  }

  // ----- What holds of every template

  /**
   * The commands that run are the template's blocks with placeholders substituted, in order, if and
   * only if substitution leaves no block empty and puts no backtick into one.
   */
  lemma RunsTheBlocksIffWhole(template: string, args: Args)
    ensures var t := Strip(template);
            var blocks := Substituted(Commands(PLAIN, t), args);
            Commands(MARKED, Subst(Mark(t), args)) == blocks <==> Whole(blocks) && NoneEmpty(blocks)
  {
    hide Subst, Mark, Commands, Parse, Assemble;
    var t := Strip(template);
    var blocks := Substituted(Commands(PLAIN, t), args);
    SubstAssembles(t, args);
    BlocksAreCommands(t);
    ParseUnmarked(t);
    CommandsAreWhole(Subst(Mark(t), args));
    if Whole(blocks) {
      RunsNonEmpty(Parse(t), args);
      NonEmptyIsAll(blocks);
    }
  }

  /** A block that substitution leaves empty is not run; without backticks in blocks all others are. */
  lemma RunsAllButEmptyBlocks(template: string, args: Args)
    requires Whole(Substituted(Commands(PLAIN, Strip(template)), args))
    ensures var t := Strip(template);
            Commands(MARKED, Subst(Mark(t), args)) == NonEmpty(Substituted(Commands(PLAIN, t), args))
  {
    hide Subst, Mark, Commands, Parse, Assemble;
    var t := Strip(template);
    SubstAssembles(t, args);
    BlocksAreCommands(t);
    ParseUnmarked(t);
    RunsNonEmpty(Parse(t), args);
  }

  /** Every referenced value is non-empty and without backticks. */
  ghost predicate Plain(args: Args, keys: seq<string>) {
    forall key :: key in keys ==> Value(args, key) != [] && '`' !in Value(args, key)
  }

  lemma {:induction false} PlainSubst(command: string, args: Args)
    requires Plain(args, Keys(command)) && '`' !in command
    ensures '`' !in Subst(command, args) && (command != [] ==> Subst(command, args) != [])
    decreases |command|
  {
    hide PlaceholderAt, Value;
    if PlaceholderAt(command).Some? {
      assert Keys(command)[0] == PlaceholderAt(command).value.key;
      assert forall key :: key in Keys(AfterPlaceholder(command)) ==> key in Keys(command);
      PlainSubst(AfterPlaceholder(command), args);
    } else if command != [] {
      PlainSubst(command[1..], args);
    }
  }

  lemma {:induction false} PlainBlocks(t: string, args: Args)
    requires Plain(args, KeysOf(Parse(t)))
    ensures Whole(Substituted(Commands(PLAIN, t), args)) && NoneEmpty(Substituted(Commands(PLAIN, t), args))
    decreases |t|
  {
    hide BlockAt, AfterBlock, PlaceholderAt, Subst, Keys, Value;
    if BlockAt(PLAIN, t).Some? {
      var command, rest := BlockAt(PLAIN, t).value, AfterBlock(PLAIN, t);
      BlockParts(PLAIN, t);
      assert Parse(t)[1..] == Parse(rest);
      PlainBlocks(rest, args);
      PlainSubst(command, args);
      var blocks := Substituted(Commands(PLAIN, t), args);
      assert blocks == [Subst(command, args)] + Substituted(Commands(PLAIN, rest), args);
    } else if PlaceholderAt(t).Some? {
      assert Parse(t)[1..] == Parse(AfterPlaceholder(t));
      PlaceholderStands(t, []);
      CommandsLocal(PLAIN, t, PlaceholderAt(t).value.length);
      PlainBlocks(AfterPlaceholder(t), args);
    } else if t != [] {
      assert Parse(t)[1..] == Parse(t[1..]);
      PlainBlocks(t[1..], args);
    }
  }

  /**
   * Both phases together: with plain values, exactly the template's blocks are run, each once and in
   * order, and the final prompt is the template with values and outputs filled in.
   */
  lemma PhasesCommute(template: string, args: Args, exec: Exec)
    requires Plain(args, Keys(Mark(Strip(template))))
    ensures var t := Strip(template);
            var prompt := Subst(Mark(t), args);
            var commands := Substituted(Commands(PLAIN, t), args);
            && Commands(MARKED, prompt) == commands
            && |commands| == |Blocks(Parse(t))|
            && (AllRun(commands, exec) ==>
                  Strip(Expand(prompt, Outputs(commands, exec))) == Strip(Fill(Parse(t), args, Outputs(commands, exec))))
  {
    hide Subst, Mark, Commands, Parse, Assemble, Expand, Fill, Value, Strip;
    var t := Strip(template);
    SubstAssembles(t, args);
    BlocksAreCommands(t);
    ParseUnmarked(t);
    PlainBlocks(t, args);
    var commands := Substituted(Commands(PLAIN, t), args);
    ExpandFills(Parse(t), args, commands);
    if AllRun(commands, exec) {
      ExpandFills(Parse(t), args, Outputs(commands, exec));
    }
  }

  // ----- What holds of every value

  function Markers(s: string): nat {
    if s == [] then 0 else (if s[0] == MARKER then 1 else 0) + Markers(s[1..])
  }

  lemma {:induction false} MarkersConcat(a: string, b: string)
    ensures Markers(a + b) == Markers(a) + Markers(b)
  {
    if a == [] {
      assert a + b == b;
    } else {
      assert (a + b)[1..] == a[1..] + b;
      MarkersConcat(a[1..], b);
    }
  }

  lemma {:induction false} NoMarkers(s: string)
    requires MARKER !in s
    ensures Markers(s) == 0
  {
    if s != [] {
      NoMarkers(s[1..]);
    }
  }

  lemma MarkedHasOne()
    ensures Markers(MARKED) == 1
  {
    assert MARKED[1..][1..] == "`";
    assert Markers("`") == 0;
  }

  /** Every command uses up a marker. */
  lemma {:induction false} CommandsUseMarkers(s: string)
    ensures |Commands(MARKED, s)| <= Markers(s)
    decreases |s|
  {
    hide BlockAt, AfterBlock;
    if BlockAt(MARKED, s).Some? {
      var command, rest := BlockAt(MARKED, s).value, AfterBlock(MARKED, s);
      BlockParts(MARKED, s);
      CommandsUseMarkers(rest);
      MarkersConcat(MARKED + command + "`", rest);
      MarkersConcat(MARKED + command, "`");
      MarkersConcat(MARKED, command);
      MarkedHasOne();
    } else if s != [] {
      CommandsUseMarkers(s[1..]);
    }
  }

  lemma {:induction false} SubstUnmarked(s: string, args: Args)
    requires MARKER !in s
    ensures MARKER !in Subst(s, args)
    decreases |s|
  {
    hide PlaceholderAt, Value;
    if PlaceholderAt(s).Some? {
      SubstUnmarked(AfterPlaceholder(s), args);
    } else if s != [] {
      SubstUnmarked(s[1..], args);
    }
  }

  lemma {:induction false} AssembledMarkers(t: string, args: Args)
    requires MARKER !in t
    ensures Markers(Assemble(Parse(t), args)) == |Blocks(Parse(t))|
    decreases |t|
  {
    hide BlockAt, AfterBlock, PlaceholderAt, Subst, Value;
    if BlockAt(PLAIN, t).Some? {
      var command, rest := BlockAt(PLAIN, t).value, AfterBlock(PLAIN, t);
      BlockParts(PLAIN, t);
      AssembledMarkers(rest, args);
      SubstUnmarked(command, args);
      NoMarkers(Subst(command, args));
      MarkersConcat(MARKED + Subst(command, args) + "`", Assemble(Parse(rest), args));
      MarkersConcat(MARKED + Subst(command, args), "`");
      MarkersConcat(MARKED, Subst(command, args));
      MarkedHasOne();
      assert Parse(t)[1..] == Parse(rest);
    } else if PlaceholderAt(t).Some? {
      AssembledMarkers(AfterPlaceholder(t), args);
      var v := Value(args, PlaceholderAt(t).value.key);
      NoMarkers(v);
      MarkersConcat(v, Assemble(Parse(AfterPlaceholder(t)), args));
      assert Parse(t)[1..] == Parse(AfterPlaceholder(t));
    } else if t != [] {
      AssembledMarkers(t[1..], args);
      NoMarkers([t[0]]);
      MarkersConcat([t[0]], Assemble(Parse(t[1..]), args));
      assert Parse(t)[1..] == Parse(t[1..]);
    }
  }

  /** Whatever the template and the values, no more commands run than the template has blocks. */
  lemma NoForgedCommands(template: string, args: Args)
    ensures var t := Strip(template);
            |Commands(MARKED, Subst(Mark(t), args))| <= |Commands(PLAIN, t)|
  {
    hide Subst, Mark, Commands, Parse, Assemble, Markers;
    var t := Strip(template);
    SubstAssembles(t, args);
    BlocksAreCommands(t);
    AssembledMarkers(t, args);
    CommandsUseMarkers(Subst(Mark(t), args));
  }

  // ----- Marking alone

  lemma {:induction false} MarkStartsUnmarked(t: string)
    requires MARKER !in t
    ensures Mark(t) == [] || Mark(t)[0] != MARKER
  {
    hide BlockAt, AfterBlock;
    assert MARKED[0] == '!';
  }

  /** Marking adds markers and nothing else, and marks exactly the blocks of the template. */
  lemma {:induction false} MarkOnlyMarks(t: string)
    requires MARKER !in t
    ensures Strip(Mark(t)) == t
    ensures Commands(MARKED, Mark(t)) == Commands(PLAIN, t)
    decreases |t|
  {
    hide BlockAt, AfterBlock, Strip;
    if BlockAt(PLAIN, t).Some? {
      var command, rest := BlockAt(PLAIN, t).value, AfterBlock(PLAIN, t);
      BlockParts(PLAIN, t);
      MarkOnlyMarks(rest);
      BlockRuns(command, Mark(rest), [""] + Commands(MARKED, Mark(rest)));
      StripConcat(MARKED + command + "`", Mark(rest));
      assert MARKED + command + "`" == "!" + [MARKER] + ("`" + command + "`");
      StripConcat("!" + [MARKER], "`" + command + "`");
      StripConcat("!", [MARKER]);
      assert "!" + "" + ("`" + command + "`") == PLAIN + command + "`";
    } else if t != [] {
      MarkStartsUnmarked(t[1..]);
      NotMarked([t[0]] + Mark(t[1..]));
      MarkOnlyMarks(t[1..]);
      StripConcat([t[0]], Mark(t[1..]));
      assert Mark(t)[1..] == Mark(t[1..]);
    }
  }
}
