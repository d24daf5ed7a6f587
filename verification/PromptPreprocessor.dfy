/**
 * Running the marked shell blocks of a prompt and splicing their outputs in. The code collects all
 * matches with their offsets, runs the commands, and splices from the last match to the first.
 */
module PromptPreprocessor {
  import opened Common
  import opened PromptPatterns
  import Text

  function Strip(s: string): (r: string)
    ensures MARKER !in r
    ensures MARKER !in s ==> r == s
  {
    if s == [] then [] else if s[0] == MARKER then Strip(s[1..]) else [s[0]] + Strip(s[1..])
  }

  /** Stripping goes piece by piece: a marker disappears, and text without markers stays. */
  lemma {:induction false} StripConcat(a: string, b: string)
    ensures Strip(a + b) == Strip(a) + Strip(b)
    ensures Strip([MARKER]) == ""
  {
    if a == [] {
      assert a + b == b;
    } else {
      assert (a + b)[1..] == a[1..] + b;
      StripConcat(a[1..], b);
    }
  }

  /** The text with its marked blocks replaced, left to right, by the outputs. */
  function Expand(s: string, outputs: seq<string>): string
    requires |outputs| == |Commands(MARKED, s)|
    decreases |s|
  {
    if BlockAt(MARKED, s).Some? then outputs[0] + Expand(AfterBlock(MARKED, s), outputs[1..])
    else if s == [] then [] else [s[0]] + Expand(s[1..], outputs)
  }

  datatype Match = Match(index: nat, command: string) {
    function End(): nat {
      index + |MARKED| + |command| + 1
    }
  }

  function FirstMatch(s: string, at: nat): (m: Match)
    requires at <= |s| && BlockAt(MARKED, s[at..]).Some?
    ensures at == m.index < m.End() <= |s| && AfterBlock(MARKED, s[at..]) == s[m.End()..]
  {
    Match(at, BlockAt(MARKED, s[at..]).value)
  }

  /** All matches from offset `at` on. */
  function Matches(s: string, at: nat): (r: seq<Match>)
    requires at <= |s|
    decreases |s| - at
  {
    if BlockAt(MARKED, s[at..]).Some? then [FirstMatch(s, at)] + Matches(s, FirstMatch(s, at).End())
    else if at == |s| then [] else Matches(s, at + 1)
  }

  lemma {:induction false} MatchesAreCommands(s: string, at: nat)
    requires at <= |s|
    ensures |Matches(s, at)| == |Commands(MARKED, s[at..])|
    ensures forall i :: 0 <= i < |Matches(s, at)| ==> Matches(s, at)[i].command == Commands(MARKED, s[at..])[i]
    decreases |s| - at
  {
    hide BlockAt, AfterBlock;
    if BlockAt(MARKED, s[at..]).Some? {
      MatchesAreCommands(s, FirstMatch(s, at).End());
    } else if at < |s| {
      assert s[at..][1..] == s[at + 1..];
      MatchesAreCommands(s, at + 1);
    }
  }

  /** Text before the first match is kept; the match is replaced; the rest is expanded in turn. */
  ghost predicate ExpandsFrom(s: string, at: nat, outputs: seq<string>)
    requires at <= |s|
  {
    && |outputs| == |Commands(MARKED, s[at..])| == |Matches(s, at)|
    && (outputs == [] ==> Expand(s[at..], outputs) == s[at..])
    && (outputs != [] ==>
          var m := Matches(s, at)[0];
          && at <= m.index && m.End() <= |s|
          && Matches(s, at)[1..] == Matches(s, m.End())
          && |Commands(MARKED, s[m.End()..])| == |outputs| - 1
          && Expand(s[at..], outputs) == s[at..m.index] + outputs[0] + Expand(s[m.End()..], outputs[1..]))
  }

  lemma {:induction false} ExpandToMatch(s: string, at: nat, outputs: seq<string>)
    requires at <= |s| && |outputs| == |Commands(MARKED, s[at..])|
    ensures ExpandsFrom(s, at, outputs)
    decreases |s| - at
  {
    hide BlockAt, AfterBlock;
    MatchesAreCommands(s, at);
    if BlockAt(MARKED, s[at..]).Some? {
      MatchesAreCommands(s, FirstMatch(s, at).End());
    } else if at < |s| {
      assert s[at..][1..] == s[at + 1..];
      ExpandToMatch(s, at + 1, outputs);
      if outputs != [] {
        var m := Matches(s, at)[0];
        assert [s[at]] + s[at + 1..m.index] == s[at..m.index];
        assert [s[at]] + (s[at + 1..m.index] + outputs[0] + Expand(s[m.End()..], outputs[1..]))
            == s[at..m.index] + outputs[0] + Expand(s[m.End()..], outputs[1..]);
      } else {
        assert [s[at]] + s[at + 1..] == s[at..];
      }
    }
  }

  /** Where the text after the first `i` matches begins. */
  function Resume(matches: seq<Match>, i: nat): nat
    requires i <= |matches|
  {
    if i == 0 then 0 else matches[i - 1].End()
  }

  lemma {:induction false} ResumeMatches(s: string, i: nat)
    requires i <= |Matches(s, 0)|
    ensures var at := Resume(Matches(s, 0), i);
            && at <= |s|
            && Matches(s, at) == Matches(s, 0)[i..]
            && |Commands(MARKED, s[at..])| == |Matches(s, 0)| - i
  {
    hide Matches, Commands, Expand;
    if i > 0 {
      ResumeMatches(s, i - 1);
      var at := Resume(Matches(s, 0), i - 1);
      ExpandToMatch(s, at, Commands(MARKED, s[at..]));
      assert Matches(s, 0)[i - 1..][0] == Matches(s, 0)[i - 1];
      assert Matches(s, 0)[i - 1..][1..] == Matches(s, 0)[i..];
    } else {
      MatchesAreCommands(s, 0);
      assert Matches(s, 0)[0..] == Matches(s, 0);
    }
  }

  /** What splicing has made of the text once all matches from `i` on are done. */
  function Spliced(s: string, outputs: seq<string>, i: nat): string
    requires i <= |outputs| == |Matches(s, 0)|
  {
    ResumeMatches(s, i);
    s[..Resume(Matches(s, 0), i)] + Expand(s[Resume(Matches(s, 0), i)..], outputs[i..])
  }

  lemma SplicedEnds(s: string, outputs: seq<string>)
    requires |outputs| == |Matches(s, 0)|
    ensures Spliced(s, outputs, |outputs|) == s
    ensures |Commands(MARKED, s)| == |outputs| && Spliced(s, outputs, 0) == Expand(s, outputs)
  {
    hide Matches, Commands, Expand;
    var n := |outputs|;
    ResumeMatches(s, n);
    ExpandToMatch(s, Resume(Matches(s, 0), n), []);
    assert outputs[n..] == [];
    ResumeMatches(s, 0);
    assert s[0..] == s && outputs[0..] == outputs && s[..0] == [];
  }

  lemma SpliceOne(s: string, outputs: seq<string>, i: nat)
    requires i < |outputs| == |Matches(s, 0)|
    ensures var m := Matches(s, 0)[i];
            var t := Spliced(s, outputs, i + 1);
            && m.index <= m.End() <= |t|
            && Spliced(s, outputs, i) == t[..m.index] + outputs[i] + t[m.End()..]
  {
    hide Matches, Commands, Expand;
    var m := Matches(s, 0)[i];
    var at := Resume(Matches(s, 0), i);
    ResumeMatches(s, i);
    ResumeMatches(s, i + 1);
    ExpandToMatch(s, at, outputs[i..]);
    assert Matches(s, 0)[i..][0] == m && outputs[i..][0] == outputs[i] && outputs[i..][1..] == outputs[i + 1..];
    var rest := Expand(s[m.End()..], outputs[i + 1..]);
    assert Spliced(s, outputs, i + 1) == s[..m.End()] + rest;
    assert s[..at] + (s[at..m.index] + outputs[i] + rest) == s[..m.index] + outputs[i] + rest;
  }

  /** Runs the command of a match: its standard output, or nothing if it failed or timed out. */
  type Exec = (nat, string) -> Option<string>

  predicate AllRun(commands: seq<string>, exec: Exec) {
    forall i :: 0 <= i < |commands| ==> exec(i, commands[i]).Some?
  }

  function Outputs(commands: seq<string>, exec: Exec): seq<string>
    requires AllRun(commands, exec)
  {
    seq(|commands|, i requires 0 <= i < |commands| => Text.TrimEnd(exec(i, commands[i]).value))
  }

  method PreprocessPrompt(prompt: string, exec: Exec) returns (r: Option<string>)
    ensures r.Some? <==> AllRun(Commands(MARKED, prompt), exec)
    ensures r.Some? ==> r.value == Strip(Expand(prompt, Outputs(Commands(MARKED, prompt), exec)))
  {
    hide Matches, Commands, Expand, Text.TrimEnd, Strip, Spliced;
    var matches := Matches(prompt, 0);
    ghost var commands := Commands(MARKED, prompt);
    assert prompt[0..] == prompt;
    MatchesAreCommands(prompt, 0);
    var results: seq<string> := [];
    for i := 0 to |matches|
      invariant |results| == i
      invariant forall j :: 0 <= j < i ==> exec(j, commands[j]).Some? && results[j] == Text.TrimEnd(exec(j, commands[j]).value)
    {
      var output := exec(i, matches[i].command);
      if output.None? {
        return None;
      }
      results := results + [Text.TrimEnd(output.value)];
    }
    assert results == Outputs(commands, exec);
    SplicedEnds(prompt, results);
    var result := prompt;
    for i := |matches| downto 0
      invariant result == Spliced(prompt, results, i)
    {
      SpliceOne(prompt, results, i);
      result := result[..matches[i].index] + results[i] + result[matches[i].End()..];
    }
    return Some(Strip(result));
  }

  /** An output is what the command printed, without the white space at its end. */
  lemma OutputsAreTrimmed(commands: seq<string>, exec: Exec, i: nat) returns (space: string)
    requires AllRun(commands, exec) && i < |commands|
    ensures var output := Outputs(commands, exec)[i];
            && exec(i, commands[i]).value == output + space && Text.Blank(space)
            && (output == "" || !Text.IsSpace(output[|output| - 1]))
  {
    hide Text.IsSpace;
    space := Text.TrimEndParts(exec(i, commands[i]).value);
    Text.BlankIs(space);
  }
}
