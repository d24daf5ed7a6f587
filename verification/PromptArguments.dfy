/**
 * Marking the shell blocks a template's author wrote, and substituting placeholders. A template is
 * also parsed in one reading, and the two agree.
 */
module PromptArguments {
  import opened Common
  import opened PromptPatterns
  import PromptPreprocessor
  import Text

  /** Inserts a marker into every block of the raw template. */
  function Mark(s: string): string
    decreases |s|
  {
    if BlockAt(PLAIN, s).Some? then MARKED + BlockAt(PLAIN, s).value + "`" + Mark(AfterBlock(PLAIN, s))
    else if s == [] then [] else [s[0]] + Mark(s[1..])
  }

  /** What every key resolves to, as text: the caller's own values and whatever plain objects inherit. */
  type Args = map<string, string>

  function Value(args: Args, key: string): (r: string)
    ensures MARKER !in r
  {
    if key in args then PromptPreprocessor.Strip(args[key]) else ""
  }

  function Keys(s: string): seq<string>
    decreases |s|
  {
    if PlaceholderAt(s).Some? then [PlaceholderAt(s).value.key] + Keys(AfterPlaceholder(s))
    else if s == [] then [] else Keys(s[1..])
  }

  function Subst(s: string, args: Args): string
    decreases |s|
  {
    if PlaceholderAt(s).Some? then Value(args, PlaceholderAt(s).value.key) + Subst(AfterPlaceholder(s), args)
    else if s == [] then [] else [s[0]] + Subst(s[1..], args)
  }

  function FirstMissing(keys: seq<string>, args: Args): (r: Option<string>)
    ensures r.None? <==> forall key :: key in keys ==> key in args
    ensures r.Some? ==> exists k :: 0 <= k < |keys| && keys[k] == r.value && r.value !in args && forall j :: 0 <= j < k ==> keys[j] in args
  {
    if keys == [] then None
    else if keys[0] !in args then Some(keys[0])
    else
      var rest := FirstMissing(keys[1..], args);
      assert forall k :: 0 <= k < |keys| - 1 ==> keys[1..][k] == keys[k + 1];
      rest
  }

  /** Fails on the first referenced key without a value, and otherwise substitutes into the marked template. */
  method SubstitutePromptArgs(prompt: string, args: Args) returns (r: Result<string, string>)
    ensures var marked := Mark(PromptPreprocessor.Strip(prompt));
            match FirstMissing(Keys(marked), args)
            case Some(key) => r == Err(key)
            case None => r == Ok(Subst(marked, args))
  {
    var marked := Mark(PromptPreprocessor.Strip(prompt));
    var keys := Keys(marked);
    for k := 0 to |keys|
      invariant FirstMissing(keys, args) == FirstMissing(keys[k..], args)
    {
      if keys[k] !in args {
        return Err(keys[k]);
      }
      assert keys[k..][1..] == keys[k + 1..];
    }
    return Ok(Subst(marked, args));
  }

  // ----- Substitution works piece by piece

  /** A barrier keeps what precedes it from what follows it. */
  lemma BarrierSplits(u: string, c: char, rest: string)
    requires IsBarrier(c)
    ensures PlaceholderAt(u + [c] + rest) == PlaceholderAt(u)
    ensures PlaceholderAt(u).Some? ==> AfterPlaceholder(u + [c] + rest) == AfterPlaceholder(u) + [c] + rest
  {
    hide PlaceholderAt, IsBarrier;
    var s := u + [c] + rest;
    if PlaceholderAt(s).Some? {
      var n := PlaceholderAt(s).value.length;
      PlaceholderStands(s, u[if n <= |u| then n else 0..]);
      assert s[|u|] == c;
      assert n <= |u|;
      assert s[..n] + u[n..] == u;
    } else if PlaceholderAt(u).Some? {
      var n := PlaceholderAt(u).value.length;
      assert u[..n] + (u[n..] + [c] + rest) == s;
      PlaceholderStands(u, u[n..] + [c] + rest);
    }
  }

  lemma {:induction false} SubstSplits(u: string, c: char, rest: string, args: Args)
    requires IsBarrier(c)
    ensures Subst(u + [c] + rest, args) == Subst(u, args) + [c] + Subst(rest, args)
    ensures Keys(u + [c] + rest) == Keys(u) + Keys(rest)
    decreases |u|
  {
    hide PlaceholderAt, AfterPlaceholder, IsBarrier;
    BarrierSplits(u, c, rest);
    if PlaceholderAt(u).Some? {
      SubstSplits(AfterPlaceholder(u), c, rest, args);
    } else if u == [] {
      assert ([] + [c] + rest)[1..] == rest;
    } else {
      assert (u + [c] + rest)[1..] == u[1..] + [c] + rest;
      SubstSplits(u[1..], c, rest, args);
    }
  }

  /** Substitution goes on inside a block and leaves its delimiters alone. */
  lemma SubstBlock(command: string, rest: string, args: Args)
    ensures Subst(MARKED + command + "`" + rest, args) == MARKED + Subst(command, args) + "`" + Subst(rest, args)
    ensures Keys(MARKED + command + "`" + rest) == Keys(command) + Keys(rest)
  {
    hide Subst, Keys, PlaceholderAt;
    var inner := command + ['`'] + rest;
    SubstNone(args);
    SubstSplits(command, '`', rest, args);
    SubstSplits([], '`', inner, args);
    SubstSplits([], MARKER, ['`'] + inner, args);
    SubstSplits([], '!', [MARKER] + (['`'] + inner), args);
    assert [] + ['`'] + inner == ['`'] + inner;
    assert [] + [MARKER] + (['`'] + inner) == [MARKER] + (['`'] + inner);
    assert [] + ['!'] + ([MARKER] + (['`'] + inner)) == MARKED + command + "`" + rest;
  }

  lemma SubstNone(args: Args)
    ensures Subst([], args) == [] && Keys([]) == []
  {
  }

  // ----- Marking moves no placeholder

  lemma NoBlock(t: string)
    requires t == [] || t[0] != '!'
    ensures BlockAt(PLAIN, t).None?
  {
    assert PLAIN[0] == '!';
  }

  /** Up to the first exclamation mark, marking changes nothing. */
  lemma {:induction false} MarkLocal(t: string, n: nat)
    requires n <= |t| && forall i :: 0 <= i < n ==> t[i] != '!'
    ensures Mark(t) == t[..n] + Mark(t[n..])
  {
    hide BlockAt;
    if n > 0 {
      NoBlock(t);
      MarkLocal(t[1..], n - 1);
      assert t[1..][n - 1..] == t[n..];
      assert [t[0]] + (t[1..][..n - 1] + Mark(t[n..])) == t[..n] + Mark(t[n..]);
    } else {
      assert t[0..] == t && t[..0] == [];
    }
  }

  lemma {:induction false} MarkPrefix(t: string, n: nat)
    requires n <= |Mark(t)| && forall i :: 0 <= i < n ==> Mark(t)[i] != '!'
    ensures n <= |t| && t[..n] == Mark(t)[..n]
  {
    hide BlockAt, AfterBlock;
    assert BlockAt(PLAIN, t).Some? ==> |Mark(t)| > 0 && Mark(t)[0] == MARKED[0] == '!';
    if n > 0 {
      if BlockAt(PLAIN, t).Some? {
        assert false;
      } else {
        assert Mark(t)[1..] == Mark(t[1..]);
        assert forall i :: 0 <= i < n - 1 ==> Mark(t[1..])[i] == Mark(t)[i + 1];
        MarkPrefix(t[1..], n - 1);
        assert t[..n] == [t[0]] + t[1..][..n - 1];
      }
    }
  }

  lemma MarkKeepsPlaceholder(t: string)
    ensures PlaceholderAt(Mark(t)) == PlaceholderAt(t)
    ensures PlaceholderAt(t).Some? ==> AfterPlaceholder(Mark(t)) == Mark(AfterPlaceholder(t))
  {
    hide PlaceholderAt, Mark;
    if PlaceholderAt(Mark(t)).Some? {
      var n := PlaceholderAt(Mark(t)).value.length;
      PlaceholderStands(Mark(t), []);
      MarkPrefix(t, n);
      PlaceholderStands(Mark(t), t[n..]);
      assert t[..n] + t[n..] == t;
    }
    if PlaceholderAt(t).Some? {
      var n := PlaceholderAt(t).value.length;
      PlaceholderStands(t, []);
      MarkLocal(t, n);
      PlaceholderStands(t, Mark(t[n..]));
    }
  }

  // ----- One reading of the template

  datatype Piece = Literal(c: char) | Hole(key: string) | Shell(command: string)

  function Parse(t: string): seq<Piece>
    decreases |t|
  {
    if BlockAt(PLAIN, t).Some? then [Shell(BlockAt(PLAIN, t).value)] + Parse(AfterBlock(PLAIN, t))
    else if PlaceholderAt(t).Some? then [Hole(PlaceholderAt(t).value.key)] + Parse(AfterPlaceholder(t))
    else if t == [] then [] else [Literal(t[0])] + Parse(t[1..])
  }

  function Shown(piece: Piece, args: Args): string {
    match piece
    case Literal(c) => [c]
    case Hole(key) => Value(args, key)
    case Shell(command) => MARKED + Subst(command, args) + "`"
  }

  function Assemble(pieces: seq<Piece>, args: Args): string {
    if pieces == [] then [] else Shown(pieces[0], args) + Assemble(pieces[1..], args)
  }

  function KeysOf(pieces: seq<Piece>): seq<string> {
    if pieces == [] then []
    else
      (match pieces[0] case Literal(_) => [] case Hole(key) => [key] case Shell(command) => Keys(command))
      + KeysOf(pieces[1..])
  }

  /** Marking and then substituting is reading the template piece by piece. */
  lemma {:induction false} SubstAssembles(t: string, args: Args)
    ensures Subst(Mark(t), args) == Assemble(Parse(t), args)
    ensures Keys(Mark(t)) == KeysOf(Parse(t))
    decreases |t|
  {
    hide BlockAt, AfterBlock, PlaceholderAt, AfterPlaceholder, Value;
    if BlockAt(PLAIN, t).Some? {
      var command, rest := BlockAt(PLAIN, t).value, AfterBlock(PLAIN, t);
      SubstAssembles(rest, args);
      SubstBlock(command, Mark(rest), args);
      assert MARKED + Subst(command, args) + "`" + Subst(Mark(rest), args)
          == (MARKED + Subst(command, args) + "`") + Subst(Mark(rest), args);
    } else {
      MarkKeepsPlaceholder(t);
      if PlaceholderAt(t).Some? {
        SubstAssembles(AfterPlaceholder(t), args);
      } else if t != [] {
        SubstAssembles(t[1..], args);
        assert Mark(t)[1..] == Mark(t[1..]);
      }
    }
  }

  // ----- What substitution puts where

  /** A placeholder is replaced by the value of its key, markers left out, whatever white space it contains. */
  lemma PlaceholderBecomesValue(before: string, key: string, after: string, rest: string, args: Args)
    requires Text.Blank(before) && Text.Blank(after) && IsIdentifier(key) && key in args
    ensures var s := "{{" + before + key + after + "}}" + rest;
            && Subst(s, args) == PromptPreprocessor.Strip(args[key]) + Subst(rest, args)
            && (MARKER !in args[key] ==> Subst(s, args) == args[key] + Subst(rest, args))
            && Keys(s) == [key] + Keys(rest)
  {
    hide PlaceholderAt, AfterPlaceholder, PromptPreprocessor.Strip;
    PlaceholderForm(before, key, after, rest);
  }

  ghost predicate NoPlaceholder(s: string) {
    forall i :: 0 <= i <= |s| ==> PlaceholderAt(s[i..]).None?
  }

  /** Text without placeholders comes back as it is. */
  lemma {:induction false} TextStays(s: string, args: Args)
    requires NoPlaceholder(s)
    ensures Subst(s, args) == s && Keys(s) == []
  {
    hide PlaceholderAt;
    assert s[0..] == s;
    if s != [] {
      forall i | 0 <= i <= |s[1..]|
        ensures PlaceholderAt(s[1..][i..]).None?
      {
        assert s[1..][i..] == s[i + 1..];
      }
      TextStays(s[1..], args);
    }
  }
}
