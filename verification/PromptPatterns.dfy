/**
 * The regular expressions of the prompt pipeline. Each is deterministic: at a given place in a text
 * there is at most one match, and it is what the functions here compute.
 */
module PromptPatterns {
  import opened Common
  import Text

  const MARKER: char := '\U{0001}'
  const PLAIN: string := "!`"
  const MARKED: string := "!\U{0001}`"

  /** How many leading characters satisfy `f`. */
  function Span(f: char -> bool, s: string): (n: nat)
    ensures n <= |s| && (forall i :: 0 <= i < n ==> f(s[i])) && (n < |s| ==> !f(s[n]))
  {
    if s != [] && f(s[0]) then 1 + Span(f, s[1..]) else 0
  }

  lemma {:induction false} SpanIs(f: char -> bool, s: string, n: nat)
    requires n <= |s| && (forall i :: 0 <= i < n ==> f(s[i])) && (n < |s| ==> !f(s[n]))
    ensures Span(f, s) == n
  {
    if n > 0 {
      SpanIs(f, s[1..], n - 1);
    }
  }

  lemma SpanFrom(f: char -> bool, s: string, from: nat, to: nat)
    requires from <= to <= |s| && (forall i :: from <= i < to ==> f(s[i])) && (to < |s| ==> !f(s[to]))
    ensures Span(f, s[from..]) == to - from
  {
    var rest := s[from..];
    assert forall i :: 0 <= i < to - from ==> rest[i] == s[from + i];
    SpanIs(f, rest, to - from);
  }

  // ----- Shell blocks: an opener, a non-empty command without backticks, a backtick

  predicate NotTick(c: char) {
    c != '`'
  }

  /** The command of the block the text begins with. */
  function BlockAt(open: string, s: string): (r: Option<string>)
    ensures r.Some? ==> r.value != [] && |open| + |r.value| + 1 <= |s|
  {
    if !(open <= s) then None
    else
      var n := Span(NotTick, s[|open|..]);
      if n == 0 || |open| + n == |s| then None else Some(s[|open|..|open| + n])
  }

  /** The text after that block. */
  function AfterBlock(open: string, s: string): (r: string)
    requires BlockAt(open, s).Some?
    ensures |r| == |s| - |open| - |BlockAt(open, s).value| - 1
  {
    s[|open| + |BlockAt(open, s).value| + 1..]
  }

  lemma BlockIs(open: string, command: string, rest: string)
    requires command != [] && '`' !in command
    ensures var s := open + command + "`" + rest;
            BlockAt(open, s) == Some(command) && AfterBlock(open, s) == rest
  {
    var s := open + command + "`" + rest;
    var n := |open| + |command|;
    assert open <= s && s[|open|..n] == command && s[n] == '`';
    assert forall i :: |open| <= i < n ==> s[i] == command[i - |open|];
    SpanFrom(NotTick, s, |open|, n);
  }

  lemma BlockParts(open: string, s: string)
    requires BlockAt(open, s).Some?
    ensures var command := BlockAt(open, s).value;
            '`' !in command && s == open + command + "`" + AfterBlock(open, s)
  {
    var n := Span(NotTick, s[|open|..]);
    assert s[|open|..][n] == '`' == s[|open| + n];
    assert s[|open|..|open| + n] == s[|open|..][..n];
  }

  /** The commands of all blocks, from left to right. */
  function Commands(open: string, s: string): seq<string>
    decreases |s|
  {
    if BlockAt(open, s).Some? then [BlockAt(open, s).value] + Commands(open, AfterBlock(open, s))
    else if s == [] then [] else Commands(open, s[1..])
  }

  // ----- Placeholders: braces around an identifier, white space allowed on both sides of it

  predicate IsIdentStart(c: char) {
    'A' <= c <= 'Z' || 'a' <= c <= 'z' || c == '_'
  }

  predicate IsIdent(c: char) {
    IsIdentStart(c) || '0' <= c <= '9'
  }

  datatype Placeholder = Placeholder(key: string, length: nat)

  /** Where a placeholder's identifier begins and ends, and where its closing braces are. */
  function Bounds(s: string): (r: (nat, nat, nat))
    requires |s| >= 2
    ensures 2 <= r.0 <= r.1 <= r.2 <= |s|
  {
    var a := 2 + Span(Text.IsSpace, s[2..]);
    var b := a + Span(IsIdent, s[a..]);
    (a, b, b + Span(Text.IsSpace, s[b..]))
  }

  function PlaceholderAt(s: string): (r: Option<Placeholder>)
    ensures r.Some? ==> 0 < r.value.length <= |s|
  {
    if |s| < 4 || s[0] != '{' || s[1] != '{' then None
    else
      var (a, b, e) := Bounds(s);
      if a == b || !IsIdentStart(s[a]) || |s| < e + 2 || s[e] != '}' || s[e + 1] != '}' then None
      else Some(Placeholder(s[a..b], e + 2))
  }

  function AfterPlaceholder(s: string): (r: string)
    requires PlaceholderAt(s).Some?
    ensures |r| < |s|
  {
    s[PlaceholderAt(s).value.length..]
  }

  ghost predicate Delimits(s: string, a: nat, b: nat, e: nat)
    requires 2 <= a <= b <= e < |s|
  {
    && (forall i :: 2 <= i < a ==> Text.IsSpace(s[i]))
    && !Text.IsSpace(s[a])
    && (forall i :: a <= i < b ==> IsIdent(s[i]))
    && !IsIdent(s[b])
    && (forall i :: b <= i < e ==> Text.IsSpace(s[i]))
    && !Text.IsSpace(s[e])
  }

  lemma BoundsDelimit(s: string)
    requires |s| >= 2 && Bounds(s).2 < |s|
    ensures var (a, b, e) := Bounds(s); Delimits(s, a, b, e)
  {
    hide Text.IsSpace, IsIdent;
    var (a, b, e) := Bounds(s);
    var k0, k1, k2 := a - 2, b - a, e - b;
    forall i | 2 <= i < a ensures Text.IsSpace(s[i]) { assert s[2..][i - 2] == s[i]; }
    assert s[2..][k0] == s[a];
    forall i | a <= i < b ensures IsIdent(s[i]) { assert s[a..][i - a] == s[i]; }
    assert s[a..][k1] == s[b];
    forall i | b <= i < e ensures Text.IsSpace(s[i]) { assert s[b..][i - b] == s[i]; }
    assert s[b..][k2] == s[e];
  }

  lemma BoundsAre(s: string, a: nat, b: nat, e: nat)
    requires 2 <= a <= b <= e < |s|
    requires Span(Text.IsSpace, s[2..]) == a - 2 && Span(IsIdent, s[a..]) == b - a && Span(Text.IsSpace, s[b..]) == e - b
    ensures Bounds(s) == (a, b, e)
  {
    hide Text.IsSpace, IsIdent, Span;
  }

  lemma DelimitsBounds(s: string, a: nat, b: nat, e: nat)
    requires 2 <= a <= b <= e < |s| && Delimits(s, a, b, e)
    ensures Bounds(s) == (a, b, e)
  {
    hide Text.IsSpace, IsIdent, Bounds, Span;
    assert Span(Text.IsSpace, s[2..]) == a - 2 by { SpanFrom(Text.IsSpace, s, 2, a); }
    assert Span(IsIdent, s[a..]) == b - a by { SpanFrom(IsIdent, s, a, b); }
    assert Span(Text.IsSpace, s[b..]) == e - b by { SpanFrom(Text.IsSpace, s, b, e); }
    BoundsAre(s, a, b, e);
  }

  /** The characters a placeholder never contains. */
  predicate IsBarrier(c: char) {
    c == '!' || c == '`' || c == MARKER
  }

  lemma NoBarrier(c: char)
    requires Text.IsSpace(c) || IsIdent(c) || c == '{' || c == '}'
    ensures !IsBarrier(c)
  {
  }

  /** A placeholder contains no barrier, and is the same whatever follows it. */
  lemma PlaceholderStands(s: string, rest: string)
    requires PlaceholderAt(s).Some?
    ensures var p := PlaceholderAt(s).value;
            && (forall i :: 0 <= i < p.length ==> !IsBarrier(s[i]))
            && PlaceholderAt(s[..p.length] + rest) == Some(p)
            && AfterPlaceholder(s[..p.length] + rest) == rest
  {
    hide Text.IsSpace, IsIdent, IsIdentStart, IsBarrier, Bounds;
    var (a, b, e) := Bounds(s);
    BoundsDelimit(s);
    var s' := s[..e + 2] + rest;
    assert Delimits(s', a, b, e);
    DelimitsBounds(s', a, b, e);
    assert s'[a..b] == s[a..b];
    forall i | 0 <= i < e + 2
      ensures !IsBarrier(s[i])
    {
      NoBarrier(s[i]);
    }
  }

  /** ASCII letters and the underscore, by code. */
  predicate IsLetterCode(code: int) {
    65 <= code <= 90 || 97 <= code <= 122 || code == 95
  }

  /** Letters, underscores and digits, and no digit first. */
  ghost predicate IsIdentifier(key: string) {
    key != "" && IsLetterCode(key[0] as int)
    && forall i :: 0 <= i < |key| ==> IsLetterCode(key[i] as int) || 48 <= key[i] as int <= 57
  }

  lemma IdentifierChars(c: char)
    ensures IsIdentStart(c) <==> IsLetterCode(c as int)
    ensures IsIdent(c) <==> IsLetterCode(c as int) || 48 <= c as int <= 57
  {
  }

  lemma IdentifierIs(key: string)
    ensures IsIdentifier(key) <==> key != "" && IsIdentStart(key[0]) && forall i :: 0 <= i < |key| ==> IsIdent(key[i])
  {
    hide IsIdent, IsIdentStart, IsLetterCode;
    forall c: char
      ensures IsIdentStart(c) <==> IsLetterCode(c as int)
      ensures IsIdent(c) <==> IsLetterCode(c as int) || 48 <= c as int <= 57
    {
      IdentifierChars(c);
    }
  }

  lemma CharClasses(c: char)
    ensures IsIdent(c) ==> !Text.IsSpace(c)
    ensures !IsIdent('}') && !Text.IsSpace('}')
    ensures IsIdentStart(c) ==> IsIdent(c)
  {
  }

  /** Two braces, an identifier with any white space around it, two braces: that is a placeholder for the identifier. */
  lemma PlaceholderForm(before: string, key: string, after: string, rest: string)
    requires Text.Blank(before) && Text.Blank(after) && IsIdentifier(key)
    ensures var s := "{{" + before + key + after + "}}" + rest;
            && PlaceholderAt(s) == Some(Placeholder(key, |before| + |key| + |after| + 4))
            && AfterPlaceholder(s) == rest
  {
    hide Text.IsSpace, Text.Blank, IsIdent, IsIdentStart, IsIdentifier, Bounds;
    IdentifierIs(key);
    Text.BlankIs(before);
    Text.BlankIs(after);
    var s := "{{" + before + key + after + "}}" + rest;
    var a := 2 + |before|;
    var b := a + |key|;
    var e := b + |after|;
    assert forall i :: 2 <= i < a ==> s[i] == before[i - 2];
    assert forall i :: a <= i < b ==> s[i] == key[i - a];
    assert forall i :: b <= i < e ==> s[i] == after[i - b];
    assert s[e] == '}' && s[e + 1] == '}';
    CharClasses(key[0]);
    assert !IsIdent(s[b]) by {
      CharClasses(s[b]);
    }
    assert Delimits(s, a, b, e);
    DelimitsBounds(s, a, b, e);
    assert s[a..b] == key && s[e + 2..] == rest;
  }

  /** And every placeholder has that form. */
  lemma PlaceholderParts(s: string) returns (before: string, after: string)
    requires PlaceholderAt(s).Some?
    ensures var key := PlaceholderAt(s).value.key;
            && Text.Blank(before) && Text.Blank(after) && IsIdentifier(key)
            && s == "{{" + before + key + after + "}}" + AfterPlaceholder(s)
  {
    hide Text.IsSpace, Text.Blank, IsIdent, IsIdentStart, IsIdentifier, Bounds;
    IdentifierIs(PlaceholderAt(s).value.key);
    var (a, b, e) := Bounds(s);
    BoundsDelimit(s);
    before, after := s[2..a], s[b..e];
    Text.BlankIs(before);
    Text.BlankIs(after);
    assert s[..2] == "{{" && s[e..e + 2] == "}}";
    SixParts(s, a, b, e);
  }

  lemma SixParts(s: string, a: nat, b: nat, e: nat)
    requires 2 <= a <= b <= e && e + 2 <= |s|
    ensures s == s[..2] + s[2..a] + s[a..b] + s[b..e] + s[e..e + 2] + s[e + 2..]
  {
    assert s[..a] == s[..2] + s[2..a];
    assert s[..b] == s[..a] + s[a..b];
    assert s[..e] == s[..b] + s[b..e];
    assert s[..e + 2] == s[..e] + s[e..e + 2];
  }
}
