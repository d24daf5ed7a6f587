/**
 * Parsing and printing env files. Printing a map and parsing it back gives the same map exactly if
 * every key and value can stand in a line; the proof weighs maps against the text that yields them.
 */
module EnvFile {
  import opened Common
  import Text

  type Vars = map<string, string>

  // ----- Lines

  /** `split("\n")`: the pieces between newlines, at least one. */
  function Lines(s: string): (r: seq<string>)
    ensures |r| > 0
  {
    if s == [] then [[]]
    else
      var rest := Lines(s[1..]);
      if s[0] == '\n' then [[]] + rest else [[s[0]] + rest[0]] + rest[1..]
  }

  /** Every line followed by a newline. */
  function Unlines(lines: seq<string>): string {
    if lines == [] then [] else lines[0] + "\n" + Unlines(lines[1..])
  }

  function Splits(lines: seq<string>): seq<string> {
    if lines == [] then [] else Lines(lines[0]) + Splits(lines[1..])
  }

  lemma {:induction false} LinesOfLine(line: string, rest: string)
    ensures Lines(line + "\n" + rest) == Lines(line) + Lines(rest)
  {
    var s := line + "\n" + rest;
    if line == [] {
      assert s[1..] == rest;
    } else {
      assert s[1..] == line[1..] + "\n" + rest;
      LinesOfLine(line[1..], rest);
    }
  }

  lemma {:induction false} LinesOfUnlines(lines: seq<string>)
    ensures Lines(Unlines(lines)) == Splits(lines) + [""]
  {
    if lines != [] {
      LinesOfUnlines(lines[1..]);
      LinesOfLine(lines[0], Unlines(lines[1..]));
    }
  }

  lemma {:induction false} LineWithoutNewline(s: string)
    ensures '\n' !in s ==> Lines(s) == [s]
    ensures forall k :: 0 <= k < |Lines(s)| ==> '\n' !in Lines(s)[k]
  {
    if s != [] {
      LineWithoutNewline(s[1..]);
      assert [s[0]] + s[1..] == s;
    }
  }

  // ----- Parsing

  const PROTO := "__proto__"

  function IndexOf(s: string, c: char): (n: nat)
    ensures n <= |s| && c !in s[..n] && (n < |s| ==> s[n] == c)
  {
    if s == [] || s[0] == c then 0
    else
      var n := IndexOf(s[1..], c);
      assert s[..n + 1] == [s[0]] + s[1..][..n];
      n + 1
  }

  predicate QuotedWith(s: string, quote: char) {
    |s| >= 2 && s[0] == quote && s[|s| - 1] == quote
  }

  function Inner(s: string): string
    requires |s| >= 2
  {
    s[1..|s| - 1]
  }

  function Escaped(c: char): Option<char> {
    match c
    case 'n' => Some('\n')
    case 'r' => Some('\r')
    case 't' => Some('\t')
    case '\\' => Some('\\')
    case _ => None
  }

  function Unescape(s: string): (r: string)
    ensures |r| <= |s|
  {
    if |s| < 2 then s
    else if s[0] == '\\' && Escaped(s[1]).Some? then [Escaped(s[1]).value] + Unescape(s[2..])
    else [s[0]] + Unescape(s[1..])
  }

  function Unquote(value: string): string {
    if QuotedWith(value, '"') then Unescape(Inner(value))
    else if QuotedWith(value, '\'') then Inner(value)
    else value
  }

  datatype Binding = Binding(key: string, value: string)

  /** The variable a line sets, if any. */
  function ParseLine(line: string): Option<Binding> {
    var trimmed := Text.Trim(line);
    if trimmed == "" || trimmed[0] == '#' then None
    else
      var n := IndexOf(trimmed, '=');
      if n == |trimmed| then None
      else Some(Binding(Text.Trim(trimmed[..n]), Unquote(Text.Trim(trimmed[n + 1..]))))
  }

  /** Assigning a string to the prototype key of a plain object does nothing. */
  function Assign(vars: Vars, b: Binding): Vars {
    if b.key == PROTO then vars else vars[b.key := b.value]
  }

  function SetLine(vars: Vars, line: string): Vars {
    match ParseLine(line)
    case None => vars
    case Some(b) => Assign(vars, b)
  }

  function SetLines(vars: Vars, lines: seq<string>): Vars {
    if lines == [] then vars else SetLine(SetLines(vars, lines[..|lines| - 1]), lines[|lines| - 1])
  }

  method ParseEnvFile(content: string) returns (vars: Vars)
    ensures vars == SetLines(map[], Lines(content))
  {
    hide Lines, Text.Trim, IndexOf, Inner, Unescape;
    var lines := Lines(content);
    vars := map[];
    for i := 0 to |lines|
      invariant vars == SetLines(map[], lines[..i])
    {
      assert lines[..i + 1][..i] == lines[..i];
      var trimmed := Text.Trim(lines[i]);
      if trimmed == "" || trimmed[0] == '#' {
        continue;
      }
      var n := IndexOf(trimmed, '=');
      if n == |trimmed| {
        continue;
      }
      var key := Text.Trim(trimmed[..n]);
      var value := Text.Trim(trimmed[n + 1..]);
      var isDoubleQuoted := QuotedWith(value, '"');
      if isDoubleQuoted || QuotedWith(value, '\'') {
        value := Inner(value);
      }
      if isDoubleQuoted {
        value := Unescape(value);
      }
      if key != PROTO {
        vars := vars[key := value];
      }
    }
    assert lines[..|lines|] == lines;
  }

  // ----- Printing

  /** `order` lists every key once; the code sorts it. */
  ghost predicate Orders(order: seq<string>, vars: Vars) {
    Distinct(order) && forall key :: key in order <==> key in vars
  }

  function Entry(key: string, vars: Vars): string {
    key + "=" + if key in vars then vars[key] else ""
  }

  function Entries(order: seq<string>, vars: Vars): (r: seq<string>)
    ensures |r| == |order|
  {
    seq(|order|, i requires 0 <= i < |order| => Entry(order[i], vars))
  }

  function Heading(header: seq<string>): seq<string> {
    if header != [] && header[|header| - 1] != "" then header + [""] else header
  }

  /** `lines.join("\n")` with a final newline: a file of no lines is still one newline. */
  function Print(lines: seq<string>): string {
    if lines == [] then "\n" else Unlines(lines)
  }

  method SerializeEnvFile(vars: Vars, order: seq<string>, header: seq<string>) returns (content: string)
    requires Orders(order, vars)
    ensures content == Print(Heading(header) + Entries(order, vars))
  {
    hide Unlines, Entries, Distinct;
    var lines := header;
    if |lines| > 0 && lines[|lines| - 1] != "" {
      lines := lines + [""];
    }
    ghost var heading := lines;
    for i := 0 to |order|
      invariant lines == heading + Entries(order, vars)[..i]
    {
      EntriesAt(order, vars, i);
      lines := lines + [order[i] + "=" + vars[order[i]]];
    }
    EntriesAt(order, vars, |order|);
    if |lines| == 0 {
      return "\n";
    }
    // join, then the final newline
    content := "";
    UnlinesNone();
    assert lines[|lines|..] == [];
    for i := |lines| downto 0
      invariant content == Unlines(lines[i..])
    {
      UnlinesAt(lines, i);
      content := lines[i] + "\n" + content;
    }
    assert lines[0..] == lines;
  }

  lemma EntriesAt(order: seq<string>, vars: Vars, i: nat)
    requires i <= |order|
    ensures Entries(order, vars)[..|order|] == Entries(order, vars)
    ensures i < |order| ==> Entries(order, vars)[..i + 1] == Entries(order, vars)[..i] + [Entry(order[i], vars)]
  {
  }

  lemma UnlinesNone()
    ensures Unlines([]) == ""
  {
  }

  lemma UnlinesAt(lines: seq<string>, i: nat)
    requires i < |lines|
    ensures Unlines(lines[i..]) == lines[i] + "\n" + Unlines(lines[i + 1..])
  {
    assert lines[i..][1..] == lines[i + 1..];
  }

  // ----- Which keys and values fit in a line

  predicate KeyFits(key: string) {
    Text.Trim(key) == key && '=' !in key && '\n' !in key && (key == "" || key[0] != '#') && key != PROTO
  }

  predicate ValueFits(value: string) {
    Text.Trim(value) == value && '\n' !in value && !QuotedWith(value, '"') && !QuotedWith(value, '\'')
  }

  ghost predicate AllFit(vars: Vars) {
    forall key :: key in vars ==> KeyFits(key) && ValueFits(vars[key])
  }

  /** Trimming never adds; exactly the text without white space at its ends is left alone. */
  lemma TrimKeeps(s: string)
    ensures |Text.Trim(s)| <= |s|
    ensures |Text.Trim(s)| == |s| ==> Text.Trim(s) == s
    ensures s == "" || (!Text.IsSpace(s[0]) && !Text.IsSpace(s[|s| - 1])) <==> Text.Trim(s) == s
  {
    hide Text.IsSpace, Text.Trim;
    var before, after := Text.TrimParts(s);
    var kept := Text.Trim(s);
    assert before != "" ==> s[0] == before[0];
    assert after != "" ==> s[|s| - 1] == after[|after| - 1];
    assert before == "" && after == "" ==> "" + kept + "" == kept;
  }

  lemma SpaceFacts()
    ensures !Text.IsSpace('=') && !Text.IsSpace('"')
  {
  }

  /** A fitting key and a trimmed value are told apart where they were joined. */
  lemma EntrySplits(key: string, raw: string)
    requires KeyFits(key) && Text.Trim(raw) == raw
    ensures ParseLine(key + "=" + raw) == Some(Binding(key, Unquote(raw)))
  {
    hide Text.IsSpace, Text.Trim, Unquote;
    var line := key + "=" + raw;
    SpaceFacts();
    TrimKeeps(key);
    TrimKeeps(raw);
    TrimKeeps(line);
    var n := IndexOf(line, '=');
    assert line[|key|] == '=';
    assert forall i :: 0 <= i < n ==> line[..n][i] == line[i] != '=';
    assert n >= |key| by {
      assert forall i :: 0 <= i < |key| ==> line[i] == key[i] != '=';
    }
    assert line[..n] == key && line[n + 1..] == raw;
  }

  /** A fitting entry is read back as it is. */
  lemma EntryParses(key: string, value: string)
    requires KeyFits(key) && ValueFits(value)
    ensures ParseLine(key + "=" + value) == Some(Binding(key, value)) && '\n' !in key + "=" + value
  {
    hide ParseLine, Text.Trim;
    EntrySplits(key, value);
  }

  /** A line that sets as much as it is long is exactly a fitting entry. */
  lemma LineYields(line: string)
    requires '\n' !in line && ParseLine(line).Some?
    ensures var b := ParseLine(line).value;
            && |b.key| + |b.value| + 1 <= |line|
            && (|b.key| + |b.value| + 1 == |line| && b.key != PROTO ==> KeyFits(b.key) && ValueFits(b.value))
  {
    hide Text.Trim, Text.IsSpace, Unescape;
    var b := ParseLine(line).value;
    var trimmed := Text.Trim(line);
    var n := IndexOf(trimmed, '=');
    TrimKeeps(line);
    TrimKeeps(trimmed[..n]);
    var raw := Text.Trim(trimmed[n + 1..]);
    TrimKeeps(trimmed[n + 1..]);
    UnquoteShrinks(raw);
    if |b.key| + |b.value| + 1 == |line| {
      assert trimmed == line && b.key == line[..n] && b.value == raw == line[n + 1..];
    }
  }

  lemma UnquoteShrinks(value: string)
    ensures |Unquote(value)| <= |value|
    ensures |Unquote(value)| == |value| ==> Unquote(value) == value && !QuotedWith(value, '"') && !QuotedWith(value, '\'')
  {
    hide Unescape;
  }

  // ----- Weighing maps against text

  ghost function Weight(vars: Vars): nat {
    if vars == map[] then 0
    else
      var key :| key in vars;
      |key| + |vars[key]| + 2 + Weight(vars - {key})
  }

  lemma {:induction false} WeightWithout(vars: Vars, key: string)
    requires key in vars
    ensures Weight(vars) == |key| + |vars[key]| + 2 + Weight(vars - {key})
    decreases |vars|
  {
    var first :| first in vars && Weight(vars) == |first| + |vars[first]| + 2 + Weight(vars - {first});
    if first != key {
      WeightWithout(vars - {first}, key);
      WeightWithout(vars - {key}, first);
      assert vars - {first} - {key} == vars - {key} - {first};
    }
  }

  lemma WeightAssign(vars: Vars, key: string, value: string)
    ensures Weight(vars[key := value]) <= Weight(vars) + |key| + |value| + 2
    ensures key !in vars ==> Weight(vars[key := value]) == Weight(vars) + |key| + |value| + 2
  {
    var after := vars[key := value];
    WeightWithout(after, key);
    assert after - {key} == vars - {key};
    if key in vars {
      WeightWithout(vars, key);
    } else {
      assert vars - {key} == vars;
    }
  }

  function Measure(lines: seq<string>): nat {
    if lines == [] then 0 else Measure(lines[..|lines| - 1]) + |lines[|lines| - 1]| + 1
  }

  lemma {:induction false} MeasureConcat(a: seq<string>, b: seq<string>)
    ensures Measure(a + b) == Measure(a) + Measure(b)
    decreases |b|
  {
    if b == [] {
      assert a + b == a;
    } else {
      assert (a + b)[..|a + b| - 1] == a + b[..|b| - 1];
      MeasureConcat(a, b[..|b| - 1]);
    }
  }

  lemma {:induction false} MeasureLines(s: string)
    ensures Measure(Lines(s)) == |s| + 1
  {
    if s != [] {
      var rest := Lines(s[1..]);
      MeasureLines(s[1..]);
      MeasureConcat([rest[0]], rest[1..]);
      assert [rest[0]] + rest[1..] == rest;
      if s[0] == '\n' {
        MeasureConcat([[]], rest);
      } else {
        MeasureConcat([[s[0]] + rest[0]], rest[1..]);
      }
      MeasureOne([]);
      MeasureOne(rest[0]);
      MeasureOne([s[0]] + rest[0]);
    } else {
      MeasureOne([]);
    }
  }

  lemma MeasureOne(line: string)
    ensures Measure([line]) == |line| + 1
  {
    assert [line][..0] == [];
  }

  /** What lines set never outweighs them, and if it weighs as much, every key and value of it fits. */
  lemma {:induction false} LinesOutweigh(lines: seq<string>)
    requires forall k :: 0 <= k < |lines| ==> '\n' !in lines[k]
    ensures var vars := SetLines(map[], lines);
            Weight(vars) <= Measure(lines) && (Weight(vars) == Measure(lines) ==> AllFit(vars))
  {
    hide ParseLine, KeyFits, ValueFits, Weight;
    WeightNone();
    if lines != [] {
      var before, line := lines[..|lines| - 1], lines[|lines| - 1];
      LinesOutweigh(before);
      if ParseLine(line).Some? {
        var b := ParseLine(line).value;
        LineYields(line);
        WeightAssign(SetLines(map[], before), b.key, b.value);
      }
    }
  }

  lemma WeightNone()
    ensures Weight(map[]) == 0
  {
  }

  lemma {:induction false} EntriesWeigh(order: seq<string>, vars: Vars)
    requires Orders(order, vars)
    ensures Measure(Splits(Entries(order, vars))) == Weight(vars)
    decreases |order|
  {
    hide Weight, Measure, Splits, Lines;
    if order == [] {
      assert vars == map[];
      WeightNone();
      SplitsNone();
    } else {
      var n := |order| - 1;
      var key, others := order[n], vars - {order[n]};
      OrdersWithout(order, vars);
      EntriesWeigh(order[..n], others);
      var entry := Entry(key, vars);
      assert Entries(order, vars) == Entries(order[..n], others) + [entry] by {
        assert forall i :: 0 <= i < n ==> order[i] != key;
      }
      SplitsConcat(Entries(order[..n], others), [entry]);
      SplitsOne(entry);
      MeasureConcat(Splits(Entries(order[..n], others)), Lines(entry));
      MeasureLines(entry);
      WeightWithout(vars, key);
    }
  }

  lemma OrdersWithout(order: seq<string>, vars: Vars)
    requires Orders(order, vars) && order != []
    ensures Orders(order[..|order| - 1], vars - {order[|order| - 1]})
  {
    var n := |order| - 1;
    assert order == order[..n] + [order[n]];
  }

  lemma SplitsNone()
    ensures Splits([]) == [] && Measure([]) == 0
  {
  }

  lemma SplitsOne(line: string)
    ensures Splits([line]) == Lines(line)
  {
    assert [line][1..] == [];
    assert Lines(line) + [] == Lines(line);
  }

  lemma {:induction false} SplitsConcat(a: seq<string>, b: seq<string>)
    ensures Splits(a + b) == Splits(a) + Splits(b)
  {
    hide Lines;
    if a == [] {
      assert a + b == b;
    } else {
      assert (a + b)[1..] == a[1..] + b;
      SplitsConcat(a[1..], b);
    }
  }

  // ----- The round trip

  /** Every line of the header is blank or a comment. */
  ghost predicate OnlyComments(header: seq<string>) {
    forall k :: 0 <= k < |Splits(header)| ==> IsComment(Splits(header)[k])
  }

  predicate IsComment(line: string) {
    Text.Trim(line) == "" || Text.Trim(line)[0] == '#'
  }

  lemma {:induction false} SetLinesConcat(vars: Vars, a: seq<string>, b: seq<string>)
    ensures SetLines(vars, a + b) == SetLines(SetLines(vars, a), b)
    decreases |b|
  {
    hide SetLine;
    if b == [] {
      assert a + b == a;
    } else {
      assert (a + b)[..|a + b| - 1] == a + b[..|b| - 1];
      SetLinesConcat(vars, a, b[..|b| - 1]);
    }
  }

  lemma {:induction false} CommentsSetNothing(vars: Vars, lines: seq<string>)
    requires forall k :: 0 <= k < |lines| ==> IsComment(lines[k])
    ensures SetLines(vars, lines) == vars
  {
    if lines != [] {
      CommentsSetNothing(vars, lines[..|lines| - 1]);
      assert IsComment(lines[|lines| - 1]);
    }
  }

  lemma BlankIsComment()
    ensures Lines("") == [""] && IsComment("")
  {
  }

  lemma HeadingIsComments(header: seq<string>)
    requires OnlyComments(header)
    ensures OnlyComments(Heading(header))
  {
    hide Lines, Splits, IsComment;
    BlankIsComment();
    SplitsOne("");
    SplitsConcat(header, [""]);
  }

  /** The printed file sets what its entries set; header and blank lines add nothing. */
  lemma PrintedSets(vars: Vars, order: seq<string>, header: seq<string>)
    requires OnlyComments(header)
    ensures SetLines(map[], Lines(Print(Heading(header) + Entries(order, vars))))
         == SetLines(map[], Splits(Entries(order, vars)))
  {
    hide Lines, Splits, SetLines, IsComment, Entries, Unlines;
    var heading, entries := Heading(header), Entries(order, vars);
    HeadingIsComments(header);
    BlankIsComment();
    CommentsSetNothing(map[], Splits(heading));
    CommentsSetNothing(SetLines(map[], Splits(entries)), [""]);
    SetLinesConcat(map[], Splits(entries), [""]);
    if heading + entries == [] {
      assert heading == [] && entries == [];
      LinesOfLine("", "");
      assert "" + "\n" + "" == "\n";
      assert Lines("\n") == [""] + [""];
      SplitsNone();
      CommentsSetNothing(map[], [""] + [""]);
      CommentsSetNothing(map[], [""]);
    } else {
      LinesOfUnlines(heading + entries);
      SplitsConcat(heading, entries);
      SetLinesConcat(map[], Splits(heading), Splits(entries) + [""]);
      assert Splits(heading) + Splits(entries) + [""] == Splits(heading) + (Splits(entries) + [""]);
    }
  }

  lemma {:induction false} SplitsWhole(lines: seq<string>)
    requires forall k :: 0 <= k < |lines| ==> '\n' !in lines[k]
    ensures Splits(lines) == lines
  {
    hide Lines;
    if lines != [] {
      LineWithoutNewline(lines[0]);
      SplitsWhole(lines[1..]);
    }
  }

  lemma {:induction false} SplitsHaveNoNewline(lines: seq<string>)
    ensures forall k :: 0 <= k < |Splits(lines)| ==> '\n' !in Splits(lines)[k]
  {
    hide Lines;
    if lines != [] {
      LineWithoutNewline(lines[0]);
      SplitsHaveNoNewline(lines[1..]);
    }
  }

  lemma {:induction false} FittingEntriesSet(order: seq<string>, vars: Vars)
    requires Orders(order, vars) && AllFit(vars)
    ensures SetLines(map[], Entries(order, vars)) == vars
    ensures forall k :: 0 <= k < |order| ==> '\n' !in Entries(order, vars)[k]
    decreases |order|
  {
    hide ParseLine, KeyFits, ValueFits, Distinct;
    if order == [] {
      assert vars == map[];
    } else {
      var n := |order| - 1;
      var key, others := order[n], vars - {order[n]};
      OrdersWithout(order, vars);
      FittingEntriesSet(order[..n], others);
      assert Entries(order, vars) == Entries(order[..n], others) + [Entry(key, vars)] by {
        assert forall i :: 0 <= i < n ==> order[i] != key;
      }
      assert Entries(order, vars)[..n] == Entries(order[..n], others);
      EntryParses(key, vars[key]);
      KeyIsNotProto(key);
      assert others[key := vars[key]] == vars;
    }
  }

  lemma KeyIsNotProto(key: string)
    requires KeyFits(key)
    ensures key != PROTO
  {
  }

  /**
   * Printing and parsing back gives the same map, in any key order and under any header of comments,
   * if and only if every key is trimmed, without `=` and newline, no comment and not the prototype
   * key, and every value is trimmed, without newline and not wrapped in quotes.
   */
  lemma RoundTripIffAllFit(vars: Vars, order: seq<string>, header: seq<string>)
    requires Orders(order, vars) && OnlyComments(header)
    ensures SetLines(map[], Lines(Print(Heading(header) + Entries(order, vars)))) == vars <==> AllFit(vars)
  {
    hide Lines, Splits, SetLines, Entries, Orders, OnlyComments, AllFit, Weight, Measure, Unlines;
    PrintedSets(vars, order, header);
    var lines := Splits(Entries(order, vars));
    SplitsHaveNoNewline(Entries(order, vars));
    LinesOutweigh(lines);
    EntriesWeigh(order, vars);
    if AllFit(vars) {
      FittingEntriesSet(order, vars);
      SplitsWhole(Entries(order, vars));
    }
  }

  // ----- Values that do not fit can be quoted

  function Escape(s: string): string {
    if s == [] then []
    else
      (match s[0]
       case '\n' => "\\n"
       case '\r' => "\\r"
       case '\t' => "\\t"
       case '\\' => "\\\\"
       case c => [c])
      + Escape(s[1..])
  }

  lemma {:induction false} UnescapeEscaped(s: string)
    ensures Unescape(Escape(s)) == s && '\n' !in Escape(s)
  {
    if s != [] {
      UnescapeEscaped(s[1..]);
      var rest := Escape(s[1..]);
      match s[0]
      case '\n' => UnescapeStep('n', '\n', rest);
      case '\r' => UnescapeStep('r', '\r', rest);
      case '\t' => UnescapeStep('t', '\t', rest);
      case '\\' => UnescapeStep('\\', '\\', rest);
      case c =>
        assert ([c] + rest)[1..] == rest;
    }
  }

  lemma UnescapeStep(c: char, meant: char, rest: string)
    requires Escaped(c) == Some(meant)
    ensures Unescape(['\\', c] + rest) == [meant] + Unescape(rest)
  {
    assert (['\\', c] + rest)[2..] == rest;
  }

  /** Every value at all, under a fitting key, has a one-line double-quoted form that is read back as the value. */
  lemma AnyValueCanBeQuoted(key: string, value: string)
    requires KeyFits(key)
    ensures var line := key + "=" + "\"" + Escape(value) + "\"";
            '\n' !in line && ParseLine(line) == Some(Binding(key, value))
  {
    hide ParseLine, Text.Trim, Text.IsSpace, Escape, Unescape;
    var quoted := "\"" + Escape(value) + "\"";
    assert key + "=" + "\"" + Escape(value) + "\"" == key + "=" + quoted;
    UnescapeEscaped(value);
    SpaceFacts();
    TrimKeeps(quoted);
    EntrySplits(key, quoted);
    assert Inner(quoted) == Escape(value);
  }

  // ----- Lines as people write them

  /** White space around key and value means nothing. */
  lemma SpacedEntry(a: string, key: string, b: string, c: string, raw: string, d: string)
    requires Text.Blank(a) && Text.Blank(b) && Text.Blank(c) && Text.Blank(d)
    requires KeyFits(key) && key != "" && Text.Trim(raw) == raw && raw != ""
    ensures ParseLine(a + key + b + "=" + c + raw + d) == Some(Binding(key, Unquote(raw)))
  {
    hide Text.IsSpace, Text.Trim, Unquote, Text.AllSpace, Text.Blank;
    forall s: string ensures Text.Blank(s) <==> Text.AllSpace(s) {
      Text.BlankIs(s);
    }
    TrimKeeps(key);
    TrimKeeps(raw);
    var inner := key + b + "=" + c + raw;
    assert a + key + b + "=" + c + raw + d == a + inner + d;
    Text.TrimIs(a, inner, d);
    Text.TrimIs("", key, b) by { NothingIsSpace(); }
    Text.TrimIs(c, raw, "") by { NothingIsSpace(); }
    var n := IndexOf(inner, '=');
    NoEquals(b);
    assert inner[|key + b|] == '=';
    assert forall i :: 0 <= i < n ==> inner[..n][i] == inner[i] != '=';
    assert n >= |key + b| by {
      assert forall i :: 0 <= i < |key + b| ==> inner[i] == (key + b)[i] != '=';
    }
    assert inner[..n] == "" + key + b && inner[n + 1..] == c + raw + "";
  }

  lemma NothingIsSpace()
    ensures Text.AllSpace("")
  {
  }

  lemma NoEquals(s: string)
    requires Text.AllSpace(s)
    ensures '=' !in s
  {
    SpaceFacts();
  }

  /** One pair of matching quotes is taken off; single quotes keep what is inside as it is. */
  lemma QuotesComeOff(inner: string)
    ensures Unquote("'" + inner + "'") == inner
    ensures Unquote("\"" + inner + "\"") == Unescape(inner)
    ensures forall s :: !QuotedWith(s, '"') && !QuotedWith(s, '\'') ==> Unquote(s) == s
  {
    assert Inner("'" + inner + "'") == inner;
    assert Inner("\"" + inner + "\"") == inner;
  }

  ghost predicate Sets(line: string, key: string, value: string) {
    key != PROTO && ParseLine(line) == Some(Binding(key, value))
  }

  ghost predicate LastSets(lines: seq<string>, k: int, key: string, value: string) {
    && 0 <= k < |lines| && Sets(lines[k], key, value)
    && forall j, v :: k < j < |lines| ==> !Sets(lines[j], key, v)
  }

  /** A variable has the value that the last line for it sets, and no other variables are there. */
  lemma {:induction false} LastLineWins(lines: seq<string>, key: string)
    ensures key in SetLines(map[], lines) ==> exists k :: LastSets(lines, k, key, SetLines(map[], lines)[key])
    ensures key !in SetLines(map[], lines) ==> forall k, v :: 0 <= k < |lines| ==> !Sets(lines[k], key, v)
  {
    hide ParseLine;
    if lines != [] {
      var n := |lines| - 1;
      LastLineWins(lines[..n], key);
      var before, after := SetLines(map[], lines[..n]), SetLines(map[], lines);
      assert forall k :: 0 <= k < n ==> lines[..n][k] == lines[k];
      if ParseLine(lines[n]).Some? && ParseLine(lines[n]).value.key == key && key != PROTO {
        assert LastSets(lines, n, key, after[key]);
      } else {
        assert forall v :: !Sets(lines[n], key, v);
        if key in before {
          var k :| LastSets(lines[..n], k, key, before[key]);
          assert LastSets(lines, k, key, after[key]);
        }
      }
    }
  }

  /** The header comes first, then a blank line unless it ends in one, then the entries in order. */
  lemma PrintedShape(vars: Vars, order: seq<string>, header: seq<string>)
    requires header != [] || order != []
    ensures Print(Heading(header) + Entries(order, vars))
         == Unlines(header) + (if header != [] && header[|header| - 1] != "" then "\n" else "") + Unlines(Entries(order, vars))
  {
    UnlinesConcat(Heading(header), Entries(order, vars));
    UnlinesConcat(header, [""]);
    assert Unlines([""]) == "\n" by {
      assert [""][1..] == [];
    }
    assert Unlines(header) + "" == Unlines(header);
  }

  lemma {:induction false} UnlinesConcat(a: seq<string>, b: seq<string>)
    ensures Unlines(a + b) == Unlines(a) + Unlines(b)
  {
    if a == [] {
      assert a + b == b;
    } else {
      assert (a + b)[1..] == a[1..] + b;
      UnlinesConcat(a[1..], b);
    }
  }
}
