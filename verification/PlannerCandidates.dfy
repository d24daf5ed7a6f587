/** What the batch planner is told about a task's blockers. */
module PlannerCandidates {
  import opened Common
  import opened TaskBoard
  import Text

  type BlockerRef = string

  const REMOTE_PREFIX := "github#"

  datatype ResolvedBlocker = ResolvedBlocker(blockerRef: BlockerRef, taskId: TaskId, hubStatus: HubStatus)

  datatype BlockerSource = BeadsDependency | Description | NoBlockers

  datatype Resolution = Resolution(
    resolved: seq<ResolvedBlocker>, open: seq<BlockerRef>, unknown: seq<BlockerRef>)

  datatype Candidate = Candidate(
    id: TaskId,
    explicitBlockers: seq<BlockerRef>,
    blockersDeclared: seq<BlockerRef>,
    resolution: Resolution,
    source: BlockerSource)

  /** The elements of `s`, each where it first occurs. */
  function Unique<T(==,!new)>(s: seq<T>): (r: seq<T>)
    ensures forall x :: x in r <==> x in s
    ensures Distinct(r)
    ensures |r| <= |s|
  {
    if s == [] then []
    else
      var before := Unique(s[..|s| - 1]);
      assert s == s[..|s| - 1] + [s[|s| - 1]];
      if s[|s| - 1] in before then before else before + [s[|s| - 1]]
  }

  lemma UniqueGrows<T(!new)>(s: seq<T>, x: T)
    ensures Unique(s + [x]) == if x in Unique(s) then Unique(s) else Unique(s) + [x]
  {
    assert (s + [x])[..|s|] == s;
  }

  // ----- Finding the task a blocker reference names

  /** The last task with this id, as a map filled in board order keeps it. */
  function LastById(tasks: seq<Task>, id: TaskId): (r: Option<Task>)
    ensures r.Some? ==> r.value in tasks && r.value.id == id
    ensures r.None? <==> forall task :: task in tasks ==> task.id != id
  {
    if tasks == [] then None
    else
      var n := |tasks| - 1;
      assert tasks == tasks[..n] + [tasks[n]];
      if tasks[n].id == id then Some(tasks[n]) else LastById(tasks[..n], id)
  }

  /** The first task that carries this remote reference. */
  function FirstByRemoteRef(tasks: seq<Task>, remote: string): (r: Option<Task>)
    ensures r.Some? ==> r.value in tasks && remote in r.value.remoteRefs
    ensures r.None? <==> forall task :: task in tasks ==> remote !in task.remoteRefs
  {
    if tasks == [] then None
    else
      var n := |tasks| - 1;
      assert tasks == tasks[..n] + [tasks[n]];
      var earlier := FirstByRemoteRef(tasks[..n], remote);
      if earlier.Some? then earlier else if remote in tasks[n].remoteRefs then Some(tasks[n]) else None
  }

  datatype Indexes = Indexes(byId: map<TaskId, Task>, byRemoteRef: map<string, Task>)

  function Lookup<K(==), V>(m: map<K, V>, key: K): Option<V> {
    if key in m then Some(m[key]) else None
  }

  ghost predicate Indexed(indexes: Indexes, board: seq<Task>) {
    && (forall id :: Lookup(indexes.byId, id) == LastById(board, id))
    && (forall remote :: Lookup(indexes.byRemoteRef, remote) == FirstByRemoteRef(board, remote))
  }

  method BuildTaskIndexes(board: seq<Task>) returns (indexes: Indexes)
    ensures Indexed(indexes, board)
  {
    var byId: map<TaskId, Task> := map[];
    var byRemoteRef: map<string, Task> := map[];
    for i := 0 to |board|
      invariant forall id :: Lookup(byId, id) == LastById(board[..i], id)
      invariant forall remote :: Lookup(byRemoteRef, remote) == FirstByRemoteRef(board[..i], remote)
    {
      var task := board[i];
      assert board[..i + 1][..i] == board[..i];
      byId := byId[task.id := task];
      ghost var before := byRemoteRef;
      for j := 0 to |task.remoteRefs|
        invariant forall remote :: Lookup(byRemoteRef, remote) ==
                    if Lookup(before, remote).Some? then Lookup(before, remote)
                    else if remote in task.remoteRefs[..j] then Some(task) else None
      {
        assert task.remoteRefs[..j + 1] == task.remoteRefs[..j] + [task.remoteRefs[j]];
        if task.remoteRefs[j] !in byRemoteRef {
          byRemoteRef := byRemoteRef[task.remoteRefs[j] := task];
        }
      }
      assert task.remoteRefs[..|task.remoteRefs|] == task.remoteRefs;
    }
    assert board[..|board|] == board;
    return Indexes(byId, byRemoteRef);
  }

  function Resolve(board: seq<Task>, blockerRef: BlockerRef): Option<Task> {
    if REMOTE_PREFIX <= blockerRef then FirstByRemoteRef(board, blockerRef) else LastById(board, blockerRef)
  }

  // ----- Resolving declared blockers

  /** The three lists as the loop builds them, duplicates still in. */
  function Scan(declared: seq<BlockerRef>, board: seq<Task>): Resolution {
    if declared == [] then Resolution([], [], [])
    else
      var before := Scan(declared[..|declared| - 1], board);
      var last := declared[|declared| - 1];
      match Resolve(board, last)
      case None => before.(unknown := before.unknown + [last])
      case Some(task) =>
        before.(resolved := before.resolved + [ResolvedBlocker(last, task.id, task.hubStatus)],
                open := if IsCompleted(task.hubStatus) then before.open else before.open + [last])
  }

  /** Without a readable board every blocker is unknown. */
  function ResolveBlockers(declared: seq<BlockerRef>, board: Option<seq<Task>>): Resolution {
    if board.None? then Resolution([], [], declared)
    else
      var scan := Scan(declared, board.value);
      Resolution(scan.resolved, Unique(scan.open), Unique(scan.unknown))
  }

  method ResolveDeclaredBlockers(declared: seq<BlockerRef>, indexes: Option<Indexes>, ghost board: Option<seq<Task>>)
    returns (r: Resolution)
    requires indexes.Some? <==> board.Some?
    requires indexes.Some? ==> Indexed(indexes.value, board.value)
    ensures r == ResolveBlockers(declared, board)
  {
    if indexes.None? {
      return Resolution([], [], declared);
    }
    var resolved: seq<ResolvedBlocker> := [];
    var open: seq<BlockerRef> := [];
    var unknown: seq<BlockerRef> := [];
    for i := 0 to |declared|
      invariant Resolution(resolved, open, unknown) == Scan(declared[..i], board.value)
    {
      var blockerRef := declared[i];
      assert declared[..i + 1][..i] == declared[..i];
      var task :=
        if REMOTE_PREFIX <= blockerRef then Lookup(indexes.value.byRemoteRef, blockerRef)
        else Lookup(indexes.value.byId, blockerRef);
      if task.None? {
        unknown := unknown + [blockerRef];
      } else {
        resolved := resolved + [ResolvedBlocker(blockerRef, task.value.id, task.value.hubStatus)];
        if !IsCompleted(task.value.hubStatus) {
          open := open + [blockerRef];
        }
      }
    }
    assert declared[..|declared|] == declared;
    return Resolution(resolved, Unique(open), Unique(unknown));
  }

  /** The board has a task by that reference, and it is completed. */
  ghost predicate Settled(board: seq<Task>, blockerRef: BlockerRef) {
    exists task :: Names(board, blockerRef, task) && IsCompleted(task.hubStatus)
  }

  lemma {:induction false} ScanSplits(declared: seq<BlockerRef>, board: seq<Task>)
    ensures forall b :: b in Scan(declared, board).open <==>
              b in declared && Resolve(board, b).Some? && !IsCompleted(Resolve(board, b).value.hubStatus)
    ensures forall b :: b in Scan(declared, board).unknown <==> b in declared && Resolve(board, b).None?
    ensures forall b :: b in Scan(declared, board).resolved <==>
              b.blockerRef in declared && Resolve(board, b.blockerRef).Some?
              && b.taskId == Resolve(board, b.blockerRef).value.id
              && b.hubStatus == Resolve(board, b.blockerRef).value.hubStatus
  {
    hide Resolve;
    if declared != [] {
      ScanSplits(declared[..|declared| - 1], board);
      assert declared == declared[..|declared| - 1] + [declared[|declared| - 1]];
    }
  }

  /** Nothing open and nothing unknown: the board was read and every declared blocker is a completed task. */
  lemma ClearIffSettled(declared: seq<BlockerRef>, board: Option<seq<Task>>)
    ensures var r := ResolveBlockers(declared, board);
            r.open == [] && r.unknown == [] <==>
              declared == [] || (board.Some? && forall b :: b in declared ==> Settled(board.value, b))
  {
    hide Resolve, Names;
    var r := ResolveBlockers(declared, board);
    if board.Some? {
      ScanSplits(declared, board.value);
      forall b | b in declared
        ensures Settled(board.value, b) <==> Resolve(board.value, b).Some? && IsCompleted(Resolve(board.value, b).value.hubStatus)
      {
        ResolvesToNamed(board.value, b);
      }
      var scan := Scan(declared, board.value);
      assert r.open == [] <==> forall b :: b in declared ==> b !in scan.open by {
        assert r.open != [] ==> r.open[0] in r.open;
      }
      assert r.unknown == [] <==> forall b :: b in declared ==> b !in scan.unknown by {
        assert r.unknown != [] ==> r.unknown[0] in r.unknown;
      }
    }
  }

  /** The resolved blockers, in declared order and with repetitions: exactly those that name a task. */
  ghost predicate ResolvedAt(declared: seq<BlockerRef>, board: seq<Task>, resolved: seq<ResolvedBlocker>, at: seq<nat>) {
    && |at| == |resolved|
    && (forall j, k :: 0 <= j < k < |at| ==> at[j] < at[k])
    && (forall k :: 0 <= k < |at| ==> at[k] < |declared| && ResolvesAs(board, declared[at[k]], resolved[k]))
    && (forall j :: 0 <= j < |declared| ==> (j in at <==> exists task :: Names(board, declared[j], task)))
  }

  ghost predicate ResolvesAs(board: seq<Task>, blockerRef: BlockerRef, blocker: ResolvedBlocker) {
    exists task :: Names(board, blockerRef, task) && blocker == ResolvedBlocker(blockerRef, task.id, task.hubStatus)
  }

  ghost predicate NamesNothing(board: seq<Task>, blockerRef: BlockerRef) {
    forall task :: !Names(board, blockerRef, task)
  }

  lemma {:induction false} ScanInOrder(declared: seq<BlockerRef>, board: seq<Task>) returns (at: seq<nat>)
    ensures ResolvedAt(declared, board, Scan(declared, board).resolved, at)
  {
    hide Resolve, Names;
    at := [];
    if declared != [] {
      var n := |declared| - 1;
      at := ScanInOrder(declared[..n], board);
      var resolved := Scan(declared[..n], board).resolved;
      assert forall j :: 0 <= j < n ==> declared[..n][j] == declared[j];
      assert forall k :: 0 <= k < |at| ==> at[k] < n;
      ResolvesToNamed(board, declared[n]);
      if task :| Resolve(board, declared[n]) == Some(task) {
        assert ResolvesAs(board, declared[n], ResolvedBlocker(declared[n], task.id, task.hubStatus));
        at := at + [n];
      }
    }
  }

  /** What the three lists hold, in terms of the tasks that the references name. */
  lemma ResolutionMeans(declared: seq<BlockerRef>, board: Option<seq<Task>>) returns (at: seq<nat>)
    ensures var r := ResolveBlockers(declared, board);
            match board
            case None => r == Resolution([], [], declared)
            case Some(tasks) =>
              && ResolvedAt(declared, tasks, r.resolved, at)
              && Distinct(r.open) && Distinct(r.unknown)
              && (forall b :: b in r.unknown <==> b in declared && NamesNothing(tasks, b))
              && (forall b :: b in r.open <==> b in declared && !NamesNothing(tasks, b) && !Settled(tasks, b))
  {
    hide Resolve, Names, ResolvedAt, Distinct;
    at := [];
    if board.Some? {
      at := ScanInOrder(declared, board.value);
      ScanSplits(declared, board.value);
      forall b | b in declared
        ensures Resolve(board.value, b).None? <==> NamesNothing(board.value, b)
        ensures Resolve(board.value, b).Some? ==> (IsCompleted(Resolve(board.value, b).value.hubStatus) <==> Settled(board.value, b))
      {
        ResolvesToNamed(board.value, b);
      }
    }
  }

  // ----- Candidates

  function TrimmedIds(entries: seq<MetadataEntry>): seq<BlockerRef> {
    if entries == [] then []
    else
      var rest := TrimmedIds(entries[1..]);
      match entries[0]
      case StringEntry(text) => if Text.Trim(text) != "" then [Text.Trim(text)] + rest else rest
      case RecordEntry(Some(id)) => if Text.Trim(id) != "" then [Text.Trim(id)] + rest else rest
      case RecordEntry(None) => rest
      case OtherEntry => rest
  }

  /** The planner takes the first key that holds an array, even an empty one, and nothing else. */
  function MetadataBlockers(metadata: map<string, MetadataValue>, keys: seq<string>): seq<BlockerRef> {
    if keys == [] then []
    else if keys[0] in metadata && metadata[keys[0]].ListValue? then TrimmedIds(metadata[keys[0]].entries)
    else MetadataBlockers(metadata, keys[1..])
  }

  /** What the issue tracker, the description parser and the board reader report. */
  datatype Sources = Sources(
    dependencies: TaskId -> seq<BlockerRef>,
    describedBlockers: string -> seq<BlockerRef>,
    board: Option<seq<Task>>)

  function Enrich(task: Task, sources: Sources): Candidate {
    var fromMetadata := MetadataBlockers(task.metadata, BLOCKER_KEYS);
    var fromTracker := sources.dependencies(task.id);
    var explicitBlockers := if fromTracker != [] then fromTracker else fromMetadata;
    var declared := if explicitBlockers != [] then explicitBlockers else sources.describedBlockers(task.description);
    Candidate(
      task.id, explicitBlockers, declared,
      ResolveBlockers(declared, sources.board),
      if fromTracker != [] || fromMetadata != [] then BeadsDependency
      else if declared != [] then Description else NoBlockers)
  }

  function EnrichAll(tasks: seq<Task>, sources: Sources): seq<Candidate> {
    seq(|tasks|, i requires 0 <= i < |tasks| => Enrich(tasks[i], sources))
  }

  /** The tracker goes before metadata and metadata before the description; the source is reported accordingly. */
  lemma DeclaredFromSomeSource(task: Task, sources: Sources)
    ensures var c := Enrich(task, sources);
            var fromTracker := sources.dependencies(task.id);
            var fromMetadata := MetadataBlockers(task.metadata, BLOCKER_KEYS);
            && (c.blockersDeclared == [] <==>
                  fromTracker == [] && fromMetadata == [] && sources.describedBlockers(task.description) == [])
            && (c.source == NoBlockers <==> c.blockersDeclared == [])
            && (c.source == BeadsDependency <==> c.explicitBlockers != [])
            && (fromTracker != [] ==> c.blockersDeclared == fromTracker)
            && (fromTracker == [] && fromMetadata != [] ==> c.blockersDeclared == fromMetadata)
            && (fromTracker == [] && fromMetadata == [] ==> c.blockersDeclared == sources.describedBlockers(task.description))
            && c.id == task.id
  {
    hide MetadataBlockers, ResolveBlockers;
  }

  /** An entry that both phases read, or neither. */
  predicate ReadAlike(entry: MetadataEntry) {
    match entry
    case StringEntry(text) => Text.Trim(text) == "" || Text.Trim(text) == text
    case RecordEntry(Some(id)) => Text.Trim(id) == ""
    case _ => true
  }

  /** Off an array, the merge phase and the planner read the same blockers exactly if all entries are trimmed strings. */
  lemma {:induction false} SameBlockersIffReadAlike(entries: seq<MetadataEntry>)
    ensures NonBlankStrings(entries) == TrimmedIds(entries) <==> forall e :: e in entries ==> ReadAlike(e)
    ensures |NonBlankStrings(entries)| <= |TrimmedIds(entries)|
  {
    hide Text.Trim;
    if entries != [] {
      var rest := entries[1..];
      SameBlockersIffReadAlike(rest);
      assert entries == [entries[0]] + rest;
      assert (forall e :: e in entries ==> ReadAlike(e)) <==> ReadAlike(entries[0]) && forall e :: e in rest ==> ReadAlike(e);
      var a, b := NonBlankStrings(entries), TrimmedIds(entries);
      if entries[0].StringEntry? && Text.Trim(entries[0].text) != "" {
        assert a[0] == entries[0].text && b[0] == Text.Trim(entries[0].text);
        assert a[1..] == NonBlankStrings(rest) && b[1..] == TrimmedIds(rest);
      }
    }
  }

  /** The first key the merge phase can use is one the planner reads alike, or it steps over it to the same blocker. */
  ghost predicate KeysReadAlike(metadata: map<string, MetadataValue>, keys: seq<string>, i: nat)
    requires FirstUsable(metadata, keys, i)
  {
    match metadata[keys[i]]
    case ListValue(entries) => forall e :: e in entries ==> ReadAlike(e)
    case StringValue(text) => MetadataBlockers(metadata, keys[i + 1..]) == [Text.Trim(text)]
    case OtherValue => false
  }

  /**
   * The merge phase and the planner read the same blockers off a task's metadata exactly if the
   * first key with an array or a non-blank string reads alike, or there is no such key. The planner
   * does not read strings at all, and goes on to the next array.
   */
  lemma {:induction false} SameMetadataBlockersIff(metadata: map<string, MetadataValue>, keys: seq<string>)
    ensures ReadBlockers(metadata, keys) == MetadataBlockers(metadata, keys)
       <==> forall i: nat :: FirstUsable(metadata, keys, i) ==> KeysReadAlike(metadata, keys, i)
  {
    hide Text.Trim, ReadAlike;
    if keys != [] {
      if Usable(metadata, keys[0]) {
        assert FirstUsable(metadata, keys, 0);
        assert forall i: nat :: FirstUsable(metadata, keys, i) ==> i == 0;
        if metadata[keys[0]].ListValue? {
          SameBlockersIffReadAlike(metadata[keys[0]].entries);
        }
      } else {
        SameMetadataBlockersIff(metadata, keys[1..]);
        FirstUsableShifts(metadata, keys);
        assert forall i: nat :: i > 0 && FirstUsable(metadata, keys, i) ==> keys[i + 1..] == keys[1..][i..];
        KeysShift(metadata, keys);
      }
    }
  }

  lemma KeysShift(metadata: map<string, MetadataValue>, keys: seq<string>)
    requires keys != [] && !Usable(metadata, keys[0])
    ensures forall i: nat :: FirstUsable(metadata, keys[1..], i) && FirstUsable(metadata, keys, i + 1) ==>
              (KeysReadAlike(metadata, keys[1..], i) <==> KeysReadAlike(metadata, keys, i + 1))
  {
    forall i: nat | FirstUsable(metadata, keys[1..], i) && FirstUsable(metadata, keys, i + 1)
      ensures KeysReadAlike(metadata, keys[1..], i) <==> KeysReadAlike(metadata, keys, i + 1)
    {
      assert keys[1..][i + 1..] == keys[i + 2..];
    }
  }

  /** A single blocker written as a string is seen by the merge phase alone. */
  lemma StringBlockersEscapeThePlanner(text: string)
    requires Text.Trim(text) != ""
    ensures var metadata: map<string, MetadataValue> := map["blockers" := StringValue(text)];
            ReadBlockers(metadata, BLOCKER_KEYS) == [Text.Trim(text)] && MetadataBlockers(metadata, BLOCKER_KEYS) == []
  {
    hide Text.Trim;
    var metadata: map<string, MetadataValue> := map["blockers" := StringValue(text)];
    assert |"blockers"| != |"blocked_by"| && |"blockers"| != |"blockedBy"|;
    assert BLOCKER_KEYS[1..] == ["blocked_by", "blockedBy"];
    assert ["blocked_by", "blockedBy"][1..] == ["blockedBy"] && ["blockedBy"][1..] == [];
    assert MetadataBlockers(metadata, []) == [];
    assert MetadataBlockers(metadata, ["blockedBy"]) == [];
    assert MetadataBlockers(metadata, ["blocked_by", "blockedBy"]) == [];
    assert BLOCKER_KEYS[0] == "blockers";
  }

  /** A remote reference stands for the first task that carries it, any other for the last task with that id. */
  ghost predicate Names(board: seq<Task>, blockerRef: BlockerRef, task: Task) {
    if "github#" <= blockerRef then exists k :: FirstWithRef(board, blockerRef, task, k)
    else StandsFor(board, blockerRef, task)
  }

  ghost predicate FirstWithRef(board: seq<Task>, remote: string, task: Task, k: nat) {
    k < |board| && board[k] == task && remote in task.remoteRefs && forall j :: 0 <= j < k ==> remote !in board[j].remoteRefs
  }

  /** The task an id stands for on the board: the last one with it. */
  ghost predicate StandsFor(board: seq<Task>, id: TaskId, task: Task) {
    exists k :: LastWithId(board, id, task, k)
  }

  ghost predicate LastWithId(board: seq<Task>, id: TaskId, task: Task, k: nat) {
    k < |board| && board[k] == task && task.id == id && forall j :: k < j < |board| ==> board[j].id != id
  }

  lemma {:induction false} FirstByRemoteRefAt(board: seq<Task>, remote: string) returns (k: nat)
    ensures FirstByRemoteRef(board, remote).Some? ==> FirstWithRef(board, remote, FirstByRemoteRef(board, remote).value, k)
  {
    k := 0;
    if board != [] {
      var n := |board| - 1;
      k := FirstByRemoteRefAt(board[..n], remote);
      assert forall j :: 0 <= j < n ==> board[..n][j] == board[j];
      if FirstByRemoteRef(board[..n], remote).None? {
        assert forall j :: 0 <= j < n ==> board[j] in board[..n];
        k := n;
      }
    }
  }

  lemma FirstWithRefIsOne(board: seq<Task>, remote: string, task: Task, k: nat, other: Task, l: nat)
    requires FirstWithRef(board, remote, task, k) && FirstWithRef(board, remote, other, l)
    ensures task == other
  {
    assert k == l;
  }

  lemma LastWithIdGrows(board: seq<Task>, id: TaskId, task: Task, k: nat)
    requires board != [] && k < |board| - 1
    ensures LastWithId(board, id, task, k)
            <==> board[|board| - 1].id != id && LastWithId(board[..|board| - 1], id, task, k)
  {
    var init, n := board[..|board| - 1], |board| - 1;
    assert forall j :: 0 <= j < n ==> init[j] == board[j];
    if LastWithId(init, id, task, k) && board[n].id != id {
      forall j | k < j < |board|
        ensures board[j].id != id
      {
        if j < n {
          assert init[j].id != id;
        }
      }
    }
  }

  lemma LastWithIdBelow(board: seq<Task>, id: TaskId, task: Task, k: nat)
    ensures LastWithId(board, id, task, k) ==> k < |board|
  {
  }

  lemma LastWithIdEnds(board: seq<Task>, id: TaskId, task: Task)
    requires board != []
    ensures LastWithId(board, id, task, |board| - 1) <==> board[|board| - 1] == task && task.id == id
  {
  }

  /** Looking up an id gives the task it stands for, and nothing only if there is none. */
  lemma {:induction false} LastStandsFor(board: seq<Task>, id: TaskId)
    ensures LastById(board, id).Some? ==> StandsFor(board, id, LastById(board, id).value)
    ensures forall task :: StandsFor(board, id, task) ==> LastById(board, id) == Some(task)
  {
    hide LastWithId;
    if board == [] {
      assert forall task, k: nat :: !LastWithId(board, id, task, k) by {
        forall task, k: nat ensures !LastWithId(board, id, task, k) { LastWithIdBelow(board, id, task, k); }
      }
    } else {
      var n := |board| - 1;
      LastStandsFor(board[..n], id);
      if board[n].id == id {
        LastWithIdEnds(board, id, board[n]);
        assert StandsFor(board, id, board[n]);
      } else if LastById(board[..n], id).Some? {
        var task := LastById(board[..n], id).value;
        var k: nat :| LastWithId(board[..n], id, task, k);
        LastWithIdBelow(board[..n], id, task, k);
        LastWithIdGrows(board, id, task, k);
      }
      forall task | StandsFor(board, id, task)
        ensures LastById(board, id) == Some(task)
      {
        var k: nat :| LastWithId(board, id, task, k);
        LastWithIdBelow(board, id, task, k);
        LastWithIdEnds(board, id, task);
        if k < n {
          LastWithIdGrows(board, id, task, k);
          assert StandsFor(board[..n], id, task);
        }
      }
    }
  }

  /** A blocker reference resolves to the task it names, and to nothing only if there is none. */
  lemma ResolvesToNamed(board: seq<Task>, blockerRef: BlockerRef)
    ensures forall task :: Names(board, blockerRef, task) <==> Resolve(board, blockerRef) == Some(task)
  {
    hide FirstWithRef, StandsFor, FirstByRemoteRef, LastById;
    LastStandsFor(board, blockerRef);
    var first := FirstByRemoteRef(board, blockerRef);
    var k := FirstByRemoteRefAt(board, blockerRef);
    forall task, l: nat | FirstWithRef(board, blockerRef, task, l)
      ensures first == Some(task)
    {
      HasRef(board, blockerRef, task, l);
      FirstWithRefIsOne(board, blockerRef, task, l, first.value, k);
    }
  }

  lemma HasRef(board: seq<Task>, remote: string, task: Task, k: nat)
    requires FirstWithRef(board, remote, task, k)
    ensures FirstByRemoteRef(board, remote).Some?
  {
    assert board[k] in board;
  }
}
