/** Tasks as the board projects them, and the two ways blockers are read off their metadata. */
module TaskBoard {
  import opened Common
  import Text

  type TaskId = string

  datatype HubStatus =
    | Inbox | NeedsInfo | ReadyForAgent | ReadyForHuman | Blocked | Implementing | Reviewing
    | WaitingForMerge | Merging | Publishing | Done | Wontfix | Failed | SyncConflict

  datatype ClaimState = Unclaimed | ActiveClaim | StaleClaim

  /** An entry of a metadata array: a string, a record with an id under one of its known keys, or neither. */
  datatype MetadataEntry = StringEntry(text: string) | RecordEntry(id: Option<string>) | OtherEntry

  datatype MetadataValue = ListValue(entries: seq<MetadataEntry>) | StringValue(text: string) | OtherValue

  datatype Task = Task(
    id: TaskId,
    hubStatus: HubStatus,
    claimState: ClaimState,
    metadata: map<string, MetadataValue>,
    remoteRefs: seq<string>,
    description: string)

  predicate IsCompleted(status: HubStatus) {
    status == Done || status == Wontfix
  }

  predicate IsEligible(task: Task) {
    task.hubStatus == ReadyForAgent && task.claimState != ActiveClaim
  }

  function IdSet(tasks: seq<Task>): set<TaskId> {
    set task | task in tasks :: task.id
  }

  ghost predicate DistinctIds(tasks: seq<Task>) {
    forall i, j :: 0 <= i < j < |tasks| ==> tasks[i].id != tasks[j].id
  }

  const BLOCKER_KEYS: seq<string> := ["blockers", "blocked_by", "blockedBy"]

  function NonBlankStrings(entries: seq<MetadataEntry>): seq<TaskId> {
    if entries == [] then []
    else
      var rest := NonBlankStrings(entries[1..]);
      match entries[0]
      case StringEntry(text) => if Text.Trim(text) != "" then [text] + rest else rest
      case _ => rest
  }

  /** The merge phase takes the first key that holds an array or a non-blank string. */
  function ReadBlockers(metadata: map<string, MetadataValue>, keys: seq<string>): seq<TaskId> {
    if keys == [] then []
    else if keys[0] !in metadata then ReadBlockers(metadata, keys[1..])
    else
      match metadata[keys[0]]
      case ListValue(entries) => NonBlankStrings(entries)
      case StringValue(text) =>
        if Text.Trim(text) != "" then [Text.Trim(text)] else ReadBlockers(metadata, keys[1..])
      case OtherValue => ReadBlockers(metadata, keys[1..])
  }

  function Blockers(task: Task): seq<TaskId> {
    ReadBlockers(task.metadata, BLOCKER_KEYS)
  }

  /** The merge phase can read blockers off this key. */
  predicate Usable(metadata: map<string, MetadataValue>, key: string) {
    && key in metadata
    && (metadata[key].ListValue? || (metadata[key].StringValue? && Text.Trim(metadata[key].text) != ""))
  }

  ghost predicate FirstUsable(metadata: map<string, MetadataValue>, keys: seq<string>, i: nat) {
    i < |keys| && Usable(metadata, keys[i]) && forall j :: 0 <= j < i ==> !Usable(metadata, keys[j])
  }

  predicate NonBlank(entry: MetadataEntry) {
    entry.StringEntry? && Text.Trim(entry.text) != ""
  }

  /** The blockers are the strings at these positions, in order. */
  ghost predicate StringsAt(entries: seq<MetadataEntry>, blockers: seq<TaskId>, at: seq<nat>) {
    && |at| == |blockers|
    && (forall k :: 0 <= k < |at| ==> at[k] < |entries| && entries[at[k]] == StringEntry(blockers[k]))
    && (forall j, k :: 0 <= j < k < |at| ==> at[j] < at[k])
  }

  /** The positions are those of all non-blank strings. */
  ghost predicate AllNonBlank(entries: seq<MetadataEntry>, at: seq<nat>) {
    forall j :: j in at <==> 0 <= j < |entries| && NonBlank(entries[j])
  }

  ghost predicate NonBlankAt(entries: seq<MetadataEntry>, blockers: seq<TaskId>, at: seq<nat>) {
    StringsAt(entries, blockers, at) && AllNonBlank(entries, at)
  }

  function Shifted(at: seq<nat>): (r: seq<nat>)
    ensures |r| == |at| && forall k :: 0 <= k < |at| ==> r[k] == at[k] + 1
    ensures forall j :: j in r <==> j - 1 in at
  {
    var r := seq(|at|, k requires 0 <= k < |at| => at[k] + 1);
    assert forall k :: 0 <= k < |at| ==> r[k] == at[k] + 1;
    r
  }

  lemma StringsAfter(entries: seq<MetadataEntry>, blockers: seq<TaskId>, at: seq<nat>)
    requires entries != [] && StringsAt(entries[1..], blockers, at)
    ensures StringsAt(entries, blockers, Shifted(at))
    ensures entries[0].StringEntry? ==> StringsAt(entries, [entries[0].text] + blockers, [0] + Shifted(at))
  {
    hide Shifted;
    var moved := Shifted(at);
    forall k | 0 <= k < |moved|
      ensures moved[k] < |entries| && entries[moved[k]] == StringEntry(blockers[k])
    {
      assert entries[1..][at[k]] == entries[at[k] + 1];
    }
  }

  lemma AllAfter(entries: seq<MetadataEntry>, at: seq<nat>)
    requires entries != [] && AllNonBlank(entries[1..], at)
    ensures AllNonBlank(entries, if NonBlank(entries[0]) then [0] + Shifted(at) else Shifted(at))
  {
    hide NonBlank, Shifted;
    forall j
      ensures j in Shifted(at) <==> 0 < j < |entries| && NonBlank(entries[j])
    {
      assert 0 < j < |entries| ==> entries[j] == entries[1..][j - 1];
    }
    assert forall j :: j in [0] + Shifted(at) <==> j == 0 || j in Shifted(at);
  }

  lemma {:induction false} NonBlankInOrder(entries: seq<MetadataEntry>) returns (at: seq<nat>)
    ensures NonBlankAt(entries, NonBlankStrings(entries), at)
  {
    hide Text.Trim, StringsAt, AllNonBlank, Shifted;
    if entries == [] {
      at := [];
      NoneNonBlank();
    } else {
      var rest := NonBlankInOrder(entries[1..]);
      StringsAfter(entries, NonBlankStrings(entries[1..]), rest);
      AllAfter(entries, rest);
      at := if NonBlank(entries[0]) then [0] + Shifted(rest) else Shifted(rest);
    }
  }

  lemma NoneNonBlank()
    ensures NonBlankAt([], [], [])
  {
  }

  /** The value declares these blockers. */
  ghost predicate Declares(value: MetadataValue, blockers: seq<TaskId>) {
    match value
    case ListValue(entries) => exists at :: NonBlankAt(entries, blockers, at)
    case StringValue(text) => blockers == [Text.Trim(text)]
    case OtherValue => false
  }

  /** The blockers read are the list that the first usable key declares, and none if there is no such key. */
  lemma {:induction false} BlockersOfFirstUsable(metadata: map<string, MetadataValue>, keys: seq<string>)
    ensures forall i: nat :: FirstUsable(metadata, keys, i) ==> Declares(metadata[keys[i]], ReadBlockers(metadata, keys))
    ensures (forall key :: key in keys ==> !Usable(metadata, key)) ==> ReadBlockers(metadata, keys) == []
  {
    hide Text.Trim;
    if keys != [] {
      BlockersOfFirstUsable(metadata, keys[1..]);
      if Usable(metadata, keys[0]) {
        assert forall i: nat :: FirstUsable(metadata, keys, i) ==> i == 0;
        if metadata[keys[0]].ListValue? {
          var at := NonBlankInOrder(metadata[keys[0]].entries);
        }
      } else {
        FirstUsableShifts(metadata, keys);
      }
    }
  }

  lemma FirstUsableShifts(metadata: map<string, MetadataValue>, keys: seq<string>)
    requires keys != [] && !Usable(metadata, keys[0])
    ensures forall i: nat :: FirstUsable(metadata, keys[1..], i) ==> FirstUsable(metadata, keys, i + 1)
    ensures forall i: nat :: FirstUsable(metadata, keys, i) ==> i > 0 && FirstUsable(metadata, keys[1..], i - 1)
  {
    hide Usable;
    forall i: nat | FirstUsable(metadata, keys[1..], i)
      ensures FirstUsable(metadata, keys, i + 1)
    {
      forall j | 0 <= j < i + 1
        ensures !Usable(metadata, keys[j])
      {
        assert j > 0 ==> keys[j] == keys[1..][j - 1];
      }
    }
    forall i: nat | FirstUsable(metadata, keys, i)
      ensures i > 0 && FirstUsable(metadata, keys[1..], i - 1)
    {
      assert forall j :: 0 <= j < i - 1 ==> keys[1..][j] == keys[j + 1];
    }
  }

  /** Each of the three spellings is read, alone on the task. */
  lemma EverySpellingIsRead(task: Task, key: string, value: MetadataValue)
    requires key == "blockers" || key == "blocked_by" || key == "blockedBy"
    requires task.metadata == map[key := value] && Usable(task.metadata, key)
    ensures Declares(value, Blockers(task))
  {
    hide Declares, Text.Trim;
    BlockersOfFirstUsable(task.metadata, BLOCKER_KEYS);
    assert |"blockers"| != |"blocked_by"| && |"blockers"| != |"blockedBy"| && |"blocked_by"| != |"blockedBy"|;
    var i := if key == "blockers" then 0 else if key == "blocked_by" then 1 else 2;
    assert BLOCKER_KEYS[i] == key && forall j :: 0 <= j < i ==> BLOCKER_KEYS[j] != key;
    assert FirstUsable(task.metadata, BLOCKER_KEYS, i);
  }
}
