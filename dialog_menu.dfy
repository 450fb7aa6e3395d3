/**
 * The bookkeeping behind the dialog-based expert mode
 * (`image_creator/dialog_menu.py`): the image-property monitor that reports
 * and merges what an action changed, the deployment-task exclusion list and
 * the `EXCLUDE_TASK_*` metadata derived from it, the validation of a new
 * image property, the metadata sent when an image is registered, and the
 * default entry of the customization menu.
 *
 * The dialog widgets are foreign: what the user answers is a parameter, and
 * the message boxes are left out.
 */
module DialogMenu {
  import opened Base
  import opened Text

  // --------------------------------------------------------------- the session

  /** The parts of the `session` dictionary the core reads and writes. */
  class Session {
    /** `session['metadata']`: the image properties. */
    var metadata: map<string, string>
    /** `session['excluded_tasks']`, absent until the exclusion menu first runs. */
    var excludedTasks: Option<seq<int>>
    /** `session['task_metadata']`, absent until tasks are first excluded. */
    var taskMetadata: Option<seq<string>>

    constructor(metadata: map<string, string>)
      ensures this.metadata == metadata && excludedTasks == None && taskMetadata == None
    {
      this.metadata := metadata;
      excludedTasks := None;
      taskMetadata := None;
    }
  }

  /** A dictionary of image properties (`image.meta`) that the actions change in place. */
  class Properties {
    var items: map<string, string>

    constructor(items: map<string, string>)
      ensures this.items == items
    {
      this.items := items;
    }

    /** `meta[key] = value`, as an action does. */
    method Put(key: string, value: string)
      modifies this
      ensures items == old(items)[key := value]
    {
      items := items[key := value];
    }
  }

  // ---------------------------------------------------------- metadata monitor

  /** The properties `after` has that `before` has not. */
  function Added(before: map<string, string>, after: map<string, string>): map<string, string> {
    map k | k in after && k !in before :: after[k]
  }

  /** The properties both have, with the value `after` gives them where it differs from `before`. */
  function Altered(before: map<string, string>, after: map<string, string>): map<string, string> {
    map k | k in after && k in before && before[k] != after[k] :: after[k]
  }

  /** The session metadata once the added and then the altered properties are merged into it. */
  function Merged(session: map<string, string>, before: map<string, string>, after: map<string, string>)
    : map<string, string>
  {
    session + Added(before, after) + Altered(before, after)
  }

  /**
   * A property is added exactly when it is new, altered exactly when its value
   * changed; unchanged and deleted properties are in neither, and no property
   * is in both.
   */
  lemma AddedAltered(before: map<string, string>, after: map<string, string>, k: string)
    ensures k in Added(before, after) <==> k in after && k !in before
    ensures k in Altered(before, after) <==> k in after && k in before && before[k] != after[k]
    ensures !(k in Added(before, after) && k in Altered(before, after))
    ensures k in Added(before, after) ==> Added(before, after)[k] == after[k]
    ensures k in Altered(before, after) ==> Altered(before, after)[k] == after[k]
  {
  }

  /**
   * The merge gives every new or changed property its new value and keeps
   * every other property of the session as it was.
   */
  lemma MergedSpec(session: map<string, string>, before: map<string, string>, after: map<string, string>, k: string)
    ensures k in Merged(session, before, after) <==> k in session || (k in after && (k !in before || before[k] != after[k]))
    ensures k in after && (k !in before || before[k] != after[k]) ==> Merged(session, before, after)[k] == after[k]
    ensures k in session && !(k in after && (k !in before || before[k] != after[k])) ==>
      Merged(session, before, after)[k] == session[k]
  {
  }

  /** When nothing was added or altered the session metadata stays as it was. */
  lemma MergedNothing(session: map<string, string>, before: map<string, string>, after: map<string, string>)
    requires |Added(before, after)| == 0 && |Altered(before, after)| == 0
    ensures Merged(session, before, after) == session
  {
    assert Added(before, after) == map[];
    assert Altered(before, after) == map[];
  }

  /** Merging twice the same changes is merging them once. */
  lemma MergedTwice(session: map<string, string>, before: map<string, string>, after: map<string, string>)
    ensures Merged(Merged(session, before, after), before, after) == Merged(session, before, after)
  {
  }

  /** `MetadataMonitor`: reports and merges the image properties an action changes. */
  class MetadataMonitor {
    const session: Session
    const meta: Properties
    /** `self.old`: the copy of `meta` taken on entry. */
    var snapshot: map<string, string>

    constructor(session: Session, meta: Properties)
      ensures this.session == session && this.meta == meta && snapshot == map[]
    {
      this.session := session;
      this.meta := meta;
      snapshot := map[];
    }

    /** `__enter__`: copy the properties, one by one. */
    method Enter()
      modifies this`snapshot
      ensures snapshot == meta.items
    {
      var items := meta.items;
      var copy: map<string, string> := map[];
      var keys := items.Keys;
      while keys != {}
        invariant keys <= items.Keys
        invariant forall k :: k in copy <==> k in items && k !in keys
        invariant forall k | k in copy :: copy[k] == items[k]
        decreases keys
      {
        var k :| k in keys;
        copy := copy[k := items[k]];
        keys := keys - {k};
      }
      snapshot := copy;
    }

    /**
     * `__exit__`: collect the added and the altered properties and, if there
     * are any, merge them into the session metadata.
     */
    method Exit()
      modifies session`metadata
      ensures session.metadata == Merged(old(session.metadata), snapshot, meta.items)
    {
      var added, altered := Changes(snapshot, meta.items);
      if |added| == 0 && |altered| == 0 {
        MergedNothing(session.metadata, snapshot, meta.items);
        return;
      }
      session.metadata := session.metadata + added;
      session.metadata := session.metadata + altered;
    }
  }

  /** The loop of `__exit__` over the current properties, sorting each into added, altered or unchanged. */
  method Changes(before: map<string, string>, after: map<string, string>)
    returns (added: map<string, string>, altered: map<string, string>)
    ensures added == Added(before, after) && altered == Altered(before, after)
  {
    added, altered := map[], map[];
    var keys := after.Keys;
    while keys != {}
      invariant keys <= after.Keys
      invariant forall k :: k in added <==> k in after && k !in keys && k !in before
      invariant forall k :: k in altered <==> k in after && k !in keys && k in before && before[k] != after[k]
      invariant forall k | k in added :: added[k] == after[k]
      invariant forall k | k in altered :: altered[k] == after[k]
      decreases keys
    {
      var k :| k in keys;
      var v := after[k];
      if k !in before {
        added := added[k := v];
      } else if before[k] != v {
        altered := altered[k := v];
      }
      keys := keys - {k};
    }
  }

  /**
   * An action run between entry and exit changes the monitored properties,
   * not the copy taken on entry: the exit then merges exactly that change.
   */
  method MonitoredPut(monitor: MetadataMonitor, key: string, value: string)
    modifies monitor, monitor.meta, monitor.session`metadata
    ensures monitor.snapshot == old(monitor.meta.items)
    ensures monitor.meta.items == old(monitor.meta.items)[key := value]
    ensures monitor.session.metadata ==
      Merged(old(monitor.session.metadata), old(monitor.meta.items), old(monitor.meta.items)[key := value])
  {
    monitor.Enter();
    monitor.meta.Put(key, value);
    monitor.Exit();
  }
  // ------------------------------------------------------------ task exclusion

  /** An entry of `CONFIGURATION_TASKS`: its title, the deployment tasks it stands for, the OS families it applies to. */
  datatype ConfigTask = ConfigTask(title: string, tasks: seq<string>, families: seq<string>)

  const ConfigurationTasks: seq<ConfigTask> := [
    ConfigTask("Partition table manipulation", ["FixPartitionTable"], ["linux", "windows"]),
    ConfigTask("File system resize", ["FilesystemResizeUnmounted", "FilesystemResizeMounted"], ["linux", "windows"]),
    ConfigTask("Swap partition configuration", ["AddSwap"], ["linux"]),
    ConfigTask("SSH keys removal", ["DeleteSSHKeys"], ["linux"]),
    ConfigTask("Temporal RDP disabling", ["DisableRemoteDesktopConnections"], ["windows"]),
    ConfigTask("SELinux relabeling at next boot", ["SELinuxAutorelabel"], ["linux"]),
    ConfigTask("Hostname/Computer Name assignment", ["AssignHostname"], ["windows", "linux"]),
    ConfigTask("Password change", ["ChangePassword"], ["windows", "linux"]),
    ConfigTask("File injection", ["EnforcePersonality"], ["windows", "linux"])
  ]

  /** The indices of the entries of `table` that apply to `family`, in table order. */
  function Eligible(table: seq<ConfigTask>, family: string): (r: seq<nat>)
    ensures forall d | 0 <= d < |r| :: r[d] < |table|
    decreases |table|
  {
    if table == [] then []
    else Eligible(table[..|table| - 1], family) + (if family in Last(table).families then [|table| - 1] else [])
  }

  /** An entry is listed exactly when it applies to the family. */
  lemma {:induction false} EligibleSpec(table: seq<ConfigTask>, family: string, i: nat)
    ensures i in Eligible(table, family) <==> i < |table| && family in table[i].families
    decreases |table|
  {
    if table != [] {
      var front := table[..|table| - 1];
      EligibleSpec(front, family, i);
      if i < |front| {
        assert front[i] == table[i];
      }
    }
  }

  /** The listed entries are in increasing table order. */
  lemma {:induction false} EligibleIncreasing(table: seq<ConfigTask>, family: string)
    ensures forall a, b | 0 <= a < b < |Eligible(table, family)| :: Eligible(table, family)[a] < Eligible(table, family)[b]
    decreases |table|
  {
    if table != [] {
      EligibleIncreasing(table[..|table| - 1], family);
    }
  }

  /** A checklist entry: its tag (the displayed index), its text, and whether it is ticked. */
  datatype Choice = Choice(tag: string, title: string, checked: bool)

  /** The checklist `exclude_tasks` shows: the entries for `family`, ticked when already excluded. */
  function ChoicesOf(table: seq<ConfigTask>, family: string, excluded: seq<int>): seq<Choice>
    decreases |table|
  {
    if table == [] then []
    else
      var front := table[..|table| - 1];
      ChoicesOf(front, family, excluded)
      + if family in Last(table).families
        then [Choice(NatToString(|Eligible(front, family)| + 1), Last(table).title, |table| - 1 in excluded)]
        else []
  }

  /** `mapping`: from the displayed index to the index in the table. */
  function MappingOf(table: seq<ConfigTask>, family: string): (r: map<nat, nat>)
    ensures forall d | d in r :: r[d] < |table|
    decreases |table|
  {
    if table == [] then map[]
    else
      var front := table[..|table| - 1];
      if family in Last(table).families then MappingOf(front, family)[|Eligible(front, family)| + 1 := |table| - 1]
      else MappingOf(front, family)
  }

  /** The `d`-th entry shown is tagged `d` and stands for the `d`-th listed task. */
  lemma {:induction false} ChoicesSpec(table: seq<ConfigTask>, family: string, excluded: seq<int>)
    ensures |ChoicesOf(table, family, excluded)| == |Eligible(table, family)|
    ensures forall d | 0 <= d < |Eligible(table, family)| ::
      var i := Eligible(table, family)[d];
      ChoicesOf(table, family, excluded)[d] == Choice(NatToString(d + 1), table[i].title, i in excluded)
    decreases |table|
  {
    if table != [] {
      var front := table[..|table| - 1];
      ChoicesSpec(front, family, excluded);
      forall d | 0 <= d < |Eligible(front, family)|
        ensures table[Eligible(front, family)[d]] == front[Eligible(front, family)[d]]
      {
      }
    }
  }

  /** The displayed indices are 1 to the number listed, and `d` maps to the `d`-th listed entry. */
  lemma {:induction false} MappingSpec(table: seq<ConfigTask>, family: string)
    ensures forall d: nat :: d in MappingOf(table, family) <==> 1 <= d <= |Eligible(table, family)|
    ensures forall d | d in MappingOf(table, family) :: MappingOf(table, family)[d] == Eligible(table, family)[d - 1]
    decreases |table|
  {
    if table != [] {
      MappingSpec(table[..|table| - 1], family);
    }
  }

  lemma TablePrefix(table: seq<ConfigTask>, i: nat)
    requires i < |table|
    ensures table[..i + 1][..i] == table[..i] && Last(table[..i + 1]) == table[i]
  {
  }

  /** The loop of `exclude_tasks` that builds `choices` and `mapping`. */
  method BuildChoices(table: seq<ConfigTask>, family: string, excluded: seq<int>)
    returns (choices: seq<Choice>, mapping: map<nat, nat>)
    ensures choices == ChoicesOf(table, family, excluded)
    ensures mapping == MappingOf(table, family)
  {
    var index := 0;
    var displayed := 1;
    choices := [];
    mapping := map[];
    while index < |table|
      invariant index <= |table|
      invariant displayed == |Eligible(table[..index], family)| + 1
      invariant choices == ChoicesOf(table[..index], family, excluded)
      invariant mapping == MappingOf(table[..index], family)
    {
      TablePrefix(table, index);
      var entry := table[index];
      if family in entry.families {
        choices := choices + [Choice(NatToString(displayed), entry.title, index in excluded)];
        mapping := mapping[displayed := index];
        displayed := displayed + 1;
      }
      index := index + 1;
    }
    assert table[..index] == table;
  }
  /** What can go wrong in the menus: a missing session entry, a tag that is not a displayed index. */
  datatype MenuError = MissingKey(key: string) | UnknownTag(tag: string)

  /** The task index a ticked tag stands for: `mapping[int(tag.strip('"'))]`, if it has one. */
  function TagIndex(tag: string, mapping: map<nat, nat>): Option<nat> {
    var t := StripChar(tag, '"');
    if t != [] && AllDigits(t) && ParseNat(t) in mapping then Some(mapping[ParseNat(t)]) else None
  }

  /** The indices appended to `excluded_tasks` before the first tag that has none. */
  function MappedPrefix(tags: seq<string>, mapping: map<nat, nat>): seq<nat>
    decreases |tags|
  {
    if tags == [] then []
    else match TagIndex(tags[0], mapping)
      case None => []
      case Some(i) => [i] + MappedPrefix(tags[1..], mapping)
  }

  /** The first ticked tag that has no task index, if any. */
  function FirstUnknownTag(tags: seq<string>, mapping: map<nat, nat>): Option<string>
    decreases |tags|
  {
    if tags == [] then None
    else if TagIndex(tags[0], mapping).None? then Some(StripChar(tags[0], '"'))
    else FirstUnknownTag(tags[1..], mapping)
  }

  /**
   * The indices appended are those of the tags, in order, up to the first
   * tag without one; there is none exactly when every tag has an index.
   */
  lemma {:induction false} MappedPrefixSpec(tags: seq<string>, mapping: map<nat, nat>)
    ensures |MappedPrefix(tags, mapping)| <= |tags|
    ensures forall j | 0 <= j < |MappedPrefix(tags, mapping)| ::
      TagIndex(tags[j], mapping) == Some(MappedPrefix(tags, mapping)[j])
    ensures FirstUnknownTag(tags, mapping).None? <==> |MappedPrefix(tags, mapping)| == |tags|
    ensures FirstUnknownTag(tags, mapping).Some? ==>
      var j := |MappedPrefix(tags, mapping)|;
      j < |tags| && TagIndex(tags[j], mapping).None? && FirstUnknownTag(tags, mapping).value == StripChar(tags[j], '"')
    decreases |tags|
  {
    if tags != [] && TagIndex(tags[0], mapping).Some? {
      MappedPrefixSpec(tags[1..], mapping);
    }
  }

  /** Every index taken from `mapping` is one of the task indices it maps to. */
  lemma MappedValues(tags: seq<string>, mapping: map<nat, nat>)
    ensures forall j | 0 <= j < |MappedPrefix(tags, mapping)| :: MappedPrefix(tags, mapping)[j] in mapping.Values
  {
    MappedPrefixSpec(tags, mapping);
    forall j | 0 <= j < |MappedPrefix(tags, mapping)| ensures MappedPrefix(tags, mapping)[j] in mapping.Values {
      var t := StripChar(tags[j], '"');
      assert mapping[ParseNat(t)] == MappedPrefix(tags, mapping)[j];
    }
  }

  /** `exclude_metadata`: the deployment tasks of the excluded entries, in order. */
  function ExcludeMetadata(table: seq<ConfigTask>, excluded: seq<nat>): seq<string>
    requires forall j | 0 <= j < |excluded| :: excluded[j] < |table|
    decreases |excluded|
  {
    if excluded == [] then []
    else ExcludeMetadata(table, excluded[..|excluded| - 1]) + table[Last(excluded)].tasks
  }

  /** A deployment task is in the list exactly when one of the excluded entries stands for it. */
  lemma {:induction false} ExcludeMetadataSpec(table: seq<ConfigTask>, excluded: seq<nat>, name: string)
    requires forall j | 0 <= j < |excluded| :: excluded[j] < |table|
    ensures name in ExcludeMetadata(table, excluded) <==>
      exists j | 0 <= j < |excluded| :: name in table[excluded[j]].tasks
    decreases |excluded|
  {
    if excluded != [] {
      var front := excluded[..|excluded| - 1];
      ExcludeMetadataSpec(table, front, name);
      if exists j | 0 <= j < |excluded| :: name in table[excluded[j]].tasks {
        var j :| 0 <= j < |excluded| && name in table[excluded[j]].tasks;
        if j < |front| {
          assert front[j] == excluded[j];
        }
      }
      if exists j | 0 <= j < |front| :: name in table[front[j]].tasks {
        var j :| 0 <= j < |front| && name in table[front[j]].tasks;
        assert excluded[j] == front[j];
      }
    }
  }

  const ExcludeTaskPrefix := "EXCLUDE_TASK_"

  /** `task_metadata`: `EXCLUDE_TASK_` before every excluded deployment task. */
  function TaskMetadata(names: seq<string>): (r: seq<string>)
    ensures |r| == |names|
  {
    seq(|names|, i requires 0 <= i < |names| => ExcludeTaskPrefix + names[i])
  }

  /** A key is task metadata exactly when it is `EXCLUDE_TASK_` before one of the tasks. */
  lemma TaskMetadataMembers(names: seq<string>, key: string)
    ensures key in TaskMetadata(names) <==>
      StartsWith(key, ExcludeTaskPrefix) && key[|ExcludeTaskPrefix|..] in names
  {
    var n := |ExcludeTaskPrefix|;
    if key in TaskMetadata(names) {
      var i :| 0 <= i < |names| && TaskMetadata(names)[i] == key;
      assert key == ExcludeTaskPrefix + names[i];
      assert key[n..] == names[i];
    }
    if StartsWith(key, ExcludeTaskPrefix) && key[n..] in names {
      var i :| 0 <= i < |names| && names[i] == key[n..];
      assert key == key[..n] + key[n..];
      assert TaskMetadata(names)[i] == key;
    }
  }

  /**
   * The indices taken from the tags of the checklist for `family` are entries
   * of the table that apply to `family`.
   */
  lemma MappedEligible(table: seq<ConfigTask>, family: string, tags: seq<string>)
    ensures forall j | 0 <= j < |MappedPrefix(tags, MappingOf(table, family))| ::
      var i := MappedPrefix(tags, MappingOf(table, family))[j];
      i < |table| && family in table[i].families
  {
    var mapping := MappingOf(table, family);
    var idx := MappedPrefix(tags, mapping);
    MappedValues(tags, mapping);
    MappingSpec(table, family);
    forall j | 0 <= j < |idx| ensures idx[j] < |table| && family in table[idx[j]].families {
      var d :| d in mapping && mapping[d] == idx[j];
      EligibleSpec(table, family, idx[j]);
    }
  }

  /** A button of the exclusion checklist, with the tags ticked when it is OK. */
  datatype ExcludeReply = Cancel | Help | NoConfig | Ticked(tags: seq<string>)

  /** The reply that ends the checklist loop: the first that is not Help (Cancel when there is none). */
  function Decision(replies: seq<ExcludeReply>): (r: ExcludeReply)
    ensures !r.Help?
    ensures r.Cancel? || r in replies
  {
    if replies == [] then Cancel
    else if replies[0].Help? then Decision(replies[1..])
    else replies[0]
  }

  /** `session['excluded_tasks']` and `session['task_metadata']`. */
  datatype Exclusion = Exclusion(excluded: Option<seq<int>>, taskMetadata: Option<seq<string>>)

  /** The exclusion list once the menu has been opened: -1 is taken out when the user re-enables configuration. */
  /** Configuration is disabled (-1 is excluded) and the user does not enable it again. */
  predicate Declined(excluded: Option<seq<int>>, enable: bool) {
    -1 in excluded.GetOr([]) && !enable
  }

  function Reopened(excluded: Option<seq<int>>, enable: bool): seq<int> {
    var e := excluded.GetOr([]);
    if -1 in e && enable then RemoveFirst(e, -1) else e
  }

  /**
   * `exclude_tasks`: what it returns and leaves in the session, given whether
   * the image is unsupported, whether the user agrees to re-enable
   * configuration, and the buttons the user presses.
   */
  function ExcludeOutcome(unsupported: bool, metadata: map<string, string>, s: Exclusion, enable: bool,
                          replies: seq<ExcludeReply>): (Result<bool, MenuError>, Exclusion)
  {
    if unsupported then (Ok(false), s)
    else if Declined(s.excluded, enable) then (Ok(false), s)
    else
      var e := Reopened(s.excluded, enable);
      var st := Exclusion(Some(e), s.taskMetadata);
      if "OSFAMILY" !in metadata then (Err(MissingKey("OSFAMILY")), st)
      else
        var mapping := MappingOf(ConfigurationTasks, metadata["OSFAMILY"]);
        match Decision(replies)
        case NoConfig => (Ok(true), Exclusion(Some([-1]), Some(["EXCLUDE_ALL_TASKS"])))
        case Ticked(tags) => TickedOutcome(ConfigurationTasks, tags, mapping, s.taskMetadata)
        case _ => (Ok(false), st)
  }

  /** Every displayed index maps to an entry of the configuration table. */
  predicate MapsIntoTable(table: seq<ConfigTask>, mapping: map<nat, nat>) {
    forall d | d in mapping :: mapping[d] < |table|
  }

  /**
   * The OK button of the checklist: the indices of the ticked tags become the
   * exclusion list, up to the first tag without one, which raises; when all
   * have one, the deployment tasks of the entries become the task metadata.
   */
  function TickedOutcome(table: seq<ConfigTask>, tags: seq<string>, mapping: map<nat, nat>,
                         taskMetadata: Option<seq<string>>): (Result<bool, MenuError>, Exclusion)
    requires MapsIntoTable(table, mapping)
  {
    var idx := MappedPrefix(tags, mapping);
    MappedInTable(table, tags, mapping);
    if FirstUnknownTag(tags, mapping).Some? then
      (Err(UnknownTag(FirstUnknownTag(tags, mapping).value)), Exclusion(Some(idx), taskMetadata))
    else
      (Ok(true), Exclusion(Some(idx), Some(TaskMetadata(ExcludeMetadata(table, idx)))))
  }

  lemma MappedInTable(table: seq<ConfigTask>, tags: seq<string>, mapping: map<nat, nat>)
    requires MapsIntoTable(table, mapping)
    ensures forall j | 0 <= j < |MappedPrefix(tags, mapping)| :: MappedPrefix(tags, mapping)[j] < |table|
  {
    MappedValues(tags, mapping);
  }

  lemma DecisionSkip(replies: seq<ExcludeReply>, k: nat)
    requires k < |replies| && replies[k].Help?
    ensures Decision(replies[k..]) == Decision(replies[k + 1..])
  {
    assert replies[k..][1..] == replies[k + 1..];
  }

  /**
   * `exclude_tasks` on the session: shows the checklist of the configuration
   * tasks that apply to the image's OS family, then records the entries the
   * user ticks and the `EXCLUDE_TASK_*` metadata of their deployment tasks.
   */
  method ExcludeTasks(session: Session, unsupported: bool, enable: bool, replies: seq<ExcludeReply>)
    returns (r: Result<bool, MenuError>, shown: seq<Choice>)
    modifies session`excludedTasks, session`taskMetadata
    ensures (r, Exclusion(session.excludedTasks, session.taskMetadata))
      == ExcludeOutcome(unsupported, session.metadata,
                        Exclusion(old(session.excludedTasks), old(session.taskMetadata)), enable, replies)
    ensures !unsupported && !Declined(old(session.excludedTasks), enable) && "OSFAMILY" in session.metadata
      ==> shown == ChoicesOf(ConfigurationTasks, session.metadata["OSFAMILY"], Reopened(old(session.excludedTasks), enable))
  {
    ghost var s0 := Exclusion(session.excludedTasks, session.taskMetadata);
    shown := [];
    if unsupported {
      return Ok(false), shown;
    }
    if session.excludedTasks.None? {
      session.excludedTasks := Some([]);
    }
    var excluded := session.excludedTasks.value;
    if -1 in excluded {
      if enable {
        excluded := RemoveFirst(excluded, -1);
        session.excludedTasks := Some(excluded);
      } else {
        return Ok(false), shown;
      }
    }
    if "OSFAMILY" !in session.metadata {
      return Err(MissingKey("OSFAMILY")), shown;
    }
    var family := session.metadata["OSFAMILY"];
    var mapping;
    shown, mapping := BuildChoices(ConfigurationTasks, family, excluded);
    assert MapsIntoTable(ConfigurationTasks, mapping);

    var k := 0;
    while k < |replies| && replies[k].Help?
      invariant k <= |replies|
      invariant Decision(replies[k..]) == Decision(replies)
      modifies {}
    {
      DecisionSkip(replies, k);
      k := k + 1;
    }
    var reply := if k < |replies| then replies[k] else Cancel;
    assert reply == Decision(replies[k..]);

    assert excluded == Reopened(s0.excluded, enable) && mapping == MappingOf(ConfigurationTasks, family);
    match reply {
      case NoConfig =>
        session.excludedTasks := Some([-1]);
        session.taskMetadata := Some(["EXCLUDE_ALL_TASKS"]);
        r := Ok(true);
      case Ticked(tags) =>
        r := RecordTicked(session, ConfigurationTasks, tags, mapping);
      case _ =>
        r := Ok(false);
    }
  }

  /** The OK branch of `exclude_tasks`: the two loops over the ticked tags and the excluded entries. */
  method RecordTicked(session: Session, table: seq<ConfigTask>, tags: seq<string>, mapping: map<nat, nat>)
    returns (r: Result<bool, MenuError>)
    requires MapsIntoTable(table, mapping)
    modifies session`excludedTasks, session`taskMetadata
    ensures (r, Exclusion(session.excludedTasks, session.taskMetadata))
      == TickedOutcome(table, tags, mapping, old(session.taskMetadata))
  {
    MappedPrefixSpec(tags, mapping);
    MappedInTable(table, tags, mapping);
    session.excludedTasks := Some([]);
    ghost var indices := MappedPrefix(tags, mapping);
    var list: seq<nat> := [];
    var j := 0;
    while j < |tags| && TagIndex(tags[j], mapping).Some?
      invariant j <= |indices|
      invariant list == indices[..j]
      modifies {}
    {
      list := list + [TagIndex(tags[j], mapping).value];
      j := j + 1;
    }
    session.excludedTasks := Some(list);
    if j < |tags| {
      assert j == |indices| && list == indices;
      return Err(UnknownTag(StripChar(tags[j], '"')));
    }
    assert list == indices;

    var names: seq<string> := [];
    var t := 0;
    while t < |list|
      invariant t <= |list|
      invariant names == ExcludeMetadata(table, list[..t])
      modifies {}
    {
      assert list[..t + 1][..t] == list[..t];
      names := names + table[list[t]].tasks;
      t := t + 1;
    }
    assert list[..t] == list;
    session.taskMetadata := Some(TaskMetadata(names));
    r := Ok(true);
  }
  /**
   * `exclude_tasks` raises exactly when the session has no OS family, or when
   * the user ticks a tag that is not a displayed index; it gets as far as the
   * checklist only for a supported image whose configuration was not left
   * disabled.
   */
  lemma ExcludeErrors(unsupported: bool, metadata: map<string, string>, s: Exclusion, enable: bool,
                      replies: seq<ExcludeReply>)
    ensures ExcludeOutcome(unsupported, metadata, s, enable, replies).0.Err? <==>
      && !unsupported && !Declined(s.excluded, enable)
      && ("OSFAMILY" !in metadata
          || (Decision(replies).Ticked?
              && FirstUnknownTag(Decision(replies).tags, MappingOf(ConfigurationTasks, metadata["OSFAMILY"])).Some?))
  {
  }

  /**
   * Cancelling (or an unsupported image, or keeping configuration disabled)
   * returns False and leaves the task metadata as it was.
   */
  lemma ExcludeFalseKeeps(unsupported: bool, metadata: map<string, string>, s: Exclusion, enable: bool,
                          replies: seq<ExcludeReply>)
    ensures ExcludeOutcome(unsupported, metadata, s, enable, replies).0 == Ok(false) ==>
      ExcludeOutcome(unsupported, metadata, s, enable, replies).1.taskMetadata == s.taskMetadata
    ensures ExcludeOutcome(unsupported, metadata, s, enable, replies).0 == Ok(false) <==>
      unsupported || Declined(s.excluded, enable) || ("OSFAMILY" in metadata && Decision(replies).Cancel?)
  {
  }

  /**
   * After a True return, configuration is disabled (-1 excluded, the metadata
   * `EXCLUDE_ALL_TASKS`) exactly when the user pressed No Config.
   */
  lemma ExcludeAllTasks(unsupported: bool, metadata: map<string, string>, s: Exclusion, enable: bool,
                        replies: seq<ExcludeReply>)
    requires ExcludeOutcome(unsupported, metadata, s, enable, replies).0 == Ok(true)
    ensures var out := ExcludeOutcome(unsupported, metadata, s, enable, replies).1;
      && out.excluded.Some? && out.taskMetadata.Some?
      && (Decision(replies).NoConfig? <==> -1 in out.excluded.value)
      && (Decision(replies).NoConfig? <==> "EXCLUDE_ALL_TASKS" in out.taskMetadata.value)
  {
    var out := ExcludeOutcome(unsupported, metadata, s, enable, replies).1;
    if Decision(replies).Ticked? {
      MappedInTable(ConfigurationTasks, Decision(replies).tags, MappingOf(ConfigurationTasks, metadata["OSFAMILY"]));
      var names := ExcludeMetadata(ConfigurationTasks, out.excluded.value);
      TaskMetadataMembers(names, "EXCLUDE_ALL_TASKS");
      assert "EXCLUDE_ALL_TASKS"[8] != ExcludeTaskPrefix[8];
    }
  }

  /**
   * After OK, the exclusion list holds, in order, the entries the ticked tags
   * stand for, each one an entry that applies to the image's OS family.
   */
  lemma ExcludeTickedEntries(unsupported: bool, metadata: map<string, string>, s: Exclusion, enable: bool,
                             replies: seq<ExcludeReply>)
    requires ExcludeOutcome(unsupported, metadata, s, enable, replies).0 == Ok(true)
    requires Decision(replies).Ticked?
    ensures "OSFAMILY" in metadata
    ensures var out := ExcludeOutcome(unsupported, metadata, s, enable, replies).1;
      var tags := Decision(replies).tags;
      && out.excluded.Some? && |out.excluded.value| == |tags|
      && forall j | 0 <= j < |tags| ::
        && TagIndex(tags[j], MappingOf(ConfigurationTasks, metadata["OSFAMILY"])) == Some(out.excluded.value[j])
        && 0 <= out.excluded.value[j] < |ConfigurationTasks|
        && metadata["OSFAMILY"] in ConfigurationTasks[out.excluded.value[j]].families
  {
    var tags := Decision(replies).tags;
    MappedPrefixSpec(tags, MappingOf(ConfigurationTasks, metadata["OSFAMILY"]));
    MappedEligible(ConfigurationTasks, metadata["OSFAMILY"], tags);
  }

  /**
   * After OK, the task metadata is `EXCLUDE_TASK_` before each deployment task
   * of the excluded entries, and nothing else.
   */
  lemma ExcludeTickedMetadata(unsupported: bool, metadata: map<string, string>, s: Exclusion, enable: bool,
                              replies: seq<ExcludeReply>, key: string)
    requires ExcludeOutcome(unsupported, metadata, s, enable, replies).0 == Ok(true)
    requires Decision(replies).Ticked?
    ensures var out := ExcludeOutcome(unsupported, metadata, s, enable, replies).1;
      && out.excluded.Some? && out.taskMetadata.Some?
      && (forall j | 0 <= j < |out.excluded.value| :: 0 <= out.excluded.value[j] < |ConfigurationTasks|)
      && (key in out.taskMetadata.value <==>
          StartsWith(key, ExcludeTaskPrefix)
          && exists j | 0 <= j < |out.excluded.value| ::
               key[|ExcludeTaskPrefix|..] in ConfigurationTasks[out.excluded.value[j]].tasks)
  {
    var out := ExcludeOutcome(unsupported, metadata, s, enable, replies).1;
    var mapping := MappingOf(ConfigurationTasks, metadata["OSFAMILY"]);
    MappedInTable(ConfigurationTasks, Decision(replies).tags, mapping);
    var excluded := out.excluded.value;
    var names := ExcludeMetadata(ConfigurationTasks, excluded);
    TaskMetadataMembers(names, key);
    if StartsWith(key, ExcludeTaskPrefix) {
      ExcludeMetadataSpec(ConfigurationTasks, excluded, key[|ExcludeTaskPrefix|..]);
    }
  }
  // -------------------------------------------------------------- add property

  /** Why an answer to the new-property prompts is refused. */
  datatype PropertyError = EmptyName | BadName | Exists(name: string) | EmptyValue

  /** `re.match('^[A-Za-z_]+$', name)`. */
  predicate IsPropertyName(s: string) {
    s != [] && forall i | 0 <= i < |s| :: IsAsciiLetter(s[i]) || s[i] == '_'
  }

  /** What `add_property` makes of an answer to the name prompt: an upper-case, new property name. */
  function CheckName(answer: string, metadata: map<string, string>): Result<string, PropertyError> {
    var name := Strip(answer);
    if |name| == 0 then Err(EmptyName)
    else if !IsPropertyName(name) then Err(BadName)
    else if Upper(name) in metadata then Err(Exists(Upper(name)))
    else Ok(Upper(name))
  }

  /** What `add_property` makes of an answer to the value prompt. */
  function CheckValue(answer: string): Result<string, PropertyError> {
    var value := Strip(answer);
    if |value| == 0 then Err(EmptyValue) else Ok(value)
  }

  /** Upper-casing keeps letters letters and leaves everything else alone. */
  lemma UpperKeepsName(s: string)
    ensures IsPropertyName(s) <==> IsPropertyName(Upper(s))
    ensures IsPropertyName(s) ==> Upper(Upper(s)) == Upper(s)
  {
    if IsPropertyName(Upper(s)) {
      forall i | 0 <= i < |s| ensures IsAsciiLetter(s[i]) || s[i] == '_' {
        assert IsAsciiLetter(Upper(s)[i]) || Upper(s)[i] == '_';
      }
    }
  }

  /** Upper-casing and stripping whitespace can be done in either order. */
  lemma {:induction false} UpperStrip(s: string)
    ensures Upper(Strip(s)) == Strip(Upper(s))
    decreases |s|
  {
    if s != [] {
      assert IsSpace(Upper(s)[0]) <==> IsSpace(s[0]);
      assert IsSpace(Upper(s)[|s| - 1]) <==> IsSpace(s[|s| - 1]);
      if IsSpace(s[0]) {
        assert Upper(s)[1..] == Upper(s[1..]);
        UpperStrip(s[1..]);
      } else if IsSpace(s[|s| - 1]) {
        assert Upper(s)[..|s| - 1] == Upper(s[..|s| - 1]);
        UpperStrip(s[..|s| - 1]);
      }
    }
  }

  /**
   * An accepted name is the stripped answer in upper case: a non-empty run of
   * ASCII letters and underscores that the image does not have yet.
   */
  lemma CheckNameOk(answer: string, metadata: map<string, string>)
    ensures CheckName(answer, metadata).Ok? <==>
      IsPropertyName(Strip(answer)) && Upper(Strip(answer)) !in metadata
    ensures CheckName(answer, metadata).Ok? ==>
      var name := CheckName(answer, metadata).value;
      && name == Upper(Strip(answer)) && IsPropertyName(name) && Upper(name) == name && name !in metadata
  {
    UpperKeepsName(Strip(answer));
  }

  /** Property names are case-insensitive: answers that differ only in case are treated alike. */
  lemma CheckNameIgnoresCase(a: string, b: string, metadata: map<string, string>)
    requires Upper(a) == Upper(b)
    ensures CheckName(a, metadata) == CheckName(b, metadata)
  {
    UpperStrip(a);
    UpperStrip(b);
    UpperKeepsName(Strip(a));
    UpperKeepsName(Strip(b));
    assert |Strip(a)| == |Upper(Strip(a))| == |Upper(Strip(b))| == |Strip(b)|;
  }

  /**
   * The name the prompt loop settles on: the first accepted answer, unless the
   * user cancels (`None`) or runs out of answers first.
   */
  function AcceptedName(metadata: map<string, string>, answers: seq<Option<string>>): Option<string>
    decreases |answers|
  {
    if answers == [] || answers[0].None? then None
    else if CheckName(answers[0].value, metadata).Ok? then Some(CheckName(answers[0].value, metadata).value)
    else AcceptedName(metadata, answers[1..])
  }

  /** The value the prompt loop settles on. */
  function AcceptedValue(answers: seq<Option<string>>): Option<string>
    decreases |answers|
  {
    if answers == [] || answers[0].None? then None
    else if CheckValue(answers[0].value).Ok? then Some(CheckValue(answers[0].value).value)
    else AcceptedValue(answers[1..])
  }

  /** An answer given (not cancelled) and refused by the name check. */
  predicate Refused(metadata: map<string, string>, answer: Option<string>) {
    answer.Some? && CheckName(answer.value, metadata).Err?
  }

  /** The settled name is the `j`-th answer, and every answer before it was given and refused. */
  lemma {:induction false} AcceptedNameSpec(metadata: map<string, string>, answers: seq<Option<string>>)
    returns (j: nat)
    requires AcceptedName(metadata, answers).Some?
    ensures j < |answers| && answers[j].Some?
    ensures CheckName(answers[j].value, metadata) == Ok(AcceptedName(metadata, answers).value)
    ensures forall i | 0 <= i < j :: Refused(metadata, answers[i])
    decreases |answers|
  {
    if CheckName(answers[0].value, metadata).Ok? {
      j := 0;
    } else {
      var k := AcceptedNameSpec(metadata, answers[1..]);
      j := k + 1;
      forall i | 0 <= i < j ensures Refused(metadata, answers[i]) {
        if i > 0 {
          assert answers[i] == answers[1..][i - 1];
        }
      }
    }
  }

  /** `add_property`: what it returns and the properties it leaves. */
  function AddPropertyOutcome(metadata: map<string, string>, names: seq<Option<string>>,
                              values: seq<Option<string>>): (bool, map<string, string>)
  {
    match AcceptedName(metadata, names)
    case None => (false, metadata)
    case Some(name) =>
      match AcceptedValue(values)
      case None => (false, metadata)
      case Some(value) => (true, metadata[name := value])
  }

  /**
   * A property is added exactly when a name and a value are both settled on:
   * one new upper-case key, with a non-empty stripped value, and nothing else
   * changes; otherwise the properties stay as they were.
   */
  lemma AddPropertySpec(metadata: map<string, string>, names: seq<Option<string>>, values: seq<Option<string>>)
    ensures var (added, after) := AddPropertyOutcome(metadata, names, values);
      && (added <==> AcceptedName(metadata, names).Some? && AcceptedValue(values).Some?)
      && (!added ==> after == metadata)
      && (added ==>
            var name := AcceptedName(metadata, names).value;
            && name !in metadata && IsPropertyName(name) && Upper(name) == name
            && after.Keys == metadata.Keys + {name}
            && after[name] != [] && after[name] == Strip(after[name])
            && forall k | k in metadata :: after[k] == metadata[k])
  {
    if AcceptedName(metadata, names).Some? {
      var j := AcceptedNameSpec(metadata, names);
      CheckNameOk(names[j].value, metadata);
    }
    AcceptedValueSpec(values);
  }

  lemma {:induction false} AcceptedValueSpec(answers: seq<Option<string>>)
    ensures AcceptedValue(answers).Some? ==>
      AcceptedValue(answers).value != [] && Strip(AcceptedValue(answers).value) == AcceptedValue(answers).value
    decreases |answers|
  {
    if answers != [] && answers[0].Some? {
      if CheckValue(answers[0].value).Ok? {
        StripStripped(answers[0].value);
      } else {
        AcceptedValueSpec(answers[1..]);
      }
    }
  }

  /** Stripping twice is stripping once. */
  lemma StripStripped(s: string)
    ensures Strip(Strip(s)) == Strip(s)
  {
    var t := Strip(s);
    if t != [] {
      assert !IsSpace(t[0]) && !IsSpace(t[|t| - 1]);
    }
  }

  /** The two prompt loops of `add_property`; the answers are the user's, `None` standing for Cancel. */
  method AddProperty(session: Session, names: seq<Option<string>>, values: seq<Option<string>>)
    returns (added: bool)
    modifies session`metadata
    ensures (added, session.metadata) == AddPropertyOutcome(old(session.metadata), names, values)
  {
    var name := "";
    var i := 0;
    while true
      invariant i <= |names|
      invariant AcceptedName(session.metadata, names[i..]) == AcceptedName(session.metadata, names)
      decreases |names| - i
    {
      if i == |names| || names[i].None? {
        return false;
      }
      var checked := CheckName(names[i].value, session.metadata);
      if checked.Ok? {
        name := checked.value;
        break;
      }
      assert names[i..][1..] == names[i + 1..];
      i := i + 1;
    }
    var value := "";
    var j := 0;
    while true
      invariant j <= |values|
      invariant AcceptedValue(values[j..]) == AcceptedValue(values)
      decreases |values| - j
    {
      if j == |values| || values[j].None? {
        return false;
      }
      var checked := CheckValue(values[j].value);
      if checked.Ok? {
        value := checked.value;
        break;
      }
      assert values[j..][1..] == values[j + 1..];
      j := j + 1;
    }
    session.metadata := session.metadata[name := value];
    added := true;
  }

  // ------------------------------------------------------------ registration

  /** The metadata sent with a registration: the properties, with `yes` for every task-metadata key. */
  function WithTasks(metadata: map<string, string>, keys: seq<string>): map<string, string>
    decreases |keys|
  {
    if keys == [] then metadata else WithTasks(metadata, keys[..|keys| - 1])[Last(keys) := "yes"]
  }

  /** Every task-metadata key is `yes`; every other property keeps its value. */
  lemma {:induction false} WithTasksSpec(metadata: map<string, string>, keys: seq<string>, k: string)
    ensures k in WithTasks(metadata, keys) <==> k in metadata || k in keys
    ensures k in keys ==> WithTasks(metadata, keys)[k] == "yes"
    ensures k in metadata && k !in keys ==> WithTasks(metadata, keys)[k] == metadata[k]
    decreases |keys|
  {
    if keys != [] {
      var front := keys[..|keys| - 1];
      WithTasksSpec(metadata, front, k);
      SplitLast(keys);
      assert k in keys <==> k in front || k == Last(keys);
    }
  }

  /**
   * The part of `register_image` after the form: the stripped description
   * becomes the `DESCRIPTION` property, and the metadata to register is the
   * properties plus the task metadata.
   */
  method RegisterMetadata(session: Session, description: string) returns (metadata: map<string, string>)
    modifies session`metadata
    ensures session.metadata == old(session.metadata)["DESCRIPTION" := Strip(description)]
    ensures metadata == WithTasks(session.metadata, session.taskMetadata.GetOr([]))
  {
    session.metadata := session.metadata["DESCRIPTION" := Strip(description)];
    metadata := session.metadata;
    var keys := session.taskMetadata.GetOr([]);
    var i := 0;
    while i < |keys|
      invariant i <= |keys|
      invariant metadata == WithTasks(session.metadata, keys[..i])
    {
      assert keys[..i + 1][..i] == keys[..i];
      metadata := metadata[keys[i] := "yes"];
      i := i + 1;
    }
    assert keys[..i] == keys;
  }

  // ------------------------------------------------------- customization menu

  /** The entries of the image customization menu, in the order shown. */
  const CustomizationEntries: seq<string> := ["Parameters", "Sysprep", "Shrink", "Properties", "Exclude"]

  /** A menu answer: Back, or an entry together with what its action returned. */
  datatype MenuReply = Back | Picked(entry: string, succeeded: bool)

  /** The entry highlighted after an answer: the one chosen, or the next one (wrapping) when its action succeeded. */
  function NextDefault(default: nat, entry: string, succeeded: bool): nat {
    if entry in CustomizationEntries then
      var k := FirstIndex(CustomizationEntries, entry);
      if succeeded then (k + 1) % |CustomizationEntries| else k
    else default
  }

  /** The highlighted entry each time the menu is shown, starting from the first. */
  function Highlighted(default: nat, replies: seq<MenuReply>): (r: seq<nat>)
    ensures 1 <= |r| <= |replies| + 1 && r[0] == default
    decreases |replies|
  {
    if replies == [] || replies[0].Back? then [default]
    else [default] + Highlighted(NextDefault(default, replies[0].entry, replies[0].succeeded), replies[1..])
  }

  /**
   * The highlighted entry stays an entry; after a successful action it is the
   * entry after the one chosen (back to the first after the last), after a
   * failed one the entry chosen.
   */
  lemma NextDefaultSpec(default: nat, entry: string, succeeded: bool)
    ensures default < |CustomizationEntries| ==> NextDefault(default, entry, succeeded) < |CustomizationEntries|
    ensures entry in CustomizationEntries ==>
      var k := FirstIndex(CustomizationEntries, entry);
      NextDefault(default, entry, succeeded) == if !succeeded then k
                                              else if k + 1 < |CustomizationEntries| then k + 1 else 0
    ensures entry !in CustomizationEntries ==> NextDefault(default, entry, succeeded) == default
  {
    var n := |CustomizationEntries|;
    assert n == 5;
    if entry in CustomizationEntries {
      var k := FirstIndex(CustomizationEntries, entry);
      assert k < n;
      assert NextDefault(default, entry, succeeded) == if succeeded then (k + 1) % n else k;
      if succeeded && k + 1 == n {
        assert (k + 1) % n == 0;
      } else if succeeded {
        ModBelow(k + 1, n);
      }
    }
  }

  lemma ModBelow(a: nat, n: nat)
    requires a < n
    ensures a % n == a
  {
  }

  /** Each time the menu comes back, the highlighted entry is the one the previous answer leads to. */
  lemma {:induction false} HighlightedSpec(default: nat, replies: seq<MenuReply>)
    ensures forall t | 0 <= t < |Highlighted(default, replies)| - 1 ::
      && replies[t].Picked?
      && Highlighted(default, replies)[t + 1]
         == NextDefault(Highlighted(default, replies)[t], replies[t].entry, replies[t].succeeded)
    decreases |replies|
  {
    if replies != [] && replies[0].Picked? {
      var next := NextDefault(default, replies[0].entry, replies[0].succeeded);
      HighlightedSpec(next, replies[1..]);
      var h := Highlighted(default, replies);
      assert h[1..] == Highlighted(next, replies[1..]);
      forall t | 1 <= t < |h| - 1
        ensures replies[t].Picked? && h[t + 1] == NextDefault(h[t], replies[t].entry, replies[t].succeeded)
      {
        assert replies[t] == replies[1..][t - 1];
      }
    }
  }

  /** Starting from the first entry, the highlighted entry is always an entry of the menu. */
  lemma {:induction false} HighlightedBound(default: nat, replies: seq<MenuReply>)
    requires default < |CustomizationEntries|
    ensures forall t | 0 <= t < |Highlighted(default, replies)| :: Highlighted(default, replies)[t] < |CustomizationEntries|
    decreases |replies|
  {
    if replies != [] && replies[0].Picked? {
      var next := NextDefault(default, replies[0].entry, replies[0].succeeded);
      NextDefaultSpec(default, replies[0].entry, replies[0].succeeded);
      HighlightedBound(next, replies[1..]);
    }
  }

  lemma HighlightedStep(default: nat, replies: seq<MenuReply>, t: nat)
    requires t < |replies| && replies[t].Picked?
    ensures Highlighted(default, replies[t..])
      == [default] + Highlighted(NextDefault(default, replies[t].entry, replies[t].succeeded), replies[t + 1..])
  {
    assert replies[t..][1..] == replies[t + 1..];
  }

  /** The loop of `customization_menu`, given the user's answers and what the actions return. */
  method CustomizationMenu(replies: seq<MenuReply>) returns (shown: seq<nat>)
    ensures shown == Highlighted(0, replies)
  {
    var default: nat := 0;
    shown := [];
    var t := 0;
    while true
      invariant t <= |replies|
      invariant shown + Highlighted(default, replies[t..]) == Highlighted(0, replies)
      decreases |replies| - t
    {
      if t == |replies| || replies[t].Back? {
        shown := shown + [default];
        break;
      }
      var reply := replies[t];
      var before := default;
      if reply.entry in CustomizationEntries {
        default := FirstIndex(CustomizationEntries, reply.entry);
        if reply.succeeded {
          default := (default + 1) % |CustomizationEntries|;
        }
      }
      assert default == NextDefault(before, reply.entry, reply.succeeded);
      HighlightedStep(before, replies, t);
      AppendAssoc(shown, [before], Highlighted(default, replies[t + 1..]));
      shown := shown + [before];
      t := t + 1;
    }
  }
}
