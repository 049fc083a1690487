/**
  * The rule store as an index of the registry: after every run of handled notifications it holds exactly the
  * stored forms of the value names below each process key.
  */
module RegistryTracking {
  import opened Wrappers
  import opened NtStrings
  import opened PathUtils
  import opened RuleKeys
  import opened RulePaths
  import opened Rules
  import opened RuleEvents
  import opened RegistryNotifications

  // ---------- the registry ----------

  /** A process key: its rule type and its upper-case name. */
  datatype ProcessKey = ProcessKey(action: Action, process: NtStr)

  /** Below each process key, the value names in the order they were created. */
  type Registry = map<ProcessKey, seq<NtStr>>

  /** Keys are identified by their upper-case names, which contain no separator. */
  ghost predicate KeysOk(up: CaseTable, reg: Registry) {
    forall k | k in reg :: k.action != Bypass && IsUpper(up, k.process) && BACKSLASH !in k.process
  }

  /** Moreover value names are unique ignoring case. */
  ghost predicate RegistryOk(up: CaseTable, reg: Registry) {
    KeysOk(up, reg) && forall k | k in reg :: DistinctValues(up, reg[k])
  }

  ghost predicate DistinctValues(up: CaseTable, values: seq<NtStr>) {
    forall i, j | 0 <= i < j < |values| :: !EqualsNoCase(up, values[i], values[j])
  }

  predicate HasValue(up: CaseTable, values: seq<NtStr>, value: NtStr) {
    FindPath(up, values, value).Some?
  }

  /** A registry operation that succeeded. Keys are spelled in any case. */
  datatype RegistryEvent =
    | CreateKey(key: ProcessKey)
    | SetValue(key: ProcessKey, keyPath: NtStr, value: NtStr)
    | DeleteValue(key: ProcessKey, keyPath: NtStr, value: NtStr)
    | RemoveKey(key: ProcessKey, keyPath: NtStr)
    | RenameTo(key: ProcessKey, keyPath: NtStr, newName: NtStr)
    | Elsewhere(note: Notification)

  ghost predicate Spells(up: CaseTable, keyPath: NtStr, key: ProcessKey) {
    key.action != Bypass && |keyPath| <= MAX_UNITS && EqualsNoCase(up, keyPath, Print(key.action, key.process))
  }

  function Renamed(up: CaseTable, key: ProcessKey, newName: NtStr): ProcessKey {
    ProcessKey(key.action, Upper(up, newName))
  }

  /** What the registry itself demands of an operation before it lets it succeed. */
  ghost predicate Legal(up: CaseTable, reg: Registry, ev: RegistryEvent) {
    match ev
    case CreateKey(key) => key !in reg && key.action != Bypass && IsUpper(up, key.process) && BACKSLASH !in key.process
    case SetValue(key, keyPath, _) => key in reg && Spells(up, keyPath, key)
    case DeleteValue(key, keyPath, value) => key in reg && Spells(up, keyPath, key) && HasValue(up, reg[key], value)
    case RemoveKey(key, keyPath) => key in reg && Spells(up, keyPath, key)
    case RenameTo(key, keyPath, newName) =>
      && key in reg && Spells(up, keyPath, key) && BACKSLASH !in newName
      && (Renamed(up, key, newName) == key || Renamed(up, key, newName) !in reg)
    case Elsewhere(note) => !ConcernsRules(up, note)
  }

  function RegistryNext(up: CaseTable, reg: Registry, ev: RegistryEvent): Registry
    requires ev.SetValue? || ev.DeleteValue? || ev.RenameTo? ==> ev.key in reg
    requires ev.DeleteValue? ==> HasValue(up, reg[ev.key], ev.value)
  {
    match ev
    case CreateKey(key) => reg[key := []]
    case SetValue(key, _, value) => if HasValue(up, reg[key], value) then reg else reg[key := reg[key] + [value]]
    case DeleteValue(key, _, value) => reg[key := RemoveAt(reg[key], FindPath(up, reg[key], value).value)]
    case RemoveKey(key, _) => reg - {key}
    case RenameTo(key, _, newName) => (reg - {key})[Renamed(up, key, newName) := reg[key]]
    case Elsewhere(_) => reg
  }

  /** The notification the driver gets for it; key creation is not reported. */
  function NoteOf(ev: RegistryEvent): Notification {
    match ev
    case CreateKey(_) => Unmonitored
    case SetValue(_, keyPath, value) => PostSetValue(true, Success(keyPath), Some(value))
    case DeleteValue(_, keyPath, value) => PostDeleteValue(true, Success(keyPath), Some(value))
    case RemoveKey(_, keyPath) => PostDeleteKey(true, Success(keyPath))
    case RenameTo(_, keyPath, newName) => PostRenameKey(true, Some(keyPath), Some(newName))
    case Elsewhere(note) => note
  }

  lemma RegistryStaysOk(up: CaseTable, reg: Registry, ev: RegistryEvent)
    requires RegistryOk(up, reg) && Legal(up, reg, ev)
    ensures RegistryOk(up, RegistryNext(up, reg, ev))
  {
    match ev
    case RenameTo(key, _, newName) =>
      UpperIdempotent(up, newName);
      UpperIdempotent(up, Upper(up, newName));
      SameBackslashes(up, newName, Upper(up, newName));
    case _ =>
  }

  // ---------- the store seen through names ----------

  /** The paths stored for a process; a missing entry counts as empty. */
  ghost function PathsOf(up: CaseTable, rules: RuleList, name: NtStr): multiset<NtStr> {
    match FindEntry(up, rules, name)
    case None => multiset{}
    case Some(i) => multiset(rules[i].filePaths)
  }

  lemma PathsAt(up: CaseTable, rules: RuleList, i: nat, name: NtStr)
    requires DistinctNames(up, rules) && i < |rules| && EqualsNoCase(up, rules[i].processName, name)
    ensures FindEntry(up, rules, name) == Some(i)
  {
  }

  lemma HasNameIff(up: CaseTable, rules: RuleList, name: NtStr)
    ensures HasName(up, rules, name) <==> FindEntry(up, rules, name).Some?
  {
  }

  lemma PathsAfterAdd(up: CaseTable, rules: RuleList, name: NtStr, path: NtStr, refused: Refusals, q: NtStr)
    requires RulesInv(up, rules) && IsUpper(up, path) && AddFile(up, rules, name, path, refused).Success?
    ensures var added := AddFile(up, rules, name, path, refused).value;
            && PathsOf(up, added, q) ==
               PathsOf(up, rules, q) + (if EqualsNoCase(up, q, name) then multiset{path} else multiset{})
            && (HasName(up, added, q) <==> HasName(up, rules, q) || EqualsNoCase(up, q, name))
  {
    var added := AddFile(up, rules, name, path, refused).value;
    AddFileKeepsInv(up, rules, name, path, refused);
    FindEntryOfUpper(up, rules, name);
    UpperIdempotent(up, name);
    HasNameIff(up, rules, q);
    HasNameIff(up, added, q);
    var found := FindEntry(up, rules, name);
    var i := if found.Some? then found.value else |rules|;
    assert EqualsNoCase(up, added[i].processName, name);
    var k := FindEntry(up, added, q);
    if k.Some? && k.value < |rules| {
      PathsAt(up, rules, k.value, q);
    }
    var before := FindEntry(up, rules, q);
    if before.Some? {
      PathsAt(up, added, before.value, q);
    }
  }

  lemma PathsAfterRemove(up: CaseTable, rules: RuleList, name: NtStr, path: NtStr, q: NtStr)
    requires RulesInv(up, rules) && IsUpper(up, path)
    ensures var removed := RemoveFile(up, rules, name, path);
            && PathsOf(up, removed, q) ==
               PathsOf(up, rules, q) - (if EqualsNoCase(up, q, name) then multiset{path} else multiset{})
            && (HasName(up, removed, q) <==> HasName(up, rules, q))
  {
    var removed := RemoveFile(up, rules, name, path);
    RemoveFileKeepsInv(up, rules, name, path);
    HasNameIff(up, rules, q);
    HasNameIff(up, removed, q);
    var i := FindEntry(up, rules, name);
    if i.Some? {
      FindPathExact(up, rules[i.value].filePaths, path);
    }
    var k := FindEntry(up, rules, q);
    if k.Some? {
      PathsAt(up, removed, k.value, q);
    }
  }

  lemma PathsAfterClear(up: CaseTable, rules: RuleList, name: NtStr, q: NtStr)
    requires RulesInv(up, rules)
    ensures var cleared := ClearProcess(up, rules, name);
            && PathsOf(up, cleared, q) == (if EqualsNoCase(up, q, name) then multiset{} else PathsOf(up, rules, q))
            && (HasName(up, cleared, q) <==> HasName(up, rules, q) && !EqualsNoCase(up, q, name))
  {
    var cleared := ClearProcess(up, rules, name);
    ClearProcessKeepsInv(up, rules, name);
    HasNameIff(up, rules, q);
    HasNameIff(up, cleared, q);
    var i, k, c := FindEntry(up, rules, name), FindEntry(up, rules, q), FindEntry(up, cleared, q);
    if i.Some? && c.Some? {
      PathsAt(up, rules, if c.value < i.value then c.value else c.value + 1, q);
    }
    if i.Some? && k.Some? && k.value != i.value {
      PathsAt(up, cleared, if k.value < i.value then k.value else k.value - 1, q);
    }
  }

  lemma PathsAfterRename(up: CaseTable, rules: RuleList, name: NtStr, newName: NtStr, refused: Refusals, q: NtStr)
    requires RulesInv(up, rules) && RenameProcess(up, rules, name, newName, refused).Success?
    requires EqualsNoCase(up, name, newName) || !HasName(up, rules, newName)
    ensures var renamed := RenameProcess(up, rules, name, newName, refused).value;
            && PathsOf(up, renamed, q) ==
               (if EqualsNoCase(up, q, newName) then PathsOf(up, rules, name)
                else if EqualsNoCase(up, q, name) then multiset{} else PathsOf(up, rules, q))
            && (HasName(up, renamed, q) <==>
                if EqualsNoCase(up, q, newName) then HasName(up, rules, name)
                else HasName(up, rules, q) && !EqualsNoCase(up, q, name))
  {
    var renamed := RenameProcess(up, rules, name, newName, refused).value;
    RenameKeepsInvIff(up, rules, name, newName, refused);
    UpperIdempotent(up, newName);
    HasNameIff(up, rules, name);
    HasNameIff(up, rules, newName);
    HasNameIff(up, rules, q);
    HasNameIff(up, renamed, q);
    var i, k, r := FindEntry(up, rules, name), FindEntry(up, rules, q), FindEntry(up, renamed, q);
    if i.Some? {
      if r.Some? && r.value != i.value {
        PathsAt(up, rules, r.value, q);
      }
      if k.Some? && k.value != i.value {
        PathsAt(up, renamed, k.value, q);
      }
      if EqualsNoCase(up, q, newName) {
        PathsAt(up, renamed, i.value, q);
      }
    }
  }

  // ---------- tracking ----------

  predicate AllPrepared(m: Machine, values: seq<NtStr>) {
    forall i | 0 <= i < |values| :: Prepared(m, values[i]).Success?
  }

  /** The stored forms of a key's value names. */
  function PreparedAll(m: Machine, values: seq<NtStr>): (r: seq<NtStr>)
    requires AllPrepared(m, values)
    ensures |r| == |values|
    ensures forall i | 0 <= i < |values| :: r[i] == Prepared(m, values[i]).value
  {
    seq(|values|, i requires 0 <= i < |values| => Prepared(m, values[i]).value)
  }

  lemma PreparedAllFirst(m: Machine, values: seq<NtStr>, rest: seq<NtStr>)
    requires values != [] && rest == values[1..]
    ensures AllPrepared(m, values) <==> Prepared(m, values[0]).Success? && AllPrepared(m, rest)
    ensures AllPrepared(m, values) ==> PreparedAll(m, values) == [Prepared(m, values[0]).value] + PreparedAll(m, rest)
  {
    assert forall i | 1 <= i < |values| :: values[i] == rest[i - 1];
    assert forall i | 0 <= i < |rest| :: rest[i] == values[i + 1];
  }

  /** Every value of every key has a stored form. */
  ghost predicate AllStored(m: Machine, reg: Registry) {
    forall k | k in reg :: AllPrepared(m, reg[k])
  }

  /**
    * One list tracks the keys of one rule type: no entry without a key, and for every key the stored paths
    * are the stored forms of its value names, each as often as it arises.
    */
  ghost predicate TracksType(m: Machine, reg: Registry, action: Action, rules: RuleList) {
    && RulesInv(m.up, rules)
    && (forall q :: HasName(m.up, rules, q) ==> ProcessKey(action, Upper(m.up, q)) in reg)
    && (forall k | k in reg && k.action == action ::
          AllPrepared(m, reg[k]) && PathsOf(m.up, rules, k.process) == multiset(PreparedAll(m, reg[k])))
  }

  ghost predicate Tracks(m: Machine, reg: Registry, store: Store) {
    TracksType(m, reg, Deny, store.deny) && TracksType(m, reg, ReadOnly, store.readOnly)
  }

  lemma PreparedAllAppend(m: Machine, values: seq<NtStr>, value: NtStr)
    requires AllPrepared(m, values) && Prepared(m, value).Success?
    ensures AllPrepared(m, values + [value])
    ensures multiset(PreparedAll(m, values + [value]))
            == multiset(PreparedAll(m, values)) + multiset{Prepared(m, value).value}
  {
    assert PreparedAll(m, values + [value]) == PreparedAll(m, values) + [Prepared(m, value).value];
  }

  lemma PreparedAllRemove(m: Machine, values: seq<NtStr>, i: nat)
    requires AllPrepared(m, values) && i < |values|
    ensures AllPrepared(m, RemoveAt(values, i))
    ensures multiset(PreparedAll(m, RemoveAt(values, i)))
            == multiset(PreparedAll(m, values)) - multiset{Prepared(m, values[i]).value}
  {
    assert PreparedAll(m, RemoveAt(values, i)) == RemoveAt(PreparedAll(m, values), i);
  }

  /** The parsed parts of any spelling of a process key. */
  lemma SpelledKey(up: CaseTable, keyPath: NtStr, key: ProcessKey) returns (name: NtStr)
    requires Spells(up, keyPath, key) && BACKSLASH !in key.process
    ensures Parse(up, keyPath) == Success(RuleKeyPath(Some(key.action), Some(name)))
    ensures EqualsNoCase(up, name, key.process) && IsProtectionKey(up, keyPath)
  {
    ParsePrintNoCase(up, keyPath, key.action, key.process);
    name := keyPath[|keyPath| - |key.process|..];
    var root, printed := |RULES_KEY_PATH|, Print(key.action, key.process);
    assert |Upper(up, keyPath)| == |Upper(up, printed)|;
    UpperSlice(up, keyPath, 0, root);
    UpperSlice(up, printed, 0, root);
    assert printed[0..root] == RULES_KEY_PATH && keyPath[..root] == keyPath[0..root];
  }

  /** The changed list has no new names but `process`, and other names keep their paths. */
  ghost predicate OnlyAt(up: CaseTable, rules: RuleList, changed: RuleList, process: NtStr) {
    && (forall q :: HasName(up, changed, q) ==> HasName(up, rules, q) || EqualsNoCase(up, q, process))
    && (forall q :: !EqualsNoCase(up, q, process) ==> PathsOf(up, changed, q) == PathsOf(up, rules, q))
  }

  lemma AddElsewhere(up: CaseTable, rules: RuleList, name: NtStr, path: NtStr, refused: Refusals, process: NtStr)
    requires RulesInv(up, rules) && IsUpper(up, path) && AddFile(up, rules, name, path, refused).Success?
    requires EqualsNoCase(up, name, process)
    ensures OnlyAt(up, rules, AddFile(up, rules, name, path, refused).value, process)
  {
    forall q {
      PathsAfterAdd(up, rules, name, path, refused, q);
    }
  }

  lemma RemoveElsewhere(up: CaseTable, rules: RuleList, name: NtStr, path: NtStr, process: NtStr)
    requires RulesInv(up, rules) && IsUpper(up, path) && EqualsNoCase(up, name, process)
    ensures OnlyAt(up, rules, RemoveFile(up, rules, name, path), process)
  {
    forall q {
      PathsAfterRemove(up, rules, name, path, q);
    }
  }

  /** An update that concerns one key's values and only that key's paths. */
  lemma ValuesChange(m: Machine, reg: Registry, key: ProcessKey, values: seq<NtStr>, rules: RuleList, changed: RuleList)
    requires KeysOk(m.up, reg) && TracksType(m, reg, key.action, rules) && key in reg
    requires RulesInv(m.up, changed) && AllPrepared(m, values)
    requires OnlyAt(m.up, rules, changed, key.process)
    requires PathsOf(m.up, changed, key.process) == multiset(PreparedAll(m, values))
    ensures TracksType(m, reg[key := values], key.action, changed)
  {
    var reg' := reg[key := values];
    assert IsUpper(m.up, key.process);
    forall q | HasName(m.up, changed, q)
      ensures ProcessKey(key.action, Upper(m.up, q)) in reg'
    {
      assert HasName(m.up, rules, q) || Upper(m.up, q) == key.process;
    }
    forall k | k in reg' && k.action == key.action
      ensures AllPrepared(m, reg'[k]) && PathsOf(m.up, changed, k.process) == multiset(PreparedAll(m, reg'[k]))
    {
      assert k in reg && IsUpper(m.up, k.process);
    }
  }

  lemma AddTracks(m: Machine, reg: Registry, key: ProcessKey, rules: RuleList, name: NtStr, value: NtStr,
                  refused: Refusals)
    requires KeysOk(m.up, reg) && TracksType(m, reg, key.action, rules)
    requires key in reg && EqualsNoCase(m.up, name, key.process)
    requires Prepared(m, value).Success?
    requires AddFile(m.up, rules, name, Prepared(m, value).value, refused).Success?
    ensures TracksType(m, reg[key := reg[key] + [value]], key.action,
                       AddFile(m.up, rules, name, Prepared(m, value).value, refused).value)
  {
    var path := Prepared(m, value).value;
    PrepareIsNormal(m, value, {});
    AddFileKeepsInv(m.up, rules, name, path, refused);
    PreparedAllAppend(m, reg[key], value);
    PathsAfterAdd(m.up, rules, name, path, refused, key.process);
    AddElsewhere(m.up, rules, name, path, refused, key.process);
    ValuesChange(m, reg, key, reg[key] + [value], rules, AddFile(m.up, rules, name, path, refused).value);
  }

  lemma RemoveTracks(m: Machine, reg: Registry, key: ProcessKey, rules: RuleList, name: NtStr, i: nat, path: NtStr)
    requires KeysOk(m.up, reg) && TracksType(m, reg, key.action, rules)
    requires key in reg && EqualsNoCase(m.up, name, key.process)
    requires i < |reg[key]| && Prepared(m, reg[key][i]) == Success(path) && IsUpper(m.up, path)
    ensures TracksType(m, reg[key := RemoveAt(reg[key], i)], key.action, RemoveFile(m.up, rules, name, path))
  {
    RemoveFileKeepsInv(m.up, rules, name, path);
    PreparedAllRemove(m, reg[key], i);
    PathsAfterRemove(m.up, rules, name, path, key.process);
    RemoveElsewhere(m.up, rules, name, path, key.process);
    ValuesChange(m, reg, key, RemoveAt(reg[key], i), rules, RemoveFile(m.up, rules, name, path));
  }

  lemma ClearTracks(m: Machine, reg: Registry, key: ProcessKey, rules: RuleList, name: NtStr)
    requires KeysOk(m.up, reg) && TracksType(m, reg, key.action, rules)
    requires key in reg && EqualsNoCase(m.up, name, key.process)
    ensures TracksType(m, reg - {key}, key.action, ClearProcess(m.up, rules, name))
  {
    var cleared := ClearProcess(m.up, rules, name);
    ClearProcessKeepsInv(m.up, rules, name);
    forall q | HasName(m.up, cleared, q)
      ensures ProcessKey(key.action, Upper(m.up, q)) in reg - {key}
    {
      PathsAfterClear(m.up, rules, name, q);
    }
    forall k | k in reg - {key} && k.action == key.action
      ensures AllPrepared(m, reg[k]) && PathsOf(m.up, cleared, k.process) == multiset(PreparedAll(m, reg[k]))
    {
      PathsAfterClear(m.up, rules, name, k.process);
      assert k in reg && IsUpper(m.up, k.process);
    }
  }

  lemma RenameTracks(m: Machine, reg: Registry, key: ProcessKey, rules: RuleList, name: NtStr,
                     newName: NtStr, refused: Refusals)
    requires KeysOk(m.up, reg) && TracksType(m, reg, key.action, rules)
    requires key in reg && EqualsNoCase(m.up, name, key.process)
    requires RenameProcess(m.up, rules, name, newName, refused).Success?
    requires Renamed(m.up, key, newName) == key || Renamed(m.up, key, newName) !in reg
    ensures TracksType(m, (reg - {key})[Renamed(m.up, key, newName) := reg[key]], key.action,
                       RenameProcess(m.up, rules, name, newName, refused).value)
  {
    var newKey := Renamed(m.up, key, newName);
    var reg' := (reg - {key})[newKey := reg[key]];
    var renamed := RenameProcess(m.up, rules, name, newName, refused).value;
    UpperIdempotent(m.up, newName);
    assert IsUpper(m.up, key.process);
    assert EqualsNoCase(m.up, name, newName) || !HasName(m.up, rules, newName);
    RenameKeepsInvIff(m.up, rules, name, newName, refused);
    forall q | HasName(m.up, renamed, q)
      ensures ProcessKey(key.action, Upper(m.up, q)) in reg'
    {
      PathsAfterRename(m.up, rules, name, newName, refused, q);
    }
    SamePathsUnderSpelling(m.up, rules, name, key.process);
    forall k | k in reg' && k.action == key.action
      ensures AllPrepared(m, reg'[k]) && PathsOf(m.up, renamed, k.process) == multiset(PreparedAll(m, reg'[k]))
    {
      PathsAfterRename(m.up, rules, name, newName, refused, k.process);
      assert k != newKey ==> k in reg && k != key && IsUpper(m.up, k.process);
    }
  }

  lemma SamePathsUnderSpelling(up: CaseTable, rules: RuleList, a: NtStr, b: NtStr)
    requires EqualsNoCase(up, a, b)
    ensures PathsOf(up, rules, a) == PathsOf(up, rules, b)
  {
  }

  // ---------- single events ----------

  function After(m: Machine, store: Store, ev: RegistryEvent, refused: Refusals): Outcome {
    HandleNotification(m, store, NoteOf(ev), refused)
  }

  /** The two registries have the same keys and values of all other rule types. */
  ghost predicate AgreeElsewhere(reg: Registry, reg': Registry, action: Action) {
    && (forall k: ProcessKey | k.action != action :: k in reg <==> k in reg')
    && (forall k | k in reg && k in reg' && k.action != action :: reg'[k] == reg[k])
  }

  lemma UpdateAgrees(reg: Registry, key: ProcessKey, values: seq<NtStr>)
    ensures AgreeElsewhere(reg, reg[key := values], key.action)
  {
  }

  /** A tracked list and its companion, which other types' keys do not concern. */
  lemma TracksWith(m: Machine, reg: Registry, reg': Registry, store: Store, action: Action, rules: RuleList)
    requires Tracks(m, reg, store) && action != Bypass
    requires TracksType(m, reg', action, rules) && AgreeElsewhere(reg, reg', action)
    ensures Tracks(m, reg', store.With(action, rules))
  {
  }

  lemma AfterSet(m: Machine, store: Store, ev: RegistryEvent, refused: Refusals, name: NtStr)
    requires ev.SetValue? && ev.key.action != Bypass && IsProtectionKey(m.up, ev.keyPath)
    requires Parse(m.up, ev.keyPath) == Success(RuleKeyPath(Some(ev.key.action), Some(name)))
    requires After(m, store, ev, refused).result.Success?
    ensures Prepared(m, ev.value).Success?
    ensures IsUpper(m.up, Prepared(m, ev.value).value)
    ensures var added := AddFile(m.up, store.Rules(ev.key.action), name, Prepared(m, ev.value).value, refused);
            added.Success? && After(m, store, ev, refused).store == store.With(ev.key.action, added.value)
  {
    NotificationOnProcessKey(m, store, NoteOf(ev), refused, ev.key.action, name);
    PrepareUnderRefusals(m, ev.value, refused);
    PrepareIsNormal(m, ev.value, {});
  }

  lemma AfterDelete(m: Machine, store: Store, ev: RegistryEvent, refused: Refusals, name: NtStr)
    requires ev.DeleteValue? && ev.key.action != Bypass && IsProtectionKey(m.up, ev.keyPath)
    requires Parse(m.up, ev.keyPath) == Success(RuleKeyPath(Some(ev.key.action), Some(name)))
    requires After(m, store, ev, refused).result.Success?
    ensures Prepared(m, ev.value).Success?
    ensures IsUpper(m.up, Prepared(m, ev.value).value)
    ensures After(m, store, ev, refused).store ==
            store.With(ev.key.action, RemoveFile(m.up, store.Rules(ev.key.action), name, Prepared(m, ev.value).value))
  {
    NotificationOnProcessKey(m, store, NoteOf(ev), refused, ev.key.action, name);
    PrepareUnderRefusals(m, ev.value, refused);
    PrepareIsNormal(m, ev.value, {});
  }

  lemma AfterRemoveKey(m: Machine, store: Store, ev: RegistryEvent, refused: Refusals, name: NtStr)
    requires ev.RemoveKey? && ev.key.action != Bypass && IsProtectionKey(m.up, ev.keyPath)
    requires Parse(m.up, ev.keyPath) == Success(RuleKeyPath(Some(ev.key.action), Some(name)))
    ensures After(m, store, ev, refused).store ==
            store.With(ev.key.action, ClearProcess(m.up, store.Rules(ev.key.action), name))
  {
    NotificationOnProcessKey(m, store, NoteOf(ev), refused, ev.key.action, name);
  }

  lemma AfterRename(m: Machine, store: Store, ev: RegistryEvent, refused: Refusals, name: NtStr)
    requires ev.RenameTo? && ev.key.action != Bypass && IsProtectionKey(m.up, ev.keyPath)
    requires Parse(m.up, ev.keyPath) == Success(RuleKeyPath(Some(ev.key.action), Some(name)))
    requires After(m, store, ev, refused).result.Success?
    ensures var renamed := RenameProcess(m.up, store.Rules(ev.key.action), name, ev.newName, refused);
            renamed.Success? && After(m, store, ev, refused).store == store.With(ev.key.action, renamed.value)
  {
    NotificationOnProcessKey(m, store, NoteOf(ev), refused, ev.key.action, name);
  }

  lemma AddedTwice(m: Machine, reg: Registry, key: ProcessKey, rules: RuleList, name: NtStr, path: NtStr,
                   refused: Refusals)
    requires TracksType(m, reg, key.action, rules) && key in reg && EqualsNoCase(m.up, name, key.process)
    requires IsUpper(m.up, path) && AddFile(m.up, rules, name, path, refused).Success?
    ensures !TracksType(m, reg, key.action, AddFile(m.up, rules, name, path, refused).value)
  {
    PathsAfterAdd(m.up, rules, name, path, refused, key.process);
    var before := PathsOf(m.up, rules, key.process);
    assert (before + multiset{path})[path] == before[path] + 1;
  }

  lemma AddTracksStore(m: Machine, reg: Registry, store: Store, key: ProcessKey, name: NtStr, value: NtStr,
                       refused: Refusals)
    requires KeysOk(m.up, reg) && Tracks(m, reg, store)
    requires key in reg && EqualsNoCase(m.up, name, key.process)
    requires Prepared(m, value).Success?
    requires AddFile(m.up, store.Rules(key.action), name, Prepared(m, value).value, refused).Success?
    ensures Tracks(m, reg[key := reg[key] + [value]],
                   store.With(key.action,
                       AddFile(m.up, store.Rules(key.action), name, Prepared(m, value).value, refused).value))
  {
    var rules := store.Rules(key.action);
    AddTracks(m, reg, key, rules, name, value, refused);
    UpdateAgrees(reg, key, reg[key] + [value]);
    TracksWith(m, reg, reg[key := reg[key] + [value]], store, key.action,
        AddFile(m.up, rules, name, Prepared(m, value).value, refused).value);
  }

  /**
    * Setting a value: the store still tracks the registry exactly when the value is new. The registry keeps
    * one value of a name, but the handler appends another copy of its path.
    */
  lemma SetTracksIffNew(m: Machine, reg: Registry, store: Store, ev: RegistryEvent, refused: Refusals)
    requires RegistryOk(m.up, reg) && Tracks(m, reg, store)
    requires ev.SetValue? && Legal(m.up, reg, ev) && After(m, store, ev, refused).result.Success?
    ensures Tracks(m, RegistryNext(m.up, reg, ev), After(m, store, ev, refused).store)
       <==> !HasValue(m.up, reg[ev.key], ev.value)
  {
    var name := SpelledKey(m.up, ev.keyPath, ev.key);
    AfterSet(m, store, ev, refused, name);
    if HasValue(m.up, reg[ev.key], ev.value) {
      AddedTwice(m, reg, ev.key, store.Rules(ev.key.action), name, Prepared(m, ev.value).value, refused);
    } else {
      AddTracksStore(m, reg, store, ev.key, name, ev.value, refused);
    }
  }

  lemma RemoveTracksStore(m: Machine, reg: Registry, store: Store, key: ProcessKey, name: NtStr, i: nat, path: NtStr)
    requires KeysOk(m.up, reg) && Tracks(m, reg, store)
    requires key in reg && EqualsNoCase(m.up, name, key.process)
    requires i < |reg[key]| && Prepared(m, reg[key][i]) == Success(path) && IsUpper(m.up, path)
    ensures Tracks(m, reg[key := RemoveAt(reg[key], i)],
                   store.With(key.action, RemoveFile(m.up, store.Rules(key.action), name, path)))
  {
    var rules := store.Rules(key.action);
    RemoveTracks(m, reg, key, rules, name, i, path);
    UpdateAgrees(reg, key, RemoveAt(reg[key], i));
    TracksWith(m, reg, reg[key := RemoveAt(reg[key], i)], store, key.action, RemoveFile(m.up, rules, name, path));
  }

  /** Deleting a value, under any spelling of its name, removes one copy of its path. */
  lemma DeleteTracks(m: Machine, reg: Registry, store: Store, ev: RegistryEvent, refused: Refusals)
    requires RegistryOk(m.up, reg) && Tracks(m, reg, store)
    requires ev.DeleteValue? && Legal(m.up, reg, ev) && After(m, store, ev, refused).result.Success?
    ensures Tracks(m, RegistryNext(m.up, reg, ev), After(m, store, ev, refused).store)
  {
    var name := SpelledKey(m.up, ev.keyPath, ev.key);
    AfterDelete(m, store, ev, refused, name);
    var i := FindPath(m.up, reg[ev.key], ev.value).value;
    PrepareIgnoresCase(m, reg[ev.key][i], ev.value, {});
    RemoveTracksStore(m, reg, store, ev.key, name, i, Prepared(m, ev.value).value);
  }

  lemma RemovalAgrees(reg: Registry, key: ProcessKey)
    ensures AgreeElsewhere(reg, reg - {key}, key.action)
  {
  }

  lemma ClearTracksStore(m: Machine, reg: Registry, store: Store, key: ProcessKey, name: NtStr)
    requires KeysOk(m.up, reg) && Tracks(m, reg, store)
    requires key in reg && EqualsNoCase(m.up, name, key.process)
    ensures Tracks(m, reg - {key}, store.With(key.action, ClearProcess(m.up, store.Rules(key.action), name)))
  {
    var rules := store.Rules(key.action);
    ClearTracks(m, reg, key, rules, name);
    RemovalAgrees(reg, key);
    TracksWith(m, reg, reg - {key}, store, key.action, ClearProcess(m.up, rules, name));
  }

  lemma RemoveKeyTracks(m: Machine, reg: Registry, store: Store, ev: RegistryEvent, refused: Refusals)
    requires RegistryOk(m.up, reg) && Tracks(m, reg, store)
    requires ev.RemoveKey? && Legal(m.up, reg, ev)
    ensures Tracks(m, RegistryNext(m.up, reg, ev), After(m, store, ev, refused).store)
  {
    var name := SpelledKey(m.up, ev.keyPath, ev.key);
    AfterRemoveKey(m, store, ev, refused, name);
    ClearTracksStore(m, reg, store, ev.key, name);
  }

  lemma MoveAgrees(reg: Registry, key: ProcessKey, newKey: ProcessKey)
    requires key in reg && newKey.action == key.action
    ensures AgreeElsewhere(reg, (reg - {key})[newKey := reg[key]], key.action)
  {
  }

  lemma RenameTracksStore(m: Machine, reg: Registry, store: Store, key: ProcessKey, name: NtStr, newName: NtStr,
                          refused: Refusals)
    requires KeysOk(m.up, reg) && Tracks(m, reg, store)
    requires key in reg && EqualsNoCase(m.up, name, key.process)
    requires Renamed(m.up, key, newName) == key || Renamed(m.up, key, newName) !in reg
    requires RenameProcess(m.up, store.Rules(key.action), name, newName, refused).Success?
    ensures Tracks(m, (reg - {key})[Renamed(m.up, key, newName) := reg[key]],
                   store.With(key.action, RenameProcess(m.up, store.Rules(key.action), name, newName, refused).value))
  {
    var rules := store.Rules(key.action);
    var reg' := (reg - {key})[Renamed(m.up, key, newName) := reg[key]];
    RenameTracks(m, reg, key, rules, name, newName, refused);
    MoveAgrees(reg, key, Renamed(m.up, key, newName));
    TracksWith(m, reg, reg', store, key.action, RenameProcess(m.up, rules, name, newName, refused).value);
  }

  lemma RenameToTracks(m: Machine, reg: Registry, store: Store, ev: RegistryEvent, refused: Refusals)
    requires RegistryOk(m.up, reg) && Tracks(m, reg, store)
    requires ev.RenameTo? && Legal(m.up, reg, ev) && After(m, store, ev, refused).result.Success?
    ensures Tracks(m, RegistryNext(m.up, reg, ev), After(m, store, ev, refused).store)
  {
    var name := SpelledKey(m.up, ev.keyPath, ev.key);
    AfterRename(m, store, ev, refused, name);
    RenameTracksStore(m, reg, store, ev.key, name, ev.newName, refused);
  }

  // ---------- runs ----------

  /** An event together with the memory requests that are refused while it is handled. */
  datatype Step = Step(event: RegistryEvent, refused: Refusals)

  /** Every event is legal, every set value is new, and every notification is handled without an error. */
  ghost predicate HandledRun(m: Machine, reg: Registry, store: Store, steps: seq<Step>)
    decreases |steps|
  {
    steps == [] ||
    (var ev := steps[0].event;
     && Legal(m.up, reg, ev)
     && (ev.SetValue? ==> !HasValue(m.up, reg[ev.key], ev.value))
     && (!ev.Elsewhere? ==> After(m, store, ev, steps[0].refused).result.Success?)
     && HandledRun(m, RegistryNext(m.up, reg, ev), After(m, store, ev, steps[0].refused).store, steps[1..]))
  }

  /** Registry and store after a run. */
  ghost function Final(m: Machine, reg: Registry, store: Store, steps: seq<Step>): (Registry, Store)
    requires HandledRun(m, reg, store, steps)
    decreases |steps|
  {
    if steps == [] then (reg, store)
    else
      var ev := steps[0].event;
      Final(m, RegistryNext(m.up, reg, ev), After(m, store, ev, steps[0].refused).store, steps[1..])
  }

  lemma StepTracks(m: Machine, reg: Registry, store: Store, ev: RegistryEvent, refused: Refusals)
    requires RegistryOk(m.up, reg) && Tracks(m, reg, store) && Legal(m.up, reg, ev)
    requires ev.SetValue? ==> !HasValue(m.up, reg[ev.key], ev.value)
    requires !ev.Elsewhere? ==> After(m, store, ev, refused).result.Success?
    ensures RegistryOk(m.up, RegistryNext(m.up, reg, ev))
    ensures Tracks(m, RegistryNext(m.up, reg, ev), After(m, store, ev, refused).store)
  {
    RegistryStaysOk(m.up, reg, ev);
    match ev
    case CreateKey(key) => CreateTracks(m, reg, store, key);
    case SetValue(_, _, _) => SetTracksIffNew(m, reg, store, ev, refused);
    case DeleteValue(_, _, _) => DeleteTracks(m, reg, store, ev, refused);
    case RemoveKey(_, _) => RemoveKeyTracks(m, reg, store, ev, refused);
    case RenameTo(_, _, _) => RenameToTracks(m, reg, store, ev, refused);
    case Elsewhere(note) => UnconcernedChangesNothing(m, store, note, refused);
  }

  /** A new key has no entry, which counts as an empty one. */
  lemma CreateTracks(m: Machine, reg: Registry, store: Store, key: ProcessKey)
    requires KeysOk(m.up, reg) && Tracks(m, reg, store)
    requires key !in reg && key.action != Bypass && IsUpper(m.up, key.process)
    ensures Tracks(m, reg[key := []], store)
  {
    var rules := store.Rules(key.action);
    assert PathsOf(m.up, rules, key.process) == multiset{} by {
      HasNameIff(m.up, rules, key.process);
    }
    assert PreparedAll(m, []) == [];
    TracksWith(m, reg, reg[key := []], store, key.action, rules);
  }

  /** From a store that tracks the registry, every run of handled notifications ends in one that does. */
  lemma {:induction false} RunTracks(m: Machine, reg: Registry, store: Store, steps: seq<Step>)
    requires RegistryOk(m.up, reg) && Tracks(m, reg, store) && HandledRun(m, reg, store, steps)
    ensures RegistryOk(m.up, Final(m, reg, store, steps).0)
    ensures Tracks(m, Final(m, reg, store, steps).0, Final(m, reg, store, steps).1)
    decreases |steps|
  {
    if steps != [] {
      var ev := steps[0].event;
      StepTracks(m, reg, store, ev, steps[0].refused);
      RunTracks(m, RegistryNext(m.up, reg, ev), After(m, store, ev, steps[0].refused).store, steps[1..]);
    }
  }

  lemma NothingIsTracked(m: Machine)
    ensures RegistryOk(m.up, map[]) && Tracks(m, map[], EMPTY_STORE)
  {
    assert forall q :: !HasName(m.up, [], q);
  }

  /** A driver that starts with nothing registered tracks the registry after every handled run. */
  lemma RunFromEmptyTracks(m: Machine, steps: seq<Step>)
    requires HandledRun(m, map[], EMPTY_STORE, steps)
    ensures Tracks(m, Final(m, map[], EMPTY_STORE, steps).0, Final(m, map[], EMPTY_STORE, steps).1)
  {
    NothingIsTracked(m);
    RunTracks(m, map[], EMPTY_STORE, steps);
  }

  // ---------- the life of one rule ----------

  /** One handled step takes registry and store to `reg'` and `store'`. */
  ghost predicate Leads(m: Machine, reg: Registry, store: Store, step: Step, reg': Registry, store': Store) {
    && Legal(m.up, reg, step.event)
    && (step.event.SetValue? ==> !HasValue(m.up, reg[step.event.key], step.event.value))
    && (!step.event.Elsewhere? ==> After(m, store, step.event, step.refused).result.Success?)
    && reg' == RegistryNext(m.up, reg, step.event) && store' == After(m, store, step.event, step.refused).store
  }

  /** Unfolding a run by one step. */
  lemma OneStep(m: Machine, reg: Registry, store: Store, step: Step, rest: seq<Step>, reg': Registry, store': Store)
    requires Leads(m, reg, store, step, reg', store') && HandledRun(m, reg', store', rest)
    ensures HandledRun(m, reg, store, [step] + rest)
    ensures Final(m, reg, store, [step] + rest) == Final(m, reg', store', rest)
  {
    assert ([step] + rest)[0] == step && ([step] + rest)[1..] == rest;
  }

  /** The store with one rule. */
  function OneRule(key: ProcessKey, path: NtStr): Store {
    EMPTY_STORE.With(key.action, [FileAccessEntry(key.process, [path])])
  }

  lemma CreateLeads(m: Machine, key: ProcessKey)
    requires key.action != Bypass && IsUpper(m.up, key.process) && BACKSLASH !in key.process
    ensures Leads(m, map[], EMPTY_STORE, Step(CreateKey(key), {}), map[key := []], EMPTY_STORE)
  {
  }

  lemma SetOnEmpty(m: Machine, key: ProcessKey, keyPath: NtStr, value: NtStr, name: NtStr)
    requires key.action != Bypass && Prepared(m, value).Success? && IsProtectionKey(m.up, keyPath)
    requires Parse(m.up, keyPath) == Success(RuleKeyPath(Some(key.action), Some(name)))
             && Upper(m.up, name) == key.process
    ensures After(m, EMPTY_STORE, SetValue(key, keyPath, value), {})
         == Outcome(OneRule(key, Prepared(m, value).value), Success(()))
  {
    NotificationOnProcessKey(m, EMPTY_STORE, NoteOf(SetValue(key, keyPath, value)), {}, key.action, name);
    assert FindEntry(m.up, [], Upper(m.up, name)) == None;
  }

  lemma SetLeads(m: Machine, key: ProcessKey, keyPath: NtStr, value: NtStr)
    requires Spells(m.up, keyPath, key) && IsUpper(m.up, key.process) && BACKSLASH !in key.process
    requires Prepared(m, value).Success?
    ensures Leads(m, map[key := []], EMPTY_STORE, Step(SetValue(key, keyPath, value), {}),
                  map[key := [value]], OneRule(key, Prepared(m, value).value))
  {
    var name := SpelledKey(m.up, keyPath, key);
    SetOnEmpty(m, key, keyPath, value, name);
    FirstValue(key, value);
  }

  lemma FirstValue(key: ProcessKey, value: NtStr)
    ensures var reg: Registry := map[key := []]; reg[key := reg[key] + [value]] == map[key := [value]]
  {
    var none: seq<NtStr> := [];
    assert none + [value] == [value];
  }

  lemma RemoveLast(m: Machine, key: ProcessKey, keyPath: NtStr, name: NtStr, path: NtStr)
    requires key.action != Bypass && IsProtectionKey(m.up, keyPath)
    requires Parse(m.up, keyPath) == Success(RuleKeyPath(Some(key.action), Some(name)))
             && Upper(m.up, name) == key.process
    ensures After(m, OneRule(key, path), RemoveKey(key, keyPath), {}) == Outcome(EMPTY_STORE, Success(()))
  {
    var entry := FileAccessEntry(key.process, [path]);
    NotificationOnProcessKey(m, OneRule(key, path), NoteOf(RemoveKey(key, keyPath)), {}, key.action, name);
    UpperIdempotent(m.up, name);
    FindEntryUnique(m.up, [entry], name, 0);
    assert RemoveAt([entry], 0) == [];
  }

  lemma RemoveLeads(m: Machine, key: ProcessKey, keyPath: NtStr, value: NtStr, path: NtStr)
    requires Spells(m.up, keyPath, key) && IsUpper(m.up, key.process) && BACKSLASH !in key.process
    ensures Leads(m, map[key := [value]], OneRule(key, path), Step(RemoveKey(key, keyPath), {}), map[], EMPTY_STORE)
  {
    var name := SpelledKey(m.up, keyPath, key);
    RemoveLast(m, key, keyPath, name, path);
    assert map[key := [value]] - {key} == map[];
  }

  /** A step at the end of a run, and one before it. */
  lemma LastStep(m: Machine, reg: Registry, store: Store, step: Step, reg': Registry, store': Store)
    requires Leads(m, reg, store, step, reg', store')
    ensures HandledRun(m, reg, store, [step]) && Final(m, reg, store, [step]) == (reg', store')
  {
    OneStep(m, reg, store, step, [], reg', store');
    assert [step] + [] == [step];
  }

  /**
    * The life of one rule, on any machine, for any process and value, under any spelling of its key path: a
    * handled run that leaves no trace.
    */
  lemma LifeOfARule(m: Machine, key: ProcessKey, setPath: NtStr, removePath: NtStr, value: NtStr)
    requires IsUpper(m.up, key.process) && BACKSLASH !in key.process && Prepared(m, value).Success?
    requires Spells(m.up, setPath, key) && Spells(m.up, removePath, key)
    ensures var run := [Step(CreateKey(key), {}), Step(SetValue(key, setPath, value), {}),
            Step(RemoveKey(key, removePath), {})];
            HandledRun(m, map[], EMPTY_STORE, run) && Final(m, map[], EMPTY_STORE, run) == (map[], EMPTY_STORE)
  {
    var path := Prepared(m, value).value;
    var step0, step1 := Step(CreateKey(key), {}), Step(SetValue(key, setPath, value), {});
    var step2 := Step(RemoveKey(key, removePath), {});
    CreateLeads(m, key);
    SetLeads(m, key, setPath, value);
    RemoveLeads(m, key, removePath, value, path);
    ThreeSteps(m, step0, step1, step2, map[key := []], EMPTY_STORE, map[key := [value]], OneRule(key, path));
  }

  lemma ThreeSteps(m: Machine, step0: Step, step1: Step, step2: Step, reg1: Registry, store1: Store,
                   reg2: Registry, store2: Store)
    requires Leads(m, map[], EMPTY_STORE, step0, reg1, store1)
    requires Leads(m, reg1, store1, step1, reg2, store2)
    requires Leads(m, reg2, store2, step2, map[], EMPTY_STORE)
    ensures HandledRun(m, map[], EMPTY_STORE, [step0, step1, step2])
    ensures Final(m, map[], EMPTY_STORE, [step0, step1, step2]) == (map[], EMPTY_STORE)
  {
    LastStep(m, reg2, store2, step2, map[], EMPTY_STORE);
    OneStep(m, reg1, store1, step1, [step2], reg2, store2);
    OneStep(m, map[], EMPTY_STORE, step0, [step1] + [step2], reg1, store1);
    assert [step0] + ([step1] + [step2]) == [step0, step1, step2];
  }
}
