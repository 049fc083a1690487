/** When the rule store and the registry part company, and what stays in force then. */
module RegistryDrift {
  import opened Wrappers
  import opened NtStrings
  import opened Globs
  import opened PathUtils
  import opened RuleKeys
  import opened RulePaths
  import opened Rules
  import opened RuleEvents
  import opened RegistryNotifications
  import opened RegistryTracking

  /**
    * What can be said of a legal operation and the result of its notification: a new value is handled, a repeated
    * one is not, a deleted one is, and a renamed key is, unless it keeps its name or has no entry to rename.
    */
  predicate StepKeeps(m: Machine, reg: Registry, store: Store, ev: RegistryEvent, refused: Refusals)
    requires ev.SetValue? ==> ev.key in reg
  {
    var handled := After(m, store, ev, refused).result.Success?;
    match ev
    case SetValue(key, _, value) => handled <==> !HasValue(m.up, reg[key], value)
    case DeleteValue(_, _, _) => handled
    case RenameTo(key, _, newName) =>
      handled || Renamed(m.up, key, newName) == key || !HasName(m.up, store.Rules(key.action), key.process)
    case _ => true
  }

  lemma PathsAreCounted(m: Machine, reg: Registry, k: ProcessKey, rules: RuleList)
    requires TracksType(m, reg, k.action, rules) && k in reg
    ensures |PathsOf(m.up, rules, k.process)| == |reg[k]|
  {
    assert |multiset(PreparedAll(m, reg[k]))| == |PreparedAll(m, reg[k])|;
  }

  /** A list that tracks a type no longer does when a value appears or disappears. */
  lemma OtherValuesBreak(m: Machine, reg: Registry, key: ProcessKey, values: seq<NtStr>, rules: RuleList)
    requires TracksType(m, reg, key.action, rules) && key in reg && |values| != |reg[key]|
    ensures !TracksType(m, reg[key := values], key.action, rules)
  {
    PathsAreCounted(m, reg, key, rules);
    if TracksType(m, reg[key := values], key.action, rules) {
      PathsAreCounted(m, reg[key := values], key, rules);
    }
  }

  lemma TypeOfStore(m: Machine, reg: Registry, store: Store, action: Action)
    requires Tracks(m, reg, store) && action != Bypass
    ensures TracksType(m, reg, action, store.Rules(action))
  {
  }

  lemma OtherValuesBreakStore(m: Machine, reg: Registry, key: ProcessKey, values: seq<NtStr>, store: Store)
    requires Tracks(m, reg, store) && key.action != Bypass && key in reg && |values| != |reg[key]|
    ensures !Tracks(m, reg[key := values], store)
  {
    TypeOfStore(m, reg, store, key.action);
    OtherValuesBreak(m, reg, key, values, store.Rules(key.action));
    if Tracks(m, reg[key := values], store) {
      TypeOfStore(m, reg[key := values], store, key.action);
    }
  }

  lemma FailedSetIff(m: Machine, reg: Registry, store: Store, ev: RegistryEvent, refused: Refusals)
    requires RegistryOk(m.up, reg) && Tracks(m, reg, store)
    requires ev.SetValue? && Legal(m.up, reg, ev) && After(m, store, ev, refused).result.Failure?
    ensures Tracks(m, RegistryNext(m.up, reg, ev), After(m, store, ev, refused).store)
       <==> HasValue(m.up, reg[ev.key], ev.value)
  {
    FailedNotificationChangesNothing(m, store, NoteOf(ev), refused);
    if !HasValue(m.up, reg[ev.key], ev.value) {
      OtherValuesBreakStore(m, reg, ev.key, reg[ev.key] + [ev.value], store);
    }
  }

  lemma FailedDeleteBreaks(m: Machine, reg: Registry, store: Store, ev: RegistryEvent, refused: Refusals)
    requires RegistryOk(m.up, reg) && Tracks(m, reg, store)
    requires ev.DeleteValue? && Legal(m.up, reg, ev) && After(m, store, ev, refused).result.Failure?
    ensures !Tracks(m, RegistryNext(m.up, reg, ev), After(m, store, ev, refused).store)
  {
    FailedNotificationChangesNothing(m, store, NoteOf(ev), refused);
    var i := FindPath(m.up, reg[ev.key], ev.value).value;
    OtherValuesBreakStore(m, reg, ev.key, RemoveAt(reg[ev.key], i), store);
  }

  /** A key without an entry has no values that count. */
  lemma NoEntryNoPaths(m: Machine, reg: Registry, k: ProcessKey, rules: RuleList)
    requires TracksType(m, reg, k.action, rules) && k in reg && !HasName(m.up, rules, k.process)
    ensures AllPrepared(m, reg[k]) && PathsOf(m.up, rules, k.process) == multiset(PreparedAll(m, reg[k])) == multiset{}
  {
    HasNameIff(m.up, rules, k.process);
  }

  lemma UnknownKeyHasNoEntry(m: Machine, reg: Registry, k: ProcessKey, rules: RuleList)
    requires TracksType(m, reg, k.action, rules) && k !in reg && IsUpper(m.up, k.process)
    ensures !HasName(m.up, rules, k.process) && PathsOf(m.up, rules, k.process) == multiset{}
  {
    HasNameIff(m.up, rules, k.process);
    assert ProcessKey(k.action, Upper(m.up, k.process)) == k;
  }

  lemma NamesElsewhere(m: Machine, reg: Registry, key: ProcessKey, rules: RuleList, q: NtStr)
    requires TracksType(m, reg, key.action, rules) && IsUpper(m.up, key.process)
    requires !HasName(m.up, rules, key.process) && HasName(m.up, rules, q)
    ensures ProcessKey(key.action, Upper(m.up, q)) in reg && ProcessKey(key.action, Upper(m.up, q)) != key
  {
    if Upper(m.up, q) == key.process {
      HasNameUnderSpelling(m.up, rules, q, key.process);
    }
  }

  lemma HasNameUnderSpelling(up: CaseTable, rules: RuleList, a: NtStr, b: NtStr)
    requires IsUpper(up, b) && Upper(up, a) == b
    ensures HasName(up, rules, a) <==> HasName(up, rules, b)
  {
  }

  /** A key without an entry moves without notice. */
  lemma MoveOfEmptyTracks(m: Machine, reg: Registry, key: ProcessKey, newKey: ProcessKey, rules: RuleList,
                          moved: Registry)
    requires KeysOk(m.up, reg) && TracksType(m, reg, key.action, rules) && key in reg
    requires newKey !in reg && newKey.action == key.action && IsUpper(m.up, newKey.process)
    requires !HasName(m.up, rules, key.process) && moved == (reg - {key})[newKey := reg[key]]
    ensures TracksType(m, moved, key.action, rules)
  {
    NoEntryNoPaths(m, reg, key, rules);
    UnknownKeyHasNoEntry(m, reg, newKey, rules);
    forall q | HasName(m.up, rules, q)
      ensures ProcessKey(key.action, Upper(m.up, q)) in moved
    {
      NamesElsewhere(m, reg, key, rules, q);
    }
    forall k | k in moved && k.action == key.action
      ensures AllPrepared(m, moved[k]) && PathsOf(m.up, rules, k.process) == multiset(PreparedAll(m, moved[k]))
    {
      if k != newKey {
        assert k in reg && moved[k] == reg[k];
      }
    }
  }

  /** A store whose list of the type is left alone. */
  lemma MoveOfEmptyTracksStore(m: Machine, reg: Registry, key: ProcessKey, newKey: ProcessKey, store: Store)
    requires KeysOk(m.up, reg) && Tracks(m, reg, store) && key in reg
    requires newKey !in reg && newKey.action == key.action && IsUpper(m.up, newKey.process)
    requires !HasName(m.up, store.Rules(key.action), key.process)
    ensures Tracks(m, (reg - {key})[newKey := reg[key]], store)
  {
    var rules, moved := store.Rules(key.action), (reg - {key})[newKey := reg[key]];
    TypeOfStore(m, reg, store, key.action);
    MoveOfEmptyTracks(m, reg, key, newKey, rules, moved);
    MoveAgrees(reg, key, newKey);
    TracksWith(m, reg, moved, store, key.action, rules);
  }

  lemma EntryWithoutKeyBreaks(m: Machine, reg: Registry, key: ProcessKey, store: Store)
    requires key !in reg && key.action != Bypass && IsUpper(m.up, key.process)
    requires HasName(m.up, store.Rules(key.action), key.process)
    ensures !Tracks(m, reg, store)
  {
    if Tracks(m, reg, store) {
      TypeOfStore(m, reg, store, key.action);
      UnknownKeyHasNoEntry(m, reg, key, store.Rules(key.action));
    }
  }

  /** The key has moved, the store has not been told. */
  lemma UntoldMoveIff(m: Machine, reg: Registry, key: ProcessKey, newKey: ProcessKey, store: Store, moved: Registry)
    requires KeysOk(m.up, reg) && Tracks(m, reg, store) && key in reg
    requires newKey == key || newKey !in reg
    requires newKey.action == key.action && IsUpper(m.up, newKey.process)
    requires moved == (reg - {key})[newKey := reg[key]]
    ensures Tracks(m, moved, store) <==> newKey == key || !HasName(m.up, store.Rules(key.action), key.process)
  {
    if newKey == key {
      SameKeyMove(reg, key);
    } else if HasName(m.up, store.Rules(key.action), key.process) {
      MovedAway(m.up, reg, key, newKey);
      EntryWithoutKeyBreaks(m, moved, key, store);
    } else {
      MoveOfEmptyTracksStore(m, reg, key, newKey, store);
    }
  }

  lemma SameKeyMove(reg: Registry, key: ProcessKey)
    requires key in reg
    ensures (reg - {key})[key := reg[key]] == reg
  {
  }

  lemma MovedAway(up: CaseTable, reg: Registry, key: ProcessKey, newKey: ProcessKey)
    requires KeysOk(up, reg) && key in reg && newKey != key
    ensures key !in (reg - {key})[newKey := reg[key]] && key.action != Bypass && IsUpper(up, key.process)
  {
  }

  lemma FailedRenameIff(m: Machine, reg: Registry, store: Store, ev: RegistryEvent, refused: Refusals)
    requires RegistryOk(m.up, reg) && Tracks(m, reg, store)
    requires ev.RenameTo? && Legal(m.up, reg, ev) && After(m, store, ev, refused).result.Failure?
    ensures Tracks(m, RegistryNext(m.up, reg, ev), After(m, store, ev, refused).store)
       <==> Renamed(m.up, ev.key, ev.newName) == ev.key || !HasName(m.up, store.Rules(ev.key.action), ev.key.process)
  {
    FailedNotificationChangesNothing(m, store, NoteOf(ev), refused);
    UpperIdempotent(m.up, ev.newName);
    UntoldMoveIff(m, reg, ev.key, Renamed(m.up, ev.key, ev.newName), store, RegistryNext(m.up, reg, ev));
  }

  /** After one legal operation and its notification, handled or not, the store tracks the registry exactly then. */
  lemma StepTracksIff(m: Machine, reg: Registry, store: Store, ev: RegistryEvent, refused: Refusals)
    requires RegistryOk(m.up, reg) && Tracks(m, reg, store) && Legal(m.up, reg, ev)
    ensures RegistryOk(m.up, RegistryNext(m.up, reg, ev))
    ensures Tracks(m, RegistryNext(m.up, reg, ev), After(m, store, ev, refused).store)
       <==> StepKeeps(m, reg, store, ev, refused)
  {
    RegistryStaysOk(m.up, reg, ev);
    var handled := After(m, store, ev, refused).result.Success?;
    match ev
    case CreateKey(key) => CreateTracks(m, reg, store, key);
    case SetValue(_, _, _) =>
      if handled {
        SetTracksIffNew(m, reg, store, ev, refused);
      } else {
        FailedSetIff(m, reg, store, ev, refused);
      }
    case DeleteValue(_, _, _) =>
      if handled {
        DeleteTracks(m, reg, store, ev, refused);
      } else {
        FailedDeleteBreaks(m, reg, store, ev, refused);
      }
    case RemoveKey(_, _) => RemoveKeyTracks(m, reg, store, ev, refused);
    case RenameTo(_, _, _) =>
      if handled {
        RenameToTracks(m, reg, store, ev, refused);
      } else {
        FailedRenameIff(m, reg, store, ev, refused);
      }
    case Elsewhere(note) => UnconcernedChangesNothing(m, store, note, refused);
  }

  // ---------- runs ----------

  /** What the registry lets happen, whatever the driver makes of it. */
  ghost predicate LegalRun(up: CaseTable, reg: Registry, steps: seq<Step>)
    decreases |steps|
  {
    steps == [] ||
    (Legal(up, reg, steps[0].event) && LegalRun(up, RegistryNext(up, reg, steps[0].event), steps[1..]))
  }

  ghost predicate TracksThroughout(m: Machine, reg: Registry, store: Store, steps: seq<Step>)
    requires LegalRun(m.up, reg, steps)
    decreases |steps|
  {
    && Tracks(m, reg, store)
    && (steps != [] ==>
          var ev := steps[0].event;
          TracksThroughout(m, RegistryNext(m.up, reg, ev), After(m, store, ev, steps[0].refused).store, steps[1..]))
  }

  ghost predicate StepsKeep(m: Machine, reg: Registry, store: Store, steps: seq<Step>)
    requires LegalRun(m.up, reg, steps)
    decreases |steps|
  {
    steps != [] ==>
      var ev := steps[0].event;
      && StepKeeps(m, reg, store, ev, steps[0].refused)
      && StepsKeep(m, RegistryNext(m.up, reg, ev), After(m, store, ev, steps[0].refused).store, steps[1..])
  }

  /**
    * Over any run of legal operations, with failures and repetitions, exactly when the store never parts from
    * the registry.
    */
  lemma {:induction false} TracksThroughoutIff(m: Machine, reg: Registry, store: Store, steps: seq<Step>)
    requires RegistryOk(m.up, reg) && Tracks(m, reg, store) && LegalRun(m.up, reg, steps)
    ensures TracksThroughout(m, reg, store, steps) <==> StepsKeep(m, reg, store, steps)
    decreases |steps|
  {
    if steps != [] {
      var ev, refused := steps[0].event, steps[0].refused;
      StepTracksIff(m, reg, store, ev, refused);
      var reg', store' := RegistryNext(m.up, reg, ev), After(m, store, ev, refused).store;
      if Tracks(m, reg', store') {
        TracksThroughoutIff(m, reg', store', steps[1..]);
      }
    }
  }

  // ---------- a rule that outlives its value ----------

  /** Registry and store after a legal run. */
  ghost function AfterRun(m: Machine, reg: Registry, store: Store, steps: seq<Step>): (Registry, Store)
    requires LegalRun(m.up, reg, steps)
    decreases |steps|
  {
    if steps == [] then (reg, store)
    else
      var ev := steps[0].event;
      AfterRun(m, RegistryNext(m.up, reg, ev), After(m, store, ev, steps[0].refused).store, steps[1..])
  }

  lemma RunByOne(m: Machine, reg: Registry, store: Store, step: Step, rest: seq<Step>, reg': Registry, store': Store)
    requires Legal(m.up, reg, step.event) && reg' == RegistryNext(m.up, reg, step.event)
    requires store' == After(m, store, step.event, step.refused).store && LegalRun(m.up, reg', rest)
    ensures LegalRun(m.up, reg, [step] + rest)
    ensures AfterRun(m, reg, store, [step] + rest) == AfterRun(m, reg', store', rest)
  {
    assert ([step] + rest)[0] == step && ([step] + rest)[1..] == rest;
  }

  /** The store with one entry that holds the same path twice. */
  function TwoCopies(key: ProcessKey, path: NtStr): Store {
    EMPTY_STORE.With(key.action, [FileAccessEntry(key.process, [path, path])])
  }

  lemma SetAgain(m: Machine, key: ProcessKey, keyPath: NtStr, value: NtStr)
    requires Spells(m.up, keyPath, key) && IsUpper(m.up, key.process) && BACKSLASH !in key.process
    requires Prepared(m, value).Success?
    ensures After(m, OneRule(key, Prepared(m, value).value), SetValue(key, keyPath, value), {}).store
         == TwoCopies(key, Prepared(m, value).value)
  {
    var name := SpelledKey(m.up, keyPath, key);
    var path := Prepared(m, value).value;
    var entry, store := FileAccessEntry(key.process, [path]), OneRule(key, path);
    NotificationOnProcessKey(m, store, NoteOf(SetValue(key, keyPath, value)), {}, key.action, name);
    FindEntryUnique(m.up, [entry], Upper(m.up, name), 0);
    assert [path] + [path] == [path, path];
  }

  lemma OneCopyGoes(up: CaseTable, process: NtStr, name: NtStr, path: NtStr)
    requires EqualsNoCase(up, process, name)
    ensures RemoveFile(up, [FileAccessEntry(process, [path, path])], name, path) == [FileAccessEntry(process, [path])]
  {
    var rules := [FileAccessEntry(process, [path, path])];
    FindEntryUnique(up, rules, name, 0);
    var pos := FindPath(up, [path, path], path);
    assert [path, path][0] == path;
    assert RemoveAt([path, path], pos.value) == [path];
  }

  lemma DeleteOnce(m: Machine, key: ProcessKey, keyPath: NtStr, value: NtStr)
    requires Spells(m.up, keyPath, key) && IsUpper(m.up, key.process) && BACKSLASH !in key.process
    requires Prepared(m, value).Success?
    ensures After(m, TwoCopies(key, Prepared(m, value).value), DeleteValue(key, keyPath, value), {}).store
         == OneRule(key, Prepared(m, value).value)
  {
    var name := SpelledKey(m.up, keyPath, key);
    var path := Prepared(m, value).value;
    NotificationOnProcessKey(m, TwoCopies(key, path), NoteOf(DeleteValue(key, keyPath, value)), {}, key.action, name);
    OneCopyGoes(m.up, key.process, name, path);
  }

  /** Setting a value twice and deleting it once. */
  function SetSetDelete(key: ProcessKey, keyPath: NtStr, value: NtStr): seq<Step> {
    [Step(SetValue(key, keyPath, value), {}), Step(SetValue(key, keyPath, value), {}),
     Step(DeleteValue(key, keyPath, value), {})]
  }

  /** The key has no value left, but the rule is still in the store. */
  lemma RuleOutlivesValue(m: Machine, key: ProcessKey, keyPath: NtStr, value: NtStr)
    requires Spells(m.up, keyPath, key) && IsUpper(m.up, key.process) && BACKSLASH !in key.process
    requires Prepared(m, value).Success?
    ensures LegalRun(m.up, map[key := []], SetSetDelete(key, keyPath, value))
    ensures AfterRun(m, map[key := []], EMPTY_STORE, SetSetDelete(key, keyPath, value))
         == (map[key := []], OneRule(key, Prepared(m, value).value))
  {
    var put, drop := Step(SetValue(key, keyPath, value), {}), Step(DeleteValue(key, keyPath, value), {});
    var path := Prepared(m, value).value;
    var none: Registry := map[key := []];
    var one: Registry := map[key := [value]];
    SetLeads(m, key, keyPath, value);
    SetAgain(m, key, keyPath, value);
    DeleteOnce(m, key, keyPath, value);
    OneValue(m.up, key, keyPath, value);
    RunByOne(m, one, TwoCopies(key, path), drop, [], none, OneRule(key, path));
    RunByOne(m, one, OneRule(key, path), put, [drop] + [], one, TwoCopies(key, path));
    RunByOne(m, none, EMPTY_STORE, put, [put] + ([drop] + []), one, OneRule(key, path));
    assert [put] + ([put] + ([drop] + [])) == SetSetDelete(key, keyPath, value);
  }

  lemma OneValue(up: CaseTable, key: ProcessKey, keyPath: NtStr, value: NtStr)
    ensures var one: Registry := map[key := [value]];
            && HasValue(up, one[key], value)
            && RegistryNext(up, one, SetValue(key, keyPath, value)) == one
            && RegistryNext(up, one, DeleteValue(key, keyPath, value)) == map[key := []]
  {
    assert [value][0] == value;
    var pos := FindPath(up, [value], value).value;
    assert RemoveAt([value], pos) == [];
    var one: Registry := map[key := [value]];
    assert one[key := []] == map[key := []];
  }

  /** A rule in the store is in force for whatever it matches, whether or not the registry still has it. */
  lemma OneRuleInForce(up: CaseTable, key: ProcessKey, path: NtStr, processName: NtStr, filePath: NtStr)
    requires key.action != Bypass && MatchesNoCase(up, processName, key.process) && PathMatches(up, path, filePath)
    ensures SearchAction(up, OneRule(key, path), processName, filePath) == key.action
  {
    var entry := FileAccessEntry(key.process, [path]);
    assert [path][0] == path && EntryCovers(up, entry, filePath);
    FirstIndexUnique([entry], (e: FileAccessEntry) => MatchesNoCase(up, processName, e.processName), 0);
  }
}
