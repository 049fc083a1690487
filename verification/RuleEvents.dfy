/**
  * The public event handlers of the rules manager as functions on the store
  * (src/rules_manager.rs:389-466, 500-524, 557-701).
  */
module RuleEvents {
  import opened Wrappers
  import opened NtStrings
  import opened Globs
  import opened PathUtils
  import opened RuleKeys
  import opened RulePaths
  import opened Rules

  /** The store after a handler ran, and what the handler returned. */
  datatype Outcome = Outcome(store: Store, result: Result<()>)

  /** The fallible conversion in the log line that follows every update. */
  function Logged(action: Action): Result<()> {
    var _ :- NameOfAction(action);
    Success(())
  }

  /** The copy of a value name, in stored form. */
  function CopyPrepared(m: Machine, value: NtStr, refused: Refusals): Result<NtStr> {
    var _ :- Granted(CopyValueName, refused);
    Prepare(m, value, refused)
  }

  /** Does the parsed key name a process? */
  predicate NamesProcess(key: RuleKeyPath) {
    key.ruleType.Some? && key.processName.Some?
  }

  /** An update of one of the two lists, and the log line after it. */
  function Updated(store: Store, action: Action, rules: Result<RuleList>): Outcome {
    if action == Bypass then Outcome(store, Logged(action))
    else
      match rules
      case Failure(e) => Outcome(store, Failure(e))
      case Success(r) => Outcome(store.With(action, r), Logged(action))
  }

  /** `set_key_value_rule`. */
  function SetKeyValue(m: Machine, store: Store, keyPath: NtStr, value: NtStr, refused: Refusals): Outcome {
    match CopyPrepared(m, value, refused)
    case Failure(e) => Outcome(store, Failure(e))
    case Success(path) =>
      match Parse(m.up, keyPath)
      case Failure(e) => Outcome(store, Failure(e))
      case Success(key) =>
        if NamesProcess(key) then
          var action := key.ruleType.value;
          Updated(store, action, AddFile(m.up, store.Rules(action), key.processName.value, path, refused))
        else Outcome(store, Success(()))
  }

  /** `delete_key_value_rule`. */
  function DeleteKeyValue(m: Machine, store: Store, keyPath: NtStr, value: NtStr, refused: Refusals): Outcome {
    match CopyPrepared(m, value, refused)
    case Failure(e) => Outcome(store, Failure(e))
    case Success(path) =>
      match Parse(m.up, keyPath)
      case Failure(e) => Outcome(store, Failure(e))
      case Success(key) =>
        if NamesProcess(key) then
          var action := key.ruleType.value;
          Updated(store, action, Success(RemoveFile(m.up, store.Rules(action), key.processName.value, path)))
        else Outcome(store, Success(()))
  }

  /** `delete_key_rules`. */
  function DeleteKey(m: Machine, store: Store, keyPath: NtStr): Outcome {
    match Parse(m.up, keyPath)
    case Failure(e) => Outcome(store, Failure(e))
    case Success(key) =>
      if NamesProcess(key) then
        var action := key.ruleType.value;
        Updated(store, action, Success(ClearProcess(m.up, store.Rules(action), key.processName.value)))
      else Outcome(store, Success(()))
  }

  /** `rename_key_rules`. */
  function RenameKey(m: Machine, store: Store, keyPath: NtStr, newName: NtStr, refused: Refusals): Outcome {
    match Parse(m.up, keyPath)
    case Failure(e) => Outcome(store, Failure(e))
    case Success(key) =>
      if NamesProcess(key) then
        var action := key.ruleType.value;
        Updated(store, action, RenameProcess(m.up, store.Rules(action), key.processName.value, newName, refused))
      else Outcome(store, Success(()))
  }

  /**
    * A handler that reports an error has changed nothing. The log line after the update cannot fail, because
    * parsing never yields `Bypass`.
    */
  lemma FailedEventsChangeNothing(m: Machine, store: Store, keyPath: NtStr, name: NtStr, refused: Refusals)
    ensures SetKeyValue(m, store, keyPath, name, refused).result.Failure?
        ==> SetKeyValue(m, store, keyPath, name, refused).store == store
    ensures DeleteKeyValue(m, store, keyPath, name, refused).result.Failure?
        ==> DeleteKeyValue(m, store, keyPath, name, refused).store == store
    ensures DeleteKey(m, store, keyPath).result.Failure? ==> DeleteKey(m, store, keyPath).store == store
    ensures RenameKey(m, store, keyPath, name, refused).result.Failure?
        ==> RenameKey(m, store, keyPath, name, refused).store == store
  {
    if Parse(m.up, keyPath).Success? {
      ParseNeverBypass(m.up, keyPath);
    }
  }

  // ---------- setting a value and deleting it again ----------

  /** Replacing an entry by one with the same name and the same paths in another order. */
  lemma SearchAfterReorder(up: CaseTable, rules: RuleList, i: nat, paths: seq<NtStr>, processName: NtStr,
                           filePath: NtStr)
    requires i < |rules| && multiset(paths) == multiset(rules[i].filePaths)
    ensures SearchRule(up, rules[i := rules[i].(filePaths := paths)], processName, filePath)
         == SearchRule(up, rules, processName, filePath)
  {
    var changed := rules[i := rules[i].(filePaths := paths)];
    var fits := (entry: FileAccessEntry) => MatchesNoCase(up, processName, entry.processName);
    SameSummaryCovers(up, rules[i], changed[i], filePath);
    SameSummaryCovers(up, changed[i], rules[i], filePath);
    match FirstIndex(rules, fits)
    case Some(k) => FirstIndexUnique(changed, fits, k);
    case None =>
      assert forall j | 0 <= j < |rules| ::
          !fits(rules[j]) && changed[j].processName == rules[j].processName;
  }

  /** An entry without paths at the end of the list. */
  lemma SearchAfterEmptyEntry(up: CaseTable, rules: RuleList, name: NtStr, processName: NtStr, filePath: NtStr)
    ensures SearchRule(up, rules + [FileAccessEntry(name, [])], processName, filePath)
         == SearchRule(up, rules, processName, filePath)
  {
    var longer := rules + [FileAccessEntry(name, [])];
    var fits := (entry: FileAccessEntry) => MatchesNoCase(up, processName, entry.processName);
    match FirstIndex(rules, fits)
    case Some(k) => FirstIndexUnique(longer, fits, k);
    case None => assert forall j | 0 <= j < |rules| :: !fits(longer[j]);
  }

  lemma FindEntryOfUpper(up: CaseTable, rules: RuleList, name: NtStr)
    ensures FindEntry(up, rules, Upper(up, name)) == FindEntry(up, rules, name)
  {
  }

  /** In an upper-case list of paths the removed one is a copy of the one asked for. */
  lemma FindPathExact(up: CaseTable, paths: seq<NtStr>, path: NtStr)
    requires IsUpper(up, path) && forall k | 0 <= k < |paths| :: IsUpper(up, paths[k])
    ensures var r := FindPath(up, paths, path); if r.Some? then paths[r.value] == path else path !in paths
  {
  }

  lemma FindEntryUnique(up: CaseTable, rules: RuleList, name: NtStr, i: nat)
    requires i < |rules| && EqualsNoCase(up, rules[i].processName, name)
    requires forall j | 0 <= j < i :: !EqualsNoCase(up, rules[j].processName, name)
    ensures FindEntry(up, rules, name) == Some(i)
  {
  }

  /** Adding a path to a known entry and removing it gives the list back, up to the order of that entry's paths. */
  lemma AddThenRemoveKnown(up: CaseTable, rules: RuleList, i: nat, name: NtStr, path: NtStr) returns (rest: seq<NtStr>)
    requires UpperCased(up, rules) && IsUpper(up, path)
    requires FindEntry(up, rules, name) == Some(i)
    ensures multiset(rest) == multiset(rules[i].filePaths)
    ensures RemoveFile(up, rules[i := rules[i].(filePaths := rules[i].filePaths + [path])], name, path)
         == rules[i := rules[i].(filePaths := rest)]
  {
    var paths := rules[i].filePaths + [path];
    var added := rules[i := rules[i].(filePaths := paths)];
    FindEntryUnique(up, added, name, i);
    FindPathExact(up, paths, path);
    assert paths[|paths| - 1] == path;
    rest := RemoveAt(paths, FindPath(up, paths, path).value);
    assert multiset(paths) == multiset(rules[i].filePaths) + multiset{path};
    assert added[i := added[i].(filePaths := rest)] == rules[i := rules[i].(filePaths := rest)];
  }

  /** Adding a path for an unknown process and removing it leaves one entry without paths behind. */
  lemma AddThenRemoveNew(up: CaseTable, rules: RuleList, name: NtStr, path: NtStr)
    requires UpperCased(up, rules) && IsUpper(up, path)
    requires FindEntry(up, rules, name).None?
    ensures RemoveFile(up, rules + [FileAccessEntry(Upper(up, name), [path])], name, path)
         == rules + [FileAccessEntry(Upper(up, name), [])]
  {
    var added := rules + [FileAccessEntry(Upper(up, name), [path])];
    UpperIdempotent(up, name);
    FindEntryUnique(up, added, name, |rules|);
    assert path in [path] && added[|rules|].filePaths == [path];
    FindPathExact(up, [path], path);
    assert RemoveAt([path], 0) == [];
  }

  lemma AddThenRemove(up: CaseTable, rules: RuleList, name: NtStr, path: NtStr, refused: Refusals,
                      processName: NtStr, filePath: NtStr)
    requires UpperCased(up, rules) && IsUpper(up, path)
    requires AddFile(up, rules, name, path, refused).Success?
    ensures SearchRule(up, RemoveFile(up, AddFile(up, rules, name, path, refused).value, name, path), processName,
            filePath)
         == SearchRule(up, rules, processName, filePath)
  {
    FindEntryOfUpper(up, rules, name);
    match FindEntry(up, rules, name) {
      case Some(i) =>
        var rest := AddThenRemoveKnown(up, rules, i, name, path);
        SearchAfterReorder(up, rules, i, rest, processName, filePath);
      case None =>
        AddThenRemoveNew(up, rules, name, path);
        SearchAfterEmptyEntry(up, rules, Upper(up, name), processName, filePath);
    }
  }

  /**
    * Setting a value and deleting it again leaves every decision as it was, whether or not the value or
    * its process entry was there before.
    */
  lemma SetThenDeleteNeutral(m: Machine, store: Store, keyPath: NtStr, value: NtStr, refusedSet: Refusals,
                             refusedDelete: Refusals, processName: NtStr, filePath: NtStr)
    requires UpperCased(m.up, store.deny) && UpperCased(m.up, store.readOnly)
    requires SetKeyValue(m, store, keyPath, value, refusedSet).result.Success?
    requires DeleteKeyValue(m, SetKeyValue(m, store, keyPath, value, refusedSet).store, keyPath, value, refusedDelete)
             .result.Success?
    ensures SearchAction(m.up,
              DeleteKeyValue(m, SetKeyValue(m, store, keyPath, value, refusedSet).store, keyPath, value,
                  refusedDelete).store,
              processName, filePath)
         == SearchAction(m.up, store, processName, filePath)
  {
    PrepareUnderRefusals(m, value, refusedSet);
    PrepareUnderRefusals(m, value, refusedDelete);
    PrepareIsNormal(m, value, {});
    var path := Prepared(m, value).value;
    ParseNeverBypass(m.up, keyPath);
    var key := Parse(m.up, keyPath).value;
    if NamesProcess(key) {
      AddThenRemove(m.up, store.Rules(key.ruleType.value), key.processName.value, path, refusedSet, processName,
          filePath);
    }
  }
}
