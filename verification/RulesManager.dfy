/** The rules manager object, whose two rule lists its methods update in place (src/rules_manager.rs). */
module RulesManagers {
  import opened Wrappers
  import opened NtStrings
  import opened PathUtils
  import opened RuleKeys
  import opened RulePaths
  import opened Rules
  import opened RuleReads
  import opened RuleEvents
  import opened RegistryLoad
  import opened StoreInvariants

  /** `prepare_rule_file_path`, rewriting its string step by step. */
  method PrepareRuleFilePath(m: Machine, value: NtStr, refused: Refusals) returns (r: Result<NtStr>)
    ensures r == Prepare(m, value, refused)
  {
    var path := value;
    if IsDiskSpecified(path) {
      path :- ConvertDosPath(m, path, refused);
    }
    if EndsWith(path, [BACKSLASH]) {
      path :- TryAppend(path, [STAR], AppendStar in refused);
    }
    var _ :- Granted(UpcasePath, refused);
    path := Upper(m.up, path);
    return Success(path);
  }

  /** The entries made so far and those still to be made. */
  ghost function LoadRest(m: Machine, rules: RuleList, left: seq<ListedProcess>): Result<RuleList> {
    var rest :- LoadProcesses(m, left);
    Success(rules + rest)
  }

  lemma LoadRestStart(m: Machine, processes: seq<ListedProcess>)
    ensures LoadRest(m, [], processes) == LoadProcesses(m, processes)
  {
    var r := LoadProcesses(m, processes);
    if r.Success? {
      assert [] + r.value == r.value;
    }
  }

  lemma LoadRestStep(m: Machine, rules: RuleList, left: seq<ListedProcess>)
    requires left != []
    ensures match LoadProcess(m, left[0])
            case Failure(e) => LoadRest(m, rules, left) == Failure(e)
            case Success(entry) => LoadRest(m, rules, left) == LoadRest(m, rules + [entry], left[1..])
  {
    var entry, rest := LoadProcess(m, left[0]), LoadProcesses(m, left[1..]);
    if entry.Success? && rest.Success? {
      ConcatAssociative(rules, [entry.value], rest.value);
    }
  }

  /** The paths rewritten so far and those still to be rewritten. */
  ghost function PathsRest(m: Machine, paths: seq<NtStr>, left: seq<NtStr>): Result<seq<NtStr>> {
    var rest :- LoadPaths(m, left);
    Success(paths + rest)
  }

  lemma PathsRestStart(m: Machine, values: seq<NtStr>)
    ensures PathsRest(m, [], values) == LoadPaths(m, values)
  {
    var r := LoadPaths(m, values);
    if r.Success? {
      assert [] + r.value == r.value;
    }
  }

  lemma PathsRestStep(m: Machine, paths: seq<NtStr>, left: seq<NtStr>)
    requires left != []
    ensures match Prepared(m, left[0])
            case Failure(e) => PathsRest(m, paths, left) == Failure(e)
            case Success(path) => PathsRest(m, paths, left) == PathsRest(m, paths + [path], left[1..])
  {
    var path, rest := Prepared(m, left[0]), LoadPaths(m, left[1..]);
    if path.Success? && rest.Success? {
      assert LoadPaths(m, left) == Success([path.value] + rest.value);
      ConcatAssociative(paths, [path.value], rest.value);
    }
  }

  class RulesManager {
    const machine: Machine
    var denyRules: RuleList
    var readOnlyRules: RuleList

    /** The two lists as a store value. */
    ghost function Contents(): Store
      reads this
    {
      Store(denyRules, readOnlyRules)
    }

    /** Both lists are upper-case and name each process once. */
    ghost predicate Valid()
      reads this
    {
      StoreInv(machine.up, Contents())
    }

    constructor (m: Machine)
      ensures machine == m && Contents() == EMPTY_STORE && Valid()
    {
      machine := m;
      denyRules, readOnlyRules := [], [];
    }

    /** `init_rules` over the listed type keys. */
    method InitRules(types: seq<ListedType>) returns (r: Result<()>)
      modifies this
      ensures Outcome(Contents(), r) == LoadTypes(machine, types, old(Contents()))
      ensures old(Valid()) && ListingOk(machine.up, types) ==> Valid()
    {
      ListingKeepsInv(machine, types, Contents());
      var t := 0;
      assert types[0..] == types;
      while t < |types|
        invariant 0 <= t <= |types|
        invariant LoadTypes(machine, types[t..], Contents()) == LoadTypes(machine, types, old(Contents()))
      {
        assert types[t..][0] == types[t] && types[t..][1..] == types[t + 1..];
        var action :- ActionOfName(machine.up, types[t].name);
        var rules :- LoadRules(types[t].processes);
        match action {
          case Deny => denyRules := rules;
          case ReadOnly => readOnlyRules := rules;
          case Bypass =>
        }
        t := t + 1;
      }
      return Success(());
    }

    /** The loop of `init_rules` over the process keys of a type. */
    method LoadRules(processes: seq<ListedProcess>) returns (r: Result<RuleList>)
      ensures r == LoadProcesses(machine, processes)
    {
      var rules: RuleList := [];
      var i := 0;
      assert processes[0..] == processes;
      LoadRestStart(machine, processes);
      while i < |processes|
        invariant 0 <= i <= |processes|
        invariant LoadRest(machine, rules, processes[i..]) == LoadProcesses(machine, processes)
      {
        assert processes[i..][0] == processes[i] && processes[i..][1..] == processes[i + 1..];
        LoadRestStep(machine, rules, processes[i..]);
        var filePaths :- RewritePaths(processes[i].values);
        rules := rules + [FileAccessEntry(Upper(machine.up, processes[i].name), filePaths)];
        i := i + 1;
      }
      assert rules + [] == rules;
      return Success(rules);
    }

    /** Every value name of a process key is rewritten to its stored form. */
    method RewritePaths(values: seq<NtStr>) returns (r: Result<seq<NtStr>>)
      ensures r == LoadPaths(machine, values)
    {
      var filePaths: seq<NtStr> := [];
      var k := 0;
      assert values[0..] == values;
      PathsRestStart(machine, values);
      while k < |values|
        invariant 0 <= k <= |values|
        invariant PathsRest(machine, filePaths, values[k..]) == LoadPaths(machine, values)
      {
        assert values[k..][0] == values[k] && values[k..][1..] == values[k + 1..];
        PathsRestStep(machine, filePaths, values[k..]);
        var path :- PrepareRuleFilePath(machine, values[k], {});
        filePaths := filePaths + [path];
        k := k + 1;
      }
      assert filePaths + [] == filePaths;
      return Success(filePaths);
    }

    /** `add_file_to_process_rules` with its implementation for the list of the type. */
    method AddFileToProcessRules(rulesType: Action, processName: NtStr, filePath: NtStr, refused: Refusals)
      returns (r: Result<()>)
      modifies this
      ensures rulesType == Bypass ==> r.Success? && Contents() == old(Contents())
      ensures rulesType != Bypass ==>
                match AddFile(machine.up, old(Contents()).Rules(rulesType), processName, filePath, refused)
                case Failure(e) => r == Failure(e) && Contents() == old(Contents())
                case Success(rules) => r.Success? && Contents() == old(Contents()).With(rulesType, rules)
    {
      if rulesType == Bypass {
        return Success(());
      }
      var _ :- Granted(CopyProcessName, refused);
      var _ :- Granted(UpcaseProcessName, refused);
      var upcase := Upper(machine.up, processName);
      var rules := if rulesType == Deny then denyRules else readOnlyRules;
      var found := FindEntry(machine.up, rules, upcase);
      var _ :- Granted(PushPath, refused);
      if found.Some? {
        var entry := rules[found.value];
        rules := rules[found.value := entry.(filePaths := entry.filePaths + [filePath])];
      } else {
        var _ :- Granted(PushEntry, refused);
        rules := rules + [FileAccessEntry(upcase, [filePath])];
      }
      Replace(rulesType, rules);
      return Success(());
    }

    /** Store the changed list of a type. */
    method Replace(rulesType: Action, rules: RuleList)
      requires rulesType != Bypass
      modifies this
      ensures Contents() == old(Contents()).With(rulesType, rules)
    {
      if rulesType == Deny {
        denyRules := rules;
      } else {
        readOnlyRules := rules;
      }
    }

    /** `remove_file_from_process_rules`. */
    method RemoveFileFromProcessRules(rulesType: Action, processName: NtStr, filePath: NtStr)
      modifies this
      ensures Contents() == old(Contents()).With(rulesType,
                RemoveFile(machine.up, old(Contents()).Rules(rulesType), processName, filePath))
    {
      if rulesType == Bypass {
        return;
      }
      var rules := if rulesType == Deny then denyRules else readOnlyRules;
      var found := FindEntry(machine.up, rules, processName);
      if found.Some? {
        var entry := rules[found.value];
        var pos := FindPath(machine.up, entry.filePaths, filePath);
        if pos.Some? {
          Replace(rulesType, rules[found.value := entry.(filePaths := RemoveAt(entry.filePaths, pos.value))]);
        }
      }
    }

    /** `clear_rules_for_process`. */
    method ClearRulesForProcess(rulesType: Action, processName: NtStr)
      modifies this
      ensures Contents() == old(Contents()).With(rulesType,
                ClearProcess(machine.up, old(Contents()).Rules(rulesType), processName))
    {
      if rulesType == Bypass {
        return;
      }
      var rules := if rulesType == Deny then denyRules else readOnlyRules;
      var pos := FindEntry(machine.up, rules, processName);
      if pos.Some? {
        Replace(rulesType, RemoveAt(rules, pos.value));
      }
    }

    /** `rename_process_rules`: the new name is copied before anything is looked up. */
    method RenameProcessRules(rulesType: Action, oldName: NtStr, newName: NtStr,
                              refused: Refusals) returns (r: Result<()>)
      modifies this
      ensures rulesType == Bypass ==> r.Success? && Contents() == old(Contents())
      ensures rulesType != Bypass ==>
                match RenameProcess(machine.up, old(Contents()).Rules(rulesType), oldName, newName, refused)
                case Failure(e) => r == Failure(e) && Contents() == old(Contents())
                case Success(rules) => r.Success? && Contents() == old(Contents()).With(rulesType, rules)
    {
      if rulesType == Bypass {
        return Success(());
      }
      var _ :- Granted(CopyProcessName, refused);
      var _ :- Granted(UpcaseProcessName, refused);
      var rules := if rulesType == Deny then denyRules else readOnlyRules;
      var found := FindEntry(machine.up, rules, oldName);
      if found.Some? {
        var entry := rules[found.value];
        Replace(rulesType, rules[found.value := entry.(processName := Upper(machine.up, newName))]);
      }
      return Success(());
    }

    /** Other threads have their turn and leave the lists of `now`: between two reads no lock is held. */
    method OthersRun(now: Store)
      modifies this
      ensures Contents() == now
    {
      denyRules, readOnlyRules := now.deny, now.readOnly;
    }

    /**
      * `search_rule_action`. The lock of the deny list is dropped before the other one is taken; `later` is what
      * other threads have made of the lists by then.
      */
    method SearchRuleAction(processName: NtStr, filePath: NtStr, later: Store) returns (action: Action)
      modifies this
      ensures action == FirstHit(machine.up, SearchQueries(processName, filePath), [old(Contents()), later])
      ensures action == Deny <==> FirstFitCovers(machine.up, old(denyRules), processName, filePath)
      ensures action == ReadOnly <==> && !FirstFitCovers(machine.up, old(denyRules), processName, filePath)
                                      && FirstFitCovers(machine.up, later.readOnly, processName, filePath)
      ensures Contents() == if action == Deny then old(Contents()) else later
    {
      SearchReadsTwo(machine.up, processName, filePath, [Contents(), later]);
      SearchMeaning(machine.up, Store(denyRules, later.readOnly), processName, filePath);
      if SearchRule(machine.up, denyRules, processName, filePath) {
        return Deny;
      }
      OthersRun(later);
      if SearchRule(machine.up, readOnlyRules, processName, filePath) {
        return ReadOnly;
      }
      return Bypass;
    }

    /** `set_key_value_rule`. */
    method SetKeyValueRule(keyPath: NtStr, valueName: NtStr, refused: Refusals) returns (r: Result<()>)
      modifies this
      ensures Outcome(Contents(), r) == SetKeyValue(machine, old(Contents()), keyPath, valueName, refused)
      ensures r.Failure? ==> Contents() == old(Contents())
      ensures old(Valid()) ==> Valid()
    {
      FailedEventsChangeNothing(machine, Contents(), keyPath, valueName, refused);
      if Valid() {
        SetKeepsValid(machine, Contents(), keyPath, valueName, refused);
      }
      var _ :- Granted(CopyValueName, refused);
      var filePath :- PrepareRuleFilePath(machine, valueName, refused);
      var key :- Parse(machine.up, keyPath);
      if NamesProcess(key) {
        var _ :- AddFileToProcessRules(key.ruleType.value, key.processName.value, filePath, refused);
        var _ :- NameOfAction(key.ruleType.value);
      }
      return Success(());
    }

    /** `delete_key_value_rule`. */
    method DeleteKeyValueRule(keyPath: NtStr, valueName: NtStr, refused: Refusals) returns (r: Result<()>)
      modifies this
      ensures Outcome(Contents(), r) == DeleteKeyValue(machine, old(Contents()), keyPath, valueName, refused)
      ensures r.Failure? ==> Contents() == old(Contents())
      ensures old(Valid()) ==> Valid()
    {
      FailedEventsChangeNothing(machine, Contents(), keyPath, valueName, refused);
      if Valid() {
        DeleteKeepsValid(machine, Contents(), keyPath, valueName, refused);
      }
      var _ :- Granted(CopyValueName, refused);
      var filePath :- PrepareRuleFilePath(machine, valueName, refused);
      var key :- Parse(machine.up, keyPath);
      if NamesProcess(key) {
        RemoveFileFromProcessRules(key.ruleType.value, key.processName.value, filePath);
        var _ :- NameOfAction(key.ruleType.value);
      }
      return Success(());
    }

    /** `delete_key_rules`. */
    method DeleteKeyRules(keyPath: NtStr) returns (r: Result<()>)
      modifies this
      ensures Outcome(Contents(), r) == DeleteKey(machine, old(Contents()), keyPath)
      ensures r.Failure? ==> Contents() == old(Contents())
      ensures old(Valid()) ==> Valid()
    {
      FailedEventsChangeNothing(machine, Contents(), keyPath, [], {});
      if Valid() {
        ClearKeepsValid(machine, Contents(), keyPath);
      }
      var key :- Parse(machine.up, keyPath);
      if NamesProcess(key) {
        ClearRulesForProcess(key.ruleType.value, key.processName.value);
        var _ :- NameOfAction(key.ruleType.value);
      }
      return Success(());
    }

    /** `rename_key_rules`: the names stay distinct exactly when the new one is not taken. */
    method RenameKeyRules(keyPath: NtStr, newKeyName: NtStr, refused: Refusals) returns (r: Result<()>)
      modifies this
      ensures Outcome(Contents(), r) == RenameKey(machine, old(Contents()), keyPath, newKeyName, refused)
      ensures r.Failure? ==> Contents() == old(Contents())
      ensures old(Valid()) && r.Success?
              ==> (Valid() <==> RenameIsFree(machine.up, old(Contents()), keyPath, newKeyName))
    {
      FailedEventsChangeNothing(machine, Contents(), keyPath, newKeyName, refused);
      if Valid() && RenameKey(machine, Contents(), keyPath, newKeyName, refused).result.Success? {
        RenameKeepsValidIff(machine, Contents(), keyPath, newKeyName, refused);
      }
      var key :- Parse(machine.up, keyPath);
      if NamesProcess(key) {
        var _ :- RenameProcessRules(key.ruleType.value, key.processName.value, newKeyName, refused);
        var _ :- NameOfAction(key.ruleType.value);
      }
      return Success(());
    }
  }
}
