/** Loading the registry agrees with setting its values one by one. */
module RegistryReplay {
  import opened Wrappers
  import opened NtStrings
  import opened PathUtils
  import opened RuleKeys
  import opened RulePaths
  import opened Rules
  import opened RuleEvents
  import opened RegistryTracking
  import opened RegistryLoad

  // ---------- replaying a listing through set_key_value_rule ----------

  function ReplayValues(m: Machine, store: Store, keyPath: NtStr, values: seq<NtStr>): Store
    decreases |values|
  {
    if values == [] then store
    else ReplayValues(m, SetKeyValue(m, store, keyPath, values[0], {}).store, keyPath, values[1..])
  }

  function ReplayProcesses(m: Machine, store: Store, typeName: NtStr, processes: seq<ListedProcess>): Store
    decreases |processes|
  {
    if processes == [] then store
    else
      var next := ReplayValues(m, store, PathOf(typeName, processes[0].name), processes[0].values);
      ReplayProcesses(m, next, typeName, processes[1..])
  }

  function ReplayTypes(m: Machine, store: Store, types: seq<ListedType>): Store
    decreases |types|
  {
    if types == [] then store
    else ReplayTypes(m, ReplayProcesses(m, store, types[0].name, types[0].processes), types[1..])
  }

  /** The processes that have a value. */
  function NonEmpty(processes: seq<ListedProcess>): seq<ListedProcess> {
    if processes == [] then []
    else (if processes[0].values == [] then [] else [processes[0]]) + NonEmpty(processes[1..])
  }

  function WithoutEmpty(types: seq<ListedType>): (r: seq<ListedType>)
    ensures |r| == |types|
    ensures forall t | 0 <= t < |types| :: r[t] == ListedType(types[t].name, NonEmpty(types[t].processes))
  {
    seq(|types|, t requires 0 <= t < |types| => ListedType(types[t].name, NonEmpty(types[t].processes)))
  }

  // ---------- one process ----------

  lemma SetOnListedKey(m: Machine, store: Store, typeName: NtStr, action: Action, name: NtStr, value: NtStr)
    requires ActionOfName(m.up, typeName) == Success(action) && BACKSLASH !in name
    requires |PathOf(typeName, name)| <= MAX_UNITS && Prepared(m, value).Success?
    ensures action != Bypass
    ensures AddFile(m.up, store.Rules(action), name, Prepared(m, value).value, {}).Success?
    ensures SetKeyValue(m, store, PathOf(typeName, name), value, {}).store
         == store.With(action, AddFile(m.up, store.Rules(action), name, Prepared(m, value).value, {}).value)
  {
    ListedPathParses(m.up, typeName, name);
    ActionNamesHaveNoBackslash(m.up, typeName);
  }

  lemma AddToLast(up: CaseTable, before: RuleList, name: NtStr, paths: seq<NtStr>, path: NtStr)
    requires !HasName(up, before, name)
    ensures AddFile(up, before + [FileAccessEntry(Upper(up, name), paths)], name, path, {})
         == Success(before + [FileAccessEntry(Upper(up, name), paths + [path])])
  {
    var rules := before + [FileAccessEntry(Upper(up, name), paths)];
    UpperIdempotent(up, name);
    forall j | 0 <= j < |before|
      ensures !EqualsNoCase(up, rules[j].processName, Upper(up, name))
    {
      assert !EqualsNoCase(up, before[j].processName, name);
    }
    FindEntryUnique(up, rules, Upper(up, name), |before|);
    var entry := rules[|before|];
    assert rules[|before| := entry.(filePaths := paths + [path])]
        == before + [FileAccessEntry(Upper(up, name), paths + [path])];
  }

  lemma AddNew(up: CaseTable, before: RuleList, name: NtStr, path: NtStr)
    requires !HasName(up, before, name)
    ensures AddFile(up, before, name, path, {}) == Success(before + [FileAccessEntry(Upper(up, name), [path])])
  {
  }

  /** The remaining values all go to the entry the first one made. */
  lemma {:induction false} ReplayTail(m: Machine, store: Store, typeName: NtStr, action: Action, name: NtStr,
                                      before: RuleList, paths: seq<NtStr>, values: seq<NtStr>)
    requires ActionOfName(m.up, typeName) == Success(action) && BACKSLASH !in name
    requires |PathOf(typeName, name)| <= MAX_UNITS && AllPrepared(m, values)
    requires !HasName(m.up, before, name)
    requires store.Rules(action) == before + [FileAccessEntry(Upper(m.up, name), paths)]
    ensures ReplayValues(m, store, PathOf(typeName, name), values)
         == store.With(action, before + [FileAccessEntry(Upper(m.up, name), paths + PreparedAll(m, values))])
    decreases |values|
  {
    if values == [] {
      assert paths + PreparedAll(m, values) == paths;
      ActionNamesHaveNoBackslash(m.up, typeName);
    } else {
      var path, rest := Prepared(m, values[0]).value, values[1..];
      var next := ReplayOne(m, store, typeName, action, name, before, paths, values[0]);
      PreparedAllFirst(m, values, rest);
      ReplayTail(m, next, typeName, action, name, before, paths + [path], rest);
      ConcatAssociative(paths, [path], PreparedAll(m, rest));
      assert ReplayValues(m, store, PathOf(typeName, name), values)
          == ReplayValues(m, next, PathOf(typeName, name), rest);
    }
  }

  lemma ReplayOne(m: Machine, store: Store, typeName: NtStr, action: Action, name: NtStr,
                  before: RuleList, paths: seq<NtStr>, value: NtStr) returns (next: Store)
    requires ActionOfName(m.up, typeName) == Success(action) && BACKSLASH !in name
    requires |PathOf(typeName, name)| <= MAX_UNITS && Prepared(m, value).Success?
    requires !HasName(m.up, before, name)
    requires store.Rules(action) == before + [FileAccessEntry(Upper(m.up, name), paths)]
    ensures next == SetKeyValue(m, store, PathOf(typeName, name), value, {}).store && action != Bypass
    ensures next == store.With(action, before
            + [FileAccessEntry(Upper(m.up, name), paths + [Prepared(m, value).value])])
  {
    SetOnListedKey(m, store, typeName, action, name, value);
    AddToLast(m.up, before, name, paths, Prepared(m, value).value);
    next := SetKeyValue(m, store, PathOf(typeName, name), value, {}).store;
  }

  /** Replaying the values of a new process appends the entry that loading it makes. */
  lemma ReplayProcess(m: Machine, store: Store, typeName: NtStr, action: Action, process: ListedProcess)
    requires ActionOfName(m.up, typeName) == Success(action) && BACKSLASH !in process.name
    requires |PathOf(typeName, process.name)| <= MAX_UNITS && LoadProcess(m, process).Success?
    requires !HasName(m.up, store.Rules(action), process.name) && process.values != []
    ensures ReplayValues(m, store, PathOf(typeName, process.name), process.values)
         == store.With(action, store.Rules(action) + [LoadProcess(m, process).value])
  {
    var values, before := process.values, store.Rules(action);
    var path := Prepared(m, values[0]).value;
    SetOnListedKey(m, store, typeName, action, process.name, values[0]);
    AddNew(m.up, before, process.name, path);
    var next := store.With(action, before + [FileAccessEntry(Upper(m.up, process.name), [path])]);
    ReplayTail(m, next, typeName, action, process.name, before, [path], values[1..]);
    assert PreparedAll(m, values) == [path] + PreparedAll(m, values[1..]);
  }

  // ---------- one type ----------

  lemma NameAfterAppend(up: CaseTable, rules: RuleList, entry: FileAccessEntry, name: NtStr)
    requires HasName(up, rules + [entry], name)
    ensures HasName(up, rules, name) || EqualsNoCase(up, entry.processName, name)
  {
  }

  lemma {:induction false} ReplayType(m: Machine, store: Store, typeName: NtStr, action: Action,
                                      processes: seq<ListedProcess>)
    requires ActionOfName(m.up, typeName) == Success(action) && ProcessesOk(m.up, typeName, processes)
    requires LoadProcesses(m, processes).Success?
    requires forall i | 0 <= i < |processes| :: !HasName(m.up, store.Rules(action), processes[i].name)
    ensures LoadProcesses(m, NonEmpty(processes)).Success?
    ensures ReplayProcesses(m, store, typeName, processes)
         == store.With(action, store.Rules(action) + LoadProcesses(m, NonEmpty(processes)).value)
    decreases |processes|
  {
    ActionNamesHaveNoBackslash(m.up, typeName);
    if processes == [] {
      assert store.Rules(action) + [] == store.Rules(action);
    } else {
      var process, rest := processes[0], processes[1..];
      var before := store.Rules(action);
      assert forall i | 0 <= i < |rest| :: rest[i] == processes[i + 1];
      assert LoadProcess(m, process).Success?;
      if process.values == [] {
        ReplayType(m, store, typeName, action, rest);
        assert NonEmpty(processes) == NonEmpty(rest);
      } else {
        var entry := LoadProcess(m, process).value;
        ReplayProcess(m, store, typeName, action, process);
        UpperIdempotent(m.up, process.name);
        forall i | 0 <= i < |rest|
          ensures !HasName(m.up, before + [entry], rest[i].name)
        {
          assert !EqualsNoCase(m.up, process.name, processes[i + 1].name);
          if HasName(m.up, before + [entry], rest[i].name) {
            NameAfterAppend(m.up, before, entry, rest[i].name);
          }
        }
        ReplayType(m, store.With(action, before + [entry]), typeName, action, rest);
        assert NonEmpty(processes)[1..] == NonEmpty(rest);
        ConcatAssociative(before, [entry], LoadProcesses(m, NonEmpty(rest)).value);
      }
    }
  }

  // ---------- the whole listing ----------

  /** The lists of the types still to come are empty. */
  ghost predicate StillEmpty(up: CaseTable, store: Store, types: seq<ListedType>)
    requires ListingOk(up, types)
  {
    forall t | 0 <= t < |types| :: store.Rules(ActionOfName(up, types[t].name).value) == []
  }

  lemma ListingTail(up: CaseTable, store: Store, types: seq<ListedType>, rules: RuleList)
    requires types != [] && ListingOk(up, types) && StillEmpty(up, store, types)
    ensures ListingOk(up, types[1..])
    ensures StillEmpty(up, store.With(ActionOfName(up, types[0].name).value, rules), types[1..])
  {
  }

  lemma {:induction false} ReplayListing(m: Machine, store: Store, types: seq<ListedType>)
    requires ListingOk(m.up, types) && StillEmpty(m.up, store, types)
    requires forall t | 0 <= t < |types| :: LoadProcesses(m, types[t].processes).Success?
    ensures LoadTypes(m, WithoutEmpty(types), store) == Outcome(ReplayTypes(m, store, types), Success(()))
    decreases |types|
  {
    if types != [] {
      var action, rest := ActionOfName(m.up, types[0].name).value, types[1..];
      ReplayType(m, store, types[0].name, action, types[0].processes);
      var rules := LoadProcesses(m, NonEmpty(types[0].processes)).value;
      assert store.Rules(action) + rules == rules;
      ListingTail(m.up, store, types, rules);
      ReplayListing(m, store.With(action, rules), rest);
      assert WithoutEmpty(types)[1..] == WithoutEmpty(rest);
    }
  }

  lemma {:induction false} LoadedLists(m: Machine, types: seq<ListedType>, store: Store, t: nat)
    requires LoadTypes(m, types, store).result.Success? && t < |types|
    ensures LoadProcesses(m, types[t].processes).Success?
  {
    var rules := LoadProcesses(m, types[0].processes);
    if t > 0 {
      var rest := types[1..];
      LoadedLists(m, rest, store.With(ActionOfName(m.up, types[0].name).value, rules.value), t - 1);
      assert rest[t - 1] == types[t];
    }
  }

  predicate NoneEmpty(processes: seq<ListedProcess>) {
    forall i | 0 <= i < |processes| :: processes[i].values != []
  }

  lemma NoneEmptyFirst(processes: seq<ListedProcess>)
    requires processes != []
    ensures NoneEmpty(processes) <==> processes[0].values != [] && NoneEmpty(processes[1..])
  {
  }

  lemma {:induction false} NonEmptyShorter(processes: seq<ListedProcess>)
    ensures |NonEmpty(processes)| <= |processes|
    ensures |NonEmpty(processes)| == |processes| <==> NoneEmpty(processes)
    ensures NoneEmpty(processes) ==> NonEmpty(processes) == processes
  {
    if processes != [] {
      NonEmptyShorter(processes[1..]);
      NoneEmptyFirst(processes);
    }
  }

  ghost predicate EveryKeyHasAValue(types: seq<ListedType>) {
    forall t | 0 <= t < |types| :: NoneEmpty(types[t].processes)
  }

  /**
    * Replaying a listing builds, entry by entry and in order, the load of the listing without its empty process
    * keys.
    */
  lemma ReplayIsLoadWithoutEmptyKeys(m: Machine, types: seq<ListedType>)
    requires ListingOk(m.up, types) && LoadTypes(m, types, EMPTY_STORE).result.Success?
    ensures LoadTypes(m, WithoutEmpty(types), EMPTY_STORE) == Outcome(ReplayTypes(m, EMPTY_STORE, types), Success(()))
  {
    forall t | 0 <= t < |types|
      ensures LoadProcesses(m, types[t].processes).Success?
    {
      LoadedLists(m, types, EMPTY_STORE, t);
    }
    ReplayListing(m, EMPTY_STORE, types);
  }

  /** A type with an empty key loads to a longer list than without it. */
  lemma EmptyKeyTells(m: Machine, types: seq<ListedType>, t: nat)
    requires ListingOk(m.up, types) && LoadTypes(m, types, EMPTY_STORE).result.Success?
    requires LoadTypes(m, WithoutEmpty(types), EMPTY_STORE).result.Success?
    requires t < |types| && !NoneEmpty(types[t].processes)
    ensures LoadTypes(m, types, EMPTY_STORE).store != LoadTypes(m, WithoutEmpty(types), EMPTY_STORE).store
  {
    LoadTypesAt(m, types, EMPTY_STORE, t);
    SameListingWithoutEmpty(m.up, types);
    LoadTypesAt(m, WithoutEmpty(types), EMPTY_STORE, t);
    NonEmptyShorter(types[t].processes);
  }

  /** So loading equals replay exactly when every process key has a value. */
  lemma LoadEqualsReplayIff(m: Machine, types: seq<ListedType>)
    requires ListingOk(m.up, types) && LoadTypes(m, types, EMPTY_STORE).result.Success?
    ensures LoadTypes(m, types, EMPTY_STORE).store == ReplayTypes(m, EMPTY_STORE, types) <==> EveryKeyHasAValue(types)
  {
    ReplayIsLoadWithoutEmptyKeys(m, types);
    if EveryKeyHasAValue(types) {
      forall t | 0 <= t < |types|
        ensures WithoutEmpty(types)[t] == types[t]
      {
        NonEmptyShorter(types[t].processes);
      }
      assert WithoutEmpty(types) == types;
    } else {
      var t :| 0 <= t < |types| && !NoneEmpty(types[t].processes);
      EmptyKeyTells(m, types, t);
    }
  }

  lemma {:induction false} NonEmptyComesFrom(processes: seq<ListedProcess>, i: nat, j: nat) returns (i': nat, j': nat)
    requires i < j < |NonEmpty(processes)|
    ensures i' < j' < |processes| && NonEmpty(processes)[i] == processes[i'] && NonEmpty(processes)[j] == processes[j']
  {
    if processes[0].values == [] {
      i', j' := NonEmptyComesFrom(processes[1..], i, j);
      i', j' := i' + 1, j' + 1;
    } else if i > 0 {
      i', j' := NonEmptyComesFrom(processes[1..], i - 1, j - 1);
      i', j' := i' + 1, j' + 1;
    } else {
      j' := NonEmptyAt(processes[1..], j - 1);
      i', j' := 0, j' + 1;
    }
  }

  lemma {:induction false} NonEmptyAt(processes: seq<ListedProcess>, j: nat) returns (j': nat)
    requires j < |NonEmpty(processes)|
    ensures j' < |processes| && NonEmpty(processes)[j] == processes[j']
  {
    if processes[0].values != [] && j == 0 {
      j' := 0;
    } else {
      j' := NonEmptyAt(processes[1..], if processes[0].values == [] then j else j - 1);
      j' := j' + 1;
    }
  }

  lemma SameListingWithoutEmpty(up: CaseTable, types: seq<ListedType>)
    requires ListingOk(up, types)
    ensures ListingOk(up, WithoutEmpty(types))
  {
    forall t | 0 <= t < |types|
      ensures ProcessesOk(up, types[t].name, NonEmpty(types[t].processes))
    {
      var processes := types[t].processes;
      var kept := NonEmpty(processes);
      forall i | 0 <= i < |kept|
        ensures BACKSLASH !in kept[i].name && |PathOf(types[t].name, kept[i].name)| <= MAX_UNITS
        ensures DistinctValues(up, kept[i].values)
      {
        var i' := NonEmptyAt(processes, i);
      }
      forall i, j | 0 <= i < j < |kept|
        ensures !EqualsNoCase(up, kept[i].name, kept[j].name)
      {
        var i', j' := NonEmptyComesFrom(processes, i, j);
      }
    }
  }
}
