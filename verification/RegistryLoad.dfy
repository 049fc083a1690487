/** Loading the rules from the registry at start-up, as functions (src/rules_manager.rs:155-245). */
module RegistryLoad {
  import opened Wrappers
  import opened NtStrings
  import opened PathUtils
  import opened RuleKeys
  import opened RulePaths
  import opened Rules
  import opened RuleEvents
  import opened RegistryTracking

  /** A process key and a rule type key as the enumeration lists them. */
  datatype ListedProcess = ListedProcess(name: NtStr, values: seq<NtStr>)
  datatype ListedType = ListedType(name: NtStr, processes: seq<ListedProcess>)

  /** The stored forms of a key's values, or the first error. */
  function LoadPaths(m: Machine, values: seq<NtStr>): (r: Result<seq<NtStr>>)
    ensures r.Success? <==> AllPrepared(m, values)
    ensures r.Success? ==> r.value == PreparedAll(m, values)
  {
    if values == [] then Success([])
    else
      PreparedAllFirst(m, values, values[1..]);
      var path :- Prepared(m, values[0]);
      var rest :- LoadPaths(m, values[1..]);
      Success([path] + rest)
  }

  function LoadProcess(m: Machine, process: ListedProcess): Result<FileAccessEntry> {
    var paths :- LoadPaths(m, process.values);
    Success(FileAccessEntry(Upper(m.up, process.name), paths))
  }

  function LoadProcesses(m: Machine, processes: seq<ListedProcess>): (r: Result<RuleList>)
    ensures r.Success? <==> forall i | 0 <= i < |processes| :: LoadProcess(m, processes[i]).Success?
    ensures r.Success? ==> |r.value| == |processes|
                           && forall i | 0 <= i < |processes| :: r.value[i] == LoadProcess(m, processes[i]).value
  {
    if processes == [] then Success([])
    else
      var entry :- LoadProcess(m, processes[0]);
      var rest :- LoadProcesses(m, processes[1..]);
      assert forall i | 1 <= i < |processes| :: processes[i] == processes[1..][i - 1];
      Success([entry] + rest)
  }

  /** `init_rules`: each type key replaces the list of its type; the first error ends the loop. */
  function LoadTypes(m: Machine, types: seq<ListedType>, store: Store): Outcome {
    if types == [] then Outcome(store, Success(()))
    else
      match ActionOfName(m.up, types[0].name)
      case Failure(e) => Outcome(store, Failure(e))
      case Success(action) =>
        match LoadProcesses(m, types[0].processes)
        case Failure(e) => Outcome(store, Failure(e))
        case Success(rules) => LoadTypes(m, types[1..], store.With(action, rules))
  }

  /** `init`: a missing object is taken for a missing rules key. */
  function Init(m: Machine, types: seq<ListedType>, store: Store): Outcome {
    var loaded := LoadTypes(m, types, store);
    if loaded.result.Failure? && loaded.result.error == ObjectNameNotFound then Outcome(loaded.store, Success(()))
    else loaded
  }

  // ---------- what the registry guarantees about a listing ----------

  ghost predicate ProcessesOk(up: CaseTable, typeName: NtStr, processes: seq<ListedProcess>) {
    && (forall i | 0 <= i < |processes| ::
          && BACKSLASH !in processes[i].name
          && |PathOf(typeName, processes[i].name)| <= MAX_UNITS
          && DistinctValues(up, processes[i].values))
    && (forall i, j | 0 <= i < j < |processes| :: !EqualsNoCase(up, processes[i].name, processes[j].name))
  }

  /** Only the two known type keys, each once. */
  ghost predicate ListingOk(up: CaseTable, types: seq<ListedType>) {
    && (forall i | 0 <= i < |types| ::
          ActionOfName(up, types[i].name).Success? && ProcessesOk(up, types[i].name, types[i].processes))
    && (forall i, j | 0 <= i < j < |types| :: ActionOfName(up, types[i].name) != ActionOfName(up, types[j].name))
  }

  /** The full path of a listed process key. */
  function PathOf(typeName: NtStr, processName: NtStr): NtStr {
    RULES_KEY_PATH + [BACKSLASH] + typeName + [BACKSLASH] + processName
  }

  lemma ListedPathParses(up: CaseTable, typeName: NtStr, processName: NtStr)
    requires ActionOfName(up, typeName).Success? && BACKSLASH !in processName
    requires |PathOf(typeName, processName)| <= MAX_UNITS
    ensures Parse(up, PathOf(typeName, processName))
         == Success(RuleKeyPath(Some(ActionOfName(up, typeName).value), Some(processName)))
  {
    var keyPath, action := PathOf(typeName, processName), ActionOfName(up, typeName).value;
    assert keyPath[|RULES_KEY_PATH| + 1..] == typeName + [BACKSLASH] + processName;
    assert IsTwoPart(up, keyPath, action, processName, typeName);
    TwoPartParses(up, keyPath, action, processName, typeName);
  }

  // ---------- the loaded store tracks the registry ----------

  function KeyOf(up: CaseTable, action: Action, process: ListedProcess): ProcessKey {
    ProcessKey(action, Upper(up, process.name))
  }

  /** The processes are exactly the registry's keys of the type, with their values. */
  ghost predicate ListsType(up: CaseTable, reg: Registry, action: Action, processes: seq<ListedProcess>) {
    && (forall i | 0 <= i < |processes| ::
          KeyOf(up, action, processes[i]) in reg && reg[KeyOf(up, action, processes[i])] == processes[i].values)
    && (forall k | k in reg && k.action == action :: exists i | 0 <= i < |processes| ::
         k == KeyOf(up, action, processes[i]))
  }

  /** The listing is an enumeration of the registry. */
  ghost predicate Lists(up: CaseTable, reg: Registry, types: seq<ListedType>) {
    && ListingOk(up, types)
    && (forall t | 0 <= t < |types| :: ListsType(up, reg, ActionOfName(up, types[t].name).value, types[t].processes))
    && (forall k | k in reg :: exists t | 0 <= t < |types| :: ActionOfName(up, types[t].name) == Success(k.action))
  }

  lemma LoadedRulesInv(m: Machine, typeName: NtStr, processes: seq<ListedProcess>)
    requires ProcessesOk(m.up, typeName, processes) && LoadProcesses(m, processes).Success?
    ensures RulesInv(m.up, LoadProcesses(m, processes).value)
  {
    var rules := LoadProcesses(m, processes).value;
    forall i | 0 <= i < |rules|
      ensures rules[i].processName == Upper(m.up, processes[i].name) && IsUpper(m.up, rules[i].processName)
      ensures forall k | 0 <= k < |rules[i].filePaths| :: IsUpper(m.up, rules[i].filePaths[k])
    {
      UpperIdempotent(m.up, processes[i].name);
      forall k | 0 <= k < |rules[i].filePaths|
        ensures IsUpper(m.up, rules[i].filePaths[k])
      {
        PrepareIsNormal(m, processes[i].values[k], {});
      }
    }
  }

  lemma LoadedPaths(m: Machine, processes: seq<ListedProcess>, i: nat, name: NtStr)
    requires LoadProcesses(m, processes).Success? && DistinctNames(m.up, LoadProcesses(m, processes).value)
    requires i < |processes| && name == Upper(m.up, processes[i].name)
    ensures AllPrepared(m, processes[i].values)
    ensures PathsOf(m.up, LoadProcesses(m, processes).value, name) == multiset(PreparedAll(m, processes[i].values))
  {
    UpperIdempotent(m.up, processes[i].name);
    PathsAt(m.up, LoadProcesses(m, processes).value, i, name);
  }

  lemma LoadedName(m: Machine, processes: seq<ListedProcess>, q: NtStr) returns (i: nat)
    requires LoadProcesses(m, processes).Success? && HasName(m.up, LoadProcesses(m, processes).value, q)
    ensures i < |processes| && EqualsNoCase(m.up, q, processes[i].name)
  {
    var rules := LoadProcesses(m, processes).value;
    i :| 0 <= i < |rules| && EqualsNoCase(m.up, rules[i].processName, q);
    UpperIdempotent(m.up, processes[i].name);
  }

  lemma LoadedTypeTracks(m: Machine, reg: Registry, action: Action, typeName: NtStr, processes: seq<ListedProcess>)
    requires ProcessesOk(m.up, typeName, processes) && ListsType(m.up, reg, action, processes)
    requires LoadProcesses(m, processes).Success?
    ensures TracksType(m, reg, action, LoadProcesses(m, processes).value)
  {
    var rules := LoadProcesses(m, processes).value;
    LoadedRulesInv(m, typeName, processes);
    forall q | HasName(m.up, rules, q)
      ensures ProcessKey(action, Upper(m.up, q)) in reg
    {
      var i := LoadedName(m, processes, q);
      assert KeyOf(m.up, action, processes[i]) in reg;
    }
    forall k | k in reg && k.action == action
      ensures AllPrepared(m, reg[k]) && PathsOf(m.up, rules, k.process) == multiset(PreparedAll(m, reg[k]))
    {
      var i :| 0 <= i < |processes| && k == KeyOf(m.up, action, processes[i]);
      LoadedPaths(m, processes, i, k.process);
    }
  }

  /** A type without a type key has no process keys, and nothing was loaded for it. */
  lemma UnlistedTypeTracks(m: Machine, reg: Registry, types: seq<ListedType>, action: Action)
    requires Lists(m.up, reg, types) && action != Bypass
    requires forall t | 0 <= t < |types| :: ActionOfName(m.up, types[t].name) != Success(action)
    ensures TracksType(m, reg, action, LoadTypes(m, types, EMPTY_STORE).store.Rules(action))
  {
    LoadTypesFrame(m, types, EMPTY_STORE, action);
    assert forall k | k in reg :: k.action != action;
  }

  /** Loading leaves the lists of the types that are not listed alone. */
  lemma {:induction false} LoadTypesFrame(m: Machine, types: seq<ListedType>, store: Store, action: Action)
    requires forall t | 0 <= t < |types| :: ActionOfName(m.up, types[t].name) != Success(action)
    ensures LoadTypes(m, types, store).store.Rules(action) == store.Rules(action)
  {
    if types != [] && ActionOfName(m.up, types[0].name).Success? && LoadProcesses(m, types[0].processes).Success? {
      LoadTypesFrame(m, types[1..],
                     store.With(ActionOfName(m.up, types[0].name).value,
                         LoadProcesses(m, types[0].processes).value), action);
    }
  }

  /** Each listed type's list is what its processes load to. */
  lemma {:induction false} LoadTypesAt(m: Machine, types: seq<ListedType>, store: Store, t: nat)
    requires ListingOk(m.up, types) && LoadTypes(m, types, store).result.Success? && t < |types|
    ensures LoadProcesses(m, types[t].processes).Success?
    ensures LoadTypes(m, types, store).store.Rules(ActionOfName(m.up, types[t].name).value)
         == LoadProcesses(m, types[t].processes).value
  {
    var action := ActionOfName(m.up, types[0].name).value;
    var next := store.With(action, LoadProcesses(m, types[0].processes).value);
    if t == 0 {
      ActionNamesHaveNoBackslash(m.up, types[0].name);
      forall u | 0 <= u < |types[1..]|
        ensures ActionOfName(m.up, types[1..][u].name) != Success(action)
      {
        assert types[1..][u] == types[u + 1];
      }
      LoadTypesFrame(m, types[1..], next, action);
    } else {
      LoadTypesAt(m, types[1..], next, t - 1);
    }
  }

  lemma LoadTracksType(m: Machine, reg: Registry, types: seq<ListedType>, action: Action)
    requires Lists(m.up, reg, types) && LoadTypes(m, types, EMPTY_STORE).result.Success? && action != Bypass
    ensures TracksType(m, reg, action, LoadTypes(m, types, EMPTY_STORE).store.Rules(action))
  {
    if t :| 0 <= t < |types| && ActionOfName(m.up, types[t].name) == Success(action) {
      LoadTypesAt(m, types, EMPTY_STORE, t);
      LoadedTypeTracks(m, reg, action, types[t].name, types[t].processes);
    } else {
      UnlistedTypeTracks(m, reg, types, action);
    }
  }

  /** A successful load from empty lists tracks the registry it enumerated. */
  lemma LoadTracks(m: Machine, reg: Registry, types: seq<ListedType>)
    requires Lists(m.up, reg, types) && LoadTypes(m, types, EMPTY_STORE).result.Success?
    ensures Tracks(m, reg, LoadTypes(m, types, EMPTY_STORE).store)
  {
    LoadTracksType(m, reg, types, Deny);
    LoadTracksType(m, reg, types, ReadOnly);
  }

  /** Start-up, then any handled run: the store tracks the registry as it has become. */
  lemma LoadedRunTracks(m: Machine, reg: Registry, types: seq<ListedType>, steps: seq<Step>)
    requires RegistryOk(m.up, reg) && Lists(m.up, reg, types)
    requires LoadTypes(m, types, EMPTY_STORE).result.Success?
    requires HandledRun(m, reg, LoadTypes(m, types, EMPTY_STORE).store, steps)
    ensures var end := Final(m, reg, LoadTypes(m, types, EMPTY_STORE).store, steps);
            RegistryOk(m.up, end.0) && Tracks(m, end.0, end.1)
  {
    LoadTracks(m, reg, types);
    RunTracks(m, reg, LoadTypes(m, types, EMPTY_STORE).store, steps);
  }

  lemma TrackedIsPrepared(m: Machine, reg: Registry, types: seq<ListedType>, store: Store)
    requires Lists(m.up, reg, types) && Tracks(m, reg, store)
    ensures AllStored(m, reg)
  {
  }

  /** Loading succeeds exactly when every value in the registry has a stored form. */
  lemma LoadSucceedsIffPrepared(m: Machine, reg: Registry, types: seq<ListedType>)
    requires Lists(m.up, reg, types)
    ensures LoadTypes(m, types, EMPTY_STORE).result.Success? <==> AllStored(m, reg)
  {
    if LoadTypes(m, types, EMPTY_STORE).result.Success? {
      LoadTracks(m, reg, types);
      TrackedIsPrepared(m, reg, types, LoadTypes(m, types, EMPTY_STORE).store);
    }
    if AllStored(m, reg) {
      assert types == types[|types| - |types|..];
      LoadSucceeds(m, reg, types, types, EMPTY_STORE);
    }
  }

  lemma {:induction false} LoadSucceeds(m: Machine, reg: Registry, all: seq<ListedType>,
                                        types: seq<ListedType>, store: Store)
    requires Lists(m.up, reg, all) && AllStored(m, reg)
    requires |types| <= |all| && types == all[|all| - |types|..]
    ensures LoadTypes(m, types, store).result.Success?
    decreases |types|
  {
    if types != [] {
      var t := |all| - |types|;
      assert types[0] == all[t] && types[1..] == all[t + 1..];
      var action := ActionOfName(m.up, types[0].name).value;
      forall i | 0 <= i < |types[0].processes|
        ensures LoadProcess(m, types[0].processes[i]).Success?
      {
        assert KeyOf(m.up, action, all[t].processes[i]) in reg;
      }
      LoadSucceeds(m, reg, all, types[1..], store.With(action, LoadProcesses(m, types[0].processes).value));
    }
  }

  /** Whether loading ran to its end or not, the store tracks the registry exactly when every value can be stored. */
  lemma LoadTracksIff(m: Machine, reg: Registry, types: seq<ListedType>)
    requires Lists(m.up, reg, types)
    ensures Tracks(m, reg, LoadTypes(m, types, EMPTY_STORE).store) <==> AllStored(m, reg)
  {
    if AllStored(m, reg) {
      LoadSucceedsIffPrepared(m, reg, types);
      LoadTracks(m, reg, types);
    }
    if Tracks(m, reg, LoadTypes(m, types, EMPTY_STORE).store) {
      TrackedIsPrepared(m, reg, types, LoadTypes(m, types, EMPTY_STORE).store);
    }
  }

  /**
    * What `init` reports as success need not be a full load: a rule on an unknown drive fails with the very
    * status that `init` reads as "no rules key".
    */
  lemma InitTracksIff(m: Machine, reg: Registry, types: seq<ListedType>)
    requires Lists(m.up, reg, types)
    ensures Init(m, types, EMPTY_STORE).result.Success? ==>
              (Tracks(m, reg, Init(m, types, EMPTY_STORE).store) <==> AllStored(m, reg))
  {
    LoadTracksIff(m, reg, types);
    assert Init(m, types, EMPTY_STORE).store == LoadTypes(m, types, EMPTY_STORE).store;
  }

  /** One value on an unknown drive: `init` succeeds and leaves the list of its type empty. */
  lemma UnknownDriveLoadsNothing(up: CaseTable, processName: NtStr)
    ensures var types := [ListedType(DENY_KEY_NAME, [ListedProcess(processName, [[COLON, COLON]])])];
            Init(Machine(up, map[]), types, EMPTY_STORE) == Outcome(EMPTY_STORE, Success(()))
  {
    var m: Machine := Machine(up, map[]);
    var value: NtStr := [COLON, COLON];
    DiskSpecifiedIffColon(value);
    assert Prepared(m, value) == Failure(ObjectNameNotFound);
    var process := ListedProcess(processName, [value]);
    assert LoadPaths(m, process.values) == Failure(ObjectNameNotFound);
    assert LoadProcesses(m, [process]) == Failure(ObjectNameNotFound);
  }

  // ---------- which errors start-up reports ----------

  lemma {:induction false} PathsFailAt(m: Machine, values: seq<NtStr>, v: nat)
    requires v < |values| && Prepared(m, values[v]).Failure?
    requires forall u | 0 <= u < v :: Prepared(m, values[u]).Success?
    ensures LoadPaths(m, values) == Failure(Prepared(m, values[v]).error)
    decreases v
  {
    if v > 0 {
      PathsFailAt(m, values[1..], v - 1);
    }
  }

  lemma {:induction false} ProcessesFailAt(m: Machine, processes: seq<ListedProcess>, p: nat)
    requires p < |processes| && LoadProcess(m, processes[p]).Failure?
    requires forall q | 0 <= q < p :: LoadProcess(m, processes[q]).Success?
    ensures LoadProcesses(m, processes) == Failure(LoadProcess(m, processes[p]).error)
    decreases p
  {
    if p > 0 {
      ProcessesFailAt(m, processes[1..], p - 1);
    }
  }

  /** The type is known, and all its values can be stored. */
  predicate TypeLoads(m: Machine, t: ListedType) {
    ActionOfName(m.up, t.name).Success? && LoadProcesses(m, t.processes).Success?
  }

  /** The error of a type that does not load. */
  function TypeError(m: Machine, t: ListedType): Status
    requires !TypeLoads(m, t)
  {
    if ActionOfName(m.up, t.name).Failure? then ActionOfName(m.up, t.name).error
    else LoadProcesses(m, t.processes).error
  }

  lemma {:induction false} TypesFailAt(m: Machine, types: seq<ListedType>, store: Store, t: nat)
    requires t < |types| && !TypeLoads(m, types[t]) && forall u | 0 <= u < t :: TypeLoads(m, types[u])
    ensures LoadTypes(m, types, store).result == Failure(TypeError(m, types[t]))
    decreases t
  {
    if t > 0 {
      TypesFailAt(m, types[1..],
                  store.With(ActionOfName(m.up, types[0].name).value, LoadProcesses(m, types[0].processes).value), t
                      - 1);
    }
  }

  lemma {:induction false} TypesLoad(m: Machine, types: seq<ListedType>, store: Store)
    requires forall t | 0 <= t < |types| :: TypeLoads(m, types[t])
    ensures LoadTypes(m, types, store).result.Success?
  {
    if types != [] {
      TypesLoad(m, types[1..],
                store.With(ActionOfName(m.up, types[0].name).value, LoadProcesses(m, types[0].processes).value));
    }
  }

  /** Everything before this value can be stored. */
  ghost predicate LoadsUpTo(m: Machine, types: seq<ListedType>, t: nat, p: nat, v: nat)
    requires t < |types| && p < |types[t].processes| && v < |types[t].processes[p].values|
  {
    && (forall u | 0 <= u < t :: TypeLoads(m, types[u]))
    && ActionOfName(m.up, types[t].name).Success?
    && (forall q | 0 <= q < p :: LoadProcess(m, types[t].processes[q]).Success?)
    && (forall w | 0 <= w < v :: Prepared(m, types[t].processes[p].values[w]).Success?)
  }

  /**
    * The first value without a stored form ends the load. Start-up reports it exactly when the value is too long; a
    * drive without a link is forgiven.
    */
  lemma InitReportsFirstValue(m: Machine, types: seq<ListedType>, store: Store, t: nat, p: nat, v: nat)
    requires t < |types| && p < |types[t].processes| && v < |types[t].processes[p].values|
    requires LoadsUpTo(m, types, t, p, v) && Prepared(m, types[t].processes[p].values[v]).Failure?
    ensures var value := types[t].processes[p].values[v];
            Init(m, types, store).result ==
            if NamesDrive(value) && ValueLink(m.up, value) !in m.links then Success(()) else Failure(BufferOverflow)
  {
    var processes := types[t].processes;
    PathsFailAt(m, processes[p].values, v);
    ProcessesFailAt(m, processes, p);
    TypesFailAt(m, types, store, t);
    PreparedExact(m, processes[p].values[v]);
  }

  /** A type key with any other name ends the load too, and is reported. */
  lemma InitReportsUnknownType(m: Machine, types: seq<ListedType>, store: Store, t: nat)
    requires t < |types| && forall u | 0 <= u < t :: TypeLoads(m, types[u])
    requires !EqualsNoCase(m.up, types[t].name, DENY_KEY_NAME) && !EqualsNoCase(m.up, types[t].name, READ_ONLY_KEY_NAME)
    ensures Init(m, types, store).result == Failure(InvalidParameter)
  {
    TypesFailAt(m, types, store, t);
  }

  /** And when everything loads, start-up succeeds. */
  lemma InitSucceeds(m: Machine, types: seq<ListedType>, store: Store)
    requires forall t | 0 <= t < |types| :: TypeLoads(m, types[t])
    ensures Init(m, types, store) == LoadTypes(m, types, store) && Init(m, types, store).result.Success?
  {
    TypesLoad(m, types, store);
  }

  /** A process key becomes an entry with its upper-case name and the stored forms of its values, in their order. */
  lemma LoadProcessExact(m: Machine, process: ListedProcess)
    ensures LoadProcess(m, process).Success? <==> AllPrepared(m, process.values)
    ensures LoadProcess(m, process).Success? ==>
              var entry := LoadProcess(m, process).value;
              && entry.processName == Upper(m.up, process.name) && |entry.filePaths| == |process.values|
              && forall v | 0 <= v < |process.values| :: entry.filePaths[v] == Prepared(m, process.values[v]).value
  {
  }
}
