/**
  * Registry, rule store and file system together: what stands in the registry is what happens on the disk. Any
  * number of requests are under way at a time, and the registry changes between their list reads.
  */
module DriverRuns {
  import opened Wrappers
  import opened NtStrings
  import opened Globs
  import opened PathUtils
  import opened RuleKeys
  import opened RulePaths
  import opened Rules
  import opened RuleReads
  import opened Minifilters
  import opened FileSystemRuns
  import opened RegistryLoad
  import opened RegistryDecisions
  import opened RegistryDrift
  import R = RegistryTracking

  /** What a list read finds: the store, and the registry it stands for. */
  datatype Moment = Moment(reg: R.Registry, store: Store)

  /** A request on its way through the filter, and what its list reads have found so far. */
  datatype InFlight = InFlight(request: Request, seen: seq<Moment>)

  /** The registry's rules, the driver's copy of them, the disk, and the requests under way. */
  datatype System = System(reg: R.Registry, store: Store, fs: FileSystem, pending: map<nat, InFlight>)

  /** A change of the registry, or a step of a request: it arrives, one list is read for it, it takes effect. */
  datatype Event = Changes(step: R.Step) | Starts(c: nat, request: Request) | Reads(c: nat) | Ends(c: nat)

  function Stores(seen: seq<Moment>): (r: seq<Store>)
    ensures |r| == |seen| && forall i | 0 <= i < |seen| :: r[i] == seen[i].store
  {
    seq(|seen|, i requires 0 <= i < |seen| => seen[i].store)
  }

  predicate Decided(m: Machine, p: InFlight) {
    Settled(m.up, Queries(m, p.request), Stores(p.seen))
  }

  /** A registry change is legal, and its notification does not part the store from the registry. */
  ghost predicate Handled(m: Machine, s: System, step: R.Step) {
    R.Legal(m.up, s.reg, step.event) && StepKeeps(m, s.reg, s.store, step.event, step.refused)
  }

  /** Lists are read until the request is decided, and it takes effect afterwards. */
  ghost predicate Enabled(m: Machine, s: System, e: Event) {
    match e
    case Changes(step) => Handled(m, s, step)
    case Starts(c, _) => c !in s.pending
    case Reads(c) => c in s.pending && !Decided(m, s.pending[c])
    case Ends(c) => c in s.pending && Decided(m, s.pending[c])
  }

  function Next(m: Machine, s: System, e: Event): System
    requires Enabled(m, s, e)
  {
    match e
    case Changes(step) =>
      s.(reg := R.RegistryNext(m.up, s.reg, step.event), store := R.After(m, s.store, step.event, step.refused).store)
    case Starts(c, request) => s.(pending := s.pending[c := InFlight(request, [])])
    case Reads(c) =>
      var p := s.pending[c];
      s.(pending := s.pending[c := p.(seen := p.seen + [Moment(s.reg, s.store)])])
    case Ends(c) =>
      var p := s.pending[c];
      s.(fs := Filtered(m, Stores(p.seen), s.fs, p.request), pending := s.pending - {c})
  }

  ghost predicate IsRun(m: Machine, s: System, run: seq<Event>)
    decreases |run|
  {
    run == [] || (Enabled(m, s, run[0]) && IsRun(m, Next(m, s, run[0]), run[1..]))
  }

  ghost function End(m: Machine, s: System, run: seq<Event>): System
    requires IsRun(m, s, run)
    decreases |run|
  {
    if run == [] then s else End(m, Next(m, s, run[0]), run[1..])
  }

  /** While nothing else happens, a request that arrived goes on to its end. */
  lemma {:induction false} GoesOnToEnd(m: Machine, s: System, c: nat) returns (run: seq<Event>, seen: seq<Store>)
    requires c in s.pending && Steady(Stores(s.pending[c].seen), s.store)
    ensures Steady(seen, s.store) && Settled(m.up, Queries(m, s.pending[c].request), seen)
    ensures IsRun(m, s, run)
    ensures End(m, s, run) == s.(fs := Filtered(m, seen, s.fs, s.pending[c].request), pending := s.pending - {c})
    decreases |Queries(m, s.pending[c].request)| - |s.pending[c].seen|
  {
    var p := s.pending[c];
    if Decided(m, p) {
      run, seen := [Ends(c)], Stores(p.seen);
      assert run[1..] == [];
    } else {
      var next := Next(m, s, Reads(c));
      var rest;
      rest, seen := GoesOnToEnd(m, next, c);
      run := [Reads(c)] + rest;
      assert run[1..] == rest;
      assert next.pending - {c} == s.pending - {c};
    }
  }

  /** Handling a request in one go, on the lists of one moment, is one of the runs. */
  lemma HandledInOneGo(m: Machine, s: System, c: nat, request: Request) returns (run: seq<Event>, seen: seq<Store>)
    requires c !in s.pending
    ensures Steady(seen, s.store) && Settled(m.up, Queries(m, request), seen)
    ensures IsRun(m, s, run) && End(m, s, run) == s.(fs := Filtered(m, seen, s.fs, request))
  {
    var next := Next(m, s, Starts(c, request));
    var rest;
    rest, seen := GoesOnToEnd(m, next, c);
    run := [Starts(c, request)] + rest;
    assert run[1..] == rest;
    assert next.pending - {c} == s.pending;
  }

  // ---------- registrations ----------

  /** The key fits the process, and it and every other key of its type that does have the value, in some spelling. */
  ghost predicate RegisteredAt(m: Machine, reg: R.Registry, k: R.ProcessKey, processName: NtStr, value: NtStr) {
    && k in reg && k.action != Bypass && Fits(m.up, k, k.action, processName)
    && forall l | l in reg && Fits(m.up, l, k.action, processName) :: R.HasValue(m.up, reg[l], value)
  }

  ghost predicate Registered(m: Machine, reg: R.Registry, ruleType: Action, processName: NtStr, value: NtStr) {
    exists k | k in reg :: k.action == ruleType && RegisteredAt(m, reg, k, processName, value)
  }

  /** A registered value is a rule in the tracked list of its type. */
  lemma RegisteredHasRule(m: Machine, reg: R.Registry, ruleType: Action, rules: RuleList, processName: NtStr,
                          value: NtStr)
    requires R.KeysOk(m.up, reg) && R.TracksType(m, reg, ruleType, rules)
    requires Prepared(m, value).Success? && Registered(m, reg, ruleType, processName, value)
    ensures HasRule(m.up, rules, processName, Prepared(m, value).value)
  {
    var k :| k in reg && k.action == ruleType && RegisteredAt(m, reg, k, processName, value);
    assert R.HasValue(m.up, reg[k], value);
    var i := EntryOfKey(m, reg, k, rules);
    var first := FirstIndex(rules, (e: FileAccessEntry) => MatchesNoCase(m.up, processName, e.processName)).value;
    EntryHoldsValue(m, reg, ruleType, rules, first, value);
  }

  lemma EntryHoldsValue(m: Machine, reg: R.Registry, ruleType: Action, rules: RuleList, i: nat, value: NtStr)
    requires R.TracksType(m, reg, ruleType, rules) && i < |rules|
    requires var k := R.ProcessKey(ruleType, rules[i].processName); k in reg ==> R.HasValue(m.up, reg[k], value)
    ensures Prepared(m, value).Success? && Prepared(m, value).value in rules[i].filePaths
  {
    TrackedEntry(m, reg, ruleType, rules, i);
    var values := reg[R.ProcessKey(ruleType, rules[i].processName)];
    var v := FindPath(m.up, values, value).value;
    PrepareIgnoresCase(m, values[v], value, {});
    var p := PlaceOf(rules[i].filePaths, R.PreparedAll(m, values), v);
  }

  // ---------- watched requests ----------

  /**
    * The i-th read asks about the file the request touches, and if it comes to this read, it finds the value
    * registered under the list's type for the process it asks about.
    */
  ghost predicate WatchedAt(m: Machine, p: InFlight, value: NtStr, i: nat) {
    var queries := Queries(m, p.request);
    && i < |queries|
    && Touched(m, p.request) == Some(Upper(m.up, queries[i].path))
    && (i < |p.seen| ==> Registered(m, p.seen[i].reg, queries[i].ruleType, queries[i].name, value))
  }

  /** Whoever touches a file the value covers has the value registered when it counts. */
  ghost predicate Watched(m: Machine, p: InFlight, value: NtStr)
    requires Prepared(m, value).Success?
  {
    Touched(m, p.request).Some? && Touched(m, p.request).value in CoveredFiles(m, value) ==>
      (exists i: nat :: WatchedAt(m, p, value, i)) && NarrowOrDenied(m, Stores(p.seen), p.request)
  }

  /** In a run, every request that takes effect was watched. */
  ghost predicate WatchedRun(m: Machine, s: System, value: NtStr, run: seq<Event>)
    requires Prepared(m, value).Success? && IsRun(m, s, run)
    decreases |run|
  {
    run == [] ||
    (&& (run[0].Ends? ==> Watched(m, s.pending[run[0].c], value))
     && WatchedRun(m, Next(m, s, run[0]), value, run[1..]))
  }

  /** The requestor or its parent. */
  predicate ActsAs(who: Requestor, name: NtStr) {
    who.name.Some? && (who.name.value == name || who.parent == Some(name))
  }

  /** Both lists are asked about the asked path for the requestor and for its parent. */
  lemma AsksBothLists(m: Machine, request: Request, name: NtStr, ruleType: Action) returns (i: nat)
    requires (request.Create? || request.Rename?) && ActsAs(request.who, name) && ruleType != Bypass
    requires AskedPath(m, request).Some?
    ensures i < |Queries(m, request)| && Queries(m, request)[i] == Query(name, AskedPath(m, request).value, ruleType)
  {
    var who, queries := request.who, Queries(m, request);
    var own := who.name.value == name;
    i := (if request.Create? then (if own then 0 else 2) else (if own then 2 else 6))
        + (if ruleType == Deny then 0 else 1);
    assert queries[i] == Query(name, AskedPath(m, request).value, ruleType);
  }

  /** One registration, of one key for one of the two processes, stands at every list read of the request. */
  ghost predicate Stands(m: Machine, p: InFlight, k: R.ProcessKey, name: NtStr, value: NtStr) {
    && (p.request.Create? || p.request.Rename?) && ActsAs(p.request.who, name) && k.action != Bypass
    && forall i | 0 <= i < |p.seen| :: RegisteredAt(m, p.seen[i].reg, k, name, value)
  }

  /**
    * A registration that stands from the first list read of a request to its last is found, in whichever list it
    * is, as long as the filter gets to know the names. It must be one registration: see `MoveToDenyCanBeMissed`.
    */
  lemma StandingIsWatched(m: Machine, p: InFlight, k: R.ProcessKey, name: NtStr, value: NtStr)
    requires Stands(m, p, k, name, value) && AskedPath(m, p.request).Some?
    requires Touched(m, p.request) == Some(Upper(m.up, AskedPath(m, p.request).value))
    ensures exists i: nat :: WatchedAt(m, p, value, i)
  {
    var i := AsksBothLists(m, p.request, name, k.action);
    if i < |p.seen| {
      assert RegisteredAt(m, p.seen[i].reg, k, name, value);
      assert Registered(m, p.seen[i].reg, k.action, name, value);
    }
    assert WatchedAt(m, p, value, i);
  }

  /** Whoever touches a covered file has one registration for the value that stands at every list read. */
  ghost predicate StandsForTouched(m: Machine, p: InFlight, value: NtStr)
    requires Prepared(m, value).Success?
  {
    var file := Touched(m, p.request);
    file.Some? && file.value in CoveredFiles(m, value) ==>
      && AskedPath(m, p.request).Some? && file == Some(Upper(m.up, AskedPath(m, p.request).value))
      && (exists k, name :: Stands(m, p, k, name, value))
      && NarrowOrDenied(m, Stores(p.seen), p.request)
  }

  ghost predicate StandingRun(m: Machine, s: System, value: NtStr, run: seq<Event>)
    requires Prepared(m, value).Success? && IsRun(m, s, run)
    decreases |run|
  {
    run == [] ||
    (&& (run[0].Ends? ==> StandsForTouched(m, s.pending[run[0].c], value))
     && StandingRun(m, Next(m, s, run[0]), value, run[1..]))
  }

  lemma {:induction false} StandingRunIsWatched(m: Machine, s: System, value: NtStr, run: seq<Event>)
    requires Prepared(m, value).Success? && IsRun(m, s, run) && StandingRun(m, s, value, run)
    ensures WatchedRun(m, s, value, run)
    decreases |run|
  {
    if run != [] {
      if run[0].Ends? {
        TouchedIsWatched(m, s.pending[run[0].c], value);
      }
      StandingRunIsWatched(m, Next(m, s, run[0]), value, run[1..]);
    }
  }

  lemma TouchedIsWatched(m: Machine, p: InFlight, value: NtStr)
    requires Prepared(m, value).Success? && StandsForTouched(m, p, value)
    ensures Watched(m, p, value)
  {
    if Touched(m, p.request).Some? && Touched(m, p.request).value in CoveredFiles(m, value) {
      var k, name :| Stands(m, p, k, name, value);
      StandingIsWatched(m, p, k, name, value);
    }
  }

  // ---------- what runs keep ----------

  /** What the list reads found tracked the registry at their time. */
  ghost predicate Faithful(m: Machine, seen: seq<Moment>) {
    forall i | 0 <= i < |seen| :: R.KeysOk(m.up, seen[i].reg) && R.Tracks(m, seen[i].reg, seen[i].store)
  }

  ghost predicate Sound(m: Machine, s: System) {
    && R.RegistryOk(m.up, s.reg) && R.Tracks(m, s.reg, s.store)
    && forall c | c in s.pending :: Faithful(m, s.pending[c].seen)
  }

  lemma NextSound(m: Machine, s: System, e: Event)
    requires Sound(m, s) && Enabled(m, s, e)
    ensures Sound(m, Next(m, s, e))
  {
    match e
    case Changes(step) => StepTracksIff(m, s.reg, s.store, step.event, step.refused);
    case Reads(c) => ReadIsFaithful(m, s, s.pending[c].seen);
    case _ =>
  }

  lemma ReadIsFaithful(m: Machine, s: System, seen: seq<Moment>)
    requires R.RegistryOk(m.up, s.reg) && R.Tracks(m, s.reg, s.store) && Faithful(m, seen)
    ensures Faithful(m, seen + [Moment(s.reg, s.store)])
  {
  }

  lemma WatchedRead(m: Machine, p: InFlight, value: NtStr, i: nat)
    requires Prepared(m, value).Success? && Faithful(m, p.seen)
    requires WatchedAt(m, p, value, i) && i < |p.seen|
    ensures RuleSeenAt(m, Stores(p.seen), p.request, Prepared(m, value).value, Touched(m, p.request).value, i)
  {
    var q, now := Queries(m, p.request)[i], p.seen[i];
    assert R.Tracks(m, now.reg, now.store);
    assert q.ruleType in {Deny, ReadOnly};
    RegisteredHasRule(m, now.reg, q.ruleType, now.store.Rules(q.ruleType), q.name, value);
  }

  /** A watched request is guarded by the time it is decided. */
  lemma WatchedGuards(m: Machine, p: InFlight, value: NtStr)
    requires Prepared(m, value).Success?
    requires Faithful(m, p.seen) && Decided(m, p) && Watched(m, p, value)
    ensures Guarded(m, Stores(p.seen), CoveredFiles(m, value), p.request)
  {
    var file, seen := Touched(m, p.request), Stores(p.seen);
    if file.Some? && file.value in CoveredFiles(m, value) && Verdict(m, seen, p.request) == Bypass {
      var i: nat :| WatchedAt(m, p, value, i);
      WatchedRead(m, p, value, i);
      RuleSeenHits(m, seen, p.request, value, file.value, i);
      HitIsFound(m.up, Queries(m, p.request), seen, i);
    }
  }

  /**
    * In any interleaving of registry changes with the steps of any number of requests, for a value of any form: as
    * long as whoever acts on the files it covers has it registered at a list read that counts, the store keeps
    * tracking the registry, nobody gets a write right on these files, and each exists and reads as at the start.
    */
  lemma {:induction false} RegisteredFilesNeverChange(m: Machine, s: System, value: NtStr, run: seq<Event>)
    requires Prepared(m, value).Success?
    requires Sound(m, s) && NoWriters(s.fs, CoveredFiles(m, value))
    requires IsRun(m, s, run) && WatchedRun(m, s, value, run)
    ensures var end := End(m, s, run);
            && Sound(m, end)
            && NoWriters(end.fs, CoveredFiles(m, value)) && SameOn(end.fs, s.fs, CoveredFiles(m, value))
    decreases |run|
  {
    if run != [] {
      NextSound(m, s, run[0]);
      if run[0].Ends? {
        var p := s.pending[run[0].c];
        WatchedGuards(m, p, value);
        StepProtects(m, CoveredFiles(m, value), s.fs, FileSystemRuns.Step(Stores(p.seen), p.request));
      }
      RegisteredFilesNeverChange(m, Next(m, s, run[0]), value, run[1..]);
    }
  }

  /** So it is enough that one registration stands from the first read for each request on the files to its last. */
  lemma StandingFilesNeverChange(m: Machine, s: System, value: NtStr, run: seq<Event>)
    requires Prepared(m, value).Success?
    requires Sound(m, s) && NoWriters(s.fs, CoveredFiles(m, value))
    requires IsRun(m, s, run) && StandingRun(m, s, value, run)
    ensures var end := End(m, s, run);
            NoWriters(end.fs, CoveredFiles(m, value)) && SameOn(end.fs, s.fs, CoveredFiles(m, value))
  {
    StandingRunIsWatched(m, s, value, run);
    RegisteredFilesNeverChange(m, s, value, run);
  }

  /** For a value with a final separator: the folder and its contents. */
  lemma RegisteredFolderNeverChanges(m: Machine, s: System, value: NtStr, run: seq<Event>)
    requires EndsWith(value, [BACKSLASH]) && Prepared(m, value).Success?
    requires Sound(m, s) && NoWriters(s.fs, FolderAndContents(m, value))
    requires IsRun(m, s, run) && WatchedRun(m, s, value, run)
    ensures var end := End(m, s, run);
            && Sound(m, end)
            && NoWriters(end.fs, FolderAndContents(m, value)) && SameOn(end.fs, s.fs, FolderAndContents(m, value))
  {
    CoveredFolder(m, value);
    RegisteredFilesNeverChange(m, s, value, run);
  }

  lemma StandingFolderNeverChanges(m: Machine, s: System, value: NtStr, run: seq<Event>)
    requires EndsWith(value, [BACKSLASH]) && Prepared(m, value).Success?
    requires Sound(m, s) && NoWriters(s.fs, FolderAndContents(m, value))
    requires IsRun(m, s, run) && StandingRun(m, s, value, run)
    ensures var end := End(m, s, run);
            NoWriters(end.fs, FolderAndContents(m, value)) && SameOn(end.fs, s.fs, FolderAndContents(m, value))
  {
    CoveredFolder(m, value);
    StandingFilesNeverChange(m, s, value, run);
  }

  /** The system once the lists are loaded. */
  function Started(m: Machine, reg: R.Registry, types: seq<ListedType>, fs: FileSystem): System {
    System(reg, LoadTypes(m, types, EMPTY_STORE).store, fs, map[])
  }

  /** The same from start-up: the lists as loaded from the registry, and no covered file open. */
  lemma StartedDriverProtects(m: Machine, reg: R.Registry, types: seq<ListedType>, fs: FileSystem,
                              value: NtStr, run: seq<Event>)
    requires Prepared(m, value).Success?
    requires R.RegistryOk(m.up, reg) && Lists(m.up, reg, types)
    requires LoadTypes(m, types, EMPTY_STORE).result.Success? && Unopened(fs, CoveredFiles(m, value))
    requires IsRun(m, Started(m, reg, types, fs), run) && WatchedRun(m, Started(m, reg, types, fs), value, run)
    ensures var end := End(m, Started(m, reg, types, fs), run);
            NoWriters(end.fs, CoveredFiles(m, value)) && SameOn(end.fs, fs, CoveredFiles(m, value))
  {
    LoadTracks(m, reg, types);
    RegisteredFilesNeverChange(m, Started(m, reg, types, fs), value, run);
  }

  /** For a value with a final separator: the folder and its contents. */
  lemma StartedDriverProtectsFolder(m: Machine, reg: R.Registry, types: seq<ListedType>, fs: FileSystem,
                                    value: NtStr, run: seq<Event>)
    requires EndsWith(value, [BACKSLASH]) && Prepared(m, value).Success?
    requires R.RegistryOk(m.up, reg) && Lists(m.up, reg, types)
    requires LoadTypes(m, types, EMPTY_STORE).result.Success? && Unopened(fs, FolderAndContents(m, value))
    requires IsRun(m, Started(m, reg, types, fs), run) && WatchedRun(m, Started(m, reg, types, fs), value, run)
    ensures var end := End(m, Started(m, reg, types, fs), run);
            NoWriters(end.fs, FolderAndContents(m, value)) && SameOn(end.fs, fs, FolderAndContents(m, value))
  {
    CoveredFolder(m, value);
    StartedDriverProtects(m, reg, types, fs, value, run);
  }

  /** For a value without wildcards: the one file it names. */
  lemma StartedDriverProtectsFile(m: Machine, reg: R.Registry, types: seq<ListedType>, fs: FileSystem,
                                  value: NtStr, run: seq<Event>)
    requires Prepared(m, value).Success?
    requires STAR !in Prepared(m, value).value && QUESTION !in Prepared(m, value).value
    requires R.RegistryOk(m.up, reg) && Lists(m.up, reg, types)
    requires LoadTypes(m, types, EMPTY_STORE).result.Success? && Unopened(fs, iset{Prepared(m, value).value})
    requires IsRun(m, Started(m, reg, types, fs), run) && WatchedRun(m, Started(m, reg, types, fs), value, run)
    ensures var file, end := Prepared(m, value).value, End(m, Started(m, reg, types, fs), run);
            && (file in end.fs.files <==> file in fs.files)
            && (file in fs.files ==> end.fs.files[file] == fs.files[file])
  {
    CoveredFile(m, value);
    StartedDriverProtects(m, reg, types, fs, value, run);
    assert Prepared(m, value).value in CoveredFiles(m, value);
  }
}
