/**
  * The two callbacks in front of a file system: protected files never change. A request takes effect at one
  * moment, but the rule lists are read before it, each read at a moment of its own.
  */
module FileSystemRuns {
  import opened Wrappers
  import opened NtStrings
  import opened Globs
  import opened PathUtils
  import opened RuleKeys
  import opened RulePaths
  import opened Rules
  import opened RuleReads
  import opened FltUtils
  import opened Minifilters

  // ---------- the file system behind the filter ----------

  type Content = seq<nat>

  datatype Handle = Handle(file: NtStr, access: bv32)

  /** Files by upper-case NT path, and the open handles. */
  datatype FileSystem = FileSystem(files: map<NtStr, Content>, handles: map<nat, Handle>)

  /** What a create does to the file, or None when it fails. */
  function Created(files: map<NtStr, Content>, file: NtStr, disposition: bv8): Option<map<NtStr, Content>> {
    if disposition == FILE_SUPERSEDE || disposition == FILE_OVERWRITE_IF then Some(files[file := []])
    else if disposition == FILE_OPEN then (if file in files then Some(files) else None)
    else if disposition == FILE_CREATE then (if file in files then None else Some(files[file := []]))
    else if disposition == FILE_OPEN_IF then Some(if file in files then files else files[file := []])
    else if disposition == FILE_OVERWRITE then (if file in files then Some(files[file := []]) else None)
    else None
  }

  /** A successful create gives a handle with the rights asked for, and perhaps more. */
  function CreateFile(fs: FileSystem, id: nat, file: NtStr, access: bv32, extra: bv32, options: bv32): FileSystem {
    match Created(fs.files, file, Disposition(options))
    case None => fs
    case Some(files) => FileSystem(files, fs.handles[id := Handle(file, GrantedAccess(access, extra))])
  }

  /** Writing takes a right to write data; a handle whose file is gone writes nothing. */
  function WriteFile(fs: FileSystem, id: nat, content: Content): FileSystem {
    if && id in fs.handles && AnyFlagSet(fs.handles[id].access, FILE_WRITE_DATA | FILE_APPEND_DATA)
       && fs.handles[id].file in fs.files
    then fs.(files := fs.files[fs.handles[id].file := content])
    else fs
  }

  /** Deleting takes the right to delete, and ends all handles on the file. */
  function DeleteFile(fs: FileSystem, id: nat): FileSystem {
    if id in fs.handles && AnyFlagSet(fs.handles[id].access, DELETE) then
      var file := fs.handles[id].file;
      FileSystem(fs.files - {file}, map h | h in fs.handles && fs.handles[h].file != file :: fs.handles[h])
    else fs
  }

  /** Renaming takes the right to delete; handles follow the file; a target in use is not replaced. */
  function RenameFile(fs: FileSystem, id: nat, target: NtStr): FileSystem {
    if && id in fs.handles && AnyFlagSet(fs.handles[id].access, DELETE) && fs.handles[id].file in fs.files
       && (forall h | h in fs.handles :: fs.handles[h].file != target)
    then
      var file := fs.handles[id].file;
      FileSystem((fs.files - {file})[target := fs.files[file]],
                 map h | h in fs.handles ::
                   if fs.handles[h].file == file then fs.handles[h].(file := target) else fs.handles[h])
    else fs
  }

  /** What the rights are for: with them a file can be written and deleted, so keeping them away counts. */
  lemma RightsSuffice(fs: FileSystem, id: nat, content: Content)
    requires id in fs.handles && fs.handles[id].file in fs.files
    ensures var access, file := fs.handles[id].access, fs.handles[id].file;
            && (access & 0x6 != 0 <==> forall text: Content ::
                  WriteFile(fs, id, text) == fs.(files := fs.files[file := text]))
            && (access & 0x1_0000 != 0 <==> file !in DeleteFile(fs, id).files)
  {
    var file := fs.handles[id].file;
    var other := fs.files[file] + [0];
    assert fs.files[file := other][file] == other;
    assert fs != fs.(files := fs.files[file := other]);
    assert WriteFile(fs, id, other) == if fs.handles[id].access & 0x6 != 0
        then fs.(files := fs.files[file := other]) else fs;
  }

  // ---------- requests through the filter ----------

  /**
    * A request and by whom it is made where the filter looks. `fileName` is what the query for the file's name
    * reports, if it succeeds; a create is asked about by the path it gives. `extra` is what the file system
    * grants beyond `access`. A rename carries the new name as given and the path the file system takes it for.
    */
  datatype Request =
    | Create(who: Requestor, path: NtStr, named: bool, access: bv32, extra: bv32, options: bv32, id: nat)
    | Write(id: nat, content: Content)
    | Delete(id: nat)
    | Rename(who: Requestor, id: nat, fileName: Option<NtStr>, newName: NtStr, target: NtStr, refused: Refusals)
    | Close(id: nat)

  /** The list reads the filter makes for the request until one finds a rule. */
  function Queries(m: Machine, request: Request): seq<Query> {
    match request
    case Create(who, path, named, _, _, _, _) => CreateQueries(who, if named then Some(path) else None)
    case Rename(who, _, fileName, newName, _, refused) => RenameQueries(m, who, fileName, newName, refused)
    case _ => []
  }

  /** The rule type that the reads for the request come to. */
  function Verdict(m: Machine, seen: seq<Store>, request: Request): Action {
    FirstHit(m.up, Queries(m, request), seen)
  }

  /** The file system after the request; `seen[i]` is the store as the i-th read for it found it. */
  function Filtered(m: Machine, seen: seq<Store>, fs: FileSystem, request: Request): FileSystem {
    match request
    case Create(who, path, named, access, extra, options, id) =>
      if id in fs.handles then fs
      else
        (match PreCreate(m.up, seen, who, if named then Some(path) else None, access, options)
         case Denied => fs
         case Pass(passed) => CreateFile(fs, id, Upper(m.up, path), access, extra, passed))
    case Write(id, content) => WriteFile(fs, id, content)
    case Delete(id) => DeleteFile(fs, id)
    case Rename(who, id, fileName, newName, target, refused) =>
      if PreSetInfoDenies(m, seen, who, fileName, true, newName, refused) then fs
      else RenameFile(fs, id, target)
    case Close(id) => fs.(handles := fs.handles - {id})
  }

  // ---------- protection ----------

  /** The file that the request may make, empty or replace. */
  function Touched(m: Machine, request: Request): Option<NtStr> {
    match request
    case Create(_, path, _, _, _, _, _) => Some(Upper(m.up, path))
    case Rename(_, _, _, _, target, _) => Some(target)
    case _ => None
  }

  /** A create that no deny rule stops asks for no wide rights. */
  predicate NarrowOrDenied(m: Machine, seen: seq<Store>, request: Request) {
    request.Create? ==> Verdict(m, seen, request) == Deny || !AnyFlagSet(request.access, WIDE_RIGHTS)
  }

  /** Some read finds a rule whenever the request would touch a file of `protected`. */
  ghost predicate Guarded(m: Machine, seen: seq<Store>, protected: iset<NtStr>, request: Request) {
    Touched(m, request).Some? && Touched(m, request).value in protected ==>
      Verdict(m, seen, request) != Bypass && NarrowOrDenied(m, seen, request)
  }

  /** No handle on a protected file carries a write right. */
  ghost predicate NoWriters(fs: FileSystem, protected: iset<NtStr>) {
    forall h | h in fs.handles && fs.handles[h].file in protected :: !IsWriteAccessRights(fs.handles[h].access)
  }

  /** The protected files exist and read as before. */
  ghost predicate SameOn(a: FileSystem, b: FileSystem, protected: iset<NtStr>) {
    forall file | file in protected ::
      (file in a.files <==> file in b.files) && (file in a.files ==> a.files[file] == b.files[file])
  }

  /** A create that does not touch protected files, or opens one without a write right. */
  lemma CreateFileKeeps(fs: FileSystem, id: nat, file: NtStr, access: bv32, extra: bv32, options: bv32,
                        protected: iset<NtStr>)
    requires id !in fs.handles && NoWriters(fs, protected)
    requires file in protected ==>
               !IsModifyDisposition(Disposition(options)) && !IsWriteAccessRights(GrantedAccess(access, extra))
    ensures NoWriters(CreateFile(fs, id, file, access, extra, options), protected)
    ensures SameOn(CreateFile(fs, id, file, access, extra, options), fs, protected)
  {
  }

  lemma CreateProtects(m: Machine, seen: seq<Store>, protected: iset<NtStr>, fs: FileSystem, request: Request)
    requires request.Create? && Guarded(m, seen, protected, request) && NoWriters(fs, protected)
    ensures NoWriters(Filtered(m, seen, fs, request), protected)
    ensures SameOn(Filtered(m, seen, fs, request), fs, protected)
  {
    var fileName := if request.named then Some(request.path) else None;
    var verdict := PreCreate(m.up, seen, request.who, fileName, request.access, request.options);
    CreateReadOnlyMeaning(request.access, request.options);
    if verdict.Pass? && request.id !in fs.handles {
      if Upper(m.up, request.path) in protected {
        NarrowGrant(request.access, request.extra);
      }
      CreateFileKeeps(fs, request.id, Upper(m.up, request.path), request.access, request.extra, verdict.options,
          protected);
    }
  }

  lemma RenameProtects(m: Machine, seen: seq<Store>, protected: iset<NtStr>, fs: FileSystem, request: Request)
    requires request.Rename? && Guarded(m, seen, protected, request) && NoWriters(fs, protected)
    ensures NoWriters(Filtered(m, seen, fs, request), protected)
    ensures SameOn(Filtered(m, seen, fs, request), fs, protected)
  {
    if request.id in fs.handles && !IsWriteAccessRights(fs.handles[request.id].access) {
      NoWriteRights(fs.handles[request.id].access, DELETE);
    }
  }

  lemma HandleUseProtects(m: Machine, seen: seq<Store>, protected: iset<NtStr>, fs: FileSystem, request: Request)
    requires request.Write? || request.Delete? || request.Close?
    requires NoWriters(fs, protected)
    ensures NoWriters(Filtered(m, seen, fs, request), protected)
    ensures SameOn(Filtered(m, seen, fs, request), fs, protected)
  {
  }

  // ---------- runs ----------

  /** A request that takes effect, and the stores its list reads found. */
  datatype Step = Step(seen: seq<Store>, request: Request)

  ghost function After(m: Machine, fs: FileSystem, run: seq<Step>): FileSystem
    decreases |run|
  {
    if run == [] then fs else After(m, Filtered(m, run[0].seen, fs, run[0].request), run[1..])
  }

  ghost predicate GuardedRun(m: Machine, protected: iset<NtStr>, run: seq<Step>) {
    forall i | 0 <= i < |run| :: Guarded(m, run[i].seen, protected, run[i].request)
  }

  lemma StepProtects(m: Machine, protected: iset<NtStr>, fs: FileSystem, step: Step)
    requires Guarded(m, step.seen, protected, step.request) && NoWriters(fs, protected)
    ensures NoWriters(Filtered(m, step.seen, fs, step.request), protected)
    ensures SameOn(Filtered(m, step.seen, fs, step.request), fs, protected)
  {
    match step.request
    case Create(_, _, _, _, _, _, _) => CreateProtects(m, step.seen, protected, fs, step.request);
    case Rename(_, _, _, _, _, _) => RenameProtects(m, step.seen, protected, fs, step.request);
    case _ => HandleUseProtects(m, step.seen, protected, fs, step.request);
  }

  /**
    * Protected files never change: in any run, whatever stores the list reads of its requests find, as long as
    * some read for each request on a protected file finds a rule, nobody ever holds a write right on a protected
    * file, and every protected file exists and reads as at the start.
    */
  lemma {:induction false} ProtectedFilesNeverChange(m: Machine, protected: iset<NtStr>, fs: FileSystem, run: seq<Step>)
    requires NoWriters(fs, protected) && GuardedRun(m, protected, run)
    ensures NoWriters(After(m, fs, run), protected) && SameOn(After(m, fs, run), fs, protected)
    decreases |run|
  {
    if run != [] {
      var next := Filtered(m, run[0].seen, fs, run[0].request);
      StepProtects(m, protected, fs, run[0]);
      assert forall i | 0 <= i < |run[1..]| :: run[1..][i] == run[i + 1];
      ProtectedFilesNeverChange(m, protected, next, run[1..]);
    }
  }

  // ---------- lists that do not change ----------

  /** The path under which the filter asks about the file that the request touches, if it gets to know one. */
  function AskedPath(m: Machine, request: Request): Option<NtStr> {
    match request
    case Create(_, path, named, _, _, _, _) => if named then Some(path) else None
    case Rename(_, _, fileName, newName, _, refused) =>
      (match DosPathToNt(m, newName, refused)
       case Success(newPath) => if fileName.Some? then Some(newPath) else None
       case Failure(_) => None)
    case _ => None
  }

  /** Every actor has a rule for every file of the set. */
  ghost predicate Ruled(up: CaseTable, store: Store, actors: iset<Requestor>, protected: iset<NtStr>) {
    forall who, file | who in actors && file in protected :: Decision(up, store, who, file) != Bypass
  }

  /**
    * A request the filter can judge: whoever touches the set is an actor and is asked about by the file's name;
    * wide rights are asked for only where a deny rule stands.
    */
  ghost predicate Judged(m: Machine, store: Store, actors: iset<Requestor>, protected: iset<NtStr>, request: Request) {
    var file := Touched(m, request);
    file.Some? && file.value in protected ==>
      && request.who in actors
      && AskedPath(m, request).Some? && Upper(m.up, AskedPath(m, request).value) == file.value
      && (request.Create? ==>
            Decision(m.up, store, request.who, file.value) == Deny || !AnyFlagSet(request.access, WIDE_RIGHTS))
  }

  /** All requests are judged, and their list reads all find the one store. */
  ghost predicate SteadyRun(m: Machine, store: Store, actors: iset<Requestor>, protected: iset<NtStr>, run: seq<Step>) {
    forall i | 0 <= i < |run| :: JudgedStep(m, store, actors, protected, run[i])
  }

  ghost predicate JudgedStep(m: Machine, store: Store, actors: iset<Requestor>, protected: iset<NtStr>, step: Step) {
    && Steady(step.seen, store) && |Queries(m, step.request)| <= |step.seen|
    && Judged(m, store, actors, protected, step.request)
  }

  /** Under a fixed store a judged request on a ruled file is guarded. */
  lemma RuledIsGuarded(m: Machine, store: Store, actors: iset<Requestor>, protected: iset<NtStr>, step: Step)
    requires Ruled(m.up, store, actors, protected) && JudgedStep(m, store, actors, protected, step)
    ensures Guarded(m, step.seen, protected, step.request)
  {
    var request, file := step.request, Touched(m, step.request);
    if file.Some? && file.value in protected {
      assert Decision(m.up, store, request.who, file.value) != Bypass;
      DecisionIgnoresCase(m.up, store, request.who, AskedPath(m, request).value);
      if request.Create? {
        SteadyDecision(m.up, store, request.who, request.path, step.seen);
      } else {
        RenameDeniedIff(m, store, request.who, request.fileName.value, request.newName, request.refused, step.seen);
      }
    }
  }

  /** A file without a rule for an actor: the actor opens it for writing, or makes it, and writes. */
  function OpenAndWrite(store: Store, who: Requestor, file: NtStr, id: nat, content: Content): seq<Step> {
    [Step([store, store, store, store],
          Create(who, file, true, FILE_WRITE_DATA, 0, SetDisposition(0, FILE_OPEN_IF), id)),
     Step([], Write(id, content))]
  }

  lemma OpenAndWriteWrites(m: Machine, store: Store, fs: FileSystem, who: Requestor, file: NtStr, id: nat,
                           content: Content)
    requires Decision(m.up, store, who, file) == Bypass && IsUpper(m.up, file) && id !in fs.handles
    ensures var end := After(m, fs, OpenAndWrite(store, who, file, id, content));
            file in end.files && end.files[file] == content
  {
    var run := OpenAndWrite(store, who, file, id, content);
    var open := Filtered(m, run[0].seen, fs, run[0].request);
    SteadyDecision(m.up, store, who, file, run[0].seen);
    SetDispositionExact(0, FILE_OPEN_IF);
    assert open == CreateFile(fs, id, file, FILE_WRITE_DATA, 0, SetDisposition(0, FILE_OPEN_IF));
    assert AnyFlagSet(GrantedAccess(FILE_WRITE_DATA, 0), FILE_WRITE_DATA | FILE_APPEND_DATA);
    assert run[1..] == [run[1]] && run[1..][1..] == [];
    assert After(m, fs, run) == After(m, open, run[1..]);
    assert After(m, open, run[1..]) == WriteFile(open, id, content);
  }

  lemma OpenAndWriteIsJudged(m: Machine, store: Store, actors: iset<Requestor>, protected: iset<NtStr>,
                             who: Requestor, file: NtStr, id: nat, content: Content)
    requires who in actors && IsUpper(m.up, file)
    ensures SteadyRun(m, store, actors, protected, OpenAndWrite(store, who, file, id, content))
  {
    var run := OpenAndWrite(store, who, file, id, content);
    assert !AnyFlagSet(FILE_WRITE_DATA, WIDE_RIGHTS);
    assert JudgedStep(m, store, actors, protected, run[0]) && JudgedStep(m, store, actors, protected, run[1]);
  }

  /** No run of judged requests changes a file of the set. */
  ghost predicate NeverChanges(m: Machine, store: Store, actors: iset<Requestor>, protected: iset<NtStr>,
                               fs: FileSystem) {
    forall run | SteadyRun(m, store, actors, protected, run) ::
      NoWriters(After(m, fs, run), protected) && SameOn(After(m, fs, run), fs, protected)
  }

  /**
    * What a store protects: while the lists do not change, a set of files never changes, whatever its actors do,
    * exactly when every actor has a rule for every file of the set.
    */
  lemma NeverChangesIffRuled(m: Machine, store: Store, actors: iset<Requestor>, protected: iset<NtStr>,
                             fs: FileSystem, id: nat)
    requires NoWriters(fs, protected) && id !in fs.handles
    requires forall file | file in protected :: IsUpper(m.up, file)
    ensures NeverChanges(m, store, actors, protected, fs) <==> Ruled(m.up, store, actors, protected)
  {
    if Ruled(m.up, store, actors, protected) {
      forall run | SteadyRun(m, store, actors, protected, run)
        ensures NoWriters(After(m, fs, run), protected) && SameOn(After(m, fs, run), fs, protected)
      {
        RuledFilesNeverChange(m, store, actors, protected, fs, run);
      }
    }
    if NeverChanges(m, store, actors, protected, fs) {
      forall who, file | who in actors && file in protected
        ensures Decision(m.up, store, who, file) != Bypass
      {
        UnruledChanges(m, store, actors, protected, fs, id, who, file);
      }
    }
  }

  lemma RuledFilesNeverChange(m: Machine, store: Store, actors: iset<Requestor>, protected: iset<NtStr>,
                              fs: FileSystem, run: seq<Step>)
    requires Ruled(m.up, store, actors, protected) && SteadyRun(m, store, actors, protected, run)
    requires NoWriters(fs, protected)
    ensures NoWriters(After(m, fs, run), protected) && SameOn(After(m, fs, run), fs, protected)
  {
    forall i | 0 <= i < |run|
      ensures Guarded(m, run[i].seen, protected, run[i].request)
    {
      RuledIsGuarded(m, store, actors, protected, run[i]);
    }
    ProtectedFilesNeverChange(m, protected, fs, run);
  }

  lemma UnruledChanges(m: Machine, store: Store, actors: iset<Requestor>, protected: iset<NtStr>,
                       fs: FileSystem, id: nat, who: Requestor, file: NtStr)
    requires who in actors && file in protected && IsUpper(m.up, file) && id !in fs.handles
    requires NeverChanges(m, store, actors, protected, fs)
    ensures Decision(m.up, store, who, file) != Bypass
  {
    if Decision(m.up, store, who, file) == Bypass {
      var content := if file in fs.files then fs.files[file] + [0] else [];
      OpenAndWriteIsJudged(m, store, actors, protected, who, file, id, content);
      OpenAndWriteWrites(m, store, fs, who, file, id, content);
    }
  }

  // ---------- what the guard leaves out ----------

  /** Opening an existing file under a read-only rule. */
  ghost predicate OpensReadOnly(m: Machine, seen: seq<Store>, fs: FileSystem, request: Request) {
    && request.Create? && request.id !in fs.handles && Upper(m.up, request.path) in fs.files
    && Verdict(m, seen, request) == ReadOnly
    && Disposition(request.options) == FILE_OPEN && !IsWriteAccessRights(request.access)
  }

  /** A read-only rule keeps write rights from whoever opens the file exactly when no wide right is asked for. */
  lemma ReadOnlyOpenSafeIff(m: Machine, seen: seq<Store>, fs: FileSystem, request: Request)
    requires OpensReadOnly(m, seen, fs, request) && NoWriters(fs, iset{Upper(m.up, request.path)})
    ensures (forall extra: bv32 ::
               NoWriters(Filtered(m, seen, fs, request.(extra := extra)), iset{Upper(m.up, request.path)}))
       <==> !AnyFlagSet(request.access, WIDE_RIGHTS)
  {
    NeverGrantsWriteIff(request.access);
    forall extra: bv32
      ensures NoWriters(Filtered(m, seen, fs, request.(extra := extra)), iset{Upper(m.up, request.path)})
         <==> !IsWriteAccessRights(GrantedAccess(request.access, extra))
    {
      OpenedSafeIff(m, seen, fs, request.(extra := extra));
    }
  }

  lemma OpenedSafeIff(m: Machine, seen: seq<Store>, fs: FileSystem, request: Request)
    requires OpensReadOnly(m, seen, fs, request) && NoWriters(fs, iset{Upper(m.up, request.path)})
    ensures NoWriters(Filtered(m, seen, fs, request), iset{Upper(m.up, request.path)})
       <==> !IsWriteAccessRights(GrantedAccess(request.access, request.extra))
  {
    OpenedHandle(m, seen, fs, request);
    var next := Filtered(m, seen, fs, request);
    assert request.id in next.handles && next.handles[request.id].file in iset{Upper(m.up, request.path)};
  }

  lemma OpenedHandle(m: Machine, seen: seq<Store>, fs: FileSystem, request: Request)
    requires OpensReadOnly(m, seen, fs, request)
    ensures Filtered(m, seen, fs, request)
         == FileSystem(fs.files, fs.handles[request.id := Handle(Upper(m.up, request.path),
                                                                 GrantedAccess(request.access, request.extra))])
  {
  }

  /** Asking for the maximum allowed access passes a read-only rule, and the file can then be written. */
  lemma MaximumAllowedWrites(m: Machine, seen: seq<Store>, fs: FileSystem, request: Request, content: Content)
    requires OpensReadOnly(m, seen, fs, request)
    requires request.access == MAXIMUM_ALLOWED && request.extra == FILE_WRITE_DATA
    ensures var file := Upper(m.up, request.path);
            var end := After(m, fs, [Step(seen, request), Step([], Write(request.id, content))]);
            file in end.files && end.files[file] == content
  {
    var run := [Step(seen, request), Step([], Write(request.id, content))];
    OpenedHandle(m, seen, fs, request);
    var open := Filtered(m, seen, fs, request);
    assert run[1..] == [run[1]] && run[1..][1..] == [];
    assert After(m, fs, run) == After(m, open, run[1..]);
    assert After(m, open, run[1..]) == WriteFile(open, request.id, content);
  }

  /** A rename that the file system would carry out, putting another content in place of the target's. */
  ghost predicate WouldReplace(fs: FileSystem, request: Request) {
    && request.Rename? && request.id in fs.handles && AnyFlagSet(fs.handles[request.id].access, DELETE)
    && (forall h | h in fs.handles :: fs.handles[h].file != request.target)
    && fs.handles[request.id].file in fs.files && request.target in fs.files
    && fs.files[fs.handles[request.id].file] != fs.files[request.target]
  }

  /**
    * On lists that do not change, such a rename leaves its target alone exactly when its new name converts and
    * one of its two names is ruled.
    */
  lemma ReplacementStoppedIff(m: Machine, store: Store, seen: seq<Store>, fs: FileSystem, request: Request)
    requires WouldReplace(fs, request) && request.fileName.Some?
    requires Steady(seen, store) && |Queries(m, request)| <= |seen|
    ensures SameOn(Filtered(m, seen, fs, request), fs, iset{request.target})
       <==> var newPath := DosPathToNt(m, request.newName, request.refused);
            && newPath.Success?
            && (|| Decision(m.up, store, request.who, request.fileName.value) != Bypass
                || Decision(m.up, store, request.who, newPath.value) != Bypass)
  {
    RenameDeniedIff(m, store, request.who, request.fileName.value, request.newName, request.refused, seen);
    ReplacementUnlessDenied(m, seen, fs, request);
  }

  lemma ReplacementUnlessDenied(m: Machine, seen: seq<Store>, fs: FileSystem, request: Request)
    requires WouldReplace(fs, request)
    ensures SameOn(Filtered(m, seen, fs, request), fs, iset{request.target})
       <==> PreSetInfoDenies(m, seen, request.who, request.fileName, true, request.newName, request.refused)
  {
    if !PreSetInfoDenies(m, seen, request.who, request.fileName, true, request.newName, request.refused) {
      var next := RenameFile(fs, request.id, request.target);
      assert next.files[request.target] == fs.files[fs.handles[request.id].file];
      assert request.target in iset{request.target};
    }
  }

  /** A new name too short to name a drive passes under every rule, for every requestor, and replaces its target. */
  lemma ShortNameReplaces(m: Machine, seen: seq<Store>, fs: FileSystem, request: Request)
    requires WouldReplace(fs, request) && |request.newName| < DOS_DRIVE_NAME_LEN
    ensures Verdict(m, seen, request) == Bypass
    ensures !SameOn(Filtered(m, seen, fs, request), fs, iset{request.target})
  {
    ReplacementUnlessDenied(m, seen, fs, request);
  }

  // ---------- files under deny rules ----------

  /** Every create on the files is decided by a deny rule. */
  ghost predicate DeniedRequest(m: Machine, seen: seq<Store>, protected: iset<NtStr>, request: Request) {
    request.Create? && Upper(m.up, request.path) in protected ==> Verdict(m, seen, request) == Deny
  }

  ghost predicate Unopened(fs: FileSystem, protected: iset<NtStr>) {
    forall h | h in fs.handles :: fs.handles[h].file !in protected
  }

  /** Files under deny rules are never even open, whatever rights are asked for. */
  lemma {:induction false} DeniedFilesNeverOpened(m: Machine, protected: iset<NtStr>, fs: FileSystem, run: seq<Step>)
    requires Unopened(fs, protected) && GuardedRun(m, protected, run)
    requires forall i | 0 <= i < |run| :: DeniedRequest(m, run[i].seen, protected, run[i].request)
    ensures Unopened(After(m, fs, run), protected)
    decreases |run|
  {
    if run != [] {
      var request := run[0].request;
      var next := Filtered(m, run[0].seen, fs, request);
      assert Guarded(m, run[0].seen, protected, request) && DeniedRequest(m, run[0].seen, protected, request);
      assert Unopened(next, protected);
      assert forall i | 0 <= i < |run[1..]| :: run[1..][i] == run[i + 1];
      DeniedFilesNeverOpened(m, protected, next, run[1..]);
    }
  }

  // ---------- a rule protects what it covers ----------

  /** The first entry that fits the process holds the path. */
  ghost predicate HasRule(up: CaseTable, rules: RuleList, processName: NtStr, rulePath: NtStr) {
    exists i | 0 <= i < |rules| ::
      && MatchesNoCase(up, processName, rules[i].processName)
      && (forall j | 0 <= j < i :: !MatchesNoCase(up, processName, rules[j].processName))
      && rulePath in rules[i].filePaths
  }

  lemma RuleFound(up: CaseTable, rules: RuleList, processName: NtStr, rulePath: NtStr, filePath: NtStr)
    requires HasRule(up, rules, processName, rulePath) && PathMatches(up, rulePath, filePath)
    ensures SearchRule(up, rules, processName, filePath)
  {
    var i :| 0 <= i < |rules| && MatchesNoCase(up, processName, rules[i].processName)
             && (forall j | 0 <= j < i :: !MatchesNoCase(up, processName, rules[j].processName))
             && rulePath in rules[i].filePaths;
    var k :| 0 <= k < |rules[i].filePaths| && rules[i].filePaths[k] == rulePath;
    assert EntryCovers(up, rules[i], filePath);
    assert FirstFitCovers(up, rules, processName, filePath);
    SearchIsFirstFit(up, rules, processName, filePath);
  }

  /** The files that the rule made from a value covers. */
  ghost function CoveredFiles(m: Machine, value: NtStr): iset<NtStr>
    requires Prepared(m, value).Success?
  {
    iset file: NtStr | IsUpper(m.up, file) && PathMatches(m.up, Prepared(m, value).value, file)
  }

  /** The folder that a rule value names, and everything in it. */
  ghost function FolderAndContents(m: Machine, value: NtStr): iset<NtStr>
  {
    iset file: NtStr | IsUpper(m.up, file)
                       && (|| MatchesNoCase(m.up, file, FolderOf(m, value))
                           || InsideFolder(m.up, FolderOf(m, value), file))
  }

  /** A value with a final separator covers the folder it names, and nothing else. */
  lemma CoveredFolder(m: Machine, value: NtStr)
    requires EndsWith(value, [BACKSLASH]) && Prepared(m, value).Success?
    ensures CoveredFiles(m, value) == FolderAndContents(m, value)
  {
    forall file: NtStr
      ensures file in CoveredFiles(m, value) <==> file in FolderAndContents(m, value)
    {
      FolderValueCoversFolder(m, value, file);
    }
  }

  /** A value whose stored form has no wildcards covers this one file. */
  lemma CoveredFile(m: Machine, value: NtStr)
    requires Prepared(m, value).Success?
    requires STAR !in Prepared(m, value).value && QUESTION !in Prepared(m, value).value
    ensures CoveredFiles(m, value) == iset{Prepared(m, value).value}
  {
    var path := Prepared(m, value).value;
    PrepareIsNormal(m, value, {});
    if |path| >= 2 {
      assert path[|path| - 2..][1] == path[|path| - 1] && path[|path| - 1] in path;
    }
    forall file: NtStr
      ensures file in CoveredFiles(m, value) <==> file == path
    {
      LiteralMatchesSpellings(m.up, path, file);
    }
  }

  /** A value that names a directory, a star and an ending covers exactly the files of this shape, at any depth. */
  lemma CoveredByEnding(m: Machine, value: NtStr, directory: NtStr, ending: NtStr)
    requires Prepared(m, value) == Success(directory + [BACKSLASH] + ([STAR] + ending)) && ending != []
    requires STAR !in directory && QUESTION !in directory && STAR !in ending && QUESTION !in ending
    ensures CoveredFiles(m, value)
         == iset file: NtStr | IsUpper(m.up, file) && exists x :: file == directory + [BACKSLASH] + x + ending
  {
    var path := Prepared(m, value).value;
    assert path[|path| - 1] == ending[|ending| - 1] && path[|path| - 1] in ending;
    assert path[|path| - 2..][1] == path[|path| - 1];
    assert !EndsWith(path, [BACKSLASH, STAR]);
    forall file: NtStr | IsUpper(m.up, file)
      ensures PathMatches(m.up, path, file) <==> exists x :: file == directory + [BACKSLASH] + x + ending
    {
      PlainPathMatches(m.up, path, file);
      GlobAffixes(directory + [BACKSLASH], ending, file);
    }
  }

  /** The i-th read asks about the file, and finds the rule path in the list and for the process it asks about. */
  ghost predicate RuleSeenAt(m: Machine, seen: seq<Store>, request: Request, rulePath: NtStr, file: NtStr, i: nat) {
    var queries := Queries(m, request);
    && i < |queries| && i < |seen|
    && Upper(m.up, queries[i].path) == file
    && HasRule(m.up, seen[i].Rules(queries[i].ruleType), queries[i].name, rulePath)
  }

  /** Whenever the request would touch a file the value covers, some read finds the value's rule. */
  ghost predicate RuleInForce(m: Machine, seen: seq<Store>, value: NtStr, request: Request)
    requires Prepared(m, value).Success?
  {
    Touched(m, request).Some? && Touched(m, request).value in CoveredFiles(m, value) ==>
      && (exists i: nat :: RuleSeenAt(m, seen, request, Prepared(m, value).value, Touched(m, request).value, i))
      && NarrowOrDenied(m, seen, request)
  }

  lemma RuleSeenHits(m: Machine, seen: seq<Store>, request: Request, value: NtStr, file: NtStr, i: nat)
    requires Prepared(m, value).Success? && file in CoveredFiles(m, value)
    requires RuleSeenAt(m, seen, request, Prepared(m, value).value, file, i)
    ensures HitAt(m.up, Queries(m, request), seen, i)
  {
    var q := Queries(m, request)[i];
    PathMatchesIgnoresCase(m.up, Prepared(m, value).value, q.path);
    RuleFound(m.up, seen[i].Rules(q.ruleType), q.name, Prepared(m, value).value, q.path);
  }

  lemma RuleGuards(m: Machine, seen: seq<Store>, value: NtStr, request: Request)
    requires Prepared(m, value).Success? && RuleInForce(m, seen, value, request)
    ensures Guarded(m, seen, CoveredFiles(m, value), request)
  {
    var file := Touched(m, request);
    if file.Some? && file.value in CoveredFiles(m, value) {
      var i: nat :| RuleSeenAt(m, seen, request, Prepared(m, value).value, file.value, i);
      RuleSeenHits(m, seen, request, value, file.value, i);
      HitIsFound(m.up, Queries(m, request), seen, i);
    }
  }

  /**
    * From the registry value to the disk: while the rule made from a value, of whatever form, is found by some
    * read for every request on the files it covers, none of them changes.
    */
  lemma CoveredFilesNeverChange(m: Machine, value: NtStr, fs: FileSystem, run: seq<Step>)
    requires Prepared(m, value).Success? && NoWriters(fs, CoveredFiles(m, value))
    requires forall i | 0 <= i < |run| :: RuleInForce(m, run[i].seen, value, run[i].request)
    ensures NoWriters(After(m, fs, run), CoveredFiles(m, value))
    ensures SameOn(After(m, fs, run), fs, CoveredFiles(m, value))
  {
    var covered := CoveredFiles(m, value);
    forall i | 0 <= i < |run|
      ensures Guarded(m, run[i].seen, covered, run[i].request)
    {
      RuleGuards(m, run[i].seen, value, run[i].request);
    }
    ProtectedFilesNeverChange(m, covered, fs, run);
  }

  /** For a value with a final separator: nothing in the folder changes. */
  lemma ProtectedFolderNeverChanges(m: Machine, value: NtStr, fs: FileSystem, run: seq<Step>)
    requires EndsWith(value, [BACKSLASH]) && Prepared(m, value).Success?
    requires NoWriters(fs, FolderAndContents(m, value))
    requires forall i | 0 <= i < |run| :: RuleInForce(m, run[i].seen, value, run[i].request)
    ensures NoWriters(After(m, fs, run), FolderAndContents(m, value))
    ensures SameOn(After(m, fs, run), fs, FolderAndContents(m, value))
  {
    CoveredFolder(m, value);
    CoveredFilesNeverChange(m, value, fs, run);
  }
}
