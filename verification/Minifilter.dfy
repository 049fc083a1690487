/**
  * The decisions of the two file system callbacks (src/minifilter.rs:126-176, 207-255, 305-431), which read the
  * rule lists up to four and up to eight times while other threads may change them.
  */
module Minifilters {
  import opened Wrappers
  import opened NtStrings
  import opened Globs
  import opened PathUtils
  import opened RuleKeys
  import opened RulePaths
  import opened Rules
  import opened RuleReads
  import opened RulesManagers
  import opened FltUtils

  /**
    * Who makes a request: the image name of the requesting process, absent when it cannot be found out, and
    * that of its running parent, if any.
    */
  datatype Requestor = Requestor(name: Option<NtStr>, parent: Option<NtStr>)

  // ---------- decisions as functions ----------

  function SearchesFor(name: Option<NtStr>, path: NtStr): seq<Query> {
    if name.None? then [] else SearchQueries(name.value, path)
  }

  /** The reads `pre_create` makes until one finds a rule: the requestor's search, then its parent's. */
  function CreateQueries(who: Requestor, fileName: Option<NtStr>): seq<Query> {
    if who.name.None? || fileName.None? then []
    else SearchesFor(who.name, fileName.value) + SearchesFor(who.parent, fileName.value)
  }

  /** The reads `pre_set_info` makes for a rename: both names for the requestor, then for its parent. */
  function RenameQueries(m: Machine, who: Requestor, fileName: Option<NtStr>, newName: NtStr,
                         refused: Refusals): seq<Query> {
    if who.name.None? || fileName.None? then []
    else
      match DosPathToNt(m, newName, refused)
      case Failure(_) => []
      case Success(newPath) =>
        (SearchesFor(who.name, fileName.value) + SearchesFor(who.name, newPath))
        + (SearchesFor(who.parent, fileName.value) + SearchesFor(who.parent, newPath))
  }

  datatype CreateVerdict = Pass(options: bv32) | Denied

  /** `create_read_only`. */
  function CreateReadOnly(access: bv32, options: bv32): CreateVerdict {
    if IsWriteAccessRights(access) then Denied
    else if Disposition(options) == FILE_OPEN_IF then Pass(SetDisposition(options, FILE_OPEN))
    else if IsModifyDisposition(Disposition(options)) then Denied
    else Pass(options)
  }

  /** `pre_create`; `fileName` is what the name query reports, if it succeeds. */
  function PreCreate(up: CaseTable, seen: seq<Store>, who: Requestor, fileName: Option<NtStr>, access: bv32,
                     options: bv32): CreateVerdict {
    match FirstHit(up, CreateQueries(who, fileName), seen)
    case Deny => Denied
    case ReadOnly => CreateReadOnly(access, options)
    case Bypass => Pass(options)
  }

  /** Does `pre_set_info` deny the operation? Only renames are looked at; a new name that does not convert passes. */
  predicate PreSetInfoDenies(m: Machine, seen: seq<Store>, who: Requestor, fileName: Option<NtStr>, rename: bool,
                             newName: NtStr, refused: Refusals) {
    rename && FirstHit(m.up, RenameQueries(m, who, fileName, newName, refused), seen) != Bypass
  }

  /** The rule that applies while the lists do not change: the requestor's, else its parent's. */
  function Decision(up: CaseTable, store: Store, who: Requestor, path: NtStr): Action {
    if who.name.None? then Bypass
    else
      var own := SearchAction(up, store, who.name.value, path);
      if own != Bypass then own
      else if who.parent.None? then Bypass
      else SearchAction(up, store, who.parent.value, path)
  }

  ghost predicate Steady(seen: seq<Store>, store: Store) {
    forall i | 0 <= i < |seen| :: seen[i] == store
  }

  lemma SteadySearch(up: CaseTable, store: Store, name: Option<NtStr>, path: NtStr, seen: seq<Store>)
    requires Steady(seen, store) && |SearchesFor(name, path)| <= |seen|
    ensures FirstHit(up, SearchesFor(name, path), seen)
         == if name.None? then Bypass else SearchAction(up, store, name.value, path)
  {
    if name.Some? {
      SearchReadsTwo(up, name.value, path, seen);
    }
  }

  /** Two searches one after the other, on a store that stays. */
  lemma SteadyStages(up: CaseTable, store: Store, first: seq<Query>, second: seq<Query>, seen: seq<Store>)
    requires Steady(seen, store) && |first| + |second| <= |seen|
    ensures Steady(seen[..|first|], store) && Steady(seen[|first|..], store)
    ensures FirstHit(up, first + second, seen)
         == var a := FirstHit(up, first, seen[..|first|]);
            if a != Bypass then a else FirstHit(up, second, seen[|first|..])
  {
    FirstHitStages(up, first, second, seen[..|first|], seen[|first|..]);
    assert seen[..|first|] + seen[|first|..] == seen;
  }

  /** On lists that do not change, the reads of a create come to the decision. */
  lemma SteadyDecision(up: CaseTable, store: Store, who: Requestor, path: NtStr, seen: seq<Store>)
    requires Steady(seen, store) && |CreateQueries(who, Some(path))| <= |seen|
    ensures FirstHit(up, CreateQueries(who, Some(path)), seen) == Decision(up, store, who, path)
  {
    if who.name.Some? {
      var own, inherited := SearchesFor(who.name, path), SearchesFor(who.parent, path);
      SteadyStages(up, store, own, inherited, seen);
      SteadySearch(up, store, who.name, path, seen[..|own|]);
      SteadySearch(up, store, who.parent, path, seen[|own|..]);
    }
  }

  /**
    * What a read-only rule lets through: exactly the requests without write rights whose disposition cannot
    * make or empty a file, and "open or create" turned into "open". Flags are never touched.
    */
  lemma CreateReadOnlyMeaning(access: bv32, options: bv32)
    ensures CreateReadOnly(access, options).Pass? <==>
            !IsWriteAccessRights(access)
            && Disposition(options) !in {FILE_CREATE, FILE_SUPERSEDE, FILE_OVERWRITE, FILE_OVERWRITE_IF}
    ensures CreateReadOnly(access, options).Pass? ==>
            var passed := CreateReadOnly(access, options).options;
            && !IsModifyDisposition(Disposition(passed)) && CreateFlags(passed) == CreateFlags(options)
            && (passed == options <==> Disposition(options) != FILE_OPEN_IF)
  {
    SetDispositionExact(options, FILE_OPEN);
  }

  /**
    * The verdict of a read-only rule in numbers: it denies any of the eight write rights and the dispositions 0, 2, 4
    * and 5, turns 3 into 1, and passes everything else as it came.
    */
  lemma CreateReadOnlyExact(access: bv32, options: bv32)
    ensures CreateReadOnly(access, options) ==
            if access & 0x000D_0156 != 0 || options >> 24 in [0, 2, 4, 5] then Denied
            else if options >> 24 == 3 then Pass((options & 0x00FF_FFFF) | 0x0100_0000)
            else Pass(options)
  {
    WriteRightsExact(access);
    DispositionsExact(options);
  }

  /** Who only reads is let in: any of the rights to read, execute, read the protection and wait, with "open". */
  lemma ReadersPass(access: bv32, options: bv32)
    requires access & !0x0012_00A9 == 0 && options >> 24 == 1
    ensures CreateReadOnly(access, options) == Pass(options)
  {
    CreateReadOnlyExact(access, options);
    assert access & 0x000D_0156 == 0;
  }

  /**
    * The verdict on a create, from the reads: without names nothing is read and the request passes; else the earliest
    * read that finds a rule decides, and without one the request passes as it came.
    */
  lemma PreCreateMeaning(up: CaseTable, seen: seq<Store>, who: Requestor, fileName: Option<NtStr>, access: bv32,
                         options: bv32)
    ensures var queries, verdict := CreateQueries(who, fileName), PreCreate(up, seen, who, fileName, access, options);
            && (who.name.None? || fileName.None? ==> queries == [] && verdict == Pass(options))
            && (who.name.Some? && fileName.Some? ==>
                  && |queries| == (if who.parent.Some? then 4 else 2)
                  && queries[0] == Query(who.name.value, fileName.value, Deny)
                  && queries[1] == Query(who.name.value, fileName.value, ReadOnly)
                  && (who.parent.Some? ==>
                        && queries[2] == Query(who.parent.value, fileName.value, Deny)
                        && queries[3] == Query(who.parent.value, fileName.value, ReadOnly)))
            && ((forall i: nat :: !HitAt(up, queries, seen, i)) ==> verdict == Pass(options))
            && (forall i: nat | HitFirstAt(up, queries, seen, i) ::
                  verdict == if queries[i].ruleType == Deny then Denied else CreateReadOnly(access, options))
  {
    FirstHitMeaning(up, CreateQueries(who, fileName), seen);
  }

  /**
    * The denial of a set-information request, from the reads: only a rename is ever denied, by a known requestor, of
    * a file with a known name, to a name that converts, and then exactly when some read finds a rule.
    */
  lemma PreSetInfoMeaning(m: Machine, seen: seq<Store>, who: Requestor, fileName: Option<NtStr>, rename: bool,
                          newName: NtStr, refused: Refusals)
    ensures PreSetInfoDenies(m, seen, who, fileName, rename, newName, refused)
       <==> && rename && who.name.Some? && fileName.Some? && DosPathToNt(m, newName, refused).Success?
            && exists i: nat :: HitAt(m.up, RenameQueries(m, who, fileName, newName, refused), seen, i)
    ensures who.name.Some? && fileName.Some? && DosPathToNt(m, newName, refused).Success? ==>
              var newPath := DosPathToNt(m, newName, refused).value;
              RenameQueries(m, who, fileName, newName, refused)
              == BothNames(who.name.value, fileName.value, newPath)
                 + (if who.parent.Some? then BothNames(who.parent.value, fileName.value, newPath) else [])
  {
    FirstHitMeaning(m.up, RenameQueries(m, who, fileName, newName, refused), seen);
    if who.name.Some? && fileName.Some? && DosPathToNt(m, newName, refused).Success? {
      var newPath := DosPathToNt(m, newName, refused).value;
      BothNamesSearched(who.name.value, fileName.value, newPath);
      if who.parent.Some? {
        BothNamesSearched(who.parent.value, fileName.value, newPath);
      }
    }
  }

  /** The four reads about two names for one process. */
  function BothNames(name: NtStr, a: NtStr, b: NtStr): seq<Query> {
    [Query(name, a, Deny), Query(name, a, ReadOnly), Query(name, b, Deny), Query(name, b, ReadOnly)]
  }

  lemma BothNamesSearched(name: NtStr, a: NtStr, b: NtStr)
    ensures SearchesFor(Some(name), a) + SearchesFor(Some(name), b) == BothNames(name, a, b)
  {
  }

  /**
    * Which rule applies: a rule of the requestor, deny before read-only; only without one a rule of the parent,
    * in the same order. So the requestor's read-only rule stands before its parent's deny rule.
    */
  lemma DecisionMeaning(up: CaseTable, store: Store, who: Requestor, path: NtStr)
    requires who.name.Some?
    ensures var own := who.name.value;
            var ruled := FirstFitCovers(up, store.deny, own, path) || FirstFitCovers(up, store.readOnly, own, path);
            && (ruled ==>
                  (Decision(up, store, who, path) == Deny <==> FirstFitCovers(up, store.deny, own, path))
                  && Decision(up, store, who, path) != Bypass)
            && (!ruled ==>
                  && (Decision(up, store, who, path) == Deny <==>
                        who.parent.Some? && FirstFitCovers(up, store.deny, who.parent.value, path))
                  && (Decision(up, store, who, path) == Bypass <==>
                        who.parent.Some? ==>
                          && !FirstFitCovers(up, store.deny, who.parent.value, path)
                          && !FirstFitCovers(up, store.readOnly, who.parent.value, path)))
  {
    SearchMeaning(up, store, who.name.value, path);
    if who.parent.Some? {
      SearchMeaning(up, store, who.parent.value, path);
    }
  }

  lemma SteadyPair(up: CaseTable, store: Store, name: Option<NtStr>, a: NtStr, b: NtStr, seen: seq<Store>)
    requires Steady(seen, store) && |SearchesFor(name, a) + SearchesFor(name, b)| <= |seen|
    ensures FirstHit(up, SearchesFor(name, a) + SearchesFor(name, b), seen) != Bypass
       <==> && name.Some?
            && (|| SearchAction(up, store, name.value, a) != Bypass
                || SearchAction(up, store, name.value, b) != Bypass)
  {
    var first, second := SearchesFor(name, a), SearchesFor(name, b);
    SteadyStages(up, store, first, second, seen);
    SteadySearch(up, store, name, a, seen[..|first|]);
    SteadySearch(up, store, name, b, seen[|first|..]);
  }

  /**
    * On lists that do not change a rename is denied exactly when its new name converts and either of its two
    * names is ruled. A new name that does not convert passes, whatever is ruled.
    */
  lemma RenameDeniedIff(m: Machine, store: Store, who: Requestor, fileName: NtStr, newName: NtStr, refused: Refusals,
                        seen: seq<Store>)
    requires Steady(seen, store) && |RenameQueries(m, who, Some(fileName), newName, refused)| <= |seen|
    ensures PreSetInfoDenies(m, seen, who, Some(fileName), true, newName, refused)
       <==> && DosPathToNt(m, newName, refused).Success?
            && (|| Decision(m.up, store, who, fileName) != Bypass
                || Decision(m.up, store, who, DosPathToNt(m, newName, refused).value) != Bypass)
  {
    if who.name.Some? && DosPathToNt(m, newName, refused).Success? {
      var newPath := DosPathToNt(m, newName, refused).value;
      var own := SearchesFor(who.name, fileName) + SearchesFor(who.name, newPath);
      var inherited := SearchesFor(who.parent, fileName) + SearchesFor(who.parent, newPath);
      SteadyStages(m.up, store, own, inherited, seen);
      SteadyPair(m.up, store, who.name, fileName, newPath, seen[..|own|]);
      SteadyPair(m.up, store, who.parent, fileName, newPath, seen[|own|..]);
    }
  }

  /**
    * A rule that is moved from read-only to deny while a request's lists are read: the file is ruled at every
    * moment, but the request passes as it came, with whatever rights it asks for.
    */
  lemma MovedRulePasses(up: CaseTable, entry: FileAccessEntry, name: NtStr, path: NtStr, access: bv32, options: bv32)
    requires MatchesNoCase(up, name, entry.processName) && EntryCovers(up, entry, path)
    ensures var moments := [Store([], [entry]), Store([entry], [entry]), Store([entry], [])];
            var who := Requestor(Some(name), None);
            && (forall i | 0 <= i < 3 :: Decision(up, moments[i], who, path) != Bypass)
            && PreCreate(up, [moments[0], moments[2]], who, Some(path), access, options) == Pass(options)
  {
    MoveToDenyCanBeMissed(up, entry, name, path);
    assert CreateQueries(Requestor(Some(name), None), Some(path)) == SearchQueries(name, path);
  }

  lemma SearchIgnoresCase(up: CaseTable, rules: RuleList, processName: NtStr, filePath: NtStr)
    ensures SearchRule(up, rules, processName, Upper(up, filePath)) == SearchRule(up, rules, processName, filePath)
  {
    forall i, k | 0 <= i < |rules| && 0 <= k < |rules[i].filePaths|
      ensures PathMatches(up, rules[i].filePaths[k], Upper(up, filePath))
              == PathMatches(up, rules[i].filePaths[k], filePath)
    {
      PathMatchesIgnoresCase(up, rules[i].filePaths[k], filePath);
    }
    forall i | 0 <= i < |rules|
      ensures EntryCovers(up, rules[i], Upper(up, filePath)) == EntryCovers(up, rules[i], filePath)
    {
      if k :| 0 <= k < |rules[i].filePaths| && PathMatches(up, rules[i].filePaths[k], filePath) {
        assert PathMatches(up, rules[i].filePaths[k], Upper(up, filePath));
      }
    }
  }

  /** The case of a file's name never matters. */
  lemma DecisionIgnoresCase(up: CaseTable, store: Store, who: Requestor, path: NtStr)
    ensures Decision(up, store, who, Upper(up, path)) == Decision(up, store, who, path)
  {
    if who.name.Some? {
      SearchIgnoresCase(up, store.deny, who.name.value, path);
      SearchIgnoresCase(up, store.readOnly, who.name.value, path);
    }
    if who.parent.Some? {
      SearchIgnoresCase(up, store.deny, who.parent.value, path);
      SearchIgnoresCase(up, store.readOnly, who.parent.value, path);
    }
  }

  // ---------- the callbacks ----------

  datatype PreopStatus = SuccessNoCallback | Complete

  /** The parts of FLT_CALLBACK_DATA that the callbacks read or write. */
  class CallbackData {
    const desiredAccess: bv32
    var options: bv32
    var accessDenied: bool
    var information: nat
    var dirty: bool

    constructor (desiredAccess: bv32, options: bv32, information: nat)
      ensures this.desiredAccess == desiredAccess && this.options == options && this.information == information
      ensures !accessDenied && !dirty
    {
      this.desiredAccess, this.options, this.information := desiredAccess, options, information;
      accessDenied, dirty := false, false;
    }

    /** `deny_access`. */
    method DenyAccess() returns (r: PreopStatus)
      modifies this`accessDenied, this`information
      ensures r == Complete && accessDenied && information == 0
    {
      accessDenied := true;
      information := 0;
      return Complete;
    }

    /** The data as a verdict leaves it. */
    twostate predicate Reflects(verdict: CreateVerdict, r: PreopStatus)
      reads this
    {
      match verdict
      case Denied => r == Complete && accessDenied && information == 0 && options == old(options) && dirty == old(dirty)
      case Pass(passed) =>
        && r == SuccessNoCallback && options == passed
        && accessDenied == old(accessDenied) && information == old(information)
        && dirty == (old(dirty) || passed != old(options))
    }

    /** The request goes on, and the data is as it came. */
    twostate predicate Untouched(r: PreopStatus)
      reads this
    {
      && r == SuccessNoCallback && options == old(options) && accessDenied == old(accessDenied)
      && information == old(information) && dirty == old(dirty)
    }

    /** The request ends here with the denial, and its parameters are as they came. */
    twostate predicate AccessIsDenied(r: PreopStatus)
      reads this
    {
      r == Complete && accessDenied && information == 0 && options == old(options) && dirty == old(dirty)
    }

    /** `create_read_only`, which marks the data dirty whenever it rewrites it. */
    method CreateReadOnlyInPlace() returns (r: PreopStatus)
      modifies this
      ensures Reflects(CreateReadOnly(desiredAccess, old(options)), r)
    {
      CreateReadOnlyMeaning(desiredAccess, options);
      if IsWriteAccessRights(desiredAccess) {
        r := DenyAccess();
        return;
      }
      var disposition := Disposition(options);
      if disposition == FILE_OPEN_IF {
        options := SetDisposition(options, FILE_OPEN);
        dirty := true;
        return SuccessNoCallback;
      }
      if IsModifyDisposition(disposition) {
        r := DenyAccess();
        return;
      }
      return SuccessNoCallback;
    }
  }

  lemma CreateStages(up: CaseTable, who: Requestor, path: NtStr, seen: seq<Store>)
    requires who.name.Some? && |seen| == 4
    ensures FirstHit(up, CreateQueries(who, Some(path)), seen)
         == var own := FirstHit(up, SearchQueries(who.name.value, path), [seen[0], seen[1]]);
            if own != Bypass then own
            else if who.parent.None? then Bypass
            else FirstHit(up, SearchQueries(who.parent.value, path), [seen[2], seen[3]])
  {
    FirstHitStages(up, SearchesFor(who.name, path), SearchesFor(who.parent, path), [seen[0], seen[1]],
        [seen[2], seen[3]]);
    assert seen == [seen[0], seen[1]] + [seen[2], seen[3]];
  }

  /** `pre_create`. `later` is what other threads have made of the lists at the second, third and fourth read. */
  method PreCreateCallback(rules: RulesManager, data: CallbackData, who: Requestor, fileName: Option<NtStr>,
                           later: seq<Store>)
    returns (r: PreopStatus)
    requires |later| == 3
    modifies data, rules
    ensures data.Reflects(PreCreate(rules.machine.up, [old(rules.Contents())] + later, who, fileName,
                                    data.desiredAccess, old(data.options)), r)
    ensures who.name.None? || fileName.None? ==> data.Untouched(r)
  {
    if who.name.None? || fileName.None? {
      return SuccessNoCallback;
    }
    CreateStages(rules.machine.up, who, fileName.value, [rules.Contents()] + later);
    var own := rules.SearchRuleAction(who.name.value, fileName.value, later[0]);
    match own {
      case Deny =>
        r := data.DenyAccess();
        return;
      case ReadOnly =>
        r := data.CreateReadOnlyInPlace();
        return;
      case Bypass =>
    }
    if who.parent.Some? {
      rules.OthersRun(later[1]);
      var inherited := rules.SearchRuleAction(who.parent.value, fileName.value, later[2]);
      match inherited {
        case Deny =>
          r := data.DenyAccess();
          return;
        case ReadOnly =>
          r := data.CreateReadOnlyInPlace();
          return;
        case Bypass =>
      }
    }
    return SuccessNoCallback;
  }

  /** `protection_rule_exists`. */
  method ProtectionRuleExists(rules: RulesManager, name: NtStr, path: NtStr, later: Store) returns (found: bool)
    modifies rules
    ensures found <==> FirstHit(rules.machine.up, SearchQueries(name, path), [old(rules.Contents()), later]) != Bypass
  {
    var action := rules.SearchRuleAction(name, path, later);
    return action in {Deny, ReadOnly};
  }

  /** Some search of one of two paths for a process finds a rule. */
  predicate PairHit(up: CaseTable, name: NtStr, a: NtStr, b: NtStr, seen: seq<Store>)
    requires |seen| == 4
  {
    || FirstHit(up, SearchQueries(name, a), [seen[0], seen[1]]) != Bypass
    || FirstHit(up, SearchQueries(name, b), [seen[2], seen[3]]) != Bypass
  }

  lemma PairStages(up: CaseTable, name: NtStr, a: NtStr, b: NtStr, seen: seq<Store>)
    requires |seen| == 4
    ensures FirstHit(up, SearchQueries(name, a) + SearchQueries(name, b), seen) != Bypass
            <==> PairHit(up, name, a, b, seen)
  {
    FirstHitStages(up, SearchQueries(name, a), SearchQueries(name, b), [seen[0], seen[1]], [seen[2], seen[3]]);
    assert seen == [seen[0], seen[1]] + [seen[2], seen[3]];
  }

  /** The eight reads for a rename are four for the requestor and four for its parent. */
  lemma RenameStages(m: Machine, who: Requestor, fileName: NtStr, newName: NtStr, refused: Refusals,
                     first: Store, later: seq<Store>)
    requires who.name.Some? && DosPathToNt(m, newName, refused).Success? && |later| == 7
    ensures var newPath := DosPathToNt(m, newName, refused).value;
            PreSetInfoDenies(m, [first] + later, who, Some(fileName), true, newName, refused) <==>
              || PairHit(m.up, who.name.value, fileName, newPath, [first] + later[..3])
              || (who.parent.Some? && PairHit(m.up, who.parent.value, fileName, newPath, later[3..]))
  {
    var newPath := DosPathToNt(m, newName, refused).value;
    var own := SearchesFor(who.name, fileName) + SearchesFor(who.name, newPath);
    var inherited := SearchesFor(who.parent, fileName) + SearchesFor(who.parent, newPath);
    FirstHitStages(m.up, own, inherited, [first] + later[..3], later[3..]);
    assert [first] + later == ([first] + later[..3]) + later[3..];
    PairStages(m.up, who.name.value, fileName, newPath, [first] + later[..3]);
    if who.parent.Some? {
      PairStages(m.up, who.parent.value, fileName, newPath, later[3..]);
    }
  }

  /** The checks of a rename's two names for one process. */
  method EitherNameProtected(rules: RulesManager, name: NtStr, fileName: NtStr, newPath: NtStr, later: seq<Store>)
    returns (protected: bool)
    requires |later| == 3
    modifies rules
    ensures protected <==> PairHit(rules.machine.up, name, fileName, newPath, [old(rules.Contents())] + later)
  {
    protected := ProtectionRuleExists(rules, name, fileName, later[0]);
    if !protected {
      rules.OthersRun(later[1]);
      protected := ProtectionRuleExists(rules, name, newPath, later[2]);
    }
  }

  /** The checks of a rename for the requestor and, when they find nothing, for its parent. */
  method RenameProtected(rules: RulesManager, who: Requestor, fileName: NtStr, newPath: NtStr, later: seq<Store>)
    returns (protected: bool)
    requires who.name.Some? && |later| == 7
    modifies rules
    ensures protected <==>
              || PairHit(rules.machine.up, who.name.value, fileName, newPath, [old(rules.Contents())] + later[..3])
              || (who.parent.Some? && PairHit(rules.machine.up, who.parent.value, fileName, newPath, later[3..]))
  {
    protected := EitherNameProtected(rules, who.name.value, fileName, newPath, later[..3]);
    if !protected && who.parent.Some? {
      rules.OthersRun(later[3]);
      assert [later[3]] + later[4..] == later[3..];
      protected := EitherNameProtected(rules, who.parent.value, fileName, newPath, later[4..]);
    }
  }

  /**
    * `pre_set_info`: the new name is converted first, then both names are checked for requestor and parent.
    * `later` is what other threads have made of the lists at the second to eighth read.
    */
  method PreSetInfoCallback(rules: RulesManager, data: CallbackData, who: Requestor, fileName: Option<NtStr>,
                            rename: bool, newName: NtStr, refused: Refusals, later: seq<Store>)
    returns (r: PreopStatus)
    requires |later| == 7
    modifies data, rules
    ensures var denies := PreSetInfoDenies(rules.machine, [old(rules.Contents())] + later, who, fileName, rename,
                                           newName, refused);
            if denies then data.AccessIsDenied(r) else data.Untouched(r)
    ensures !rename || who.name.None? || fileName.None? || DosPathToNt(rules.machine, newName, refused).Failure? ==>
              data.Untouched(r)
  {
    ghost var denies := PreSetInfoDenies(rules.machine, [rules.Contents()] + later, who, fileName, rename, newName,
        refused);
    if who.name.None? || fileName.None? || !rename {
      assert !denies;
      return SuccessNoCallback;
    }
    var converted := ConvertDosPath(rules.machine, newName, refused);
    if converted.Failure? {
      assert !denies;
      return SuccessNoCallback;
    }
    var newPath := converted.value;
    RenameStages(rules.machine, who, fileName.value, newName, refused, rules.Contents(), later);
    var protected := RenameProtected(rules, who, fileName.value, newPath, later);
    assert protected == denies;
    if protected {
      r := data.DenyAccess();
      return;
    }
    return SuccessNoCallback;
  }
}
