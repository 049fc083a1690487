/** The rule store as a value: searching it and the updates made to it (src/rules_manager.rs:247-581). */
module Rules {
  import opened Wrappers
  import opened NtStrings
  import opened Globs
  import opened RuleKeys
  import opened RulePaths

  /** A process name pattern with the paths its rules cover. */
  datatype FileAccessEntry = FileAccessEntry(processName: NtStr, filePaths: seq<NtStr>)

  type RuleList = seq<FileAccessEntry>

  datatype Store = Store(deny: RuleList, readOnly: RuleList) {

    function Rules(action: Action): RuleList {
      match action
      case Deny => deny
      case ReadOnly => readOnly
      case Bypass => []
    }

    function With(action: Action, rules: RuleList): Store {
      match action
      case Deny => this.(deny := rules)
      case ReadOnly => this.(readOnly := rules)
      case Bypass => this
    }
  }

  const EMPTY_STORE := Store([], [])

  // ---------- updates ----------

  /** The entry that an update of `processName` works on. */
  function FindEntry(up: CaseTable, rules: RuleList, processName: NtStr): (r: Option<nat>)
    ensures r.Some? ==> r.value < |rules| && EqualsNoCase(up, rules[r.value].processName, processName)
    ensures r.None? ==> forall j | 0 <= j < |rules| :: !EqualsNoCase(up, rules[j].processName, processName)
    ensures r.Some? ==> forall j | 0 <= j < r.value :: !EqualsNoCase(up, rules[j].processName, processName)
  {
    FirstIndex(rules, (entry: FileAccessEntry) => EqualsNoCase(up, entry.processName, processName))
  }

  function FindPath(up: CaseTable, paths: seq<NtStr>, path: NtStr): (r: Option<nat>)
    ensures r.Some? ==> r.value < |paths| && EqualsNoCase(up, paths[r.value], path)
    ensures r.None? ==> forall j | 0 <= j < |paths| :: !EqualsNoCase(up, paths[j], path)
  {
    FirstIndex(paths, (p: NtStr) => EqualsNoCase(up, p, path))
  }

  /** `add_file_to_process_rules_impl`. */
  function AddFile(up: CaseTable, rules: RuleList, processName: NtStr, path: NtStr,
                   refused: Refusals): Result<RuleList> {
    var _ :- Granted(CopyProcessName, refused);
    var _ :- Granted(UpcaseProcessName, refused);
    var upcase := Upper(up, processName);
    var _ :- Granted(PushPath, refused);
    match FindEntry(up, rules, upcase)
    case Some(i) =>
      Success(rules[i := rules[i].(filePaths := rules[i].filePaths + [path])])
    case None =>
      var _ :- Granted(PushEntry, refused);
      Success(rules + [FileAccessEntry(upcase, [path])])
  }

  /** `remove_file_from_process_rules_impl`. */
  function RemoveFile(up: CaseTable, rules: RuleList, processName: NtStr, path: NtStr): RuleList {
    match FindEntry(up, rules, processName)
    case None => rules
    case Some(i) =>
      match FindPath(up, rules[i].filePaths, path)
      case None => rules
      case Some(pos) => rules[i := rules[i].(filePaths := RemoveAt(rules[i].filePaths, pos))]
  }

  /** `clear_rules_for_process_impl`. */
  function ClearProcess(up: CaseTable, rules: RuleList, processName: NtStr): RuleList {
    match FindEntry(up, rules, processName)
    case None => rules
    case Some(i) => RemoveAt(rules, i)
  }

  /** `rename_process_rules_impl`. */
  function RenameProcess(up: CaseTable, rules: RuleList, oldName: NtStr, newName: NtStr,
                         refused: Refusals): Result<RuleList> {
    var _ :- Granted(CopyProcessName, refused);
    var _ :- Granted(UpcaseProcessName, refused);
    match FindEntry(up, rules, oldName)
    case None => Success(rules)
    case Some(i) => Success(rules[i := rules[i].(processName := Upper(up, newName))])
  }

  // ---------- the store invariant ----------

  /** What the case-insensitive matcher needs: names and paths are upper-case. */
  predicate UpperCased(up: CaseTable, rules: RuleList) {
    forall i | 0 <= i < |rules| ::
      && IsUpper(up, rules[i].processName)
      && forall k | 0 <= k < |rules[i].filePaths| :: IsUpper(up, rules[i].filePaths[k])
  }

  predicate DistinctNames(up: CaseTable, rules: RuleList) {
    forall i, j | 0 <= i < j < |rules| :: !EqualsNoCase(up, rules[i].processName, rules[j].processName)
  }

  predicate RulesInv(up: CaseTable, rules: RuleList) {
    UpperCased(up, rules) && DistinctNames(up, rules)
  }

  predicate HasName(up: CaseTable, rules: RuleList, name: NtStr) {
    exists i | 0 <= i < |rules| :: EqualsNoCase(up, rules[i].processName, name)
  }

  lemma AddFileKeepsInv(up: CaseTable, rules: RuleList, name: NtStr, path: NtStr, refused: Refusals)
    requires RulesInv(up, rules) && IsUpper(up, path)
    requires AddFile(up, rules, name, path, refused).Success?
    ensures RulesInv(up, AddFile(up, rules, name, path, refused).value)
  {
    UpperIdempotent(up, name);
  }

  lemma RemoveFileKeepsInv(up: CaseTable, rules: RuleList, name: NtStr, path: NtStr)
    requires RulesInv(up, rules)
    ensures RulesInv(up, RemoveFile(up, rules, name, path))
  {
  }

  lemma RemovalKeepsInv(up: CaseTable, rules: RuleList, i: nat)
    requires RulesInv(up, rules) && i < |rules|
    ensures RulesInv(up, RemoveAt(rules, i))
  {
    var left := RemoveAt(rules, i);
    forall a, b | 0 <= a < b < |left|
      ensures !EqualsNoCase(up, left[a].processName, left[b].processName)
    {
      assert left[a] == rules[if a < i then a else a + 1] && left[b] == rules[if b < i then b else b + 1];
    }
  }

  lemma ClearProcessKeepsInv(up: CaseTable, rules: RuleList, name: NtStr)
    requires RulesInv(up, rules)
    ensures RulesInv(up, ClearProcess(up, rules, name))
  {
    match FindEntry(up, rules, name)
    case None =>
    case Some(i) => RemovalKeepsInv(up, rules, i);
  }

  /** Renaming keeps the names distinct exactly when it hits no other name (or hits nothing at all). */
  lemma RenameKeepsInvIff(up: CaseTable, rules: RuleList, oldName: NtStr, newName: NtStr, refused: Refusals)
    requires RulesInv(up, rules)
    requires RenameProcess(up, rules, oldName, newName, refused).Success?
    ensures RulesInv(up, RenameProcess(up, rules, oldName, newName, refused).value)
       <==> !HasName(up, rules, oldName) || EqualsNoCase(up, oldName, newName) || !HasName(up, rules, newName)
  {
    var renamed := RenameProcess(up, rules, oldName, newName, refused).value;
    UpperIdempotent(up, newName);
    match FindEntry(up, rules, oldName)
    case None =>
    case Some(i) =>
      assert renamed[i].processName == Upper(up, newName);
      if !EqualsNoCase(up, oldName, newName) && HasName(up, rules, newName) {
        var j :| 0 <= j < |rules| && EqualsNoCase(up, rules[j].processName, newName);
        assert j != i && renamed[j] == rules[j];
        assert EqualsNoCase(up, renamed[i].processName, renamed[j].processName);
      }
  }

  // ---------- searching ----------

  predicate EntryCovers(up: CaseTable, entry: FileAccessEntry, filePath: NtStr) {
    exists k | 0 <= k < |entry.filePaths| :: PathMatches(up, entry.filePaths[k], filePath)
  }

  /** `search_rule_impl`: only the first entry whose name pattern fits is asked. */
  predicate SearchRule(up: CaseTable, rules: RuleList, processName: NtStr, filePath: NtStr) {
    match FirstIndex(rules, (entry: FileAccessEntry) => MatchesNoCase(up, processName, entry.processName))
    case None => false
    case Some(i) => EntryCovers(up, rules[i], filePath)
  }

  /** `search_rule_action`. */
  function SearchAction(up: CaseTable, store: Store, processName: NtStr, filePath: NtStr): Action {
    if SearchRule(up, store.deny, processName, filePath) then Deny
    else if SearchRule(up, store.readOnly, processName, filePath) then ReadOnly
    else Bypass
  }

  /** The first fitting entry covers the file. */
  ghost predicate FirstFitCovers(up: CaseTable, rules: RuleList, processName: NtStr, filePath: NtStr) {
    exists i | 0 <= i < |rules| ::
      && MatchesNoCase(up, processName, rules[i].processName)
      && (forall j | 0 <= j < i :: !MatchesNoCase(up, processName, rules[j].processName))
      && EntryCovers(up, rules[i], filePath)
  }

  /** Some fitting entry covers the file. */
  ghost predicate SomeFitCovers(up: CaseTable, rules: RuleList, processName: NtStr, filePath: NtStr) {
    exists i | 0 <= i < |rules| ::
      MatchesNoCase(up, processName, rules[i].processName) && EntryCovers(up, rules[i], filePath)
  }

  /** The entries whose pattern fits the process agree on the file. */
  ghost predicate FittingAgree(up: CaseTable, rules: RuleList, processName: NtStr, filePath: NtStr) {
    forall i, j | && 0 <= i < |rules| && MatchesNoCase(up, processName, rules[i].processName)
                  && 0 <= j < |rules| && MatchesNoCase(up, processName, rules[j].processName) ::
      EntryCovers(up, rules[i], filePath) ==> EntryCovers(up, rules[j], filePath)
  }

  lemma SearchIsFirstFit(up: CaseTable, rules: RuleList, processName: NtStr, filePath: NtStr)
    ensures SearchRule(up, rules, processName, filePath) <==> FirstFitCovers(up, rules, processName, filePath)
  {
    if i :| && 0 <= i < |rules|
            && MatchesNoCase(up, processName, rules[i].processName)
            && (forall j | 0 <= j < i :: !MatchesNoCase(up, processName, rules[j].processName))
            && EntryCovers(up, rules[i], filePath)
    {
      FirstIndexUnique(rules, (entry: FileAccessEntry) => MatchesNoCase(up, processName, entry.processName), i);
    }
  }

  /** The action a search returns, without the search: deny rules first, first fitting entry only. */
  lemma SearchMeaning(up: CaseTable, store: Store, processName: NtStr, filePath: NtStr)
    ensures SearchAction(up, store, processName, filePath) == Deny
       <==> FirstFitCovers(up, store.deny, processName, filePath)
    ensures SearchAction(up, store, processName, filePath) == ReadOnly
       <==> && !FirstFitCovers(up, store.deny, processName, filePath)
            && FirstFitCovers(up, store.readOnly, processName, filePath)
  {
    SearchIsFirstFit(up, store.deny, processName, filePath);
    SearchIsFirstFit(up, store.readOnly, processName, filePath);
  }

  /** When the fitting entries agree, the first one answers like any of them. */
  lemma AgreedSearch(up: CaseTable, rules: RuleList, processName: NtStr, filePath: NtStr)
    requires FittingAgree(up, rules, processName, filePath)
    ensures SearchRule(up, rules, processName, filePath) <==> SomeFitCovers(up, rules, processName, filePath)
  {
  }

  /** What a rule list says when neither the order of its entries nor that of their paths counts. */
  ghost function Summaries(rules: RuleList): (r: seq<(NtStr, multiset<NtStr>)>)
    ensures |r| == |rules|
    ensures forall i | 0 <= i < |rules| :: r[i] == (rules[i].processName, multiset(rules[i].filePaths))
  {
    seq(|rules|, i requires 0 <= i < |rules| => (rules[i].processName, multiset(rules[i].filePaths)))
  }

  ghost predicate Rearranged(a: RuleList, b: RuleList) {
    multiset(Summaries(a)) == multiset(Summaries(b))
  }

  lemma PlaceOf<T>(a: seq<T>, b: seq<T>, i: nat) returns (i': nat)
    requires multiset(a) == multiset(b) && i < |b|
    ensures i' < |a| && a[i'] == b[i]
    ensures multiset(RemoveAt(a, i')) == multiset(RemoveAt(b, i))
  {
    assert b[i] in multiset(b);
    assert b[i] in multiset(a);
    i' :| 0 <= i' < |a| && a[i'] == b[i];
  }

  lemma SomeFitRearranged(up: CaseTable, a: RuleList, b: RuleList, processName: NtStr, filePath: NtStr)
    requires Rearranged(a, b)
    requires SomeFitCovers(up, a, processName, filePath)
    ensures SomeFitCovers(up, b, processName, filePath)
  {
    var i :| 0 <= i < |a| && MatchesNoCase(up, processName, a[i].processName) && EntryCovers(up, a[i], filePath);
    var k :| 0 <= k < |a[i].filePaths| && PathMatches(up, a[i].filePaths[k], filePath);
    var pa, pb := Summaries(a), Summaries(b);
    assert pa[i] in multiset(pa) && pa[i] in multiset(pb);
    var j :| 0 <= j < |pb| && pb[j] == pa[i];
    assert a[i].filePaths[k] in multiset(b[j].filePaths);
    var l :| 0 <= l < |b[j].filePaths| && b[j].filePaths[l] == a[i].filePaths[k];
    assert EntryCovers(up, b[j], filePath);
  }

  lemma SameSummaryCovers(up: CaseTable, a: FileAccessEntry, b: FileAccessEntry, filePath: NtStr)
    requires multiset(a.filePaths) == multiset(b.filePaths)
    ensures EntryCovers(up, a, filePath) ==> EntryCovers(up, b, filePath)
  {
    if k :| 0 <= k < |a.filePaths| && PathMatches(up, a.filePaths[k], filePath) {
      var l := PlaceOf(b.filePaths, a.filePaths, k);
      assert PathMatches(up, b.filePaths[l], filePath);
    }
  }

  lemma AgreementRearranged(up: CaseTable, a: RuleList, b: RuleList, processName: NtStr, filePath: NtStr)
    requires Rearranged(a, b) && FittingAgree(up, a, processName, filePath)
    ensures FittingAgree(up, b, processName, filePath)
  {
    forall i, j | 0 <= i < |b| && 0 <= j < |b| && MatchesNoCase(up, processName, b[i].processName)
                  && MatchesNoCase(up, processName, b[j].processName) && EntryCovers(up, b[i], filePath)
      ensures EntryCovers(up, b[j], filePath)
    {
      var i' := PlaceOf(Summaries(a), Summaries(b), i);
      var j' := PlaceOf(Summaries(a), Summaries(b), j);
      SameSummaryCovers(up, b[i], a[i'], filePath);
      SameSummaryCovers(up, a[j'], b[j], filePath);
    }
  }

  /** When the fitting entries agree, no rearrangement of entries or of their paths changes the answer. */
  lemma SearchRearranged(up: CaseTable, a: RuleList, b: RuleList, processName: NtStr, filePath: NtStr)
    requires Rearranged(a, b) && FittingAgree(up, a, processName, filePath)
    ensures SearchRule(up, a, processName, filePath) == SearchRule(up, b, processName, filePath)
    ensures SearchRule(up, a, processName, filePath) <==> SomeFitCovers(up, a, processName, filePath)
  {
    AgreementRearranged(up, a, b, processName, filePath);
    AgreedSearch(up, a, processName, filePath);
    AgreedSearch(up, b, processName, filePath);
    if SomeFitCovers(up, a, processName, filePath) {
      SomeFitRearranged(up, a, b, processName, filePath);
    }
    if SomeFitCovers(up, b, processName, filePath) {
      SomeFitRearranged(up, b, a, processName, filePath);
    }
  }

  /** The list with one entry moved to the front. */
  function Promoted(rules: RuleList, i: nat): RuleList
    requires i < |rules|
  {
    [rules[i]] + RemoveAt(rules, i)
  }

  lemma PromotedIsRearranged(rules: RuleList, i: nat)
    requires i < |rules|
    ensures Rearranged(rules, Promoted(rules, i))
  {
    var all := Summaries(rules);
    assert Summaries(Promoted(rules, i)) == [all[i]] + RemoveAt(all, i);
    assert multiset([all[i]] + RemoveAt(all, i)) == multiset{all[i]} + multiset(RemoveAt(all, i));
  }

  lemma PromotedAnswers(up: CaseTable, rules: RuleList, i: nat, processName: NtStr, filePath: NtStr)
    requires i < |rules| && MatchesNoCase(up, processName, rules[i].processName)
    ensures SearchRule(up, Promoted(rules, i), processName, filePath) <==> EntryCovers(up, rules[i], filePath)
  {
    FirstIndexUnique(Promoted(rules, i), (e: FileAccessEntry) => MatchesNoCase(up, processName, e.processName), 0);
  }

  /** No rearrangement of the list changes the answer. */
  ghost predicate OrderIrrelevant(up: CaseTable, rules: RuleList, processName: NtStr, filePath: NtStr) {
    forall b | Rearranged(rules, b) ::
      SearchRule(up, b, processName, filePath) == SearchRule(up, rules, processName, filePath)
  }

  /** Exactly when order matters: when two entries that fit the process disagree on the file. */
  lemma OrderIrrelevantIff(up: CaseTable, rules: RuleList, processName: NtStr, filePath: NtStr)
    ensures OrderIrrelevant(up, rules, processName, filePath) <==> FittingAgree(up, rules, processName, filePath)
  {
    if FittingAgree(up, rules, processName, filePath) {
      forall b | Rearranged(rules, b)
        ensures SearchRule(up, b, processName, filePath) == SearchRule(up, rules, processName, filePath)
      {
        SearchRearranged(up, rules, b, processName, filePath);
      }
    }
    if OrderIrrelevant(up, rules, processName, filePath) {
      forall i | 0 <= i < |rules| && MatchesNoCase(up, processName, rules[i].processName)
        ensures EntryCovers(up, rules[i], filePath) <==> SearchRule(up, rules, processName, filePath)
      {
        PromotedIsRearranged(rules, i);
        PromotedAnswers(up, rules, i, processName, filePath);
      }
    }
  }

  /** With overlapping patterns the order does count: an earlier entry without paths hides a later one. */
  lemma OverlapIsOrderSensitive(up: CaseTable, any: FileAccessEntry, one: FileAccessEntry,
                                processName: NtStr, filePath: NtStr)
    requires any.processName == [STAR] && any.filePaths == []
    requires MatchesNoCase(up, processName, one.processName) && EntryCovers(up, one, filePath)
    ensures Rearranged([any, one], [one, any])
    ensures SearchRule(up, [one, any], processName, filePath) && !SearchRule(up, [any, one], processName, filePath)
  {
    var fits := (entry: FileAccessEntry) => MatchesNoCase(up, processName, entry.processName);
    GlobStar(Upper(up, processName));
    FirstIndexUnique([one, any], fits, 0);
    FirstIndexUnique([any, one], fits, 0);
    assert Summaries([any, one]) == [Summaries([any, one])[0]] + [Summaries([any, one])[1]];
    assert Summaries([one, any]) == [Summaries([any, one])[1]] + [Summaries([any, one])[0]];
  }

  // ---------- the updates, entry by entry ----------

  /** The entry is the first one of the process. */
  ghost predicate IsFirstOf(up: CaseTable, rules: RuleList, name: NtStr, i: nat) {
    && i < |rules| && Upper(up, rules[i].processName) == Upper(up, name)
    && forall j | 0 <= j < i :: Upper(up, rules[j].processName) != Upper(up, name)
  }

  ghost predicate IsFirstCopy(up: CaseTable, paths: seq<NtStr>, path: NtStr, k: nat) {
    && k < |paths| && Upper(up, paths[k]) == Upper(up, path)
    && forall l | 0 <= l < k :: Upper(up, paths[l]) != Upper(up, path)
  }

  lemma FoundIsFirst(up: CaseTable, rules: RuleList, name: NtStr)
    ensures forall i: nat :: IsFirstOf(up, rules, name, i) <==> FindEntry(up, rules, name) == Some(i)
    ensures HasName(up, rules, name) <==> FindEntry(up, rules, name).Some?
  {
    var found := FindEntry(up, rules, name);
    forall i: nat
      ensures IsFirstOf(up, rules, name, i) <==> found == Some(i)
    {
      if IsFirstOf(up, rules, name, i) {
        assert EqualsNoCase(up, rules[i].processName, name);
      }
    }
  }

  lemma FoundIsFirstCopy(up: CaseTable, paths: seq<NtStr>, path: NtStr)
    ensures forall k: nat :: IsFirstCopy(up, paths, path, k) <==> FindPath(up, paths, path) == Some(k)
  {
    var found := FindPath(up, paths, path);
    if found.Some? {
      FirstIndexUnique(paths, (p: NtStr) => EqualsNoCase(up, p, path), found.value);
    }
    forall k: nat
      ensures IsFirstCopy(up, paths, path, k) <==> found == Some(k)
    {
      if IsFirstCopy(up, paths, path, k) {
        assert forall l | 0 <= l < k :: !EqualsNoCase(up, paths[l], path);
        FirstIndexUnique(paths, (p: NtStr) => EqualsNoCase(up, p, path), k);
      }
      if found == Some(k) {
        assert FirstIndex(paths, (p: NtStr) => EqualsNoCase(up, p, path)) == Some(k);
      }
    }
  }

  /**
    * Renaming: refused exactly with one of its two memory requests; else the first entry of the process takes the
    * upper-case new name, whatever its length, and nothing else changes.
    */
  lemma RenameProcessExact(up: CaseTable, rules: RuleList, oldName: NtStr, newName: NtStr, refused: Refusals)
    ensures CopyProcessName in refused || UpcaseProcessName in refused ==>
              RenameProcess(up, rules, oldName, newName, refused) == Failure(InsufficientResources)
    ensures CopyProcessName !in refused && UpcaseProcessName !in refused ==>
              var r := RenameProcess(up, rules, oldName, newName, refused);
              && r.Success? && |r.value| == |rules|
              && forall i: nat | i < |rules| ::
                   r.value[i] == if IsFirstOf(up, rules, oldName, i)
                                 then FileAccessEntry(Upper(up, newName), rules[i].filePaths) else rules[i]
  {
    FoundIsFirst(up, rules, oldName);
  }

  /**
    * Adding: refused exactly with a request it makes, one more where an entry must be made; else the path goes to the
    * end of the first entry of the process, or a new entry with this path to the end of the list.
    */
  lemma AddFileExact(up: CaseTable, rules: RuleList, name: NtStr, path: NtStr, refused: Refusals)
    ensures var r := AddFile(up, rules, name, path, refused);
            var granted := && CopyProcessName !in refused && UpcaseProcessName !in refused && PushPath !in refused
                           && (HasName(up, rules, name) || PushEntry !in refused);
            && (!granted ==> r == Failure(InsufficientResources))
            && (granted && !HasName(up, rules, name) ==>
                  r == Success(rules + [FileAccessEntry(Upper(up, name), [path])]))
            && (granted && HasName(up, rules, name) ==>
                  && r.Success? && |r.value| == |rules|
                  && forall i: nat | i < |rules| ::
                       r.value[i] == if IsFirstOf(up, rules, name, i)
                                     then FileAccessEntry(rules[i].processName, rules[i].filePaths + [path])
                                     else rules[i])
  {
    FoundIsFirst(up, rules, name);
    FoundIsFirst(up, rules, Upper(up, name));
    UpperIdempotent(up, name);
    assert forall i: nat :: IsFirstOf(up, rules, name, i) <==> IsFirstOf(up, rules, Upper(up, name), i);
  }

  /** Removing: the first copy of the path in the first entry of the process goes; without one nothing changes. */
  lemma RemoveFileExact(up: CaseTable, rules: RuleList, name: NtStr, path: NtStr)
    ensures |RemoveFile(up, rules, name, path)| == |rules|
    ensures forall i: nat, k: nat | IsFirstOf(up, rules, name, i) && IsFirstCopy(up, rules[i].filePaths, path, k) ::
              RemoveFile(up, rules, name, path)[i]
              == FileAccessEntry(rules[i].processName, rules[i].filePaths[..k] + rules[i].filePaths[k + 1..])
    ensures forall i: nat | i < |rules| ::
              !IsFirstOf(up, rules, name, i) || !(exists k: nat :: IsFirstCopy(up, rules[i].filePaths, path, k)) ==>
                RemoveFile(up, rules, name, path)[i] == rules[i]
  {
    FoundIsFirst(up, rules, name);
    var found := FindEntry(up, rules, name);
    if found.Some? {
      assert IsFirstOf(up, rules, name, found.value);
      var paths := rules[found.value].filePaths;
      FoundIsFirstCopy(up, paths, path);
      var pos := FindPath(up, paths, path);
      if pos.Some? {
        assert IsFirstCopy(up, paths, path, pos.value);
      }
    }
  }

  /** Clearing: the first entry of the process goes; without one nothing changes. */
  lemma ClearProcessExact(up: CaseTable, rules: RuleList, name: NtStr)
    ensures forall i: nat | IsFirstOf(up, rules, name, i) ::
            ClearProcess(up, rules, name) == rules[..i] + rules[i + 1..]
    ensures !HasName(up, rules, name) ==> ClearProcess(up, rules, name) == rules
  {
    FoundIsFirst(up, rules, name);
  }

  // ---------- the search, path by path ----------

  /** The first entry that fits the process has a path that matches. */
  ghost predicate FirstFitMatches(up: CaseTable, rules: RuleList, processName: NtStr, filePath: NtStr) {
    exists i, k | 0 <= i < |rules| && 0 <= k < |rules[i].filePaths| ::
      && Aligns(rules[i].processName, Upper(up, processName))
      && (forall j | 0 <= j < i :: !Aligns(rules[j].processName, Upper(up, processName)))
      && PathMatches(up, rules[i].filePaths[k], filePath)
  }

  lemma FirstFitMeaning(up: CaseTable, rules: RuleList, processName: NtStr, filePath: NtStr)
    ensures FirstFitCovers(up, rules, processName, filePath) <==> FirstFitMatches(up, rules, processName, filePath)
  {
    forall i | 0 <= i < |rules|
      ensures MatchesNoCase(up, processName, rules[i].processName)
         <==> Aligns(rules[i].processName, Upper(up, processName))
    {
      MatchingMeaning(up, processName, rules[i].processName);
    }
    if FirstFitCovers(up, rules, processName, filePath) {
      var i :| && 0 <= i < |rules| && MatchesNoCase(up, processName, rules[i].processName)
               && (forall j | 0 <= j < i :: !MatchesNoCase(up, processName, rules[j].processName))
               && EntryCovers(up, rules[i], filePath);
      var k :| 0 <= k < |rules[i].filePaths| && PathMatches(up, rules[i].filePaths[k], filePath);
      assert FirstFitMatches(up, rules, processName, filePath);
    }
    if FirstFitMatches(up, rules, processName, filePath) {
      var i, k :| && 0 <= i < |rules| && 0 <= k < |rules[i].filePaths|
                  && Aligns(rules[i].processName, Upper(up, processName))
                  && (forall j | 0 <= j < i :: !Aligns(rules[j].processName, Upper(up, processName)))
                  && PathMatches(up, rules[i].filePaths[k], filePath);
      assert EntryCovers(up, rules[i], filePath);
    }
  }
}
