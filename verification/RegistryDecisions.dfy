/** What the registry alone says about a process and a file, and when it decides what the driver does. */
module RegistryDecisions {
  import opened Wrappers
  import opened NtStrings
  import opened Globs
  import opened PathUtils
  import opened RuleKeys
  import opened RulePaths
  import opened Rules
  import opened RuleEvents
  import opened RegistryTracking

  /** Some value of a key covers the file. */
  ghost predicate KeyCovers(m: Machine, values: seq<NtStr>, filePath: NtStr) {
    exists v | 0 <= v < |values| ::
      Prepared(m, values[v]).Success? && PathMatches(m.up, Prepared(m, values[v]).value, filePath)
  }

  /** The key is of the type, and its pattern fits the process. */
  predicate Fits(up: CaseTable, k: ProcessKey, action: Action, processName: NtStr) {
    k.action == action && MatchesNoCase(up, processName, k.process)
  }

  /** Some key of the type that fits the process covers the file. */
  ghost predicate RegistryCovers(m: Machine, reg: Registry, action: Action, processName: NtStr, filePath: NtStr) {
    exists k | k in reg :: Fits(m.up, k, action, processName) && KeyCovers(m, reg[k], filePath)
  }

  /** The keys of the type that fit the process agree on the file. */
  ghost predicate RegistryAgrees(m: Machine, reg: Registry, action: Action, processName: NtStr, filePath: NtStr) {
    forall k, l | && k in reg && Fits(m.up, k, action, processName)
                  && l in reg && Fits(m.up, l, action, processName) ::
      KeyCovers(m, reg[k], filePath) ==> KeyCovers(m, reg[l], filePath)
  }

  lemma TrackedEntry(m: Machine, reg: Registry, action: Action, rules: RuleList, i: nat)
    requires TracksType(m, reg, action, rules) && i < |rules|
    ensures var k := ProcessKey(action, rules[i].processName);
            && k in reg && AllPrepared(m, reg[k])
            && multiset(rules[i].filePaths) == multiset(PreparedAll(m, reg[k]))
  {
  }

  /** An entry covers what its key covers. */
  lemma TrackedEntryCovers(m: Machine, reg: Registry, action: Action, rules: RuleList, i: nat, filePath: NtStr)
    requires TracksType(m, reg, action, rules) && i < |rules|
    ensures ProcessKey(action, rules[i].processName) in reg
    ensures EntryCovers(m.up, rules[i], filePath)
       <==> KeyCovers(m, reg[ProcessKey(action, rules[i].processName)], filePath)
  {
    TrackedEntry(m, reg, action, rules, i);
    var values := reg[ProcessKey(action, rules[i].processName)];
    if p :| 0 <= p < |rules[i].filePaths| && PathMatches(m.up, rules[i].filePaths[p], filePath) {
      var v := PlaceOf(PreparedAll(m, values), rules[i].filePaths, p);
      assert PathMatches(m.up, Prepared(m, values[v]).value, filePath);
    }
    if v :| 0 <= v < |values| && PathMatches(m.up, Prepared(m, values[v]).value, filePath) {
      var p := PlaceOf(rules[i].filePaths, PreparedAll(m, values), v);
      assert PathMatches(m.up, rules[i].filePaths[p], filePath);
    }
  }

  /** A key with values has an entry. */
  lemma EntryOfKey(m: Machine, reg: Registry, k: ProcessKey, rules: RuleList) returns (i: nat)
    requires KeysOk(m.up, reg) && TracksType(m, reg, k.action, rules) && k in reg && reg[k] != []
    ensures i < |rules| && rules[i].processName == k.process
  {
    var paths := PreparedAll(m, reg[k]);
    assert paths[0] in multiset(paths) && paths[0] in PathsOf(m.up, rules, k.process);
    i := FindEntry(m.up, rules, k.process).value;
  }

  lemma TrackedAgree(m: Machine, reg: Registry, action: Action, rules: RuleList, processName: NtStr, filePath: NtStr)
    requires TracksType(m, reg, action, rules) && RegistryAgrees(m, reg, action, processName, filePath)
    ensures FittingAgree(m.up, rules, processName, filePath)
  {
    forall i, j | && 0 <= i < |rules| && MatchesNoCase(m.up, processName, rules[i].processName)
                  && 0 <= j < |rules| && MatchesNoCase(m.up, processName, rules[j].processName)
                  && EntryCovers(m.up, rules[i], filePath)
      ensures EntryCovers(m.up, rules[j], filePath)
    {
      TrackedEntryCovers(m, reg, action, rules, i, filePath);
      TrackedEntryCovers(m, reg, action, rules, j, filePath);
    }
  }

  lemma SomeFitIsRegistryCover(m: Machine, reg: Registry, action: Action, rules: RuleList,
                               processName: NtStr, filePath: NtStr)
    requires KeysOk(m.up, reg) && TracksType(m, reg, action, rules)
    ensures SomeFitCovers(m.up, rules, processName, filePath)
       <==> RegistryCovers(m, reg, action, processName, filePath)
  {
    if i :| 0 <= i < |rules| && MatchesNoCase(m.up, processName, rules[i].processName)
            && EntryCovers(m.up, rules[i], filePath)
    {
      TrackedEntryCovers(m, reg, action, rules, i, filePath);
      assert Fits(m.up, ProcessKey(action, rules[i].processName), action, processName);
    }
    if k :| k in reg && Fits(m.up, k, action, processName) && KeyCovers(m, reg[k], filePath) {
      var i := EntryOfKey(m, reg, k, rules);
      TrackedEntryCovers(m, reg, action, rules, i, filePath);
    }
  }

  lemma TrackedSearch(m: Machine, reg: Registry, action: Action, rules: RuleList, processName: NtStr, filePath: NtStr)
    requires KeysOk(m.up, reg) && TracksType(m, reg, action, rules)
    requires RegistryAgrees(m, reg, action, processName, filePath)
    ensures SearchRule(m.up, rules, processName, filePath) <==> RegistryCovers(m, reg, action, processName, filePath)
  {
    TrackedAgree(m, reg, action, rules, processName, filePath);
    AgreedSearch(m.up, rules, processName, filePath);
    SomeFitIsRegistryCover(m, reg, action, rules, processName, filePath);
  }

  // ---------- and exactly when it decides ----------

  /** Another list with the same paths for every name. */
  lemma SamePathsTrack(m: Machine, reg: Registry, action: Action, rules: RuleList, other: RuleList)
    requires TracksType(m, reg, action, rules) && RulesInv(m.up, other)
    requires forall q | HasName(m.up, other, q) :: ProcessKey(action, Upper(m.up, q)) in reg
    requires forall q :: PathsOf(m.up, other, q) == PathsOf(m.up, rules, q)
    ensures TracksType(m, reg, action, other)
  {
  }

  /** Where the `j`-th entry stands after the `i`-th was promoted. */
  function PlaceAfter(i: nat, j: nat): nat {
    if j == i then 0 else if j < i then j + 1 else j
  }

  lemma PromotedTo(rules: RuleList, i: nat, j: nat)
    requires i < |rules| && j < |rules|
    ensures PlaceAfter(i, j) < |Promoted(rules, i)| && Promoted(rules, i)[PlaceAfter(i, j)] == rules[j]
  {
  }

  lemma PromotedFrom(rules: RuleList, i: nat, o: nat) returns (j: nat)
    requires i < |rules| && o < |Promoted(rules, i)|
    ensures j < |rules| && PlaceAfter(i, j) == o && Promoted(rules, i)[o] == rules[j]
  {
    j := if o == 0 then i else if o <= i then o - 1 else o;
  }

  lemma PathsAfterPromotion(up: CaseTable, rules: RuleList, i: nat, q: NtStr)
    requires i < |rules| && DistinctNames(up, Promoted(rules, i))
    ensures PathsOf(up, Promoted(rules, i), q) == PathsOf(up, rules, q)
    ensures HasName(up, Promoted(rules, i), q) ==> HasName(up, rules, q)
  {
    var other := Promoted(rules, i);
    HasNameIff(up, rules, q);
    HasNameIff(up, other, q);
    match FindEntry(up, rules, q)
    case Some(k) =>
      PromotedTo(rules, i, k);
      PathsAt(up, other, PlaceAfter(i, k), q);
    case None =>
      forall o | 0 <= o < |other|
        ensures !EqualsNoCase(up, other[o].processName, q)
      {
        var j := PromotedFrom(rules, i, o);
      }
  }

  lemma PromotionKeepsInv(up: CaseTable, rules: RuleList, i: nat)
    requires i < |rules| && RulesInv(up, rules)
    ensures RulesInv(up, Promoted(rules, i))
  {
    var other := Promoted(rules, i);
    forall a, b | 0 <= a < b < |other|
      ensures !EqualsNoCase(up, other[a].processName, other[b].processName)
    {
      var x := PromotedFrom(rules, i, a);
      var y := PromotedFrom(rules, i, b);
      assert x != y;
    }
  }

  lemma PromotedTracks(m: Machine, reg: Registry, action: Action, rules: RuleList, i: nat)
    requires TracksType(m, reg, action, rules) && i < |rules|
    ensures TracksType(m, reg, action, Promoted(rules, i))
  {
    PromotionKeepsInv(m.up, rules, i);
    forall q
      ensures PathsOf(m.up, Promoted(rules, i), q) == PathsOf(m.up, rules, q)
      ensures HasName(m.up, Promoted(rules, i), q) ==> HasName(m.up, rules, q)
    {
      PathsAfterPromotion(m.up, rules, i, q);
    }
    SamePathsTrack(m, reg, action, rules, Promoted(rules, i));
  }

  lemma PathsBehindEmpty(up: CaseTable, rules: RuleList, name: NtStr, q: NtStr)
    requires RulesInv(up, rules) && !HasName(up, rules, name)
    ensures var other := [FileAccessEntry(name, [])] + rules;
            && PathsOf(up, other, q) == PathsOf(up, rules, q)
            && (HasName(up, other, q) ==> HasName(up, rules, q) || EqualsNoCase(up, name, q))
  {
    var other := [FileAccessEntry(name, [])] + rules;
    HasNameIff(up, rules, q);
    HasNameIff(up, other, q);
    if EqualsNoCase(up, name, q) {
      FindEntryUnique(up, other, q, 0);
      assert forall j | 0 <= j < |rules| :: !EqualsNoCase(up, rules[j].processName, name);
    } else {
      match FindEntry(up, rules, q)
      case Some(k) => FindEntryUnique(up, other, q, k + 1);
      case None => assert forall j | 0 <= j < |rules| :: other[j + 1] == rules[j];
    }
  }

  lemma EmptyEntryKeepsInv(up: CaseTable, rules: RuleList, name: NtStr)
    requires RulesInv(up, rules) && IsUpper(up, name) && !HasName(up, rules, name)
    ensures RulesInv(up, [FileAccessEntry(name, [])] + rules)
  {
    var other := [FileAccessEntry(name, [])] + rules;
    forall a, b | 0 <= a < b < |other|
      ensures !EqualsNoCase(up, other[a].processName, other[b].processName)
    {
      assert other[b] == rules[b - 1];
      if a > 0 {
        assert other[a] == rules[a - 1];
      }
    }
  }

  /** A key without values may have an entry or not. */
  lemma EmptyEntryTracks(m: Machine, reg: Registry, k: ProcessKey, rules: RuleList)
    requires KeysOk(m.up, reg) && TracksType(m, reg, k.action, rules) && k in reg && !HasName(m.up, rules, k.process)
    ensures TracksType(m, reg, k.action, [FileAccessEntry(k.process, [])] + rules)
  {
    var other := [FileAccessEntry(k.process, [])] + rules;
    assert IsUpper(m.up, k.process);
    EmptyEntryKeepsInv(m.up, rules, k.process);
    forall q
      ensures PathsOf(m.up, other, q) == PathsOf(m.up, rules, q)
      ensures HasName(m.up, other, q) ==> ProcessKey(k.action, Upper(m.up, q)) in reg
    {
      PathsBehindEmpty(m.up, rules, k.process, q);
    }
    SamePathsTrack(m, reg, k.action, rules, other);
  }

  /** Some list that tracks the type asks the key first. */
  lemma AsksFirst(m: Machine, reg: Registry, k: ProcessKey, rules: RuleList, processName: NtStr, filePath: NtStr)
    returns (other: RuleList)
    requires KeysOk(m.up, reg) && TracksType(m, reg, k.action, rules) && k in reg
    requires MatchesNoCase(m.up, processName, k.process)
    ensures TracksType(m, reg, k.action, other)
    ensures SearchRule(m.up, other, processName, filePath) <==> KeyCovers(m, reg[k], filePath)
  {
    if HasName(m.up, rules, k.process) {
      var i := FindEntry(m.up, rules, k.process).value;
      other := Promoted(rules, i);
      assert rules[i].processName == k.process;
      PromotedTracks(m, reg, k.action, rules, i);
      PromotedAnswers(m.up, rules, i, processName, filePath);
      TrackedEntryCovers(m, reg, k.action, rules, i, filePath);
    } else {
      other := [FileAccessEntry(k.process, [])] + rules;
      EmptyEntryTracks(m, reg, k, rules);
      FirstIndexUnique(other, (e: FileAccessEntry) => MatchesNoCase(m.up, processName, e.processName), 0);
      TrackedEntryCovers(m, reg, k.action, other, 0, filePath);
    }
  }

  /** Every list that tracks the type answers as the registry says. */
  ghost predicate RegistryDecides(m: Machine, reg: Registry, action: Action, processName: NtStr, filePath: NtStr) {
    forall rules | TracksType(m, reg, action, rules) ::
      SearchRule(m.up, rules, processName, filePath) <==> RegistryCovers(m, reg, action, processName, filePath)
  }

  /** The registry alone decides about a process and a file exactly when its keys that fit the process agree. */
  lemma RegistryDecidesIff(m: Machine, reg: Registry, action: Action, rules: RuleList,
                           processName: NtStr, filePath: NtStr)
    requires KeysOk(m.up, reg) && TracksType(m, reg, action, rules)
    ensures RegistryDecides(m, reg, action, processName, filePath)
       <==> RegistryAgrees(m, reg, action, processName, filePath)
  {
    if RegistryAgrees(m, reg, action, processName, filePath) {
      forall other | TracksType(m, reg, action, other)
        ensures SearchRule(m.up, other, processName, filePath)
           <==> RegistryCovers(m, reg, action, processName, filePath)
      {
        TrackedSearch(m, reg, action, other, processName, filePath);
      }
    }
    if RegistryDecides(m, reg, action, processName, filePath) {
      forall k | k in reg && Fits(m.up, k, action, processName)
        ensures KeyCovers(m, reg[k], filePath) <==> RegistryCovers(m, reg, action, processName, filePath)
      {
        var other := AsksFirst(m, reg, k, rules, processName, filePath);
      }
    }
  }

  /**
    * After any handled run, what the driver does with a file is decided by the registry alone: deny if a deny
    * key covers it, else read-only if a read-only key does, else nothing; as long as the keys that fit the
    * process agree on the file.
    */
  lemma DecisionFromRegistry(m: Machine, reg: Registry, store: Store, steps: seq<Step>, processName: NtStr,
                             filePath: NtStr)
    requires RegistryOk(m.up, reg) && Tracks(m, reg, store) && HandledRun(m, reg, store, steps)
    requires RegistryAgrees(m, Final(m, reg, store, steps).0, Deny, processName, filePath)
    requires RegistryAgrees(m, Final(m, reg, store, steps).0, ReadOnly, processName, filePath)
    ensures var end := Final(m, reg, store, steps);
            SearchAction(m.up, end.1, processName, filePath) ==
            if RegistryCovers(m, end.0, Deny, processName, filePath) then Deny
            else if RegistryCovers(m, end.0, ReadOnly, processName, filePath) then ReadOnly
            else Bypass
  {
    RunTracks(m, reg, store, steps);
    var end := Final(m, reg, store, steps);
    TrackedSearch(m, end.0, Deny, end.1.deny, processName, filePath);
    TrackedSearch(m, end.0, ReadOnly, end.1.readOnly, processName, filePath);
  }
}
