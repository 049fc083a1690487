/** Registry key paths of protection rules (src/constants.rs, src/rules_manager.rs:51-84, 308-365). */
module RuleKeys {
  import opened Wrappers
  import opened NtStrings

  datatype Action = Bypass | Deny | ReadOnly

  const SOFTWARE_KEY_PATH: NtStr := Literal("\\REGISTRY\\MACHINE\\SOFTWARE")
  const FILTER_KEY_PATH: NtStr := SOFTWARE_KEY_PATH + [BACKSLASH] + Literal("FilesystemFilter")
  const RULES_KEY_PATH: NtStr := FILTER_KEY_PATH + [BACKSLASH] + Literal("Rules")
  const DENY_KEY_NAME: NtStr := Literal("Deny")
  const READ_ONLY_KEY_NAME: NtStr := Literal("ReadOnly")

  /** Registry key name to rule type, ignoring case. */
  function ActionOfName(up: CaseTable, name: NtStr): Result<Action> {
    if EqualsNoCase(up, name, DENY_KEY_NAME) then Success(Deny)
    else if EqualsNoCase(up, name, READ_ONLY_KEY_NAME) then Success(ReadOnly)
    else Failure(InvalidParameter)
  }

  /** Rule type to registry key name; `Bypass` has none. */
  function NameOfAction(action: Action): Result<NtStr> {
    match action
    case Deny => Success(DENY_KEY_NAME)
    case ReadOnly => Success(READ_ONLY_KEY_NAME)
    case Bypass => Failure(InvalidParameter)
  }

  datatype RuleKeyPath = RuleKeyPath(ruleType: Option<Action>, processName: Option<NtStr>)

  predicate IsProtectionKey(up: CaseTable, keyPath: NtStr) {
    StartsWithNoCase(up, keyPath, RULES_KEY_PATH)
  }

  /** `parse_protection_rule_key`; the index of the process name is computed in 16 bits. */
  function Parse(up: CaseTable, keyPath: NtStr): Result<RuleKeyPath> {
    var rest :- Substr(keyPath, |RULES_KEY_PATH|);
    if rest == [] then Success(RuleKeyPath(None, None))
    else
      match LastIndexOf(rest, BACKSLASH)
      case None => Failure(InvalidParameter)
      case Some(last) =>
        if last == 0 then
          var ruleTypeName :- Substr(rest, 1);
          var ruleType :- ActionOfName(up, ruleTypeName);
          Success(RuleKeyPath(Some(ruleType), None))
        else
          var ruleTypeName :- Slice(rest, 1, last);
          var ruleType :- ActionOfName(up, ruleTypeName);
          var processName :- Substr(keyPath, (|RULES_KEY_PATH| + last + 1) % 0x1_0000);
          Success(RuleKeyPath(Some(ruleType), Some(processName)))
  }

  /** The full path of a process key. */
  function Print(action: Action, processName: NtStr): NtStr
    requires action != Bypass
  {
    RULES_KEY_PATH + [BACKSLASH] + NameOfAction(action).value + [BACKSLASH] + processName
  }

  /** The shape of the key paths that name a process: any unit after the root, a type name, a separator, a name. */
  ghost predicate IsTwoPart(up: CaseTable, keyPath: NtStr, action: Action, processName: NtStr, ruleTypeName: NtStr) {
    && |keyPath| == |RULES_KEY_PATH| + 1 + |ruleTypeName| + 1 + |processName|
    && keyPath[|RULES_KEY_PATH| + 1..] == ruleTypeName + [BACKSLASH] + processName
    && ActionOfName(up, ruleTypeName) == Success(action)
    && BACKSLASH !in processName
  }

  /** The parser's case with a process name, under the name its sub-expressions have there. */
  lemma ParseTwoPartSteps(up: CaseTable, keyPath: NtStr, last: nat)
    requires |RULES_KEY_PATH| < |keyPath| <= MAX_UNITS
    requires LastIndexOf(keyPath[|RULES_KEY_PATH|..], BACKSLASH) == Some(last) && last > 0
    ensures var root := |RULES_KEY_PATH|;
      Parse(up, keyPath) ==
      match ActionOfName(up, keyPath[root + 1..root + last])
      case Failure(e) => Failure(e)
      case Success(a) => Success(RuleKeyPath(Some(a), Some(keyPath[root + last + 1..])))
  {
    var root := |RULES_KEY_PATH|;
    var rest := keyPath[root..];
    assert rest[1..last] == keyPath[root + 1..root + last];
    assert (root + last + 1) % 0x1_0000 == root + last + 1;
  }

  /** Where the last separator stands in a key path that parses to a process name. */
  lemma ParsedSeparator(up: CaseTable, keyPath: NtStr, key: RuleKeyPath) returns (last: nat)
    requires Parse(up, keyPath) == Success(key) && key.processName.Some?
    ensures |RULES_KEY_PATH| < |keyPath| && last > 0
    ensures LastIndexOf(keyPath[|RULES_KEY_PATH|..], BACKSLASH) == Some(last)
  {
    last := LastIndexOf(keyPath[|RULES_KEY_PATH|..], BACKSLASH).value;
  }

  lemma CutAround(s: NtStr, root: nat, last: nat, t: NtStr, name: NtStr)
    requires root <= |s| && 0 < last < |s| - root
    requires t == s[root + 1..root + last] && name == s[root + last + 1..]
    ensures s[root + 1..] == t + [s[root + last]] + name
  {
  }

  lemma ParsedIsTwoPart(up: CaseTable, keyPath: NtStr, action: Action, processName: NtStr) returns (t: NtStr)
    requires |keyPath| <= MAX_UNITS
    requires Parse(up, keyPath) == Success(RuleKeyPath(Some(action), Some(processName)))
    ensures IsTwoPart(up, keyPath, action, processName, t)
  {
    var root := |RULES_KEY_PATH|;
    var last := ParsedSeparator(up, keyPath, RuleKeyPath(Some(action), Some(processName)));
    ParseTwoPartSteps(up, keyPath, last);
    t := keyPath[root + 1..root + last];
    assert keyPath[root..][last] == keyPath[root + last];
    assert keyPath[root..][last + 1..] == processName;
    CutAround(keyPath, root, last, t, processName);
  }

  /** Exactly the two-part key paths parse to a rule type and a process name, whatever the unit after the root is. */
  lemma ParseExact(up: CaseTable, keyPath: NtStr, action: Action, processName: NtStr)
    requires |keyPath| <= MAX_UNITS
    ensures Parse(up, keyPath) == Success(RuleKeyPath(Some(action), Some(processName)))
       <==> exists ruleTypeName :: IsTwoPart(up, keyPath, action, processName, ruleTypeName)
  {
    if Parse(up, keyPath) == Success(RuleKeyPath(Some(action), Some(processName))) {
      var t := ParsedIsTwoPart(up, keyPath, action, processName);
    }
    if t :| IsTwoPart(up, keyPath, action, processName, t) {
      TwoPartParses(up, keyPath, action, processName, t);
    }
  }

  lemma TwoPartParses(up: CaseTable, keyPath: NtStr, action: Action, processName: NtStr, t: NtStr)
    requires |keyPath| <= MAX_UNITS
    requires IsTwoPart(up, keyPath, action, processName, t)
    ensures Parse(up, keyPath) == Success(RuleKeyPath(Some(action), Some(processName)))
  {
    var root := |RULES_KEY_PATH|;
    var tail := keyPath[root + 1..];
    var last := 1 + |t|;
    assert keyPath[root..][last] == tail[|t|] == BACKSLASH;
    assert keyPath[root..][last + 1..] == tail[|t| + 1..] == processName;
    LastIndexUnique(keyPath[root..], BACKSLASH, last);
    ParseTwoPartSteps(up, keyPath, last);
    assert keyPath[root + 1..root + last] == tail[..|t|] == t;
    assert keyPath[root + last + 1..] == processName;
  }

  /** Type names contain no separator, in any case. */
  lemma ActionNamesHaveNoBackslash(up: CaseTable, name: NtStr)
    requires ActionOfName(up, name).Success?
    ensures BACKSLASH !in name && ActionOfName(up, name).value != Bypass
    ensures EqualsNoCase(up, name, NameOfAction(ActionOfName(up, name).value).value)
  {
  }

  /** Only the root itself parses to nothing, and only the type keys parse to a type alone. */
  lemma ParseShortExact(up: CaseTable, keyPath: NtStr, action: Action)
    ensures Parse(up, keyPath) == Success(RuleKeyPath(None, None)) <==> |keyPath| == |RULES_KEY_PATH|
    ensures Parse(up, keyPath) == Success(RuleKeyPath(Some(action), None))
       <==> && |keyPath| > |RULES_KEY_PATH|
            && keyPath[|RULES_KEY_PATH|] == BACKSLASH
            && ActionOfName(up, keyPath[|RULES_KEY_PATH| + 1..]) == Success(action)
  {
    var root := |RULES_KEY_PATH|;
    if |keyPath| > root {
      var t := keyPath[root + 1..];
      assert keyPath[root..][1..] == t;
      if keyPath[root] == BACKSLASH && ActionOfName(up, t) == Success(action) {
        ActionNamesHaveNoBackslash(up, t);
        LastIndexUnique(keyPath[root..], BACKSLASH, 0);
      }
    }
  }

  /** No key path parses to `Bypass`, and none to a process name without a type. */
  lemma ParseNeverBypass(up: CaseTable, keyPath: NtStr)
    requires Parse(up, keyPath).Success?
    ensures Parse(up, keyPath).value.ruleType != Some(Bypass)
    ensures Parse(up, keyPath).value.processName.Some? ==> Parse(up, keyPath).value.ruleType.Some?
  {
  }

  /** Parsing any spelling of a printed key path gives back the type and the name, as spelled. */
  lemma ParsePrintNoCase(up: CaseTable, keyPath: NtStr, action: Action, processName: NtStr)
    requires action != Bypass && BACKSLASH !in processName
    requires |keyPath| <= MAX_UNITS && EqualsNoCase(up, keyPath, Print(action, processName))
    ensures |processName| <= |keyPath|
    ensures var spelled := keyPath[|keyPath| - |processName|..];
            && Parse(up, keyPath) == Success(RuleKeyPath(Some(action), Some(spelled)))
            && EqualsNoCase(up, spelled, processName) && BACKSLASH !in spelled
  {
    var printed := Print(action, processName);
    assert |Upper(up, keyPath)| == |Upper(up, printed)|;
    var name := NameOfAction(action).value;
    var root, n, p := |RULES_KEY_PATH|, |name|, |keyPath| - |processName|;
    var t, spelled := keyPath[root + 1..root + 1 + n], keyPath[p..];
    UpperSlice(up, keyPath, root + 1, root + 1 + n);
    UpperSlice(up, printed, root + 1, root + 1 + n);
    UpperSlice(up, keyPath, p, |keyPath|);
    UpperSlice(up, printed, p, |keyPath|);
    assert printed[root + 1..root + 1 + n] == name && printed[p..] == processName;
    assert EqualsNoCase(up, spelled, processName);
    ActionOfSpelling(up, t, action);
    SameBackslashes(up, spelled, processName);
    assert printed[p - 1] == BACKSLASH;
    assert up(keyPath[p - 1]) == up(BACKSLASH) by {
      assert Upper(up, keyPath)[p - 1] == Upper(up, printed)[p - 1];
    }
    assert keyPath[root + 1..] == t + [BACKSLASH] + spelled;
    assert IsTwoPart(up, keyPath, action, spelled, t);
    TwoPartParses(up, keyPath, action, spelled, t);
  }

  lemma ActionOfSpelling(up: CaseTable, spelling: NtStr, action: Action)
    requires action != Bypass && EqualsNoCase(up, spelling, NameOfAction(action).value)
    ensures ActionOfName(up, spelling) == Success(action)
  {
  }

  lemma SameBackslashes(up: CaseTable, a: NtStr, b: NtStr)
    requires EqualsNoCase(up, a, b)
    ensures |a| == |b| && (BACKSLASH in a <==> BACKSLASH in b)
  {
  }

  /** Print, then parse. */
  lemma ParsePrint(up: CaseTable, action: Action, processName: NtStr)
    requires action != Bypass && BACKSLASH !in processName
    requires |Print(action, processName)| <= MAX_UNITS
    ensures Parse(up, Print(action, processName)) == Success(RuleKeyPath(Some(action), Some(processName)))
  {
    ParsePrintNoCase(up, Print(action, processName), action, processName);
  }

  lemma TwoPartIsPrint(up: CaseTable, keyPath: NtStr, action: Action, processName: NtStr, t: NtStr)
    requires IsProtectionKey(up, keyPath) && IsTwoPart(up, keyPath, action, processName, t)
    requires action != Bypass && keyPath[|RULES_KEY_PATH|] == BACKSLASH
    requires EqualsNoCase(up, t, NameOfAction(action).value)
    ensures EqualsNoCase(up, keyPath, Print(action, processName))
  {
  }

  /**
    * Parse, then print: an accepted protection key is a spelling of the print exactly when a separator follows
    * the root.
    */
  lemma AcceptedKeyIsPrint(up: CaseTable, keyPath: NtStr, action: Action, processName: NtStr)
    requires |keyPath| <= MAX_UNITS && IsProtectionKey(up, keyPath)
    requires Parse(up, keyPath) == Success(RuleKeyPath(Some(action), Some(processName)))
    ensures action != Bypass && |RULES_KEY_PATH| < |keyPath|
    ensures EqualsNoCase(up, keyPath, Print(action, processName)) <==> keyPath[|RULES_KEY_PATH|] == BACKSLASH
  {
    var t := ParsedIsTwoPart(up, keyPath, action, processName);
    ActionNamesHaveNoBackslash(up, t);
    if keyPath[|RULES_KEY_PATH|] == BACKSLASH {
      TwoPartIsPrint(up, keyPath, action, processName, t);
    } else {
      var printed := Print(action, processName);
      assert up(keyPath[|RULES_KEY_PATH|]) != up(printed[|RULES_KEY_PATH|]);
    }
  }

  lemma NoTypeWithSeparator(up: CaseTable, name: NtStr)
    requires BACKSLASH in name
    ensures ActionOfName(up, name).Failure?
  {
    if ActionOfName(up, name).Success? {
      ActionNamesHaveNoBackslash(up, name);
    }
  }

  /** A key path with a separator before its last one has no type name between root and last separator. */
  lemma EarlierSeparatorRefused(up: CaseTable, keyPath: NtStr, at: nat, last: nat)
    requires |RULES_KEY_PATH| < |keyPath| <= MAX_UNITS
    requires LastIndexOf(keyPath[|RULES_KEY_PATH|..], BACKSLASH) == Some(last)
    requires |RULES_KEY_PATH| < at < |RULES_KEY_PATH| + last && keyPath[at] == BACKSLASH
    ensures Parse(up, keyPath).Failure?
  {
    var root := |RULES_KEY_PATH|;
    ParseTwoPartSteps(up, keyPath, last);
    assert keyPath[root + 1..root + last][at - root - 1] == BACKSLASH;
    NoTypeWithSeparator(up, keyPath[root + 1..root + last]);
  }

  /** Keys below a process key are refused. */
  lemma DeeperKeysRefused(up: CaseTable, action: Action, below: NtStr)
    requires action != Bypass && BACKSLASH in below
    requires |Print(action, below)| <= MAX_UNITS
    ensures Parse(up, Print(action, below)).Failure?
  {
    var keyPath, root := Print(action, below), |RULES_KEY_PATH|;
    var middle := root + 1 + |NameOfAction(action).value|;
    var i :| 0 <= i < |below| && below[i] == BACKSLASH;
    assert keyPath[middle] == BACKSLASH && keyPath[middle + 1 + i] == below[i];
    assert keyPath[root..][middle + 1 + i - root] == BACKSLASH;
    var last := LastIndexOf(keyPath[root..], BACKSLASH).value;
    assert last >= middle + 1 + i - root;
    EarlierSeparatorRefused(up, keyPath, middle, last);
  }

  /**
    * Without a separator after the root the parser may still accept: a sibling key of the rules root whose
    * name continues the root's by one unit and a type name is taken for a rule key.
    */
  lemma SiblingOfRootAccepted(up: CaseTable)
    ensures var keyPath := RULES_KEY_PATH + Literal("_Deny") + [BACKSLASH] + Literal("a");
            && IsProtectionKey(up, keyPath)
            && Parse(up, keyPath) == Success(RuleKeyPath(Some(Deny), Some(Literal("a"))))
            && !EqualsNoCase(up, keyPath, Print(Deny, Literal("a")))
  {
    var keyPath := RULES_KEY_PATH + Literal("_Deny") + [BACKSLASH] + Literal("a");
    var root := |RULES_KEY_PATH|;
    assert keyPath[..root] == RULES_KEY_PATH;
    assert Literal("_Deny")[1..] == DENY_KEY_NAME;
    assert keyPath[root + 1..] == DENY_KEY_NAME + [BACKSLASH] + Literal("a");
    assert IsTwoPart(up, keyPath, Deny, Literal("a"), DENY_KEY_NAME);
    ParseExact(up, keyPath, Deny, Literal("a"));
    AcceptedKeyIsPrint(up, keyPath, Deny, Literal("a"));
    assert keyPath[root] == Literal("_Deny")[0];
  }

  /** The keys at and below the rules root, and every key whose path continues the root's: unit by unit, any case. */
  lemma ProtectionKeyMeaning(up: CaseTable, keyPath: NtStr)
    ensures IsProtectionKey(up, keyPath)
       <==> |RULES_KEY_PATH| <= |keyPath| && forall i | 0 <= i < |RULES_KEY_PATH| ::
           up(keyPath[i]) == up(RULES_KEY_PATH[i])
  {
    if |RULES_KEY_PATH| <= |keyPath| {
      EqualsNoCaseMeaning(up, keyPath[..|RULES_KEY_PATH|], RULES_KEY_PATH);
    }
  }

  /** What a refused key path is refused with. */
  lemma ParseErrors(up: CaseTable, keyPath: NtStr)
    requires |keyPath| <= MAX_UNITS && Parse(up, keyPath).Failure?
    ensures Parse(up, keyPath).error == if |keyPath| < |RULES_KEY_PATH| then InfoLengthMismatch else InvalidParameter
  {
    var root := |RULES_KEY_PATH|;
    if |keyPath| > root && LastIndexOf(keyPath[root..], BACKSLASH).Some? {
      var last := LastIndexOf(keyPath[root..], BACKSLASH).value;
      if last > 0 {
        ParseTwoPartSteps(up, keyPath, last);
      }
    }
  }
}
