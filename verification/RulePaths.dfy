/** The stored form of a rule's file path and what it matches (src/rules_manager.rs:86-115, 260-277). */
module RulePaths {
  import opened Wrappers
  import opened NtStrings
  import opened Globs
  import opened PathUtils

  /** `FOLDER_RULE_POSTFIX`. */
  const FOLDER_RULE_POSTFIX: NtStr := [BACKSLASH, STAR]

  predicate IsDiskSpecified(path: NtStr) {
    Matches(path, [QUESTION, COLON, STAR])
  }

  /** `prepare_rule_file_path`. */
  function Prepare(m: Machine, path: NtStr, refused: Refusals): Result<NtStr> {
    var nt :- if IsDiskSpecified(path) then DosPathToNt(m, path, refused) else Success(path);
    Finish(m.up, nt, refused)
  }

  /** The last two steps of `prepare_rule_file_path`: mark a folder, upper-case. */
  function Finish(up: CaseTable, nt: NtStr, refused: Refusals): Result<NtStr> {
    var full :- if EndsWith(nt, [BACKSLASH]) then TryAppend(nt, [STAR], AppendStar in refused) else Success(nt);
    var _ :- Granted(UpcasePath, refused);
    Success(Upper(up, full))
  }

  /** The stored form when no memory request is refused. */
  function Prepared(m: Machine, path: NtStr): Result<NtStr> {
    Prepare(m, path, {})
  }

  /** The per-path test of `search_rule_impl`. */
  predicate PathMatches(up: CaseTable, rulePath: NtStr, filePath: NtStr) {
    if MatchesNoCase(up, filePath, rulePath) then true
    else if EndsWith(rulePath, FOLDER_RULE_POSTFIX) then
      var folder := SplitAt(rulePath, |rulePath| - |FOLDER_RULE_POSTFIX|);
      folder.Success? && MatchesNoCase(up, filePath, folder.value.0)
    else false
  }

  /** `?:*` asks for nothing but a colon in second place. */
  lemma DiskSpecifiedIffColon(path: NtStr)
    ensures IsDiskSpecified(path) <==> |path| >= 2 && path[1] == COLON
  {
    var p := [QUESTION, COLON, STAR];
    assert p[1..] == [COLON, STAR] && p[1..][1..] == [STAR];
    if |path| >= 1 {
      GlobUnitStar(COLON, path[1..]);
    }
  }

  lemma PrepareUnderRefusals(m: Machine, path: NtStr, refused: Refusals)
    requires Prepare(m, path, refused).Success?
    ensures Prepared(m, path) == Prepare(m, path, refused)
  {
    if IsDiskSpecified(path) {
      ConversionUnderRefusals(m, path, refused);
    }
  }

  /** A stored path is upper-case, names no drive letter and does not end with a separator. */
  predicate IsNormal(up: CaseTable, path: NtStr) {
    IsUpper(up, path) && !IsDiskSpecified(path) && !EndsWith(path, [BACKSLASH])
  }

  lemma NormalIsFixed(m: Machine, path: NtStr)
    requires IsNormal(m.up, path)
    ensures Prepared(m, path) == Success(path)
  {
  }

  /** Upper-casing neither makes nor hides a final separator or a drive letter. */
  lemma UpperKeepsShape(up: CaseTable, s: NtStr)
    ensures EndsWith(Upper(up, s), [BACKSLASH]) <==> EndsWith(s, [BACKSLASH])
    ensures IsDiskSpecified(Upper(up, s)) <==> IsDiskSpecified(s)
  {
    EndsWithUnit(s, BACKSLASH);
    EndsWithUnit(Upper(up, s), BACKSLASH);
    DiskSpecifiedIffColon(s);
    DiskSpecifiedIffColon(Upper(up, s));
    if s != [] {
      assert Upper(up, s)[|s| - 1] == up(s[|s| - 1]);
    }
    if |s| >= 2 {
      assert Upper(up, s)[1] == up(s[1]);
    }
  }

  lemma FinishIsNormal(up: CaseTable, nt: NtStr, refused: Refusals)
    requires !IsDiskSpecified(nt)
    requires Finish(up, nt, refused).Success?
    ensures IsNormal(up, Finish(up, nt, refused).value)
  {
    var full := if EndsWith(nt, [BACKSLASH]) then nt + [STAR] else nt;
    UpperIdempotent(up, full);
    UpperKeepsShape(up, full);
    DiskSpecifiedIffColon(nt);
    DiskSpecifiedIffColon(full);
    EndsWithUnit(full, BACKSLASH);
  }

  lemma PrepareIsNormal(m: Machine, path: NtStr, refused: Refusals)
    requires Prepare(m, path, refused).Success?
    ensures IsNormal(m.up, Prepare(m, path, refused).value)
  {
    if IsDiskSpecified(path) {
      var i := DosPathToNtKeepsRest(m, path, refused);
      DiskSpecifiedIffColon(DosPathToNt(m, path, refused).value);
      FinishIsNormal(m.up, DosPathToNt(m, path, refused).value, refused);
    } else {
      FinishIsNormal(m.up, path, refused);
    }
  }

  /** Normalisation is canonical: it succeeds on its own results and leaves them alone. */
  lemma PrepareIdempotent(m: Machine, path: NtStr)
    requires Prepared(m, path).Success?
    ensures Prepared(m, Prepared(m, path).value) == Prepared(m, path)
  {
    PrepareIsNormal(m, path, {});
    NormalIsFixed(m, Prepared(m, path).value);
  }

  /** Value names that differ in case only are stored as the same path, or fail alike. */
  lemma PrepareIgnoresCase(m: Machine, a: NtStr, b: NtStr, refused: Refusals)
    requires EqualsNoCase(m.up, a, b)
    ensures Prepare(m, a, refused) == Prepare(m, b, refused)
  {
    UpperKeepsShape(m.up, a);
    UpperKeepsShape(m.up, b);
    ConversionIgnoresCase(m, a, b, refused);
    if IsDiskSpecified(a) {
      var x, y := DosPathToNt(m, a, refused), DosPathToNt(m, b, refused);
      if x.Success? {
        SpellingsEndAlike(m, x.value, y.value);
      }
    } else {
      SpellingsEndAlike(m, a, b);
    }
  }

  lemma SpellingsEndAlike(m: Machine, a: NtStr, b: NtStr)
    requires EqualsNoCase(m.up, a, b)
    ensures |a| == |b| && (EndsWith(a, [BACKSLASH]) <==> EndsWith(b, [BACKSLASH]))
    ensures Upper(m.up, a + [STAR]) == Upper(m.up, b + [STAR])
  {
  }

  /**
    * A path is in a folder given by a pattern when some prefix of it that is followed by a separator fits the
    * pattern.
    */
  ghost predicate InsideFolder(up: CaseTable, folder: NtStr, filePath: NtStr) {
    exists k | 0 <= k < |filePath| :: filePath[k] == BACKSLASH && Glob(folder, Upper(up, filePath[..k]))
  }

  /** A stored folder rule matches the folder itself and everything below it, and nothing else. */
  lemma FolderRuleExact(up: CaseTable, folder: NtStr, filePath: NtStr)
    ensures PathMatches(up, folder + FOLDER_RULE_POSTFIX, filePath)
       <==> MatchesNoCase(up, filePath, folder) || InsideFolder(up, folder, filePath)
  {
    var rule := folder + FOLDER_RULE_POSTFIX;
    assert rule[|rule| - 2..] == FOLDER_RULE_POSTFIX && rule[..|rule| - 2] == folder;
    var name := Upper(up, filePath);
    if Glob(rule, name) {
      var k := GlobConcatElim(folder, FOLDER_RULE_POSTFIX, name);
      GlobUnitStar(BACKSLASH, name[k..]);
      assert name[k] == up(filePath[k]);
      UpperSlice(up, filePath, 0, k);
      assert filePath[..k] == filePath[0..k] && name[..k] == name[0..k];
    }
    if k :| 0 <= k < |filePath| && filePath[k] == BACKSLASH && Glob(folder, Upper(up, filePath[..k])) {
      assert name[k] == up(filePath[k]);
      GlobUnitStar(BACKSLASH, name[k..]);
      UpperSlice(up, filePath, 0, k);
      assert filePath[..k] == filePath[0..k] && name[..k] == name[0..k];
      GlobConcatIntro(folder, FOLDER_RULE_POSTFIX, name[..k], name[k..]);
      assert name[..k] + name[k..] == name;
    }
  }

  /** What `Prepare` upper-cases and marks: the converted path where a drive is named, else the value itself. */
  function NtForm(m: Machine, value: NtStr): Result<NtStr> {
    if IsDiskSpecified(value) then DosPathToNt(m, value, {}) else Success(value)
  }

  /** The folder that a value name with a final separator names: its NT form without the separator. */
  function FolderOf(m: Machine, value: NtStr): NtStr {
    match NtForm(m, value)
    case Failure(_) => []
    case Success(nt) => if nt == [] then [] else Upper(m.up, nt[..|nt| - 1])
  }

  lemma NtFormEndsLikeValue(m: Machine, value: NtStr)
    requires EndsWith(value, [BACKSLASH]) && NtForm(m, value).Success?
    ensures EndsWith(NtForm(m, value).value, [BACKSLASH])
  {
    DiskSpecifiedIffColon(value);
    EndsWithUnit(value, BACKSLASH);
    if IsDiskSpecified(value) {
      DrivePathHasNoPrefix(m.up, value);
      var i := DosPathToNtKeepsRest(m, value, {});
      var nt := NtForm(m, value).value;
      assert nt[|nt| - 1] == value[2..][|value| - 3];
      EndsWithUnit(nt, BACKSLASH);
    }
  }

  lemma FinishFolder(up: CaseTable, body: NtStr)
    requires |body| + 2 <= MAX_UNITS
    ensures Finish(up, body + [BACKSLASH], {}) == Success(Upper(up, body) + FOLDER_RULE_POSTFIX)
  {
    var nt := body + [BACKSLASH];
    EndsWithUnit(nt, BACKSLASH);
    assert nt + [STAR] == body + FOLDER_RULE_POSTFIX;
    UpperConcat(up, body, FOLDER_RULE_POSTFIX);
    assert Upper(up, FOLDER_RULE_POSTFIX) == FOLDER_RULE_POSTFIX;
  }

  /**
    * A value name that ends with a separator covers the folder it names and all its contents, and nothing
    * else.
    */
  lemma FolderValueCoversFolder(m: Machine, value: NtStr, filePath: NtStr)
    requires EndsWith(value, [BACKSLASH]) && Prepared(m, value).Success?
    ensures PathMatches(m.up, Prepared(m, value).value, filePath)
       <==> MatchesNoCase(m.up, filePath, FolderOf(m, value)) || InsideFolder(m.up, FolderOf(m, value), filePath)
  {
    NtFormEndsLikeValue(m, value);
    var nt := NtForm(m, value).value;
    var body := nt[..|nt| - 1];
    assert nt == body + [BACKSLASH];
    FinishFolder(m.up, body);
    FolderRuleExact(m.up, Upper(m.up, body), filePath);
  }

  /** Matching a stored path does not depend on the case of the file's name. */
  lemma PathMatchesIgnoresCase(up: CaseTable, rulePath: NtStr, filePath: NtStr)
    ensures PathMatches(up, rulePath, Upper(up, filePath)) == PathMatches(up, rulePath, filePath)
  {
    UpperIdempotent(up, filePath);
  }

  // ---------- exactly what is stored, and what it matches ----------

  /** Is a star appended to the NT form? */
  function StarLength(nt: NtStr): nat {
    if nt != [] && nt[|nt| - 1] == 0x5C then 1 else 0
  }

  function Starred(nt: NtStr): NtStr {
    if StarLength(nt) == 1 then nt + [0x2A] else nt
  }

  lemma FinishExact(up: CaseTable, nt: NtStr, refused: Refusals)
    ensures Finish(up, nt, refused) ==
            if StarLength(nt) == 1 && 2 * (|nt| + 1) > 0xFFFF then Failure(BufferOverflow)
            else if (StarLength(nt) == 1 && AppendStar in refused) || UpcasePath in refused then
              Failure(InsufficientResources)
            else Success(Upper(up, Starred(nt)))
  {
    EndsWithUnit(nt, BACKSLASH);
    AppendExact(nt, [STAR], AppendStar in refused);
  }

  /** Does the value name a drive, by a colon in second place? */
  predicate NamesDrive(value: NtStr) {
    |value| >= 2 && value[1] == 0x3A
  }

  /** The link of the drive that a value names. */
  function ValueLink(up: CaseTable, value: NtStr): NtStr
    requires NamesDrive(value)
  {
    Upper(up, [0x5C, 0x3F, 0x3F, 0x5C] + value[..2])
  }

  lemma NtFormExact(m: Machine, value: NtStr)
    ensures !NamesDrive(value) ==> NtForm(m, value) == Success(value)
    ensures NamesDrive(value) ==>
              NtForm(m, value) ==
              if ValueLink(m.up, value) !in m.links then Failure(ObjectNameNotFound)
              else if 2 * (|m.links[ValueLink(m.up, value)]| + |value| - 2) > 0xFFFF then Failure(BufferOverflow)
              else Success(m.links[ValueLink(m.up, value)] + value[2..])
  {
    DiskSpecifiedIffColon(value);
    if NamesDrive(value) {
      assert DriveEnd(value) == 2;
      assert value[0..2] == value[..2];
      ConversionExact(m, value, {});
    }
  }

  /**
    * The stored form of every value: of a value without a drive, the value itself; of one with a drive, the target of
    * its link and the rest; with a star behind a final separator, in upper case. It exists unless the drive has no
    * link or the result is too long.
    */
  lemma PreparedExact(m: Machine, value: NtStr)
    ensures NamesDrive(value) && ValueLink(m.up, value) !in m.links
            ==> Prepared(m, value) == Failure(ObjectNameNotFound)
    ensures !NamesDrive(value) || ValueLink(m.up, value) in m.links ==>
              var nt := if NamesDrive(value) then m.links[ValueLink(m.up, value)] + value[2..] else value;
              Prepared(m, value) ==
              if (NamesDrive(value) || StarLength(nt) == 1) && 2 * (|nt| + StarLength(nt)) > 0xFFFF
              then Failure(BufferOverflow)
              else Success(Upper(m.up, Starred(nt)))
  {
    NtFormExact(m, value);
    if NtForm(m, value).Success? {
      FinishExact(m.up, NtForm(m, value).value, {});
    }
  }

  /** A value has a stored form exactly when its drive, if it names one, has a link, and the result fits. */
  lemma PreparedIff(m: Machine, value: NtStr)
    ensures !NamesDrive(value) ==>
              (Prepared(m, value).Success? <==> StarLength(value) == 0 || 2 * (|value| + 1) <= 0xFFFF)
    ensures NamesDrive(value) ==>
              (Prepared(m, value).Success? <==>
                 && ValueLink(m.up, value) in m.links
                 && var nt := m.links[ValueLink(m.up, value)] + value[2..]; 2 * (|nt| + StarLength(nt)) <= 0xFFFF)
  {
    PreparedExact(m, value);
  }

  /** The requests made for a value that has a stored form. */
  function PrepareSites(m: Machine, value: NtStr): Refusals
    requires NtForm(m, value).Success?
  {
    (if NamesDrive(value) then {BuildLinkName, ReserveLinkTarget, AppendRest} else {})
    + (if StarLength(NtForm(m, value).value) == 1 then {AppendStar} else {}) + {UpcasePath}
  }

  /** Under refusals: exactly when none of these requests is refused. */
  lemma PrepareSucceedsIff(m: Machine, value: NtStr, refused: Refusals)
    ensures Prepare(m, value, refused).Success?
       <==> Prepared(m, value).Success? && NtForm(m, value).Success? && PrepareSites(m, value) !! refused
  {
    DiskSpecifiedIffColon(value);
    if NamesDrive(value) {
      assert DriveEnd(value) == 2;
      ConversionSucceedsIff(m, value, refused);
      ConversionSucceedsIff(m, value, {});
    }
    if NtForm(m, value).Success? {
      var nt := NtForm(m, value).value;
      FinishExact(m.up, nt, refused);
      FinishExact(m.up, nt, {});
      if NamesDrive(value) && DosPathToNt(m, value, refused).Success? {
        ConversionUnderRefusals(m, value, refused);
      }
      SitesGranted(m, value, refused);
    }
  }

  lemma SitesGranted(m: Machine, value: NtStr, refused: Refusals)
    requires NtForm(m, value).Success?
    ensures PrepareSites(m, value) !! refused
       <==> && (NamesDrive(value) ==>
                  BuildLinkName !in refused && ReserveLinkTarget !in refused && AppendRest !in refused)
            && (StarLength(NtForm(m, value).value) == 1 ==> AppendStar !in refused) && UpcasePath !in refused
  {
    var sites := PrepareSites(m, value);
    assert UpcasePath in sites;
    assert StarLength(NtForm(m, value).value) == 1 ==> AppendStar in sites;
    assert NamesDrive(value) ==> BuildLinkName in sites && ReserveLinkTarget in sites && AppendRest in sites;
  }

  /**
    * What a stored path matches: what it accepts as an expression in upper case, and where it ends in a separator
    * and a star also what it accepts without the two.
    */
  lemma PathMatchesExact(up: CaseTable, rulePath: NtStr, filePath: NtStr)
    ensures var folder := |rulePath| >= 2 && rulePath[|rulePath| - 2] == 0x5C && rulePath[|rulePath| - 1] == 0x2A;
            PathMatches(up, rulePath, filePath) <==>
              || Aligns(rulePath, Upper(up, filePath))
              || (folder && Aligns(rulePath[..|rulePath| - 2], Upper(up, filePath)))
  {
    GlobMeaning(rulePath, Upper(up, filePath));
    if |rulePath| >= 2 {
      assert rulePath[|rulePath| - 2..] == [rulePath[|rulePath| - 2], rulePath[|rulePath| - 1]];
      GlobMeaning(rulePath[..|rulePath| - 2], Upper(up, filePath));
    }
  }

  /** For a stored path that is no folder rule: exactly what it accepts as an expression. */
  lemma PlainPathMatches(up: CaseTable, rulePath: NtStr, filePath: NtStr)
    requires !EndsWith(rulePath, [BACKSLASH, STAR])
    ensures PathMatches(up, rulePath, filePath) <==> Glob(rulePath, Upper(up, filePath))
  {
  }
}
