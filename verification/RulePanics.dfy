/** Which rule values make the suffix tests panic: when they are set, or only when they are searched. */
module RulePanics {
  import opened Wrappers
  import opened NtStrings
  import opened Globs
  import opened PathUtils
  import opened RulePaths
  import opened Utf16

  /** The upper-case table leaves surrogates alone, and they are nobody else's upper case. */
  ghost predicate KeepsSurrogates(up: CaseTable) {
    forall u: Unit :: 0xD800 <= u <= 0xDFFF || 0xD800 <= up(u) <= 0xDFFF ==> up(u) == u
  }

  /** The test for a final separator in `prepare_rule_file_path` panics. */
  predicate SettingPanics(m: Machine, value: NtStr) {
    NtForm(m, value).Success? && EndsWithOrPanic(NtForm(m, value).value, [BACKSLASH]).None?
  }

  /** The test of one stored path in `search_rule_impl` panics: it is reached when the path itself does not match. */
  predicate SearchingPanics(up: CaseTable, rulePath: NtStr, filePath: NtStr) {
    !MatchesNoCase(up, filePath, rulePath) && EndsWithOrPanic(rulePath, FOLDER_RULE_POSTFIX).None?
  }

  /** A star behind a character that cannot be decoded. */
  predicate LoneBeforeStar(s: NtStr) {
    |s| >= 2 && s[|s| - 1] == STAR && LastUndecodable(s[..|s| - 1])
  }

  /** A value panics when it is set exactly when its NT form ends in a lone surrogate. */
  lemma SettingPanicsIff(m: Machine, value: NtStr)
    ensures SettingPanics(m, value) <==> NtForm(m, value).Success? && LastUndecodable(NtForm(m, value).value)
  {
    if NtForm(m, value).Success? {
      FolderTestsPanicIff(NtForm(m, value).value);
    }
  }

  lemma UpperKeepsDecodable(up: CaseTable, s: NtStr)
    requires KeepsSurrogates(up)
    ensures LastUndecodable(Upper(up, s)) <==> LastUndecodable(s)
  {
  }

  lemma UpperKeepsLoneBeforeStar(up: CaseTable, s: NtStr)
    requires KeepsSurrogates(up)
    ensures LoneBeforeStar(Upper(up, s)) <==> LoneBeforeStar(s)
  {
    if |s| >= 2 {
      UpperKeepsDecodable(up, s[..|s| - 1]);
      assert Upper(up, s)[..|s| - 1] == Upper(up, s[..|s| - 1]);
    }
  }

  /** The string that is upper-cased and stored. */
  lemma StoredIsUpper(m: Machine, value: NtStr)
    requires Prepared(m, value).Success?
    ensures NtForm(m, value).Success?
    ensures var nt := NtForm(m, value).value;
            Prepared(m, value).value == Upper(m.up, if EndsWith(nt, [BACKSLASH]) then nt + [STAR] else nt)
  {
  }

  /** Behind a value that was set without a panic, no stored form ends in a lone surrogate. */
  lemma StoredEnding(m: Machine, value: NtStr)
    requires KeepsSurrogates(m.up) && Prepared(m, value).Success? && !SettingPanics(m, value)
    ensures NtForm(m, value).Success? && !LastUndecodable(Prepared(m, value).value)
    ensures LoneBeforeStar(Prepared(m, value).value) <==> LoneBeforeStar(NtForm(m, value).value)
  {
    StoredIsUpper(m, value);
    SettingPanicsIff(m, value);
    var nt := NtForm(m, value).value;
    EndsWithUnit(nt, BACKSLASH);
    if EndsWith(nt, [BACKSLASH]) {
      var full := nt + [STAR];
      assert full[..|full| - 1] == nt;
      UpperKeepsDecodable(m.up, full);
      UpperKeepsLoneBeforeStar(m.up, full);
    } else {
      UpperKeepsDecodable(m.up, nt);
      UpperKeepsLoneBeforeStar(m.up, nt);
    }
  }

  lemma FolderTestPanicIff(s: NtStr)
    ensures EndsWithOrPanic(s, FOLDER_RULE_POSTFIX).None? <==> |s| >= 2 && (LastUndecodable(s) || LoneBeforeStar(s))
  {
    FolderTestsPanicIff(s);
  }

  /**
    * A value that was set and stored panics in every search that it does not match, and in no other, exactly when
    * its NT form ends in a lone surrogate and a star.
    */
  lemma StoredPanicsIff(m: Machine, value: NtStr, filePath: NtStr)
    requires KeepsSurrogates(m.up) && Prepared(m, value).Success? && !SettingPanics(m, value)
    ensures SearchingPanics(m.up, Prepared(m, value).value, filePath)
       <==> !MatchesNoCase(m.up, filePath, Prepared(m, value).value) && LoneBeforeStar(NtForm(m, value).value)
  {
    StoredEnding(m, value);
    FolderTestPanicIff(Prepared(m, value).value);
  }

  /** Such a value: a lone surrogate and a star are stored without a panic, and a search for another name panics. */
  lemma LoneSurrogateStarPanicsLater(m: Machine, filePath: NtStr)
    requires KeepsSurrogates(m.up) && (filePath == [] || m.up(filePath[0]) != 0xD800)
    ensures var value: NtStr := [0xD800, STAR];
            && Prepared(m, value) == Success(value) && !SettingPanics(m, value)
            && SearchingPanics(m.up, value, filePath)
  {
    var value: NtStr := [0xD800, STAR];
    DiskSpecifiedIffColon(value);
    EndsWithUnit(value, BACKSLASH);
    assert Upper(m.up, value) == value;
    SettingPanicsIff(m, value);
    assert value[..1] == [0xD800];
    assert LoneBeforeStar(value);
    StoredPanicsIff(m, value, filePath);
  }
}
