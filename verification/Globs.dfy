/**
  * FsRtlIsNameInExpression on patterns over `*` and `?`, following section 2.1.4.4 of [MS-FSA].
  */
module Globs {
  import opened NtStrings

  predicate Glob(p: NtStr, s: NtStr)
    decreases |p| + |s|
  {
    if p == [] then s == []
    else if p[0] == STAR then Glob(p[1..], s) || (s != [] && Glob(p, s[1..]))
    else s != [] && (p[0] == QUESTION || p[0] == s[0]) && Glob(p[1..], s[1..])
  }

  /** `mathes`. */
  predicate Matches(s: NtStr, pattern: NtStr) {
    Glob(pattern, s)
  }

  /** `mathes_no_case`: the system upper-cases the name only and expects an upper-case pattern. */
  predicate MatchesNoCase(up: CaseTable, s: NtStr, pattern: NtStr) {
    Glob(pattern, Upper(up, s))
  }

  // ---------- what an expression accepts ----------

  /** The piece of `s` that a unit of the pattern stands for: any for `*`, one unit for `?`, else the unit itself. */
  predicate PieceFits(u: Unit, s: NtStr, from: nat, to: nat) {
    from <= to <= |s| && (u != STAR ==> to == from + 1 && (u == QUESTION || u == s[from]))
  }

  /** The cuts split `s` into one piece for each unit of `p`. */
  ghost predicate IsAlignment(p: NtStr, s: NtStr, cuts: seq<nat>) {
    && |cuts| == |p| + 1 && cuts[0] == 0 && cuts[|p|] == |s|
    && forall i | 0 <= i < |p| :: PieceFits(p[i], s, cuts[i], cuts[i + 1])
  }

  /** The string can be cut up along the pattern. */
  ghost predicate Aligns(p: NtStr, s: NtStr) {
    exists cuts :: IsAlignment(p, s, cuts)
  }

  /** The same cuts in a string with one more unit in front. */
  ghost function Later(cuts: seq<nat>): (r: seq<nat>)
    ensures |r| == |cuts| && forall i | 0 <= i < |cuts| :: r[i] == cuts[i] + 1
  {
    seq(|cuts|, i requires 0 <= i < |cuts| => cuts[i] + 1)
  }

  /** And with one unit less. */
  ghost function Sooner(cuts: seq<nat>): (r: seq<nat>)
    requires forall i | 0 <= i < |cuts| :: cuts[i] > 0
    ensures |r| == |cuts| && forall i | 0 <= i < |cuts| :: r[i] + 1 == cuts[i]
  {
    seq(|cuts|, i requires 0 <= i < |cuts| => cuts[i] - 1)
  }

  lemma FirstPiece(p: NtStr, s: NtStr, rest: seq<nat>)
    requires p != [] && p[0] == STAR && IsAlignment(p[1..], s, rest)
    ensures IsAlignment(p, s, [0] + rest)
  {
    var cuts := [0] + rest;
    forall i | 0 <= i < |p|
      ensures PieceFits(p[i], s, cuts[i], cuts[i + 1])
    {
      if i > 0 {
        assert PieceFits(p[1..][i - 1], s, rest[i - 1], rest[i]);
      }
    }
  }

  lemma LongerPiece(p: NtStr, s: NtStr, rest: seq<nat>)
    requires p != [] && p[0] == STAR && s != [] && IsAlignment(p, s[1..], rest)
    ensures IsAlignment(p, s, [0] + Later(rest)[1..])
  {
    var cuts := [0] + Later(rest)[1..];
    forall i | 0 <= i < |p|
      ensures PieceFits(p[i], s, cuts[i], cuts[i + 1])
    {
      assert PieceFits(p[i], s[1..], rest[i], rest[i + 1]);
      assert cuts[i + 1] == rest[i + 1] + 1;
      assert i > 0 ==> cuts[i] == rest[i] + 1;
    }
  }

  lemma UnitPiece(p: NtStr, s: NtStr, rest: seq<nat>)
    requires p != [] && p[0] != STAR && s != [] && (p[0] == QUESTION || p[0] == s[0])
    requires IsAlignment(p[1..], s[1..], rest)
    ensures IsAlignment(p, s, [0] + Later(rest))
  {
    var cuts := [0] + Later(rest);
    forall i | 0 <= i < |p|
      ensures PieceFits(p[i], s, cuts[i], cuts[i + 1])
    {
      assert cuts[i + 1] == rest[i] + 1;
      if i > 0 {
        assert PieceFits(p[1..][i - 1], s[1..], rest[i - 1], rest[i]);
        assert cuts[i] == rest[i - 1] + 1;
      }
    }
  }

  lemma {:induction false} GlobAligns(p: NtStr, s: NtStr) returns (cuts: seq<nat>)
    requires Glob(p, s)
    ensures IsAlignment(p, s, cuts)
    decreases |p| + |s|
  {
    if p == [] {
      cuts := [0];
    } else if p[0] == STAR && Glob(p[1..], s) {
      var rest := GlobAligns(p[1..], s);
      FirstPiece(p, s, rest);
      cuts := [0] + rest;
    } else if p[0] == STAR {
      var rest := GlobAligns(p, s[1..]);
      LongerPiece(p, s, rest);
      cuts := [0] + Later(rest)[1..];
    } else {
      var rest := GlobAligns(p[1..], s[1..]);
      UnitPiece(p, s, rest);
      cuts := [0] + Later(rest);
    }
  }

  lemma {:induction false} CutsGrow(p: NtStr, s: NtStr, cuts: seq<nat>, i: nat, j: nat)
    requires IsAlignment(p, s, cuts) && i <= j <= |p|
    ensures cuts[i] <= cuts[j]
    decreases j - i
  {
    if i < j {
      CutsGrow(p, s, cuts, i, j - 1);
      assert PieceFits(p[j - 1], s, cuts[j - 1], cuts[j]);
    }
  }

  /** Without the first unit of the pattern, when it stands for nothing. */
  lemma NoPiece(p: NtStr, s: NtStr, cuts: seq<nat>)
    requires p != [] && IsAlignment(p, s, cuts) && cuts[1] == 0
    ensures IsAlignment(p[1..], s, cuts[1..]) && p[0] == STAR
  {
    assert PieceFits(p[0], s, cuts[0], cuts[1]);
    forall i | 0 <= i < |p[1..]|
      ensures PieceFits(p[1..][i], s, cuts[1..][i], cuts[1..][i + 1])
    {
      assert PieceFits(p[i + 1], s, cuts[i + 1], cuts[i + 2]);
    }
  }

  /** Without the first unit of the string, when the star takes more, or the pattern's unit is used up. */
  lemma ShorterPiece(p: NtStr, s: NtStr, cuts: seq<nat>, rest: seq<nat>)
    requires p != [] && s != [] && IsAlignment(p, s, cuts) && cuts[1] > 0
    requires |rest| == |p| && forall i | 0 <= i < |rest| :: rest[i] + 1 == cuts[i + 1]
    ensures p[0] == STAR ==> IsAlignment(p, s[1..], [0] + rest)
    ensures p[0] != STAR ==> IsAlignment(p[1..], s[1..], rest) && (p[0] == QUESTION || p[0] == s[0])
  {
    var longer := [0] + rest;
    assert PieceFits(p[0], s, cuts[0], cuts[1]);
    forall i | 1 <= i < |p|
      ensures PieceFits(p[i], s[1..], rest[i - 1], rest[i])
    {
      assert PieceFits(p[i], s, cuts[i], cuts[i + 1]);
    }
    if p[0] == STAR {
      forall i | 0 <= i < |p|
        ensures PieceFits(p[i], s[1..], longer[i], longer[i + 1])
      {
        assert longer[i + 1] == rest[i];
        assert i > 0 ==> longer[i] == rest[i - 1];
      }
    } else {
      forall i | 0 <= i < |p[1..]|
        ensures PieceFits(p[1..][i], s[1..], rest[i], rest[i + 1])
      {
        assert p[1..][i] == p[i + 1];
      }
    }
  }

  lemma {:induction false} AlignedIsGlob(p: NtStr, s: NtStr, cuts: seq<nat>)
    requires IsAlignment(p, s, cuts)
    ensures Glob(p, s)
    decreases |p| + |s|
  {
    if p != [] {
      if cuts[1] == 0 {
        NoPiece(p, s, cuts);
        AlignedIsGlob(p[1..], s, cuts[1..]);
      } else {
        assert PieceFits(p[0], s, cuts[0], cuts[1]);
        forall i | 0 <= i < |cuts[1..]|
          ensures cuts[1..][i] > 0
        {
          CutsGrow(p, s, cuts, 1, i + 1);
        }
        var rest := Sooner(cuts[1..]);
        ShorterPiece(p, s, cuts, rest);
        if p[0] == STAR {
          AlignedIsGlob(p, s[1..], [0] + rest);
        } else {
          AlignedIsGlob(p[1..], s[1..], rest);
        }
      }
    }
  }

  /** What an expression accepts, without the matching: the strings that can be cut up along it. */
  lemma GlobMeaning(p: NtStr, s: NtStr)
    ensures Glob(p, s) <==> Aligns(p, s)
  {
    if Glob(p, s) {
      var cuts := GlobAligns(p, s);
    }
    if cuts :| IsAlignment(p, s, cuts) {
      AlignedIsGlob(p, s, cuts);
    }
  }

  /** What the two matching calls of the driver accept. */
  lemma MatchingMeaning(up: CaseTable, s: NtStr, pattern: NtStr)
    ensures Matches(s, pattern) <==> Aligns(pattern, s)
    ensures MatchesNoCase(up, s, pattern) <==> Aligns(pattern, Upper(up, s))
  {
    GlobMeaning(pattern, s);
    GlobMeaning(pattern, Upper(up, s));
  }

  // ---------- laws ----------

  lemma {:induction false} GlobConcatIntro(p: NtStr, q: NtStr, s: NtStr, t: NtStr)
    requires Glob(p, s) && Glob(q, t)
    ensures Glob(p + q, s + t)
    decreases |p| + |s|
  {
    if p == [] {
      assert p + q == q && s + t == t;
    } else {
      assert (p + q)[1..] == p[1..] + q;
      if p[0] == STAR && Glob(p[1..], s) {
        GlobConcatIntro(p[1..], q, s, t);
      } else {
        assert (s + t)[1..] == s[1..] + t;
        GlobConcatIntro(if p[0] == STAR then p else p[1..], q, s[1..], t);
      }
    }
  }

  lemma {:induction false} GlobConcatElim(p: NtStr, q: NtStr, s: NtStr) returns (k: nat)
    requires Glob(p + q, s)
    ensures k <= |s| && Glob(p, s[..k]) && Glob(q, s[k..])
    decreases |p| + |s|
  {
    if p == [] {
      assert p + q == q;
      k := 0;
    } else {
      assert (p + q)[1..] == p[1..] + q;
      if p[0] == STAR && Glob(p[1..] + q, s) {
        k := GlobConcatElim(p[1..], q, s);
      } else {
        var k' := GlobConcatElim(if p[0] == STAR then p else p[1..], q, s[1..]);
        k := k' + 1;
        assert s[..k][1..] == s[1..][..k'] && s[k..] == s[1..][k'..];
      }
    }
  }

  /** A concatenated pattern describes the concatenation of the two languages. */
  lemma GlobConcat(p: NtStr, q: NtStr, s: NtStr)
    ensures Glob(p + q, s) <==> exists k | 0 <= k <= |s| :: Glob(p, s[..k]) && Glob(q, s[k..])
  {
    if Glob(p + q, s) {
      var k := GlobConcatElim(p, q, s);
    }
    if k :| 0 <= k <= |s| && Glob(p, s[..k]) && Glob(q, s[k..]) {
      GlobConcatIntro(p, q, s[..k], s[k..]);
      assert s[..k] + s[k..] == s;
    }
  }

  /** `*` alone accepts everything. */
  lemma {:induction false} GlobStar(s: NtStr)
    ensures Glob([STAR], s)
  {
    if s != [] {
      GlobStar(s[1..]);
    } else {
      assert Glob([STAR][1..], s);
    }
  }

  /** A pattern without wildcards accepts exactly itself. */
  lemma {:induction false} GlobLiteral(p: NtStr, s: NtStr)
    requires STAR !in p && QUESTION !in p
    ensures Glob(p, s) <==> p == s
  {
    if p != [] && s != [] {
      GlobLiteral(p[1..], s[1..]);
      assert p == [p[0]] + p[1..] && s == [s[0]] + s[1..];
    }
  }

  /** A separator followed by `*` accepts exactly the strings that start with the separator. */
  lemma GlobUnitStar(c: Unit, s: NtStr)
    requires c != STAR && c != QUESTION
    ensures Glob([c, STAR], s) <==> s != [] && s[0] == c
  {
    assert [c, STAR][1..] == [STAR];
    if s != [] {
      GlobStar(s[1..]);
    }
  }

  /** Whatever a pattern accepts contains all of the pattern's literal units. */
  lemma {:induction false} GlobUnitsOccur(p: NtStr, s: NtStr, i: nat)
    requires Glob(p, s) && i < |p| && p[i] != STAR && p[i] != QUESTION
    ensures p[i] in s
    decreases |p| + |s|
  {
    if p[0] == STAR && !Glob(p[1..], s) {
      GlobUnitsOccur(p, s[1..], i);
    } else if i > 0 {
      GlobUnitsOccur(p[1..], if p[0] == STAR then s else s[1..], i - 1);
    }
  }

  /** Why stored patterns must be upper-case: ignoring case, any other pattern accepts nothing at all. */
  lemma NonUpperPatternMatchesNothing(up: CaseTable, pattern: NtStr, s: NtStr)
    requires !IsUpper(up, pattern)
    ensures !MatchesNoCase(up, s, pattern)
  {
    if MatchesNoCase(up, s, pattern) {
      var i :| 0 <= i < |pattern| && up(pattern[i]) != pattern[i];
      GlobUnitsOccur(pattern, Upper(up, s), i);
    }
  }

  /** An upper-case pattern without wildcards accepts exactly its own spellings. */
  lemma LiteralMatchesSpellings(up: CaseTable, pattern: NtStr, s: NtStr)
    requires STAR !in pattern && QUESTION !in pattern && IsUpper(up, pattern)
    ensures MatchesNoCase(up, s, pattern) <==> EqualsNoCase(up, s, pattern)
  {
    GlobLiteral(pattern, Upper(up, s));
  }

  /** A star between two literals: the strings that start with the one and end with the other, without overlap. */
  lemma GlobAffixes(head: NtStr, tail: NtStr, s: NtStr)
    requires STAR !in head && QUESTION !in head && STAR !in tail && QUESTION !in tail
    ensures Glob(head + ([STAR] + tail), s) <==> exists x :: s == head + x + tail
  {
    if Glob(head + ([STAR] + tail), s) {
      var k := GlobConcatElim(head, [STAR] + tail, s);
      var l := GlobConcatElim([STAR], tail, s[k..]);
      GlobLiteral(head, s[..k]);
      GlobLiteral(tail, s[k..][l..]);
      assert s == head + s[k..][..l] + tail;
    }
    if x :| s == head + x + tail {
      GlobLiteral(head, head);
      GlobLiteral(tail, tail);
      GlobStar(x);
      GlobConcatIntro([STAR], tail, x, tail);
      GlobConcatIntro(head, [STAR] + tail, head, x + tail);
      assert head + (x + tail) == s;
    }
  }
}
