/** The decoded suffix comparison of `ends_with_impl` (src/string_utils.rs:83-92). */
module Utf16 {
  import opened Wrappers
  import opened NtStrings

  predicate IsHigh(u: Unit) {
    0xD800 <= u <= 0xDBFF
  }

  predicate IsLow(u: Unit) {
    0xDC00 <= u <= 0xDFFF
  }

  /** Section 2 of RFC 2781: surrogates come only as high-low pairs. */
  predicate WellFormed(s: NtStr) {
    if s == [] then true
    else if IsHigh(s[0]) then |s| >= 2 && IsLow(s[1]) && WellFormed(s[2..])
    else !IsLow(s[0]) && WellFormed(s[1..])
  }

  /** How many units the first character takes. */
  function Width(s: NtStr): nat
    requires s != []
  {
    if IsHigh(s[0]) then 2 else 1
  }

  /** The first character. */
  function Head(s: NtStr): int
    requires s != [] && Width(s) <= |s|
  {
    if IsHigh(s[0]) then 0x1_0000 + (s[0] as int - 0xD800) * 0x400 + (s[1] as int - 0xDC00)
    else s[0]
  }

  /** The characters of a well-formed string: what `chars()` yields with every item unwrapped. */
  function Chars(s: NtStr): (cs: seq<int>)
    requires WellFormed(s)
  {
    if s == [] then [] else [Head(s)] + Chars(s[Width(s)..])
  }

  function Encode(c: int): NtStr
    requires 0 <= c < 0x11_0000
  {
    if c < 0x1_0000 then [c]
    else [0xD800 + (c - 0x1_0000) / 0x400, 0xDC00 + (c - 0x1_0000) % 0x400]
  }

  ghost predicate AreChars(cs: seq<int>) {
    forall i | 0 <= i < |cs| :: 0 <= cs[i] < 0x11_0000
  }

  function EncodeAll(cs: seq<int>): NtStr
    requires AreChars(cs)
  {
    if cs == [] then [] else Encode(cs[0]) + EncodeAll(cs[1..])
  }

  /** Encoding undoes decoding. */
  lemma {:induction false} EncodeChars(s: NtStr)
    requires WellFormed(s)
    ensures AreChars(Chars(s)) && EncodeAll(Chars(s)) == s
  {
    if s != [] {
      EncodeChars(s[Width(s)..]);
      assert Chars(s)[1..] == Chars(s[Width(s)..]);
      assert Encode(Head(s)) == s[..Width(s)];
      assert s == s[..Width(s)] + s[Width(s)..];
    }
  }

  lemma {:induction false} EncodeConcat(a: seq<int>, b: seq<int>)
    requires AreChars(a) && AreChars(b)
    ensures EncodeAll(a + b) == EncodeAll(a) + EncodeAll(b)
  {
    if a == [] {
      assert a + b == b;
    } else {
      var rest := a[1..];
      EncodeConcat(rest, b);
      assert (a + b)[0] == a[0] && (a + b)[1..] == rest + b;
      ConcatAssociative(Encode(a[0]), EncodeAll(rest), EncodeAll(b));
    }
  }

  lemma CharsStep(s: NtStr, rest: NtStr)
    requires s != [] && WellFormed(s) && s[Width(s)..] == rest
    ensures WellFormed(rest) && Chars(s) == [Head(s)] + Chars(rest)
  {
  }

  /** A well-formed tail never starts inside a surrogate pair. */
  lemma FirstCharOfConcat(s: NtStr, x: NtStr, t: NtStr)
    requires s == x + t && x != [] && WellFormed(s) && WellFormed(t)
    ensures Width(x) <= |x| && Width(s) == Width(x) && Head(s) == Head(x)
    ensures IsLow(x[0]) ==> false
    ensures IsHigh(x[0]) ==> IsLow(x[1])
    ensures s[Width(x)..] == x[Width(x)..] + t
  {
  }

  lemma {:induction false} WellFormedSplit(s: NtStr, x: NtStr, t: NtStr)
    requires s == x + t && WellFormed(s) && WellFormed(t)
    ensures WellFormed(x)
    decreases |x|
  {
    if x != [] {
      FirstCharOfConcat(s, x, t);
      CharsStep(s, s[Width(x)..]);
      WellFormedSplit(s[Width(x)..], x[Width(x)..], t);
    }
  }

  /** So decoding distributes over the cut. */
  lemma {:induction false} CharsSplit(s: NtStr, x: NtStr, t: NtStr)
    requires s == x + t && WellFormed(s) && WellFormed(x) && WellFormed(t)
    ensures Chars(s) == Chars(x) + Chars(t)
    decreases |x|
  {
    if x == [] {
      assert s == t;
    } else {
      FirstCharOfConcat(s, x, t);
      var restX, restS := x[Width(x)..], s[Width(x)..];
      CharsStep(s, restS);
      CharsStep(x, restX);
      CharsSplit(restS, restX, t);
      ConcatAssociative([Head(s)], Chars(restX), Chars(t));
    }
  }

  function Rev(cs: seq<int>): seq<int> {
    seq(|cs|, i requires 0 <= i < |cs| => cs[|cs| - 1 - i])
  }

  /** `zip` stops with the shorter list; `all` compares what it yields. */
  predicate AgreeWhileBothLast(a: seq<int>, b: seq<int>) {
    forall i | 0 <= i < |a| && i < |b| :: a[i] == b[i]
  }

  /** The driver's test: a length guard, then both strings' characters compared from the back. */
  predicate EndsWithDecoded(s: NtStr, t: NtStr)
    requires WellFormed(s) && WellFormed(t)
  {
    |t| <= |s| && AgreeWhileBothLast(Rev(Chars(s)), Rev(Chars(t)))
  }

  lemma ReversedZipIsSuffix(a: seq<int>, b: seq<int>)
    requires |b| <= |a|
    ensures AgreeWhileBothLast(Rev(a), Rev(b)) <==> a[|a| - |b|..] == b
  {
    if AgreeWhileBothLast(Rev(a), Rev(b)) {
      forall j | 0 <= j < |b|
        ensures a[|a| - |b|..][j] == b[j]
      {
        assert Rev(a)[|b| - 1 - j] == Rev(b)[|b| - 1 - j];
      }
    }
    if a[|a| - |b|..] == b {
      forall i | 0 <= i < |b|
        ensures Rev(a)[i] == Rev(b)[i]
      {
        assert a[|a| - |b|..][|b| - 1 - i] == b[|b| - 1 - i];
      }
    }
  }

  lemma SuffixOfChars(s: NtStr, t: NtStr)
    requires WellFormed(s) && WellFormed(t)
    requires |Chars(t)| <= |Chars(s)| && Chars(s)[|Chars(s)| - |Chars(t)|..] == Chars(t)
    ensures exists x :: s == x + t
  {
    var a, b := Chars(s), Chars(t);
    EncodeChars(s);
    EncodeChars(t);
    var head := a[..|a| - |b|];
    assert a == head + b;
    EncodeConcat(head, b);
    assert s == EncodeAll(head) + t;
  }

  /**
    * The length guard counts units while the zip stops at the shorter character list; together they are
    * nevertheless exactly the suffix relation on units.
    */
  lemma SuffixTestExact(s: NtStr, t: NtStr)
    requires WellFormed(s) && WellFormed(t)
    ensures EndsWithDecoded(s, t) <==> EndsWith(s, t)
  {
    var a, b := Chars(s), Chars(t);
    if EndsWith(s, t) {
      var x := s[..|s| - |t|];
      assert s == x + t;
      WellFormedSplit(s, x, t);
      CharsSplit(s, x, t);
      assert a == Chars(x) + b;
      ReversedZipIsSuffix(a, b);
    }
    if EndsWithDecoded(s, t) {
      if |b| <= |a| {
        ReversedZipIsSuffix(a, b);
        SuffixOfChars(s, t);
        var x :| s == x + t;
        assert EndsWith(s, t);
      } else {
        ReversedZipIsSuffix(b, a);
        assert AgreeWhileBothLast(Rev(b), Rev(a));
        SuffixOfChars(t, s);
        assert false;
      }
    }
  }

  // ---------- ill-formed strings ----------

  /** Does decoding from the back yield an error as its first item? A lone surrogate is the end of the string. */
  predicate LastUndecodable(s: NtStr) {
    s != [] && var c := s[|s| - 1]; IsHigh(c) || (IsLow(c) && (|s| < 2 || !IsHigh(s[|s| - 2])))
  }

  /** The last character, and what is left without it. */
  function LastChar(s: NtStr): (int, NtStr)
    requires s != [] && !LastUndecodable(s)
  {
    if IsLow(s[|s| - 1]) then (Head(s[|s| - 2..]), s[..|s| - 2]) else (s[|s| - 1], s[..|s| - 1])
  }

  /** The comparison from the back; it stops with the shorter string, and an undecodable item makes it panic. */
  function CompareBack(s: NtStr, t: NtStr): Option<bool>
    decreases |s|
  {
    if s == [] || t == [] then Some(true)
    else if LastUndecodable(s) || LastUndecodable(t) then None
    else if LastChar(s).0 != LastChar(t).0 then Some(false)
    else CompareBack(LastChar(s).1, LastChar(t).1)
  }

  /** `ends_with_impl` on any two strings: None where it panics. */
  function EndsWithOrPanic(s: NtStr, t: NtStr): Option<bool> {
    if |t| > |s| then Some(false) else CompareBack(s, t)
  }

  predicate NoSurrogates(t: NtStr) {
    forall i | 0 <= i < |t| :: !IsHigh(t[i]) && !IsLow(t[i])
  }

  /** The last `k` units of both agree, and what comes before them in `s` cannot be decoded. */
  predicate PanicsAt(s: NtStr, t: NtStr, k: nat) {
    k < |t| <= |s| && s[|s| - k..] == t[|t| - k..] && LastUndecodable(s[..|s| - k])
  }

  lemma PanicsOneFurther(s: NtStr, t: NtStr, k: nat)
    requires s != [] && t != [] && s[|s| - 1] == t[|t| - 1]
    ensures PanicsAt(s, t, k + 1) <==> PanicsAt(s[..|s| - 1], t[..|t| - 1], k)
  {
    var a, b := s[..|s| - 1], t[..|t| - 1];
    if k + 1 < |t| <= |s| {
      assert s[|s| - (k + 1)..] == a[|a| - k..] + [s[|s| - 1]];
      assert t[|t| - (k + 1)..] == b[|b| - k..] + [t[|t| - 1]];
      assert s[..|s| - (k + 1)] == a[..|a| - k];
      if s[|s| - (k + 1)..] == t[|t| - (k + 1)..] {
        assert a[|a| - k..] == s[|s| - (k + 1)..][..k];
        assert b[|b| - k..] == t[|t| - (k + 1)..][..k];
      }
    }
  }

  lemma EndsWithOneFurther(s: NtStr, t: NtStr)
    requires s != [] && t != [] && s[|s| - 1] == t[|t| - 1]
    ensures EndsWith(s, t) <==> EndsWith(s[..|s| - 1], t[..|t| - 1])
  {
    if |t| <= |s| {
      assert s[|s| - |t|..] == s[..|s| - 1][|s| - |t|..] + [s[|s| - 1]];
      assert t == t[..|t| - 1] + [t[|t| - 1]];
    }
  }

  lemma LastsAgree(s: NtStr, t: NtStr, k: nat)
    requires s != [] && t != []
    ensures PanicsAt(s, t, k) ==> LastUndecodable(s) || s[|s| - 1] == t[|t| - 1]
  {
    if PanicsAt(s, t, k) {
      if k == 0 {
        assert s[..|s| - 0] == s;
      } else {
        assert s[|s| - 1] == s[|s| - k..][k - 1] && t[|t| - 1] == t[|t| - k..][k - 1];
      }
    }
  }

  /**
    * The test for a suffix without surrogates, on any string at all: it panics exactly when an undecodable
    * character stands where the strings agree so far, and otherwise it is the suffix relation on units.
    */
  lemma {:induction false} PanicsIff(s: NtStr, t: NtStr)
    requires NoSurrogates(t)
    ensures EndsWithOrPanic(s, t).None? <==> exists k: nat :: PanicsAt(s, t, k)
    ensures EndsWithOrPanic(s, t).Some? ==> (EndsWithOrPanic(s, t).value <==> EndsWith(s, t))
    decreases |t|
  {
    if |t| > |s| || t == [] {
    } else if LastUndecodable(s) {
      assert s[..|s| - 0] == s && PanicsAt(s, t, 0);
    } else if s[|s| - 1] != t[|t| - 1] {
      forall k: nat
        ensures !PanicsAt(s, t, k)
      {
        LastsAgree(s, t, k);
      }
    } else {
      var a, b := s[..|s| - 1], t[..|t| - 1];
      PanicsIff(a, b);
      EndsWithOneFurther(s, t);
      if k: nat :| PanicsAt(s, t, k) {
        assert s[..|s| - 0] == s;
        PanicsOneFurther(s, t, k - 1);
      }
      if k: nat :| PanicsAt(a, b, k) {
        PanicsOneFurther(s, t, k);
      }
    }
  }

  /** The two suffixes the driver asks for: a separator, and a separator with a star. */
  lemma FolderTestsPanicIff(s: NtStr)
    ensures EndsWithOrPanic(s, [BACKSLASH]).None? <==> LastUndecodable(s)
    ensures EndsWithOrPanic(s, [BACKSLASH, STAR]).None?
       <==> |s| >= 2 && (LastUndecodable(s) || (s[|s| - 1] == STAR && LastUndecodable(s[..|s| - 1])))
  {
    assert s[..|s| - 0] == s;
    var t: NtStr := [BACKSLASH, STAR];
    PanicsIff(s, [BACKSLASH]);
    PanicsIff(s, t);
    if LastUndecodable(s) {
      assert PanicsAt(s, [BACKSLASH], 0);
    }
    if |s| >= 2 {
      assert PanicsAt(s, t, 0) <==> LastUndecodable(s);
      assert t[1..] == [STAR] && s[|s| - 1..] == [s[|s| - 1]];
      assert PanicsAt(s, t, 1) <==> s[|s| - 1] == STAR && LastUndecodable(s[..|s| - 1]);
    }
  }

  /** A well-formed string ends in a character, the last one that decoding from the front yields. */
  lemma {:induction false} LastOfChars(s: NtStr)
    requires WellFormed(s) && s != []
    ensures !LastUndecodable(s) && WellFormed(LastChar(s).1)
    ensures Chars(s) == Chars(LastChar(s).1) + [LastChar(s).0]
  {
    var rest := s[Width(s)..];
    CharsStep(s, rest);
    if rest == [] {
      assert s[|s| - Width(s)..] == s && s[..0] == [];
    } else {
      LastOfChars(rest);
      var c, x := LastChar(s).0, LastChar(s).1;
      assert rest[|rest| - 1] == s[|s| - 1];
      assert IsLow(s[|s| - 1]) ==> |rest| >= 2 && rest[|rest| - 2..] == s[|s| - 2..];
      assert x[Width(x)..] == LastChar(rest).1 && Head(x) == Head(s);
      CharsStep(x, LastChar(rest).1);
      ConcatAssociative([Head(s)], Chars(LastChar(rest).1), [c]);
    }
  }

  /** On well-formed strings comparing from the back compares the reversed character lists. */
  lemma {:induction false} CompareBackDecoded(s: NtStr, t: NtStr)
    requires WellFormed(s) && WellFormed(t)
    ensures CompareBack(s, t) == Some(AgreeWhileBothLast(Rev(Chars(s)), Rev(Chars(t))))
    decreases |s|
  {
    if s != [] && t != [] {
      LastOfChars(s);
      LastOfChars(t);
      var x, y := LastChar(s).1, LastChar(t).1;
      CompareBackDecoded(x, y);
      AgreeStep(Chars(x), LastChar(s).0, Chars(y), LastChar(t).0);
    }
  }

  lemma AgreeStep(a: seq<int>, c: int, b: seq<int>, d: int)
    ensures AgreeWhileBothLast(Rev(a + [c]), Rev(b + [d])) <==> c == d && AgreeWhileBothLast(Rev(a), Rev(b))
  {
    var ra, rb := Rev(a + [c]), Rev(b + [d]);
    assert ra == [c] + Rev(a) && rb == [d] + Rev(b);
    if AgreeWhileBothLast(ra, rb) {
      assert ra[0] == rb[0];
      assert forall i | 0 <= i < |a| && i < |b| :: Rev(a)[i] == ra[i + 1] && Rev(b)[i] == rb[i + 1];
    }
  }

  /** So on well-formed strings the test never panics, and is the suffix relation whatever the suffix. */
  lemma WellFormedNeverPanics(s: NtStr, t: NtStr)
    requires WellFormed(s) && WellFormed(t)
    ensures EndsWithOrPanic(s, t) == Some(EndsWith(s, t))
  {
    SuffixTestExact(s, t);
    CompareBackDecoded(s, t);
  }
}
