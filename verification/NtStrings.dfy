/** Counted UTF-16 strings and the string operations of src/string_utils.rs. */
module NtStrings {
  import opened Wrappers

  /** One UTF-16 code unit. */
  type Unit = u: int | 0 <= u < 0x1_0000

  type NtStr = seq<Unit>

  /** The byte length of a UNICODE_STRING is a 16-bit number. */
  const MAX_UNITS: nat := 32767

  const BACKSLASH: Unit := 0x5C
  const STAR: Unit := 0x2A
  const QUESTION: Unit := 0x3F
  const COLON: Unit := 0x3A

  /** The units of a literal without characters beyond the basic plane. */
  function Literal(s: string): (r: NtStr)
    ensures |r| == |s|
  {
    seq(|s|, i requires 0 <= i < |s| => if s[i] as int < 0x1_0000 then s[i] as int else 0xFFFD)
  }

  /**
    * The system's upper-case table (RtlUpcaseUnicodeChar), unit by unit. The separators and wildcards
    * the driver looks for are their own upper case and nobody else's.
    */
  ghost predicate IsCaseTable(up: Unit -> Unit) {
    && (forall u: Unit :: up(up(u)) == up(u))
    && (forall u: Unit :: up(u) == BACKSLASH <==> u == BACKSLASH)
    && (forall u: Unit :: up(u) == STAR <==> u == STAR)
    && (forall u: Unit :: up(u) == QUESTION <==> u == QUESTION)
    && (forall u: Unit :: up(u) == COLON <==> u == COLON)
  }

  type CaseTable = up: Unit -> Unit | IsCaseTable(up) ghost witness ((u: Unit) => u)

  /** `convert_to_upper`. */
  function Upper(up: CaseTable, s: NtStr): (r: NtStr)
    ensures |r| == |s|
    ensures forall i | 0 <= i < |s| :: r[i] == up(s[i])
  {
    seq(|s|, i requires 0 <= i < |s| => up(s[i]))
  }

  predicate IsUpper(up: CaseTable, s: NtStr) {
    Upper(up, s) == s
  }

  lemma UpperIdempotent(up: CaseTable, s: NtStr)
    ensures IsUpper(up, Upper(up, s))
  {
  }

  lemma UpperConcat(up: CaseTable, a: NtStr, b: NtStr)
    ensures Upper(up, a + b) == Upper(up, a) + Upper(up, b)
  {
  }

  lemma UpperSlice(up: CaseTable, s: NtStr, i: nat, j: nat)
    requires i <= j <= |s|
    ensures Upper(up, s[i..j]) == Upper(up, s)[i..j]
  {
  }

  predicate EqualsNoCase(up: CaseTable, a: NtStr, b: NtStr) {
    Upper(up, a) == Upper(up, b)
  }

  lemma EqualsNoCaseConcat(up: CaseTable, a: NtStr, b: NtStr, c: NtStr, d: NtStr)
    requires EqualsNoCase(up, a, b) && EqualsNoCase(up, c, d)
    ensures EqualsNoCase(up, a + c, b + d)
  {
    UpperConcat(up, a, c);
    UpperConcat(up, b, d);
  }

  predicate StartsWithNoCase(up: CaseTable, s: NtStr, prefix: NtStr) {
    |prefix| <= |s| && EqualsNoCase(up, s[..|prefix|], prefix)
  }

  /** Unit-wise suffix test; module Utf16 shows when the driver's decoded comparison computes it. */
  predicate EndsWith(s: NtStr, suffix: NtStr) {
    |suffix| <= |s| && s[|s| - |suffix|..] == suffix
  }

  lemma EndsWithUnit(s: NtStr, c: Unit)
    ensures EndsWith(s, [c]) <==> s != [] && s[|s| - 1] == c
  {
  }

  /** `last_index_of`. */
  function LastIndexOf(s: NtStr, c: Unit): (r: Option<nat>)
    ensures r.Some? ==> r.value < |s| && s[r.value] == c && c !in s[r.value + 1..]
    ensures r.None? ==> c !in s
  {
    if s == [] then None
    else if s[|s| - 1] == c then Some(|s| - 1)
    else
      var r := LastIndexOf(s[..|s| - 1], c);
      assert s == s[..|s| - 1] + [s[|s| - 1]];
      assert r.Some? ==> s[r.value + 1..] == s[..|s| - 1][r.value + 1..] + [s[|s| - 1]];
      r
  }

  lemma LastIndexUnique(s: NtStr, c: Unit, i: nat)
    requires i < |s| && s[i] == c && c !in s[i + 1..]
    ensures LastIndexOf(s, c) == Some(i)
  {
  }

  /** `split_at`: `mid` is a 16-bit index. */
  function SplitAt(s: NtStr, mid: nat): Result<(NtStr, NtStr)> {
    if mid > |s| then Failure(InfoLengthMismatch) else Success((s[..mid], s[mid..]))
  }

  /** `substr`. */
  function Substr(s: NtStr, idx: nat): Result<NtStr> {
    var parts :- SplitAt(s, idx);
    Success(parts.1)
  }

  /** `slice`. */
  function Slice(s: NtStr, start: nat, end: nat): Result<NtStr> {
    if start > end then Failure(InfoLengthMismatch)
    else if end > |s| then Failure(InfoLengthMismatch)
    else Success(s[start..end])
  }

  /** `try_push` / `try_push_u16`: refused for lack of memory or because the byte length leaves 16 bits. */
  function TryAppend(s: NtStr, t: NtStr, refused: bool): Result<NtStr> {
    if |s| + |t| > MAX_UNITS then Failure(BufferOverflow)
    else if refused then Failure(InsufficientResources)
    else Success(s + t)
  }

  /**
    * The places in the driver's rule handlers where a memory request (or an in-place upper-casing) can be
    * refused. A handler passes each place at most once, so a set of refused places describes every way
    * in which its requests can fail.
    */
  datatype Site =
    | CopyValueName
    | BuildLinkName
    | ReserveLinkTarget
    | AppendRest
    | AppendStar
    | UpcasePath
    | CopyProcessName
    | UpcaseProcessName
    | PushPath
    | PushEntry

  type Refusals = set<Site>

  function Granted(site: Site, refused: Refusals): Result<()> {
    if site in refused then Failure(InsufficientResources) else Success(())
  }

  /** Equality ignoring case, unit by unit. */
  lemma EqualsNoCaseMeaning(up: CaseTable, a: NtStr, b: NtStr)
    ensures EqualsNoCase(up, a, b) <==> |a| == |b| && forall i | 0 <= i < |a| :: up(a[i]) == up(b[i])
  {
    if EqualsNoCase(up, a, b) {
      assert |Upper(up, a)| == |Upper(up, b)|;
      forall i | 0 <= i < |a|
        ensures up(a[i]) == up(b[i])
      {
        assert Upper(up, a)[i] == Upper(up, b)[i];
      }
    }
  }

  /** Appending works unless memory is refused or the byte length leaves 16 bits. */
  lemma AppendExact(s: NtStr, t: NtStr, refused: bool)
    ensures TryAppend(s, t, refused) ==
            if 2 * (|s| + |t|) > 0xFFFF then Failure(BufferOverflow)
            else if refused then Failure(InsufficientResources) else Success(s + t)
  {
  }
}
