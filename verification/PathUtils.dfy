/** Conversion of DOS paths to NT paths (src/path_utils.rs). */
module PathUtils {
  import opened Wrappers
  import opened NtStrings

  /**
    * What the driver asks of the system: the upper-case table and the targets of the drive links, keyed by
    * the upper-case link name (link names are looked up without regard to case). A target starts with a
    * separator and is not itself a drive.
    */
  datatype MachineBase = Machine(up: CaseTable, links: map<NtStr, NtStr>)

  ghost predicate IsDevicePath(target: NtStr) {
    |target| >= 2 && target[0] == BACKSLASH && target[1] != COLON
  }

  type Machine = m: MachineBase | forall link | link in m.links :: IsDevicePath(m.links[link])
    ghost witness Machine((u: Unit) => u, map[])

  /** `OBJ_MANAGER_PATH_PREFIX`: a separator, two question marks, a separator. */
  const OBJ_MANAGER_PATH_PREFIX: NtStr := [BACKSLASH, QUESTION, QUESTION, BACKSLASH]

  const DOS_DRIVE_NAME_LEN: nat := 2

  /** `obj_man_dos_drive_to_nt` as a lookup. */
  function LinkTarget(m: Machine, link: NtStr, refused: Refusals): Result<NtStr> {
    if Upper(m.up, link) !in m.links then Failure(ObjectNameNotFound)
    else
      var _ :- Granted(ReserveLinkTarget, refused);
      Success(m.links[Upper(m.up, link)])
  }

  /** The two parts `dos_path_to_nt` works on: the link name and the rest of the path. */
  function LinkAndRest(m: Machine, path: NtStr, refused: Refusals): Result<(NtStr, NtStr)> {
    if StartsWithNoCase(m.up, path, OBJ_MANAGER_PATH_PREFIX) then
      SplitAt(path, |OBJ_MANAGER_PATH_PREFIX| + DOS_DRIVE_NAME_LEN)
    else
      var parts :- SplitAt(path, DOS_DRIVE_NAME_LEN);
      var link :- TryAppend(OBJ_MANAGER_PATH_PREFIX, parts.0, BuildLinkName in refused);
      Success((link, parts.1))
  }

  function DosPathToNt(m: Machine, path: NtStr, refused: Refusals): Result<NtStr> {
    var parts :- LinkAndRest(m, path, refused);
    var target :- LinkTarget(m, parts.0, refused);
    TryAppend(target, parts.1, AppendRest in refused)
  }

  /** What ZwQuerySymbolicLinkObject reports for a buffer of `capacity` units. */
  datatype LinkQuery = TooSmall(needed: nat) | Filled(target: NtStr)

  function QuerySymbolicLink(target: NtStr, capacity: nat): LinkQuery {
    if capacity < |target| then TooSmall(|target|) else Filled(target)
  }

  /** Query for the size, reserve, query again: the driver's way to read a link. */
  method ReadLink(m: Machine, link: NtStr, refused: Refusals) returns (r: Result<NtStr>)
    ensures r == LinkTarget(m, link, refused)
  {
    var name := Upper(m.up, link);
    if name !in m.links {
      return Failure(ObjectNameNotFound);
    }
    var capacity := 0;
    var first := QuerySymbolicLink(m.links[name], capacity);
    if ReserveLinkTarget in refused {
      return Failure(InsufficientResources);
    }
    capacity := first.needed;
    var second := QuerySymbolicLink(m.links[name], capacity);
    return Success(second.target);
  }

  /** `dos_path_to_nt`, building its two strings by appending. */
  method ConvertDosPath(m: Machine, path: NtStr, refused: Refusals) returns (r: Result<NtStr>)
    ensures r == DosPathToNt(m, path, refused)
  {
    var ntDrive: NtStr;
    var filePath: NtStr;
    if StartsWithNoCase(m.up, path, OBJ_MANAGER_PATH_PREFIX) {
      var parts :- SplitAt(path, |OBJ_MANAGER_PATH_PREFIX| + DOS_DRIVE_NAME_LEN);
      ntDrive :- ReadLink(m, parts.0, refused);
      filePath := parts.1;
    } else {
      var parts :- SplitAt(path, DOS_DRIVE_NAME_LEN);
      var objManDosDrive := OBJ_MANAGER_PATH_PREFIX;
      objManDosDrive :- TryAppend(objManDosDrive, parts.0, BuildLinkName in refused);
      ntDrive :- ReadLink(m, objManDosDrive, refused);
      filePath := parts.1;
    }
    ntDrive :- TryAppend(ntDrive, filePath, AppendRest in refused);
    return Success(ntDrive);
  }

  /** A converted path is the target of the named link followed by the untouched rest of the original. */
  lemma DosPathToNtKeepsRest(m: Machine, path: NtStr, refused: Refusals) returns (i: nat)
    requires DosPathToNt(m, path, refused).Success?
    ensures i == if StartsWithNoCase(m.up, path, OBJ_MANAGER_PATH_PREFIX) then 6 else 2
    ensures i <= |path|
    ensures var link := Upper(m.up, OBJ_MANAGER_PATH_PREFIX + path[i - 2..i]);
            && link in m.links
            && DosPathToNt(m, path, refused).value == m.links[link] + path[i..]
  {
    if StartsWithNoCase(m.up, path, OBJ_MANAGER_PATH_PREFIX) {
      PrefixIsExact(m.up, path);
      assert path[..6] == OBJ_MANAGER_PATH_PREFIX + path[4..6];
      i := 6;
    } else {
      assert path[..2] == path[0..2];
      i := 2;
    }
  }

  /** The prefix has no letters, so matching it without case is matching it. */
  lemma PrefixIsExact(up: CaseTable, path: NtStr)
    requires StartsWithNoCase(up, path, OBJ_MANAGER_PATH_PREFIX)
    ensures OBJ_MANAGER_PATH_PREFIX <= path
  {
  }

  /** The object manager prefix is optional: with and without it a path has the same conversion, or the same error. */
  lemma PrefixIsOptional(m: Machine, path: NtStr, refused: Refusals)
    requires !StartsWithNoCase(m.up, path, OBJ_MANAGER_PATH_PREFIX)
    requires BuildLinkName !in refused
    ensures DosPathToNt(m, OBJ_MANAGER_PATH_PREFIX + path, refused) == DosPathToNt(m, path, refused)
  {
    var long := OBJ_MANAGER_PATH_PREFIX + path;
    assert long[..4] == OBJ_MANAGER_PATH_PREFIX;
    if |path| >= 2 {
      assert long[..6] == OBJ_MANAGER_PATH_PREFIX + path[..2];
      assert long[6..] == path[2..];
    }
  }

  /** A drive path never carries the prefix itself. */
  lemma DrivePathHasNoPrefix(up: CaseTable, path: NtStr)
    requires |path| >= 2 && path[1] == COLON
    ensures !StartsWithNoCase(up, path, OBJ_MANAGER_PATH_PREFIX)
  {
  }

  /** Refused memory requests only ever take results away. */
  lemma ConversionUnderRefusals(m: Machine, path: NtStr, refused: Refusals)
    requires DosPathToNt(m, path, refused).Success?
    ensures DosPathToNt(m, path, {}) == DosPathToNt(m, path, refused)
  {
  }

  lemma LinkAndRestIgnoresCase(m: Machine, a: NtStr, b: NtStr, refused: Refusals)
    requires EqualsNoCase(m.up, a, b)
    ensures var x, y := LinkAndRest(m, a, refused), LinkAndRest(m, b, refused);
            if x.Failure? then x == y
            else y.Success? && EqualsNoCase(m.up, x.value.0, y.value.0) && EqualsNoCase(m.up, x.value.1, y.value.1)
  {
    var p := OBJ_MANAGER_PATH_PREFIX;
    assert |a| == |b| by { assert |Upper(m.up, a)| == |Upper(m.up, b)|; }
    if |a| >= 4 {
      SameParts(m.up, a, b, 4);
    }
    var i := if StartsWithNoCase(m.up, a, p) then 6 else 2;
    if |a| >= i {
      SameParts(m.up, a, b, i);
      EqualsNoCaseConcat(m.up, p, p, a[..2], b[..2]);
    }
  }

  lemma SameParts(up: CaseTable, a: NtStr, b: NtStr, i: nat)
    requires EqualsNoCase(up, a, b) && i <= |a| == |b|
    ensures EqualsNoCase(up, a[..i], b[..i]) && EqualsNoCase(up, a[i..], b[i..])
    ensures i >= 2 ==> EqualsNoCase(up, a[..2], b[..2])
  {
    UpperSlice(up, a, 0, i);
    UpperSlice(up, b, 0, i);
    UpperSlice(up, a, i, |a|);
    UpperSlice(up, b, i, |b|);
    assert a[..i] == a[0..i] && b[..i] == b[0..i];
    if i >= 2 {
      UpperSlice(up, a, 0, 2);
      UpperSlice(up, b, 0, 2);
      assert a[..2] == a[0..2] && b[..2] == b[0..2];
    }
  }

  /** Paths that differ in case convert to paths that differ in case. */
  lemma ConversionIgnoresCase(m: Machine, a: NtStr, b: NtStr, refused: Refusals)
    requires EqualsNoCase(m.up, a, b)
    ensures var x, y := DosPathToNt(m, a, refused), DosPathToNt(m, b, refused);
            if x.Success? then y.Success? && EqualsNoCase(m.up, x.value, y.value) else x == y
  {
    LinkAndRestIgnoresCase(m, a, b, refused);
    var la, lb := LinkAndRest(m, a, refused), LinkAndRest(m, b, refused);
    if la.Success? {
      assert |la.value.1| == |lb.value.1| by {
        assert |Upper(m.up, la.value.1)| == |Upper(m.up, lb.value.1)|;
      }
      var target := LinkTarget(m, la.value.0, refused);
      if target.Success? {
        EqualsNoCaseConcat(m.up, target.value, target.value, la.value.1, lb.value.1);
      }
    }
  }

  // ---------- exactly when a conversion succeeds ----------

  /** Where the drive units end: behind the object manager prefix, if the path has it. */
  function DriveEnd(path: NtStr): nat {
    if [0x5C, 0x3F, 0x3F, 0x5C] <= path then 6 else 2
  }

  /** The upper-case name of the link that the drive units ask for. */
  function DriveLink(up: CaseTable, path: NtStr): NtStr
    requires DriveEnd(path) <= |path|
  {
    Upper(up, [0x5C, 0x3F, 0x3F, 0x5C] + path[DriveEnd(path) - 2..DriveEnd(path)])
  }

  lemma LinkAndRestExact(m: Machine, path: NtStr, refused: Refusals)
    ensures LinkAndRest(m, path, refused) ==
            if |path| < DriveEnd(path) then Failure(InfoLengthMismatch)
            else if DriveEnd(path) == 2 && BuildLinkName in refused then Failure(InsufficientResources)
            else Success(([0x5C, 0x3F, 0x3F, 0x5C] + path[DriveEnd(path) - 2..DriveEnd(path)], path[DriveEnd(path)..]))
  {
    assert StartsWithNoCase(m.up, path, OBJ_MANAGER_PATH_PREFIX) <==> OBJ_MANAGER_PATH_PREFIX <= path by {
      if StartsWithNoCase(m.up, path, OBJ_MANAGER_PATH_PREFIX) {
        PrefixIsExact(m.up, path);
      }
    }
    if |path| >= DriveEnd(path) == 6 {
      assert path[..6] == OBJ_MANAGER_PATH_PREFIX + path[4..6];
    } else if |path| >= 2 {
      assert path[..2] == path[0..2];
    }
  }

  /** The result of a conversion for every path and every refused request, error by error. */
  lemma ConversionExact(m: Machine, path: NtStr, refused: Refusals)
    ensures |path| < DriveEnd(path) ==> DosPathToNt(m, path, refused) == Failure(InfoLengthMismatch)
    ensures |path| >= DriveEnd(path) ==>
              var link, rest := DriveLink(m.up, path), path[DriveEnd(path)..];
              DosPathToNt(m, path, refused) ==
              if DriveEnd(path) == 2 && BuildLinkName in refused then Failure(InsufficientResources)
              else if link !in m.links then Failure(ObjectNameNotFound)
              else if ReserveLinkTarget in refused then Failure(InsufficientResources)
              else if 2 * (|m.links[link]| + |rest|) > 0xFFFF then Failure(BufferOverflow)
              else if AppendRest in refused then Failure(InsufficientResources)
              else Success(m.links[link] + rest)
  {
    LinkAndRestExact(m, path, refused);
    if |path| >= DriveEnd(path) && DriveLink(m.up, path) in m.links {
      AppendExact(m.links[DriveLink(m.up, path)], path[DriveEnd(path)..], AppendRest in refused);
    }
  }

  /** The requests that a conversion makes. */
  function ConversionSites(path: NtStr): Refusals {
    if DriveEnd(path) == 2 then {BuildLinkName, ReserveLinkTarget, AppendRest} else {ReserveLinkTarget, AppendRest}
  }

  /** A path converts exactly when it names a linked drive, the result fits, and nothing it asks for is refused. */
  lemma ConversionSucceedsIff(m: Machine, path: NtStr, refused: Refusals)
    ensures DosPathToNt(m, path, refused).Success?
       <==> && DriveEnd(path) <= |path| && DriveLink(m.up, path) in m.links
            && 2 * (|m.links[DriveLink(m.up, path)]| + |path| - DriveEnd(path)) <= 0xFFFF
            && ConversionSites(path) !! refused
  {
    ConversionExact(m, path, refused);
    assert ConversionSites(path) !! refused <==>
           (DriveEnd(path) == 2 ==> BuildLinkName !in refused) && ReserveLinkTarget !in refused
               && AppendRest !in refused;
  }
}
