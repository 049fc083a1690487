/** The create options word, access rights and dispositions (src/flt_utils.rs). */
module FltUtils {

  // Create dispositions.
  const FILE_SUPERSEDE: bv8 := 0
  const FILE_OPEN: bv8 := 1
  const FILE_CREATE: bv8 := 2
  const FILE_OPEN_IF: bv8 := 3
  const FILE_OVERWRITE: bv8 := 4
  const FILE_OVERWRITE_IF: bv8 := 5

  // Access rights.
  const FILE_WRITE_DATA: bv32 := 0x0002
  const FILE_ADD_FILE: bv32 := 0x0002
  const FILE_APPEND_DATA: bv32 := 0x0004
  const FILE_ADD_SUBDIRECTORY: bv32 := 0x0004
  const FILE_WRITE_EA: bv32 := 0x0010
  const FILE_DELETE_CHILD: bv32 := 0x0040
  const FILE_WRITE_ATTRIBUTES: bv32 := 0x0100
  const DELETE: bv32 := 0x1_0000
  const WRITE_DAC: bv32 := 0x4_0000
  const WRITE_OWNER: bv32 := 0x8_0000

  const WRITE_RIGHTS: bv32 :=
    FILE_WRITE_DATA | FILE_WRITE_ATTRIBUTES | FILE_WRITE_EA | WRITE_DAC | WRITE_OWNER | FILE_APPEND_DATA
    | FILE_DELETE_CHILD | FILE_ADD_SUBDIRECTORY | FILE_ADD_FILE | DELETE

  // Rights that ask for more than they name.
  const MAXIMUM_ALLOWED: bv32 := 0x0200_0000
  const GENERIC_ALL: bv32 := 0x1000_0000
  const GENERIC_WRITE: bv32 := 0x4000_0000

  /** Those of them that may stand for write rights. */
  const WIDE_RIGHTS: bv32 := MAXIMUM_ALLOWED | GENERIC_ALL | GENERIC_WRITE

  /** `is_any_flag_set`. */
  predicate AnyFlagSet(value: bv32, flags: bv32) {
    value & flags != 0
  }

  predicate IsWriteAccessRights(access: bv32) {
    AnyFlagSet(access, WRITE_RIGHTS)
  }

  predicate IsModifyDisposition(disposition: bv8) {
    disposition in [FILE_CREATE, FILE_SUPERSEDE, FILE_OVERWRITE, FILE_OVERWRITE_IF, FILE_OPEN_IF]
  }

  /** Bits 31-24 of the options word. */
  function Disposition(options: bv32): bv8 {
    ((options >> 24) & 0xFF) as bv8
  }

  /** Bits 23-0 of the options word. */
  function CreateFlags(options: bv32): bv32 {
    options & 0x00FF_FFFF
  }

  function SetDisposition(options: bv32, disposition: bv8): bv32 {
    (options & 0x00FF_FFFF) | ((disposition as bv32) << 24)
  }

  /** The two fields of the options word are independent and make it up. */
  lemma SetDispositionExact(options: bv32, disposition: bv8)
    ensures Disposition(SetDisposition(options, disposition)) == disposition
    ensures CreateFlags(SetDisposition(options, disposition)) == CreateFlags(options)
    ensures SetDisposition(options, Disposition(options)) == options
  {
  }

  /** Some right is asked for that lets a file, its attributes or its protection change, by its bit. */
  predicate AsksToWrite(access: bv32) {
    || access & 0x2 != 0      // write data, add a file
    || access & 0x4 != 0      // append data, add a subdirectory
    || access & 0x10 != 0     // write extended attributes
    || access & 0x40 != 0     // delete a child
    || access & 0x100 != 0    // write attributes
    || access & 0x1_0000 != 0 // delete
    || access & 0x4_0000 != 0 // write the access control list
    || access & 0x8_0000 != 0 // change the owner
  }

  /** The test finds exactly the requests that ask for one of these eight rights. */
  lemma WriteRightsExact(access: bv32)
    ensures IsWriteAccessRights(access) <==> AsksToWrite(access)
    ensures IsWriteAccessRights(access) <==> access & 0x000D_0156 != 0
  {
    assert WRITE_RIGHTS == 0x000D_0156;
  }

  /** The dispositions by number: what makes or empties a file, or may make it. */
  lemma DispositionsExact(options: bv32)
    ensures Disposition(options) as bv32 == options >> 24
    ensures IsModifyDisposition(Disposition(options)) <==> options >> 24 in [0, 2, 3, 4, 5]
    ensures Disposition(options) == FILE_OPEN_IF <==> options >> 24 == 3
    ensures SetDisposition(options, FILE_OPEN) == (options & 0x00FF_FFFF) | 0x0100_0000
  {
  }

  /** A request without write rights asks for no single right through which a file or its attributes change. */
  lemma NoWriteRights(access: bv32, right: bv32)
    requires !IsWriteAccessRights(access)
    requires right in [FILE_WRITE_DATA, FILE_APPEND_DATA, FILE_WRITE_EA, FILE_DELETE_CHILD, FILE_WRITE_ATTRIBUTES,
                       DELETE, WRITE_DAC, WRITE_OWNER]
    ensures !AnyFlagSet(access, right)
  {
    assert right & WRITE_RIGHTS == right;
  }

  /**
    * The rights of the handle a request for `access` leads to. The file system may grant `extra` rights beyond
    * those named, but write rights only for a request that asks for wide ones.
    */
  function GrantedAccess(access: bv32, extra: bv32): bv32 {
    if AnyFlagSet(access, WIDE_RIGHTS) then access | extra else access | (extra & !WRITE_RIGHTS)
  }

  /**
    * What the driver's test of the requested rights is worth: no handle gets a write right, whatever the file
    * system grants, exactly when the test passes and no wide right is asked for, which the test overlooks.
    */
  lemma NeverGrantsWriteIff(access: bv32)
    ensures (forall extra: bv32 :: !IsWriteAccessRights(GrantedAccess(access, extra)))
       <==> !IsWriteAccessRights(access) && !AnyFlagSet(access, WIDE_RIGHTS)
    ensures AnyFlagSet(access, WIDE_RIGHTS) <==> access & 0x5200_0000 != 0
  {
    if AnyFlagSet(access, WIDE_RIGHTS) {
      assert IsWriteAccessRights(GrantedAccess(access, DELETE));
    }
    if !IsWriteAccessRights(access) && !AnyFlagSet(access, WIDE_RIGHTS) {
      forall extra: bv32
        ensures !IsWriteAccessRights(GrantedAccess(access, extra))
      {
        NarrowGrant(access, extra);
      }
    }
    if IsWriteAccessRights(access) {
      assert IsWriteAccessRights(GrantedAccess(access, 0));
    }
  }

  lemma NarrowGrant(access: bv32, extra: bv32)
    requires !IsWriteAccessRights(access) && !AnyFlagSet(access, WIDE_RIGHTS)
    ensures !IsWriteAccessRights(GrantedAccess(access, extra))
  {
  }
}
