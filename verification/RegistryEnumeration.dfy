/** Enumerating the names below a registry key (src/registry.rs:186-301). */
module RegistryEnumeration {
  import opened Wrappers
  import opened NtStrings

  /** A subkey or value: its name and the number of bytes its information takes. */
  datatype KeyEntry = KeyEntry(name: NtStr, need: Dword)

  type Dword = n: int | 0 <= n <= 0xFFFF_FFFF

  /**
    * A key that does not change while it is enumerated. The index is a 32-bit number that is also counted up past
    * the last entry.
    */
  type StableKey = entries: seq<KeyEntry> | |entries| < 0xFFFF_FFFF

  datatype Reply = NoMoreEntries | TooSmall(resultLength: Dword) | Information(name: NtStr)

  /** ZwEnumerateKey and ZwEnumerateValueKey. */
  function Enumerate(key: StableKey, index: nat, capacity: Dword): Reply {
    if index >= |key| then NoMoreEntries
    else if capacity < key[index].need then TooSmall(key[index].need)
    else Information(key[index].name)
  }

  function Names(entries: seq<KeyEntry>): (r: seq<NtStr>)
    ensures |r| == |entries|
    ensures forall i | 0 <= i < |entries| :: r[i] == entries[i].name
  {
    seq(|entries|, i requires 0 <= i < |entries| => entries[i].name)
  }

  /** The capacity a buffer gets when it has to grow: at least what was asked for. */
  ghost predicate IsGrowth(grow: Dword -> Dword) {
    forall n: Dword :: n <= grow(n)
  }

  type Growth = grow: Dword -> Dword | IsGrowth(grow) ghost witness ((n: Dword) => n)

  /** `try_reserve` on the always empty byte buffer. */
  function Reserve(capacity: Dword, wanted: Dword, grow: Growth): (r: Dword)
    ensures wanted <= r && capacity <= r
  {
    if wanted <= capacity then capacity
    else assert wanted <= grow(wanted); grow(wanted)
  }

  /**
    * `enumerate_names_impl`. The first `memory` memory requests are granted, later ones refused; `asked`
    * counts how often each index was asked for. The result is the complete list of names, in order, unless
    * a memory request was refused, and no index is asked for more than twice.
    */
  method EnumerateNames(key: StableKey, headerSize: Dword, grow: Growth, memory: nat)
    returns (r: Result<seq<NtStr>>, ghost asked: seq<nat>)
    ensures r.Success? ==> r.value == Names(key)
    ensures r.Failure? ==> r.error == InsufficientResources && memory < 1 + 3 * |key|
    ensures |asked| == |key| + 1
    ensures forall i | 0 <= i < |key| :: asked[i] <= 2
    ensures asked[|key|] <= 1
    ensures r.Success? ==> forall i | 0 <= i <= |key| :: asked[i] >= 1
  {
    asked := seq(|key| + 1, i => 0);
    var granted := memory;
    var names: seq<NtStr> := [];
    var index: Dword := 0;
    if granted == 0 {
      return Failure(InsufficientResources), asked;
    }
    granted := granted - 1;
    var capacity: Dword := Reserve(0, headerSize, grow);

    while true
      invariant 0 <= index <= |key|
      invariant names == Names(key[..index])
      invariant |asked| == |key| + 1
      invariant forall i | 0 <= i < index :: 1 <= asked[i] <= 2
      invariant forall i | index < i <= |key| :: asked[i] == 0
      invariant asked[index] == 0 || (asked[index] == 1 && index < |key| && key[index].need <= capacity)
      invariant granted + 3 * index + asked[index] + 1 >= memory
      decreases |key| - index, if index < |key| && capacity < key[index].need then 1 else 0
    {
      var reply := Enumerate(key, index, capacity);
      asked := asked[index := asked[index] + 1];
      match reply {
        case TooSmall(resultLength) =>
          if granted == 0 {
            return Failure(InsufficientResources), asked;
          }
          granted := granted - 1;
          capacity := Reserve(capacity, resultLength, grow);
        case NoMoreEntries =>
          assert key[..index] == key;
          index := index + 1;
          return Success(names), asked;
        case Information(name) =>
          if granted < 2 {
            return Failure(InsufficientResources), asked;
          }
          granted := granted - 2;
          names := names + [name];
          assert key[..index + 1] == key[..index] + [key[index]];
          index := index + 1;
      }
    }
  }
}
