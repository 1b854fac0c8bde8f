// The MD v1 superblock inspector of debug/mdinspector.py: it finds the
// superblock of a raid member device by its magic number, decodes the
// little-endian fields of the v1 layout, and can dump the data region in
// chunks.
//
// The device is its contents, a sequence of bytes; `os.pread` is a slice of
// it that comes back short at the end of the device.

module MdInspector {
  import opened Common

  type byte = x: int | 0 <= x < 256

  const MDRAID_MAGIC: nat := 0xa92b_4efc
  const SZ_1K: nat := 1024
  const SZ_4K: nat := 4 * SZ_1K
  /** Named for 8 KiB but, as written, eight 4 KiB units: 32 KiB. */
  const SZ_8K: nat := 8 * SZ_4K
  /** How far before the 4 KiB-aligned end of the device the kernel places a
      v1.0 superblock: 8 KiB. */
  const V1_0_GAP: nat := 8 * SZ_1K
  const EINVAL: nat := 22
  const MAX_ROLES: nat := 128
  const DUMP_CHUNK: nat := 0x10_0000
  const SECTOR_SIZE: nat := 512

  const FEATURE_NAMES: seq<string> := ["bitmap_used", "recovery_in_progress", "reshape_in_progress"]
  const DEVFLAG_NAMES: seq<string> := ["write_mostly_1"]

  /** The exceptions the inspector can end with. */
  datatype InspectError =
    | StructError          // `struct.unpack` of a short read
    | OSError(errno: nat)  // `os.pread` with a negative offset or count
    | NotImplementedError  // no superblock at any of the three places

  function Min(a: int, b: int): int { if a <= b then a else b }

  // ---------------------------------------------------------------------
  // Little-endian integers

  function Pow256(n: nat): (r: nat)
    ensures r >= 1
  {
    if n == 0 then 1 else 256 * Pow256(n - 1)
  }

  /** The unsigned value of bytes stored least significant first. */
  function LeValue(bs: seq<byte>): (v: nat)
    ensures v < Pow256(|bs|)
  {
    if bs == [] then 0
    else
      var t := LeValue(bs[1..]);
      assert t <= Pow256(|bs| - 1) - 1;
      bs[0] + 256 * t
  }

  /** The `n` bytes that store `v` least significant first. */
  function LeBytes(v: nat, n: nat): (r: seq<byte>)
    ensures |r| == n
  {
    if n == 0 then [] else [v % 256] + LeBytes(v / 256, n - 1)
  }

  lemma {:induction false} LeValueOfBytes(v: nat, n: nat)
    requires v < Pow256(n)
    ensures LeValue(LeBytes(v, n)) == v
  {
    if n > 0 {
      var bs := LeBytes(v, n);
      assert bs[1..] == LeBytes(v / 256, n - 1);
      LeValueOfBytes(v / 256, n - 1);
    }
  }

  lemma {:induction false} LeBytesOfValue(bs: seq<byte>)
    ensures LeBytes(LeValue(bs), |bs|) == bs
  {
    if bs != [] {
      var t := LeValue(bs[1..]);
      DivModUnique(bs[0] + 256 * t, 256, t, bs[0]);
      LeBytesOfValue(bs[1..]);
      assert bs == [bs[0]] + bs[1..];
    }
  }

  /** `struct`'s `<l`: the 32-bit two's-complement reading of a word. */
  function Signed32(u: nat): int
  {
    if u >= 0x8000_0000 then u - 0x1_0000_0000 else u
  }

  /** Writing a signed 32-bit value and reading it back with `<l` gives it
      back. */
  lemma {:induction false} Signed32RoundTrip(x: int)
    requires -0x8000_0000 <= x < 0x8000_0000
    ensures Signed32(LeValue(LeBytes(x % 0x1_0000_0000, 4))) == x
  {
    assert Pow256(4) == 0x1_0000_0000;
    LeValueOfBytes(x % 0x1_0000_0000, 4);
  }

  lemma {:induction false} Pow2Of32()
    ensures Pow2(32) == 0x1_0000_0000
  {
    PowAdd(16, 16);
    PowAdd(8, 8);
    PowAdd(4, 4);
    PowAdd(2, 2);
    assert Pow2(2) == 4;
  }

  /** Reading a word signed or unsigned gives the same bits 0 to 31. */
  lemma {:induction false} SignedBitsAgree(u: nat, i: nat)
    requires u < 0x1_0000_0000 && i < 32
    ensures BitSet(Signed32(u), i) == BitSet(u, i)
  {
    if u >= 0x8000_0000 {
      var p: int := Pow2(i);
      var h: int := Pow2(31 - i);
      assert p * (2 * h) == 0x1_0000_0000 by {
        PowAdd(i, 32 - i);
        assert Pow2(32 - i) == 2 * Pow2(31 - i);
        Pow2Of32();
      }
      var x := -2 * h;
      assert x * p == -(p * (2 * h));
      DivAddMultiple(x, p, u);
      ModTwoShift(-h, u / p);
    }
  }

  // ---------------------------------------------------------------------
  // Reads

  /** `os.pread(fd, n, off)`: the bytes from `off`, short at the end of the
      device, `EINVAL` for a negative count or offset. */
  function Pread(dev: seq<byte>, n: int, off: int): (r: Result<seq<byte>, InspectError>)
    ensures r.Err? <==> n < 0 || off < 0
    ensures r.Err? ==> r.error == OSError(EINVAL)
    ensures r.Ok? ==> |r.value| <= n
    ensures r.Ok? && r.value != [] ==> off + |r.value| <= |dev| && r.value == dev[off..off + |r.value|]
    ensures r.Ok? && |r.value| < n ==> off + |r.value| >= |dev|
  {
    if n < 0 || off < 0 then Err(OSError(EINVAL))
    else if off >= |dev| then Ok([])
    else Ok(dev[off..Min(off + n, |dev|)])
  }

  /** `struct.unpack` of an unsigned little-endian field of `width` bytes. */
  function Unpack(b: seq<byte>, width: nat): Result<nat, InspectError>
  {
    if |b| != width then Err(StructError) else Ok(LeValue(b))
  }

  /** The unsigned field of `width` bytes at `sbOff + pos`. */
  function ReadLe(dev: seq<byte>, sbOff: int, pos: nat, width: nat): (r: Result<nat, InspectError>)
    requires width >= 1
    ensures sbOff + pos < 0 ==> r == Err(OSError(EINVAL))
    ensures sbOff + pos >= 0 ==> (r.Ok? <==> sbOff + pos + width <= |dev|)
    ensures sbOff + pos >= 0 && r.Err? ==> r.error == StructError
    ensures r.Ok? ==> 0 <= sbOff + pos && sbOff + pos + width <= |dev| &&
                      r.value == LeValue(dev[sbOff + pos..sbOff + pos + width])
  {
    var b :- Pread(dev, width, sbOff + pos);
    Unpack(b, width)
  }

  /** The device with `bs` written at `p`. */
  function Splice(dev: seq<byte>, p: nat, bs: seq<byte>): (d: seq<byte>)
    requires p + |bs| <= |dev|
    ensures |d| == |dev|
  {
    dev[..p] + bs + dev[p + |bs|..]
  }

  /** A field written little-endian reads back as the value written. */
  lemma {:induction false} ReadLeAfterWrite(dev: seq<byte>, p: nat, v: nat, w: nat)
    requires w >= 1 && p + w <= |dev| && v < Pow256(w)
    ensures ReadLe(Splice(dev, p, LeBytes(v, w)), 0, p, w) == Ok(v)
  {
    var d := Splice(dev, p, LeBytes(v, w));
    assert d[p..p + w] == LeBytes(v, w);
    LeValueOfBytes(v, w);
  }

  /** The field values at an absolute position, where the device holds them. */
  function U16At(dev: seq<byte>, p: nat): nat
    requires p + 2 <= |dev|
  {
    LeValue(dev[p..p + 2])
  }

  function U32At(dev: seq<byte>, p: nat): nat
    requires p + 4 <= |dev|
  {
    LeValue(dev[p..p + 4])
  }

  function U64At(dev: seq<byte>, p: nat): nat
    requires p + 8 <= |dev|
  {
    LeValue(dev[p..p + 8])
  }

  function I32At(dev: seq<byte>, p: nat): int
    requires p + 4 <= |dev|
  {
    Signed32(U32At(dev, p))
  }

  function RdUshort(dev: seq<byte>, sbOff: int, pos: nat): Result<nat, InspectError>
  {
    ReadLe(dev, sbOff, pos, 2)
  }

  function RdUlong(dev: seq<byte>, sbOff: int, pos: nat): Result<nat, InspectError>
  {
    ReadLe(dev, sbOff, pos, 4)
  }

  function RdUlonglong(dev: seq<byte>, sbOff: int, pos: nat): Result<nat, InspectError>
  {
    ReadLe(dev, sbOff, pos, 8)
  }

  /** `_rd_long`: the signed 32-bit field at `sbOff + pos`. */
  function RdLong(dev: seq<byte>, sbOff: int, pos: nat): (r: Result<int, InspectError>)
    ensures r.Ok? <==> RdUlong(dev, sbOff, pos).Ok?
    ensures r.Ok? ==> -0x8000_0000 <= r.value < 0x8000_0000 &&
                      (r.value == RdUlong(dev, sbOff, pos).value ||
                       r.value == RdUlong(dev, sbOff, pos).value - 0x1_0000_0000)
  {
    var u :- RdUlong(dev, sbOff, pos);
    assert Pow256(4) == 0x1_0000_0000;
    Ok(Signed32(u))
  }

  // ---------------------------------------------------------------------
  // Feature bits

  /** The name-to-bit map `_rd_longbits` builds from `val`; a repeated name
      keeps the bit of its last position. */
  function LongBitsOf(val: int, names: seq<string>): map<string, bool>
  {
    if names == [] then map[]
    else LongBitsOf(val, names[..|names| - 1])[names[|names| - 1] := BitSet(val, |names| - 1)]
  }

  /** Exactly the names are keys, and each maps to its bit. */
  lemma {:induction false} LongBitsOfSpec(val: int, names: seq<string>)
    ensures forall k :: k in LongBitsOf(val, names) <==> k in names
    ensures forall i :: 0 <= i < |names| && names[i] !in names[i + 1..] ==>
                        LongBitsOf(val, names)[names[i]] == BitSet(val, i)
  {
    if names != [] {
      var p := names[..|names| - 1];
      LongBitsOfSpec(val, p);
      assert names == p + [names[|names| - 1]];
      forall i | 0 <= i < |names| - 1 && names[i] !in names[i + 1..]
        ensures LongBitsOf(val, names)[names[i]] == BitSet(val, i)
      {
        assert names[|names| - 1] in names[i + 1..];
        assert p[i + 1..] <= names[i + 1..];
        assert names[i] !in p[i + 1..] by {
          forall j | i + 1 <= j < |p|
            ensures p[j] != names[i]
          {
            assert p[j] == names[i + 1..][j - i - 1];
          }
        }
      }
    }
  }

  /** The names of distinct positions give a map with one key per name. */
  lemma {:induction false} LongBitsOfSize(val: int, names: seq<string>)
    requires forall i, j :: 0 <= i < j < |names| ==> names[i] != names[j]
    ensures |LongBitsOf(val, names)| == |names|
  {
    if names != [] {
      var p := names[..|names| - 1];
      LongBitsOfSize(val, p);
      LongBitsOfSpec(val, p);
      assert names[|names| - 1] !in p;
    }
  }

  /** `_rd_longbits`: the signed word at `pos`, then one entry per name. */
  method RdLongbits(dev: seq<byte>, sbOff: int, pos: nat, names: seq<string>)
    returns (r: Result<map<string, bool>, InspectError>)
    ensures r.Ok? <==> RdLong(dev, sbOff, pos).Ok?
    ensures r.Err? ==> r.error == RdLong(dev, sbOff, pos).error
    ensures r.Ok? ==> r.value == LongBitsOf(RdLong(dev, sbOff, pos).value, names)
  {
    var val :- RdLong(dev, sbOff, pos);
    var ret: map<string, bool> := map[];
    for i := 0 to |names|
      invariant ret == LongBitsOf(val, names[..i])
    {
      assert names[..i + 1][..i] == names[..i];
      ret := ret[names[i] := BitSet(val, i)];
    }
    assert names[..|names|] == names;
    return Ok(ret);
  }

  // ---------------------------------------------------------------------
  // Locating the superblock

  predicate MagicAt(dev: seq<byte>, p: int)
  {
    0 <= p && p + 4 <= |dev| && U32At(dev, p) == MDRAID_MAGIC
  }

  /** The v1.0 candidate: `gap` bytes before the 4 KiB-aligned end. */
  function V10Offset(size: nat, gap: nat): int
  {
    (size - size % SZ_4K) - gap
  }

  /** The superblock offset and version label `__init__` settles on. */
  function Locate(dev: seq<byte>, gap: nat): (r: Result<(int, string), InspectError>)
    ensures r.Ok? ==> MagicAt(dev, r.value.0)
    ensures r.Ok? ==> (r.value.0 == 0 && r.value.1 == "1.1") ||
                      (!MagicAt(dev, 0) && r.value.0 == SZ_4K && r.value.1 == "1.2") ||
                      (!MagicAt(dev, 0) && !MagicAt(dev, SZ_4K) && r.value.0 == V10Offset(|dev|, gap) && r.value.1 == "1.0")
    ensures r == Err(NotImplementedError) ==>
              !MagicAt(dev, 0) && !MagicAt(dev, SZ_4K) && !MagicAt(dev, V10Offset(|dev|, gap))
    ensures MagicAt(dev, 0) ==> r == Ok((0, "1.1"))
    ensures !MagicAt(dev, 0) && MagicAt(dev, SZ_4K) ==> r == Ok((SZ_4K, "1.2"))
    ensures |dev| >= SZ_4K + 4 && !MagicAt(dev, 0) && !MagicAt(dev, SZ_4K) && MagicAt(dev, V10Offset(|dev|, gap)) ==>
              r == Ok((V10Offset(|dev|, gap), "1.0"))
    ensures |dev| >= SZ_4K + 4 && 0 <= V10Offset(|dev|, gap) && V10Offset(|dev|, gap) + 4 <= |dev| &&
            !MagicAt(dev, 0) && !MagicAt(dev, SZ_4K) && !MagicAt(dev, V10Offset(|dev|, gap)) ==>
              r == Err(NotImplementedError)
    ensures |dev| < 4 || (!MagicAt(dev, 0) && |dev| < SZ_4K + 4) ==> r == Err(StructError)
    ensures |dev| >= SZ_4K + 4 && !MagicAt(dev, 0) && !MagicAt(dev, SZ_4K) && V10Offset(|dev|, gap) < 0 ==>
              r == Err(OSError(EINVAL))
  {
    var m0 :- RdUlong(dev, 0, 0);
    if m0 == MDRAID_MAGIC then Ok((0, "1.1"))
    else
      var m1 :- RdUlong(dev, SZ_4K, 0);
      if m1 == MDRAID_MAGIC then Ok((SZ_4K, "1.2"))
      else
        var off := V10Offset(|dev|, gap);
        var m2 :- RdUlong(dev, off, 0);
        if m2 == MDRAID_MAGIC then Ok((off, "1.0")) else Err(NotImplementedError)
  }

  /** The kernel's v1.0 placement, `(size - 8K) & ~(4K - 1)`. */
  function KernelV10Offset(size: nat): int
  {
    (size - V1_0_GAP) - (size - V1_0_GAP) % SZ_4K
  }

  /** With an 8 KiB gap the tool's candidate is the kernel's placement. */
  lemma {:induction false} V10GapMatchesKernel(size: nat)
    requires size >= V1_0_GAP
    ensures V10Offset(size, V1_0_GAP) == KernelV10Offset(size)
  {
    var q, r := size / SZ_4K, size % SZ_4K;
    DivModUnique(size - V1_0_GAP, SZ_4K, q - 2, r);
  }

  /** With the 8 KiB gap, a v1.0 superblock where the kernel writes it is
      found, on any device with no v1.1 or v1.2 superblock. */
  lemma {:induction false} V10FoundWithKernelGap(dev: seq<byte>)
    requires |dev| >= 3 * SZ_4K
    requires !MagicAt(dev, 0) && !MagicAt(dev, SZ_4K) && MagicAt(dev, KernelV10Offset(|dev|))
    ensures Locate(dev, V1_0_GAP) == Ok((KernelV10Offset(|dev|), "1.0"))
  {
    V10GapMatchesKernel(|dev|);
  }

  /** A 64 KiB device holding only a v1.0 superblock, where the kernel puts
      it (56 KiB in). */
  function V10OnlyDevice(): (dev: seq<byte>)
    ensures |dev| == 0x1_0000
  {
    seq(0x1_0000, i requires 0 <= i < 0x1_0000 =>
      if i == 0xe000 then 0xfc else if i == 0xe001 then 0x4e
      else if i == 0xe002 then 0x2b else if i == 0xe003 then 0xa9 else 0)
  }

  /** As written, the tool looks 32 KiB before the end and misses it. */
  lemma {:induction false} V10MissedAsWritten()
    ensures KernelV10Offset(|V10OnlyDevice()|) == 0xe000
    ensures MagicAt(V10OnlyDevice(), 0xe000)
    ensures Locate(V10OnlyDevice(), SZ_8K) == Err(NotImplementedError)
  {
    var dev := V10OnlyDevice();
    assert dev[0xe000..0xe004] == [0xfc, 0x4e, 0x2b, 0xa9];
    assert dev[0..4] == [0, 0, 0, 0];
    assert dev[SZ_4K..SZ_4K + 4] == [0, 0, 0, 0];
    assert V10Offset(|dev|, SZ_8K) == 0x8000;
    assert dev[0x8000..0x8004] == [0, 0, 0, 0];
  }

  // ---------------------------------------------------------------------
  // The superblock
  //
  // The v1 superblock is laid out in three parts: constant array
  // information (0x00 to 0x7f), constant information about this device
  // (0x80 to 0xbf) and array state (0xc0 onwards, with one role word per
  // device from 0x100).

  datatype ArrayInfo = ArrayInfo(
    major: nat, featureMap: map<string, bool>,
    setUuid: seq<byte>, setName: seq<byte>, ctime: nat,
    level: int, layout: nat, size: nat, chunksize: nat, raidDisks: nat,
    bitmapOffset: nat, newLevel: nat, reshapePos: nat, deltaDisks: nat,
    newLayout: nat, newChunk: nat)

  datatype DeviceInfo = DeviceInfo(
    dataOffset: nat, dataSize: nat, superOffset: nat, recoveryOffset: nat,
    devNumber: nat, cntCorrectedRead: nat, deviceUuid: seq<byte>,
    devflags: map<string, bool>)

  datatype ArrayState = ArrayState(
    utime: nat, events: nat, resyncOffset: nat, csum: nat, maxDev: nat,
    diskRoles: seq<nat>)

  datatype Superblock = Superblock(off: int, ver: string, arrayInfo: ArrayInfo, deviceInfo: DeviceInfo, arrayState: ArrayState)

  /** How many role words are read: `min(raid_disks, 128)`. */
  function RoleCount(raidDisks: nat): nat
  {
    if raidDisks < MAX_ROLES then raidDisks else MAX_ROLES
  }

  /** The device holds every field of a superblock at `off`, and the role
      words that its `raid_disks` asks for. */
  predicate Fits(dev: seq<byte>, off: nat)
  {
    off + 0xe0 <= |dev| &&
    var n := RoleCount(U32At(dev, off + 0x5c));
    n == 0 || off + 0x100 + 2 * n <= |dev|
  }

  /** The array information of the v1 layout, each field at its offset. */
  function ArrayInfoAt(dev: seq<byte>, off: nat): ArrayInfo
    requires off + 0x7c <= |dev|
  {
    ArrayInfo(
      U32At(dev, off + 0x04), LongBitsOf(I32At(dev, off + 0x08), FEATURE_NAMES),
      dev[off + 0x10..off + 0x20], dev[off + 0x20..off + 0x40], U64At(dev, off + 0x40),
      I32At(dev, off + 0x48), U32At(dev, off + 0x4c), U64At(dev, off + 0x50),
      U32At(dev, off + 0x58), U32At(dev, off + 0x5c),
      U32At(dev, off + 0x60), U32At(dev, off + 0x64), U64At(dev, off + 0x68), U32At(dev, off + 0x70),
      U32At(dev, off + 0x74), U32At(dev, off + 0x78))
  }

  /** The device information of the v1 layout. */
  function DeviceInfoAt(dev: seq<byte>, off: nat): DeviceInfo
    requires off + 0xbc <= |dev|
  {
    DeviceInfo(
      U64At(dev, off + 0x80), U64At(dev, off + 0x88), U64At(dev, off + 0x90), U64At(dev, off + 0x98),
      U32At(dev, off + 0xa0), U32At(dev, off + 0xa4), dev[off + 0xa8..off + 0xb8],
      LongBitsOf(I32At(dev, off + 0xb8), DEVFLAG_NAMES))
  }

  /** `n` role words from 0x100, two bytes each. */
  function RolesAt(dev: seq<byte>, off: nat, n: nat): seq<nat>
    requires n == 0 || off + 0x100 + 2 * n <= |dev|
  {
    seq(n, j requires 0 <= j < n => U16At(dev, off + 0x100 + 2 * j))
  }

  /** The array state of the v1 layout, with `n` role words. */
  function ArrayStateAt(dev: seq<byte>, off: nat, n: nat): ArrayState
    requires off + 0xe0 <= |dev| && (n == 0 || off + 0x100 + 2 * n <= |dev|)
  {
    ArrayState(
      U64At(dev, off + 0xc0), U64At(dev, off + 0xc8), U64At(dev, off + 0xd0),
      U32At(dev, off + 0xd8), U32At(dev, off + 0xdc), RolesAt(dev, off, n))
  }

  /** The whole superblock at `off`. */
  function SuperblockAt(dev: seq<byte>, off: nat, ver: string): Superblock
    requires Fits(dev, off)
  {
    Superblock(off, ver, ArrayInfoAt(dev, off), DeviceInfoAt(dev, off),
               ArrayStateAt(dev, off, RoleCount(U32At(dev, off + 0x5c))))
  }

  /** The first part of `__init__`: the three places the superblock may be,
      tried in turn. */
  method FindSuperblock(dev: seq<byte>, gap: nat) returns (r: Result<(int, string), InspectError>)
    ensures r == Locate(dev, gap)
  {
    var sbOff: int := 0;
    var sbVer := "1.1";
    var magic :- RdUlong(dev, sbOff, 0);
    if magic != MDRAID_MAGIC {
      sbOff := SZ_4K;
      sbVer := "1.2";
    }
    magic :- RdUlong(dev, sbOff, 0);
    if magic != MDRAID_MAGIC {
      sbOff := V10Offset(|dev|, gap);
      sbVer := "1.0";
    }
    magic :- RdUlong(dev, sbOff, 0);
    if magic != MDRAID_MAGIC {
      return Err(NotImplementedError);
    }
    return Ok((sbOff, sbVer));
  }

  /** The reads of the array information, in the order of `__init__`. */
  method ReadArrayInfo(dev: seq<byte>, sbOff: nat) returns (r: Result<ArrayInfo, InspectError>)
    ensures r.Ok? <==> sbOff + 0x7c <= |dev|
    ensures r.Ok? ==> r.value == ArrayInfoAt(dev, sbOff)
    ensures r.Err? ==> r.error == StructError
  {
    var major :- RdUlong(dev, sbOff, 0x04);
    var featureMap :- RdLongbits(dev, sbOff, 0x08, FEATURE_NAMES);
    var setUuid := Pread(dev, 16, sbOff + 0x10).value;
    var setName := Pread(dev, 32, sbOff + 0x20).value;
    var ctime :- RdUlonglong(dev, sbOff, 0x40);
    var level :- RdLong(dev, sbOff, 0x48);
    var layout :- RdUlong(dev, sbOff, 0x4c);
    var size :- RdUlonglong(dev, sbOff, 0x50);
    var chunksize :- RdUlong(dev, sbOff, 0x58);
    var raidDisks :- RdUlong(dev, sbOff, 0x5c);
    var bitmapOffset :- RdUlong(dev, sbOff, 0x60);
    var newLevel :- RdUlong(dev, sbOff, 0x64);
    var reshapePos :- RdUlonglong(dev, sbOff, 0x68);
    var deltaDisks :- RdUlong(dev, sbOff, 0x70);
    var newLayout :- RdUlong(dev, sbOff, 0x74);
    var newChunk :- RdUlong(dev, sbOff, 0x78);
    return Ok(ArrayInfo(major, featureMap, setUuid, setName, ctime, level, layout, size,
                        chunksize, raidDisks, bitmapOffset, newLevel, reshapePos, deltaDisks,
                        newLayout, newChunk));
  }

  /** The reads of the device information. */
  method ReadDeviceInfo(dev: seq<byte>, sbOff: nat) returns (r: Result<DeviceInfo, InspectError>)
    ensures r.Ok? <==> sbOff + 0xbc <= |dev|
    ensures r.Ok? ==> r.value == DeviceInfoAt(dev, sbOff)
    ensures r.Err? ==> r.error == StructError
  {
    var dataOffset :- RdUlonglong(dev, sbOff, 0x80);
    var dataSize :- RdUlonglong(dev, sbOff, 0x88);
    var superOffset :- RdUlonglong(dev, sbOff, 0x90);
    var recoveryOffset :- RdUlonglong(dev, sbOff, 0x98);
    var devNumber :- RdUlong(dev, sbOff, 0xa0);
    var cntCorrectedRead :- RdUlong(dev, sbOff, 0xa4);
    var deviceUuid := Pread(dev, 16, sbOff + 0xa8).value;
    var devflags :- RdLongbits(dev, sbOff, 0xb8, DEVFLAG_NAMES);
    return Ok(DeviceInfo(dataOffset, dataSize, superOffset, recoveryOffset, devNumber,
                         cntCorrectedRead, deviceUuid, devflags));
  }

  /** The role loop: `min(raid_disks, 128)` little-endian words. */
  method ReadRoles(dev: seq<byte>, sbOff: nat, raidDisks: nat) returns (r: Result<seq<nat>, InspectError>)
    ensures var n := RoleCount(raidDisks);
            (r.Ok? <==> n == 0 || sbOff + 0x100 + 2 * n <= |dev|) &&
            (r.Ok? ==> r.value == RolesAt(dev, sbOff, n))
    ensures r.Err? ==> r.error == StructError
  {
    var n := RoleCount(raidDisks);
    var roles: seq<nat> := [];
    for i := 0 to n
      invariant |roles| == i
      invariant i > 0 ==> sbOff + 0x100 + 2 * i <= |dev|
      invariant forall j :: 0 <= j < i ==> roles[j] == U16At(dev, sbOff + 0x100 + 2 * j)
    {
      var role :- RdUshort(dev, sbOff, 0x100 + 2 * i);
      roles := roles + [role];
    }
    return Ok(roles);
  }

  /** The reads of the array state, the role words last. */
  method ReadArrayState(dev: seq<byte>, sbOff: nat, raidDisks: nat) returns (r: Result<ArrayState, InspectError>)
    ensures var n := RoleCount(raidDisks);
            (r.Ok? <==> sbOff + 0xe0 <= |dev| && (n == 0 || sbOff + 0x100 + 2 * n <= |dev|)) &&
            (r.Ok? ==> r.value == ArrayStateAt(dev, sbOff, n))
    ensures r.Err? ==> r.error == StructError
  {
    var utime :- RdUlonglong(dev, sbOff, 0xc0);
    var events :- RdUlonglong(dev, sbOff, 0xc8);
    var resyncOffset :- RdUlonglong(dev, sbOff, 0xd0);
    var csum :- RdUlong(dev, sbOff, 0xd8);
    var maxDev :- RdUlong(dev, sbOff, 0xdc);
    var roles :- ReadRoles(dev, sbOff, raidDisks);
    return Ok(ArrayState(utime, events, resyncOffset, csum, maxDev, roles));
  }

  /** `MDBlkDev.__init__`: find the superblock, then read every field. */
  method Open(dev: seq<byte>, gap: nat) returns (r: Result<Superblock, InspectError>)
    ensures Locate(dev, gap).Err? ==> r == Err(Locate(dev, gap).error)
    ensures Locate(dev, gap).Ok? ==>
              var (off, ver) := Locate(dev, gap).value;
              off >= 0 &&
              (r.Ok? <==> Fits(dev, off)) &&
              (r.Ok? ==> r.value == SuperblockAt(dev, off, ver)) &&
              (r.Err? ==> r.error == StructError)
  {
    var location :- FindSuperblock(dev, gap);
    var (sbOff, sbVer) := location;
    var info :- ReadArrayInfo(dev, sbOff);
    var device :- ReadDeviceInfo(dev, sbOff);
    var state :- ReadArrayState(dev, sbOff, info.raidDisks);
    return Ok(Superblock(sbOff, sbVer, info, device, state));
  }

  // ---------------------------------------------------------------------
  // Dumping the data region

  /** `read_data`: `count` bytes at `pos` within the data region, which
      starts `data_offset` sectors into the device. */
  function ReadData(dev: seq<byte>, sb: Superblock, pos: int, count: int): (r: Result<seq<byte>, InspectError>)
    ensures r.Err? <==> count < 0 || sb.deviceInfo.dataOffset * SECTOR_SIZE + pos < 0
    ensures r.Err? ==> r.error == OSError(EINVAL)
    ensures var off := sb.deviceInfo.dataOffset * SECTOR_SIZE + pos;
      0 <= count && 0 <= off && off + count <= |dev| ==> r == Ok(dev[off..off + count])
  {
    var off := sb.deviceInfo.dataOffset * SECTOR_SIZE + pos;
    var r := Pread(dev, count, off);
    assert 0 <= count && 0 <= off && off + count <= |dev| ==> r == Ok(dev[off..off + count]) by {
      if 0 <= count && 0 <= off && off + count <= |dev| {
        assert |r.value| == count;
        if count == 0 {
          assert r.value == [] == dev[off..off];
        }
      }
    }
    r
  }

  /** The number of bytes the dump asks for: `--length` when non-zero,
      otherwise the whole data region, and never past its end. */
  function DumpTotal(sb: Superblock, start: int, length: int): int
  {
    var want := if length != 0 then length else sb.deviceInfo.dataSize * SECTOR_SIZE;
    Min(want, sb.deviceInfo.dataSize * SECTOR_SIZE - start)
  }

  function Flatten(chunks: seq<seq<byte>>): seq<byte>
  {
    if chunks == [] then [] else Flatten(chunks[..|chunks| - 1]) + chunks[|chunks| - 1]
  }

  /** One more chunk read just past the bytes dumped so far extends them. */
  lemma {:induction false} DumpStep(dev: seq<byte>, chunks: seq<seq<byte>>, abs: nat, done: nat, data: seq<byte>)
    requires abs + done + |data| <= |dev|
    requires Flatten(chunks) == dev[abs..abs + done]
    requires data == dev[abs + done..abs + done + |data|]
    ensures Flatten(chunks + [data]) == dev[abs..abs + done + |data|]
  {
    assert (chunks + [data])[..|chunks|] == chunks;
  }

  /** How the dump ends: every requested byte written; an empty read at the
      end of the device, where the tool keeps reading nothing forever; or
      an `os.pread` error. */
  datatype DumpOutcome =
    | Dumped(chunks: seq<seq<byte>>)
    | Stalled(chunks: seq<seq<byte>>)
    | DumpFailed(error: InspectError)

  /** What the dump of `total` bytes from absolute offset `abs` writes:
      nothing for a zero total; EINVAL for a negative total or offset; the
      device bytes `abs .. abs + total` when they exist; otherwise every
      byte from `abs` to the end, after which the reads come back empty.
      Every chunk written holds 1 byte to 1 MiB. */
  predicate DumpWrites(dev: seq<byte>, sb: Superblock, start: int, length: int, outcome: DumpOutcome)
  {
    var total, abs := DumpTotal(sb, start, length), sb.deviceInfo.dataOffset * SECTOR_SIZE + start;
    && (total == 0 ==> outcome == Dumped([]))
    && (total < 0 ==> outcome == DumpFailed(OSError(EINVAL)))
    && (total > 0 && abs < 0 ==> outcome == DumpFailed(OSError(EINVAL)))
    && (total > 0 && abs >= 0 && abs + total <= |dev| ==>
          outcome.Dumped? && Flatten(outcome.chunks) == dev[abs..abs + total])
    && (total > 0 && abs >= 0 && abs + total > |dev| ==>
          outcome.Stalled? && Flatten(outcome.chunks) == dev[Min(abs, |dev|)..])
    && (!outcome.DumpFailed? ==> forall k :: 0 <= k < |outcome.chunks| ==> 1 <= |outcome.chunks[k]| <= DUMP_CHUNK)
  }

  /** The `--data` loop of the tool: chunks of at most 1 MiB from `start`
      until the total is written. */
  method DumpData(dev: seq<byte>, sb: Superblock, start: int, length: int) returns (outcome: DumpOutcome)
    ensures DumpWrites(dev, sb, start, length, outcome)
  {
    var total := DumpTotal(sb, start, length);
    var abs := sb.deviceInfo.dataOffset * SECTOR_SIZE + start;
    var dataPos := start;
    var dataLen := total;
    var chunks: seq<seq<byte>> := [];
    while dataLen != 0
      invariant dataPos + dataLen == start + total
      invariant dataPos >= start
      invariant dataLen < 0 ==> dataPos == start
      invariant dataPos == start ==> chunks == []
      invariant dataPos > start ==> abs >= 0 && abs + (dataPos - start) <= |dev| && dataLen >= 0
      invariant abs >= 0 && abs + (dataPos - start) <= |dev| ==> Flatten(chunks) == dev[abs..abs + (dataPos - start)]
      invariant forall k :: 0 <= k < |chunks| ==> 1 <= |chunks[k]| <= DUMP_CHUNK
      decreases dataLen
    {
      var read := ReadData(dev, sb, dataPos, Min(DUMP_CHUNK, dataLen));
      if read.Err? {
        return DumpFailed(read.error);
      }
      var data := read.value;
      if data == [] {
        return Stalled(chunks);
      }
      DumpStep(dev, chunks, abs, dataPos - start, data);
      chunks := chunks + [data];
      dataLen := dataLen - |data|;
      dataPos := dataPos + |data|;
    }
    return Dumped(chunks);
  }

  // ---------------------------------------------------------------------
  // The tool

  datatype ToolOutput = Report(sb: Superblock) | Dump(sb: Superblock, outcome: DumpOutcome)

  /** The main block: open the device, then either dump the data region
      or report the superblock. The main block as written looks for a v1.0
      superblock `SZ_8K` (32 KiB) before the aligned end; `V1_0_GAP`
      (8 KiB) is where the kernel writes it. */
  method Inspect(dev: seq<byte>, gap: nat, data: bool, start: int, length: int) returns (r: Result<ToolOutput, InspectError>)
    ensures Locate(dev, gap).Err? ==> r == Err(Locate(dev, gap).error)
    ensures Locate(dev, gap).Ok? ==>
              var (off, ver) := Locate(dev, gap).value;
              off >= 0 &&
              (r.Ok? <==> Fits(dev, off)) &&
              (r.Ok? ==> r.value.sb == SuperblockAt(dev, off, ver)) &&
              (r.Err? ==> r.error == StructError)
    ensures r.Ok? ==> (r.value.Dump? <==> data)
    ensures r.Ok? && data ==> DumpWrites(dev, r.value.sb, start, length, r.value.outcome)
  {
    var sb :- Open(dev, gap);
    if data {
      var outcome := DumpData(dev, sb, start, length);
      return Ok(Dump(sb, outcome));
    }
    return Ok(Report(sb));
  }
}
