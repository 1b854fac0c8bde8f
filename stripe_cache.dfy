// The stripe-cache inspection engine of the RAID4/5/6 debugging helpers
// (debug/md.py): resolving a named block device to its RAID configuration,
// enumerating the hashed stripes, classifying each stripe's LRU-list
// membership, decoding the stripe-state and per-disk flag words, and the
// parity-role labels of a stripe's disk slots.
//
// Kernel memory is an arena of plain values: a stripe is identified by its
// address, a hash chain is the sequence of stripe heads it links, an LRU list
// is the sequence of the addresses it links, and a stripe's own LRU link is
// reduced to the one fact the tool reads from it, whether it is empty.

module StripeCache {
  import opened Common

  type Addr = nat

  /** Major number of md block devices. */
  const MD_MAJOR: int := 9
  /** The hash table occupies one page. */
  const PAGE_SIZE: nat := 4096
  /** Number of independently locked inactive-list shards. */
  const NR_STRIPE_HASH_LOCKS: nat := 8

  /** One disk slot of a stripe (`struct r5dev`): its sector and flag word. */
  datatype R5Dev = R5Dev(sector: int, flags: nat)

  /** A cached stripe (`struct stripe_head`). */
  datatype StripeHead = StripeHead(
    addr: Addr,
    sector: int,
    state: nat,
    lruEmpty: bool,       // list_empty(&sh->lru)
    disks: nat,
    pdIdx: int,
    qdIdx: int,
    dev: seq<R5Dev>)

  /** The RAID4/5/6 private configuration (`struct r5conf`). */
  datatype R5Conf = R5Conf(
    hashTable: seq<seq<StripeHead>>,   // stripe_hashtbl: one chain per bucket
    inactive: seq<seq<Addr>>,          // inactive_list[NR_STRIPE_HASH_LOCKS]
    handle: seq<Addr>,
    loprio: seq<Addr>,
    hold: seq<Addr>,
    delayed: seq<Addr>,
    bitmap: seq<Addr>,
    activeStripes: int,
    maxStripes: int,
    reshapeStripes: int,
    quiesce: int)

  /** An md array (`struct mddev`): its disk name, level and private data. */
  datatype MdDev = MdDev(diskName: string, level: int, recoveryActive: int, conf: R5Conf)

  /** A registered block device (`struct gendisk`); `privateData` is what its
      private pointer leads to when the disk is an md device. */
  datatype Gendisk = Gendisk(name: string, major: int, privateData: MdDev)

  // ---------------------------------------------------------------------
  // Device resolution

  /** The text of an `MDException`: prefixed with the array's disk name when
      the exception is raised about an mddev. */
  function MdExceptionMessage(msg: string, mddev: Option<MdDev>): (r: string)
    ensures mddev.None? ==> r == msg
    ensures mddev.Some? ==> r == mddev.value.diskName + ": " + msg
  {
    match mddev
    case None => msg
    case Some(m) => m.diskName + ": " + msg
  }

  /** The first registered disk with the given name. */
  function FindDisk(disks: seq<Gendisk>, name: string): (r: Option<nat>)
    ensures r.None? <==> forall i :: 0 <= i < |disks| ==> disks[i].name != name
    ensures r.Some? ==> r.value < |disks| && disks[r.value].name == name &&
                        forall j :: 0 <= j < r.value ==> disks[j].name != name
  {
    if disks == [] then None
    else if disks[0].name == name then Some(0)
    else
      match FindDisk(disks[1..], name)
      case None => None
      case Some(i) => Some(i + 1)
  }

  function DoesNotExist(name: string): string { name + " doesn't exist" }

  function NotAnMdDevice(name: string): string { name + " is not an md device" }

  /** `find_mddev`: the mddev behind the named disk, or the exception text. */
  function FindMddev(disks: seq<Gendisk>, name: string): (r: Result<MdDev, string>)
    ensures r == Err(DoesNotExist(name)) <==> forall i :: 0 <= i < |disks| ==> disks[i].name != name
    ensures r == Err(NotAnMdDevice(name)) <==>
              exists i :: 0 <= i < |disks| && disks[i].name == name && disks[i].major != MD_MAJOR &&
                          forall j :: 0 <= j < i ==> disks[j].name != name
    ensures r.Ok? ==>
              exists i :: 0 <= i < |disks| && disks[i].name == name && disks[i].major == MD_MAJOR &&
                          r.value == disks[i].privateData && forall j :: 0 <= j < i ==> disks[j].name != name
    ensures (exists i :: 0 <= i < |disks| && disks[i].name == name && disks[i].major == MD_MAJOR &&
                         forall j :: 0 <= j < i ==> disks[j].name != name) ==> r.Ok?
  {
    assert |DoesNotExist(name)| != |NotAnMdDevice(name)|;
    match FindDisk(disks, name)
    case None => Err(DoesNotExist(name))
    case Some(i) =>
      if disks[i].major != MD_MAJOR then Err(NotAnMdDevice(name)) else Ok(disks[i].privateData)
  }

  predicate IsRaid456(level: int) { level == 4 || level == 5 || level == 6 }

  /** `get_raid5_conf`: the r5conf of a RAID4/5/6 array; any other level
      raises an `MDException` about the mddev. */
  function GetRaid5Conf(mddev: MdDev): (r: Result<R5Conf, string>)
    ensures r.Ok? <==> IsRaid456(mddev.level)
    ensures r.Ok? ==> r.value == mddev.conf
    ensures r.Err? ==> r.error == mddev.diskName + ": not a raid5 device"
  {
    if !IsRaid456(mddev.level) then Err(MdExceptionMessage("not a raid5 device", Some(mddev)))
    else Ok(mddev.conf)
  }

  // ---------------------------------------------------------------------
  // Enumeration of the hashed stripes

  /** Number of hash buckets: one page divided by the size of one chain head. */
  function NrHash(linkSize: nat): nat
    requires linkSize > 0
  {
    PAGE_SIZE / linkSize
  }

  /** The chains, bucket after bucket. */
  function Concat(chains: seq<seq<StripeHead>>): seq<StripeHead>
  {
    if chains == [] then [] else Concat(chains[..|chains| - 1]) + chains[|chains| - 1]
  }

  /** Total length of the chains. */
  function ChainsLength(chains: seq<seq<StripeHead>>): nat
  {
    if chains == [] then 0 else ChainsLength(chains[..|chains| - 1]) + |chains[|chains| - 1]|
  }

  /** `find_hashed_stripes`: every stripe of every bucket, visiting the
      buckets `0 .. NrHash - 1` in order and each chain in link order. */
  method FindHashedStripes(conf: R5Conf, linkSize: nat) returns (stripes: seq<StripeHead>)
    requires linkSize > 0 && NrHash(linkSize) <= |conf.hashTable|
    ensures stripes == Concat(conf.hashTable[..NrHash(linkSize)])
  {
    var nrHash := PAGE_SIZE / linkSize;
    stripes := [];
    for i := 0 to nrHash
      invariant stripes == Concat(conf.hashTable[..i])
    {
      var chain := conf.hashTable[i];
      for j := 0 to |chain|
        invariant stripes == Concat(conf.hashTable[..i]) + chain[..j]
      {
        stripes := stripes + [chain[j]];
        assert chain[..j + 1] == chain[..j] + [chain[j]];
      }
      assert chain[..|chain|] == chain;
      assert conf.hashTable[..i + 1][..i] == conf.hashTable[..i];
    }
  }

  /** The enumeration holds as many stripes as the chains together. */
  lemma {:induction false} ConcatLength(chains: seq<seq<StripeHead>>)
    ensures |Concat(chains)| == ChainsLength(chains)
  {
    if chains != [] {
      ConcatLength(chains[..|chains| - 1]);
    }
  }

  /** Position `j` of bucket `b` comes right after everything of buckets
      `0 .. b - 1`: the enumeration is in bucket order, then chain order. */
  lemma {:induction false} ConcatAt(chains: seq<seq<StripeHead>>, b: nat, j: nat)
    requires b < |chains| && j < |chains[b]|
    ensures ChainsLength(chains[..b]) + j < |Concat(chains)|
    ensures Concat(chains)[ChainsLength(chains[..b]) + j] == chains[b][j]
  {
    var n := |chains|;
    var init := chains[..n - 1];
    ConcatLength(init);
    ConcatLength(chains[..b]);
    if b == n - 1 {
      assert chains[..b] == init;
    } else {
      assert init[..b] == chains[..b];
      ConcatAt(init, b, j);
    }
  }

  // ---------------------------------------------------------------------
  // LRU-list membership

  /** `stripe_in_list`: a walk of one list comparing stripe identities. */
  method StripeInList(list: seq<Addr>, stripe: StripeHead) returns (found: bool)
    ensures found <==> stripe.addr in list
  {
    for i := 0 to |list|
      invariant stripe.addr !in list[..i]
    {
      if list[i] == stripe.addr {
        return true;
      }
    }
    return false;
  }

  predicate InInactiveShards(conf: R5Conf, a: Addr)
    requires |conf.inactive| >= NR_STRIPE_HASH_LOCKS
  {
    exists i :: 0 <= i < NR_STRIPE_HASH_LOCKS && a in conf.inactive[i]
  }

  /** `stripe_in_inactive_list`: the shards are searched in index order. */
  method StripeInInactiveList(conf: R5Conf, stripe: StripeHead) returns (found: bool)
    requires |conf.inactive| >= NR_STRIPE_HASH_LOCKS
    ensures found <==> InInactiveShards(conf, stripe.addr)
  {
    for i := 0 to NR_STRIPE_HASH_LOCKS
      invariant forall k :: 0 <= k < i ==> stripe.addr !in conf.inactive[k]
    {
      found := StripeInList(conf.inactive[i], stripe);
      if found {
        return;
      }
    }
    found := false;
  }

  /** The named lists after the inactive shards, in the order they are tried. */
  function NamedLists(conf: R5Conf): seq<(string, seq<Addr>)>
  {
    [("handle_list", conf.handle), ("loprio_list", conf.loprio), ("hold_list", conf.hold),
     ("delayed_list", conf.delayed), ("bitmap_list", conf.bitmap)]
  }

  /** The name of the first list that contains `a`. */
  function FirstContaining(lists: seq<(string, seq<Addr>)>, a: Addr): (r: Option<string>)
    ensures r.None? <==> forall j :: 0 <= j < |lists| ==> a !in lists[j].1
    ensures r.Some? ==> exists k :: 0 <= k < |lists| && lists[k].0 == r.value && a in lists[k].1 &&
                                    forall j :: 0 <= j < k ==> a !in lists[j].1
  {
    if lists == [] then None
    else if a in lists[0].1 then Some(lists[0].0)
    else
      var r := FirstContaining(lists[1..], a);
      assert forall j :: 0 < j < |lists| ==> lists[1..][j - 1] == lists[j];
      if r.Some? then
        var k :| 0 <= k < |lists[1..]| && lists[1..][k].0 == r.value && a in lists[1..][k].1 &&
                 forall j :: 0 <= j < k ==> a !in lists[1..][j].1;
        assert lists[k + 1].0 == r.value && a in lists[k + 1].1;
        r
      else r
  }

  /** First match wins: the earliest list holding `a` is the one found. */
  lemma {:induction false} FirstContainingIsFirst(lists: seq<(string, seq<Addr>)>, a: Addr, k: nat)
    requires k < |lists| && a in lists[k].1 && forall j :: 0 <= j < k ==> a !in lists[j].1
    ensures FirstContaining(lists, a) == Some(lists[k].0)
  {
    if k > 0 {
      assert forall j :: 0 < j < |lists| ==> lists[1..][j - 1] == lists[j];
      FirstContainingIsFirst(lists[1..], a, k - 1);
    }
  }

  /** Every name `find_stripe_lru_list` can return. */
  const LRU_LIST_NAMES: set<string> :=
    {"none", "inactive", "handle_list", "loprio_list", "hold_list", "delayed_list", "bitmap_list", "unknown"}

  /** The classification `find_stripe_lru_list` computes. */
  function LruListOf(conf: R5Conf, stripe: StripeHead): (r: string)
    requires |conf.inactive| >= NR_STRIPE_HASH_LOCKS
    ensures r in LRU_LIST_NAMES
  {
    if stripe.lruEmpty then "none"
    else if InInactiveShards(conf, stripe.addr) then "inactive"
    else
      match FirstContaining(NamedLists(conf), stripe.addr)
      case Some(name) => name
      case None => "unknown"
  }

  /** The precedence of the classifier, list by list: a stripe is put on the
      first list of `none, inactive, handle, loprio, hold, delayed, bitmap`
      whose test it passes, and is "unknown" when it passes none. */
  lemma ClassifierPrecedence(conf: R5Conf, s: StripeHead)
    requires |conf.inactive| >= NR_STRIPE_HASH_LOCKS
    ensures (LruListOf(conf, s) == "none") <==> s.lruEmpty
    ensures (LruListOf(conf, s) == "inactive") <==> !s.lruEmpty && InInactiveShards(conf, s.addr)
    ensures (LruListOf(conf, s) == "handle_list") <==>
              !s.lruEmpty && !InInactiveShards(conf, s.addr) && s.addr in conf.handle
    ensures (LruListOf(conf, s) == "loprio_list") <==>
              !s.lruEmpty && !InInactiveShards(conf, s.addr) && s.addr !in conf.handle && s.addr in conf.loprio
    ensures (LruListOf(conf, s) == "hold_list") <==>
              !s.lruEmpty && !InInactiveShards(conf, s.addr) && s.addr !in conf.handle &&
              s.addr !in conf.loprio && s.addr in conf.hold
    ensures (LruListOf(conf, s) == "delayed_list") <==>
              !s.lruEmpty && !InInactiveShards(conf, s.addr) && s.addr !in conf.handle &&
              s.addr !in conf.loprio && s.addr !in conf.hold && s.addr in conf.delayed
    ensures (LruListOf(conf, s) == "bitmap_list") <==>
              !s.lruEmpty && !InInactiveShards(conf, s.addr) && s.addr !in conf.handle &&
              s.addr !in conf.loprio && s.addr !in conf.hold && s.addr !in conf.delayed && s.addr in conf.bitmap
    ensures (LruListOf(conf, s) == "unknown") <==>
              !s.lruEmpty && !InInactiveShards(conf, s.addr) && s.addr !in conf.handle &&
              s.addr !in conf.loprio && s.addr !in conf.hold && s.addr !in conf.delayed && s.addr !in conf.bitmap
  {
    var lists := NamedLists(conf);
    var a := s.addr;
    var names := ["handle_list", "loprio_list", "hold_list", "delayed_list", "bitmap_list"];
    assert forall k :: 0 <= k < 5 ==> lists[k].0 == names[k];
    assert names[0][0] != names[1][0] && names[0][0] != names[4][0] && names[1][0] != names[4][0];
    assert lists[0].1 == conf.handle && lists[1].1 == conf.loprio && lists[2].1 == conf.hold;
    assert lists[3].1 == conf.delayed && lists[4].1 == conf.bitmap;
    if !s.lruEmpty && !InInactiveShards(conf, a) {
      var r := FirstContaining(lists, a);
      if r.Some? {
        var k :| 0 <= k < 5 && lists[k].0 == r.value && a in lists[k].1 &&
                 forall j :: 0 <= j < k ==> a !in lists[j].1;
        assert k == 0 || k == 1 || k == 2 || k == 3 || k == 4;
      }
    }
  }

  /** `find_stripe_lru_list`. */
  method FindStripeLruList(conf: R5Conf, stripe: StripeHead) returns (name: string)
    requires |conf.inactive| >= NR_STRIPE_HASH_LOCKS
    ensures name == LruListOf(conf, stripe)
    ensures stripe.lruEmpty ==> name == "none"
  {
    if stripe.lruEmpty {
      return "none";
    }
    var inInactive := StripeInInactiveList(conf, stripe);
    if inInactive {
      return "inactive";
    }
    var lists := NamedLists(conf);
    for k := 0 to |lists|
      invariant FirstContaining(lists, stripe.addr) == FirstContaining(lists[k..], stripe.addr)
    {
      var found := StripeInList(lists[k].1, stripe);
      if found {
        return lists[k].0;
      }
      assert lists[k..][1..] == lists[k + 1..];
    }
    return "unknown";
  }

  // ---------------------------------------------------------------------
  // Flag decoding

  /** `Raid5StripeState`: the stripe-state bits, named in bit order 0 .. 27. */
  const STRIPE_STATE_NAMES: seq<string> := [
    "STRIPE_ACTIVE", "STRIPE_HANDLE", "STRIPE_SYNC_REQUESTED", "STRIPE_SYNCING",
    "STRIPE_INSYNC", "STRIPE_REPLACED", "STRIPE_PREREAD_ACTIVE", "STRIPE_DELAYED",
    "STRIPE_DEGRADED", "STRIPE_BIT_DELAY", "STRIPE_EXPANDING", "STRIPE_EXPAND_SOURCE",
    "STRIPE_EXPAND_READY", "STRIPE_IO_STARTED", "STRIPE_FULL_WRITE", "STRIPE_BIOFILL_RUN",
    "STRIPE_COMPUTE_RUN", "STRIPE_ON_UNPLUG_LIST", "STRIPE_DISCARD", "STRIPE_ON_RELEASE_LIST",
    "STRIPE_BATCH_READY", "STRIPE_BATCH_ERR", "STRIPE_BITMAP_PENDING", "STRIPE_LOG_TRAPPED",
    "STRIPE_R5C_CACHING", "STRIPE_R5C_PARTIAL_STRIPE", "STRIPE_R5C_FULL_STRIPE", "STRIPE_R5C_PREFLUSH"]

  /** `Raid5DevFlags`: the per-disk flag bits, named in bit order 0 .. 26. */
  const DEV_FLAG_NAMES: seq<string> := [
    "R5_UPTODATE", "R5_LOCKED", "R5_DOUBLE_LOCKED", "R5_OVERWRITE", "R5_Insync",
    "R5_Wantread", "R5_Wantwrite", "R5_Overlap", "R5_ReadNoMerge", "R5_ReadError",
    "R5_ReWrite", "R5_Expanded", "R5_Wantcompute", "R5_Wantfill", "R5_Wantdrain",
    "R5_WantFUA", "R5_SyncIO", "R5_WriteError", "R5_MadeGood", "R5_ReadRepl",
    "R5_MadeGoodRepl", "R5_NeedReplace", "R5_WantReplace", "R5_Discard", "R5_SkipCopy",
    "R5_InJournal", "R5_OrigPageUPTDODATE"]

  /** An enum member: its bit number and its name. */
  datatype Flag = Flag(bit: nat, name: string)

  /** The bits below `n` that are set in `mask`, in ascending order. */
  function SetBits(mask: nat, n: nat): (r: seq<nat>)
    ensures forall k :: 0 <= k < |r| ==> r[k] < n && BitSet(mask, r[k])
    ensures forall i :: 0 <= i < n && BitSet(mask, i) ==> i in r
    ensures forall j, k :: 0 <= j < k < |r| ==> r[j] < r[k]
  {
    if n == 0 then [] else SetBits(mask, n - 1) + (if BitSet(mask, n - 1) then [n - 1] else [])
  }

  /** Re-encoding: the sum (equally, the OR) of `1 << b` over distinct bits. */
  function Encode(bits: seq<nat>): nat
  {
    if bits == [] then 0 else Encode(bits[..|bits| - 1]) + Pow2(bits[|bits| - 1])
  }

  /** Re-encoding the decoded bits gives back the mask cut to the table. */
  lemma {:induction false} EncodeSetBits(mask: nat, n: nat)
    ensures Encode(SetBits(mask, n)) == mask % Pow2(n)
  {
    if n > 0 {
      var prev := SetBits(mask, n - 1);
      EncodeSetBits(mask, n - 1);
      ModPow2Step(mask, n - 1);
      if BitSet(mask, n - 1) {
        assert SetBits(mask, n) == prev + [n - 1];
        assert (prev + [n - 1])[..|prev|] == prev;
      } else {
        assert SetBits(mask, n) == prev;
      }
    }
  }

  /** Bits at or above the table's length are ignored. */
  lemma {:induction false} SetBitsIgnoresHighBits(mask: nat, n: nat)
    ensures SetBits(mask, n) == SetBits(mask % Pow2(n), n)
  {
    forall i | 0 <= i < n
      ensures BitSet(mask % Pow2(n), i) == BitSet(mask, i)
    {
      BitOfLowBits(mask, n, i);
    }
    SetBitsAgree(mask, mask % Pow2(n), n);
  }

  lemma {:induction false} SetBitsAgree(m1: nat, m2: nat, n: nat)
    requires forall i :: 0 <= i < n ==> BitSet(m1, i) == BitSet(m2, i)
    ensures SetBits(m1, n) == SetBits(m2, n)
  {
    if n > 0 {
      SetBitsAgree(m1, m2, n - 1);
    }
  }

  /** The enum members for the given bits, each named by its table entry. */
  function FlagsOf(bits: seq<nat>, table: seq<string>): (r: seq<Flag>)
    requires forall k :: 0 <= k < |bits| ==> bits[k] < |table|
    ensures |r| == |bits|
    ensures forall k :: 0 <= k < |r| ==> r[k] == Flag(bits[k], table[bits[k]])
  {
    seq(|bits|, k requires 0 <= k < |bits| => Flag(bits[k], table[bits[k]]))
  }

  lemma FlagsOfSnoc(bits: seq<nat>, v: nat, table: seq<string>)
    requires forall k :: 0 <= k < |bits| ==> bits[k] < |table|
    requires v < |table|
    ensures FlagsOf(bits + [v], table) == FlagsOf(bits, table) + [Flag(v, table[v])]
  {
    assert forall k :: 0 <= k < |bits| ==> (bits + [v])[k] == bits[k];
  }

  lemma SetBitsSnoc(mask: nat, v: nat)
    ensures SetBits(mask, v + 1) == SetBits(mask, v) + (if BitSet(mask, v) then [v] else [])
  {
  }

  /** The table-driven decoder shared by `stripe_states` and
      `stripe_rdev_flags`: the members whose bit is set, in table order. */
  method DecodeFlags(mask: nat, table: seq<string>) returns (flags: seq<Flag>)
    ensures flags == FlagsOf(SetBits(mask, |table|), table)
    ensures |flags| == |SetBits(mask, |table|)|
    ensures forall k :: 0 <= k < |flags| ==>
              flags[k].bit == SetBits(mask, |table|)[k] && flags[k].name == table[flags[k].bit]
  {
    flags := [];
    for v := 0 to |table|
      invariant flags == FlagsOf(SetBits(mask, v), table)
    {
      SetBitsSnoc(mask, v);
      if BitSet(mask, v) {
        FlagsOfSnoc(SetBits(mask, v), v, table);
        flags := flags + [Flag(v, table[v])];
      }
    }
  }

  function Bits(flags: seq<Flag>): seq<nat>
  {
    seq(|flags|, k requires 0 <= k < |flags| => flags[k].bit)
  }

  /** `stripe_states`: the stripe-state members set in `state`, ascending,
      each named by its table entry; re-encoding gives `state & (2^28 - 1)`. */
  method StripeStates(state: nat) returns (flags: seq<Flag>)
    ensures flags == FlagsOf(SetBits(state, 28), STRIPE_STATE_NAMES)
    ensures forall j, k :: 0 <= j < k < |flags| ==> flags[j].bit < flags[k].bit
    ensures forall k :: 0 <= k < |flags| ==>
              flags[k].bit < 28 && BitSet(state, flags[k].bit) && flags[k].name == STRIPE_STATE_NAMES[flags[k].bit]
    ensures forall i :: 0 <= i < 28 && BitSet(state, i) ==> exists k :: 0 <= k < |flags| && flags[k].bit == i
    ensures Encode(Bits(flags)) == state % Pow2(28)
  {
    flags := DecodeFlags(state, STRIPE_STATE_NAMES);
    assert Bits(flags) == SetBits(state, 28);
    EncodeSetBits(state, 28);
    forall i | 0 <= i < 28 && BitSet(state, i)
      ensures exists k :: 0 <= k < |flags| && flags[k].bit == i
    {
      var k :| 0 <= k < |SetBits(state, 28)| && SetBits(state, 28)[k] == i;
      assert flags[k].bit == i;
    }
  }

  /** `stripe_rdev_flags`: the same decoding with the 27-entry disk table;
      re-encoding gives `flags & (2^27 - 1)`. */
  method StripeRdevFlags(flg: nat) returns (flags: seq<Flag>)
    ensures flags == FlagsOf(SetBits(flg, 27), DEV_FLAG_NAMES)
    ensures forall j, k :: 0 <= j < k < |flags| ==> flags[j].bit < flags[k].bit
    ensures forall k :: 0 <= k < |flags| ==>
              flags[k].bit < 27 && BitSet(flg, flags[k].bit) && flags[k].name == DEV_FLAG_NAMES[flags[k].bit]
    ensures forall i :: 0 <= i < 27 && BitSet(flg, i) ==> exists k :: 0 <= k < |flags| && flags[k].bit == i
    ensures Encode(Bits(flags)) == flg % Pow2(27)
  {
    flags := DecodeFlags(flg, DEV_FLAG_NAMES);
    assert Bits(flags) == SetBits(flg, 27);
    EncodeSetBits(flg, 27);
    forall i | 0 <= i < 27 && BitSet(flg, i)
      ensures exists k :: 0 <= k < |flags| && flags[k].bit == i
    {
      var k :| 0 <= k < |SetBits(flg, 27)| && SetBits(flg, 27)[k] == i;
      assert flags[k].bit == i;
    }
  }

  // ---------------------------------------------------------------------
  // Stripe detail

  /** The role of a disk slot: parity, second parity, or data. */
  datatype Role = P | Q | D

  function DiskRole(i: int, pdIdx: int, qdIdx: int): Role
  {
    if i == pdIdx then P else if i == qdIdx then Q else D
  }

  /** How many of the slots `0 .. n - 1` carry the role. */
  function CountRole(n: nat, pdIdx: int, qdIdx: int, role: Role): nat
  {
    if n == 0 then 0
    else CountRole(n - 1, pdIdx, qdIdx, role) + (if DiskRole(n - 1, pdIdx, qdIdx) == role then 1 else 0)
  }

  /** Exactly one slot is P when `pd_idx` is a slot; exactly one is Q when
      `qd_idx` is a slot other than `pd_idx` (P wins a tie); the rest are D. */
  lemma {:induction false} RoleCounts(n: nat, pdIdx: int, qdIdx: int)
    ensures CountRole(n, pdIdx, qdIdx, P) == (if 0 <= pdIdx < n then 1 else 0)
    ensures CountRole(n, pdIdx, qdIdx, Q) == (if 0 <= qdIdx < n && qdIdx != pdIdx then 1 else 0)
    ensures CountRole(n, pdIdx, qdIdx, P) + CountRole(n, pdIdx, qdIdx, Q) + CountRole(n, pdIdx, qdIdx, D) == n
  {
    if n > 0 {
      RoleCounts(n - 1, pdIdx, qdIdx);
    }
  }

  /** What `print_stripe_info` shows about one disk slot. */
  datatype DiskReport = DiskReport(index: nat, role: Role, sector: int, flags: nat, decoded: seq<Flag>)

  /** What `print_stripe_info` shows about a stripe. */
  datatype StripeReport = StripeReport(
    addr: Addr, sector: int, state: nat, states: seq<Flag>, lruList: string, disks: seq<DiskReport>)

  /** What `print_stripe_info` shows about disk slot `i` of a stripe. */
  function DiskReportOf(stripe: StripeHead, i: nat): DiskReport
    requires i < |stripe.dev|
  {
    var flg := stripe.dev[i].flags;
    DiskReport(i, DiskRole(i, stripe.pdIdx, stripe.qdIdx), stripe.dev[i].sector, flg,
               FlagsOf(SetBits(flg, 27), DEV_FLAG_NAMES))
  }

  /** What `print_stripe_info` shows about a stripe. */
  function StripeReportOf(conf: R5Conf, stripe: StripeHead): StripeReport
    requires |conf.inactive| >= NR_STRIPE_HASH_LOCKS && stripe.disks <= |stripe.dev|
  {
    StripeReport(stripe.addr, stripe.sector, stripe.state,
                 FlagsOf(SetBits(stripe.state, 28), STRIPE_STATE_NAMES),
                 LruListOf(conf, stripe),
                 seq(stripe.disks, i requires 0 <= i < stripe.disks => DiskReportOf(stripe, i)))
  }

  /** The report shows the stripe as it is: its own fields, its states
      decoded through the 28-entry table (re-encoding to `state` cut to 28
      bits), its LRU label, and one entry per disk slot with the slot's
      role, sector and flags decoded through the 27-entry table. */
  lemma {:induction false} StripeReportOfSpec(conf: R5Conf, stripe: StripeHead)
    requires |conf.inactive| >= NR_STRIPE_HASH_LOCKS && stripe.disks <= |stripe.dev|
    ensures var info := StripeReportOf(conf, stripe);
            && info.addr == stripe.addr && info.sector == stripe.sector && info.state == stripe.state
            && info.states == FlagsOf(SetBits(stripe.state, 28), STRIPE_STATE_NAMES)
            && Encode(Bits(info.states)) == stripe.state % Pow2(28)
            && info.lruList == LruListOf(conf, stripe)
            && |info.disks| == stripe.disks
    ensures forall i :: 0 <= i < stripe.disks ==>
              var d := StripeReportOf(conf, stripe).disks[i];
              && d.index == i && d.role == DiskRole(i, stripe.pdIdx, stripe.qdIdx)
              && d.sector == stripe.dev[i].sector && d.flags == stripe.dev[i].flags
              && d.decoded == FlagsOf(SetBits(stripe.dev[i].flags, 27), DEV_FLAG_NAMES)
              && Encode(Bits(d.decoded)) == stripe.dev[i].flags % Pow2(27)
  {
    var info := StripeReportOf(conf, stripe);
    EncodeDecoded(stripe.state, STRIPE_STATE_NAMES);
    forall i | 0 <= i < stripe.disks
      ensures Encode(Bits(info.disks[i].decoded)) == stripe.dev[i].flags % Pow2(27)
    {
      EncodeDecoded(stripe.dev[i].flags, DEV_FLAG_NAMES);
    }
  }

  /** Re-encoding a table decoding gives the mask cut to the table. */
  lemma {:induction false} EncodeDecoded(mask: nat, table: seq<string>)
    ensures Encode(Bits(FlagsOf(SetBits(mask, |table|), table))) == mask % Pow2(|table|)
  {
    assert Bits(FlagsOf(SetBits(mask, |table|), table)) == SetBits(mask, |table|);
    EncodeSetBits(mask, |table|);
  }

  /** `print_stripe_info`, without the formatting. */
  method StripeInfo(conf: R5Conf, stripe: StripeHead) returns (info: StripeReport)
    requires |conf.inactive| >= NR_STRIPE_HASH_LOCKS && stripe.disks <= |stripe.dev|
    ensures info == StripeReportOf(conf, stripe)
  {
    var states := StripeStates(stripe.state);
    var lru := FindStripeLruList(conf, stripe);
    var disks: seq<DiskReport> := [];
    for i := 0 to stripe.disks
      invariant |disks| == i
      invariant forall k :: 0 <= k < i ==> disks[k] == DiskReportOf(stripe, k)
    {
      var typ: Role;
      if i == stripe.pdIdx {
        typ := P;
      } else if i == stripe.qdIdx {
        typ := Q;
      } else {
        typ := D;
      }
      var decoded := StripeRdevFlags(stripe.dev[i].flags);
      disks := disks + [DiskReport(i, typ, stripe.dev[i].sector, stripe.dev[i].flags, decoded)];
    }
    assert disks == StripeReportOf(conf, stripe).disks;
    info := StripeReport(stripe.addr, stripe.sector, stripe.state, states, lru, disks);
  }
}
