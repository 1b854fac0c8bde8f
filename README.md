# raid5-tests debugging and harness logic in Dafny

This project models the decision logic of the RAID4/5/6 test and debugging
helpers of the raid5-tests repository, and proves what that logic promises.

- **Stripe-cache inspection** (`debug/md.py`, `debug/raid5_active.py`). This
  part resolves a named block device to its md array and its RAID4/5/6
  configuration. It enumerates the hashed stripes bucket by bucket and
  classifies each stripe's LRU list by a fixed precedence. It decodes the
  stripe-state and per-disk flag words through the two enum tables and
  labels disk slots P, Q or D. On top of that it builds the per-state
  histogram and the list of hashed stripes that are on no LRU list.
- **Hang correlator** (`debug/blk-wbt-hang.py`). This part extracts hung-task
  PIDs from kernel log lines. It collects the distinct, first-seen
  writeback-throttling (`rwb`) objects of tasks blocked in `rq_qos_wait`. It
  gathers the `bio` of every `wbt_wait` frame among that object's waiters,
  and walks each task's plugged request chain.
- **MD v1 superblock inspector** (`debug/mdinspector.py`). This part locates
  the superblock by its magic number (v1.1, v1.2, v1.0). It decodes the
  little-endian fields and expands the feature and device flag words. It
  reads `min(raid_disks, 128)` role words and dumps the data region in
  chunks of at most 1 MiB.
- **Test harness parsing** (`md.py`). This part covers the size-suffix parser,
  `to_bool`, the argument checks of `MDInstance.setup` and the `mdadm` command
  it builds, the normalisation in `setup_from_args`, and the disk-kind test of
  `get_next_disk`.

Kernel memory is plain data:
- a stripe is a record identified by its address;
- a hash chain is the sequence of stripe heads it links;
- an LRU list is the sequence of addresses it links;
- a task's stack trace is a sequence of frames;
- a device is a byte sequence, and `os.pread` is a slice of it.

Python semantics are written out where they matter:
- `re`'s `$` also matches before one final newline;
- `int()` accepts surrounding whitespace and a sign (`PyText.PyInt`; see Left out for what it does not accept);
- `>> 10` on a non-negative size is division by 1024;
- `struct`'s `<l` is two's complement.

Source files and their modules:
- `stripe_cache.dfy` (module `StripeCache`) models `debug/md.py`.
- `raid5_active.dfy` (module `Raid5Active`) models `debug/raid5_active.py`.
- `wbt_hang.dfy` (module `WbtHang`) models `debug/blk-wbt-hang.py`.
- `md_inspector.dfy` (module `MdInspector`) models `debug/mdinspector.py`.
- `md_harness.dfy` (module `MdHarness`) models `md.py`.
- `common.dfy` (module `Common`) holds shared pieces: `Result`/`Option`, powers of two, bit tests and decimal text.
- `pytext.dfy` (module `PyText`) holds the Python string operations: `strip`, `split`, `upper`/`lower`, `in`, `int`.

Facts about the code that the model keeps:
- the stripe-state table has 28 entries (bits 0 to 27);
- the disk-flag table has 27 entries (bits 0 to 26);
- when no hung `rwb` is found, `hung_rwbs[0]` raises an `IndexError` that
  ends the hang tool, because only `MDException` is caught;
- the inspector as written defines `SZ_8K` as `8 * SZ_4K`, that is 32 KiB.
  `MdInspector.Open` and `MdInspector.Inspect` take the gap as a parameter:
  `SZ_8K` is the tool as written, `V1_0_GAP` (8 KiB) the intended one, see Findings.

## Model

| member | source | states |
|---|---|---|
| StripeCache.MdExceptionMessage | debug/md.py:10-15 | Without an mddev the message is the text itself. With one it is prefixed by "<disk_name>: ". |
| StripeCache.FindDisk | debug/md.py:17-20 | Returns None exactly when no disk has the name. Otherwise it returns the index of the first disk with that name. |
| StripeCache.FindMddev | debug/md.py:22-30 | "doesn't exist" exactly when no disk has the name. "is not an md device" exactly when the first such disk's major is not 9. Otherwise it returns that disk's mddev. |
| StripeCache.GetRaid5Conf | debug/md.py:32-36 | Succeeds exactly for levels 4, 5 and 6, and returns the mddev's configuration. Otherwise the error is "<disk_name>: not a raid5 device". |
| StripeCache.FindHashedStripes | debug/md.py:38-49 | The result is the concatenation of the chains of buckets 0 .. 4096/linkSize - 1, in bucket order and then chain order. |
| StripeCache.ConcatLength | debug/md.py:38-49 | The number of enumerated stripes is the sum of the chain lengths. |
| StripeCache.ConcatAt | debug/md.py:38-49 | Entry j of bucket b is at position (sum of earlier chain lengths) + j of the enumeration. |
| StripeCache.StripeInList | debug/md.py:51-56 | True iff the stripe's address occurs in the list. |
| StripeCache.StripeInInactiveList | debug/md.py:58-64 | True iff the stripe occurs in one of the 8 inactive-list shards. |
| StripeCache.FirstContaining | debug/md.py:73-80 | None iff no named list holds the address. Otherwise it is the name of a list that holds the address and that no earlier list does. |
| StripeCache.FirstContainingIsFirst | debug/md.py:73-80 | If list k is the first to hold the address, its name is the answer. |
| StripeCache.LruListOf | debug/md.py:66-82 | The label is always one of the 8 names: none, inactive, the five "_list" names and unknown. |
| StripeCache.ClassifierPrecedence | debug/md.py:66-82 | For each label, an iff with its condition. "none" iff the LRU link is empty, regardless of the lists. Then inactive, then handle, loprio, hold, delayed, bitmap in that order. "unknown" iff in none of them. |
| StripeCache.FindStripeLruList | debug/md.py:66-82 | Returns the classifier's label. An empty LRU link gives "none". |
| StripeCache.SetBits | debug/md.py:143-155 | The result is strictly increasing. It holds exactly the positions below n whose bit is set. |
| StripeCache.EncodeSetBits | debug/md.py:143-155 | OR-ing 1<<v over the decoded bits gives the mask modulo 2^n. |
| StripeCache.SetBitsIgnoresHighBits | debug/md.py:143-155 | Bits at or above the table size do not change the decoding. |
| StripeCache.SetBitsAgree | debug/md.py:143-155 | Two masks that agree on the low n bits decode alike. |
| StripeCache.FlagsOf | debug/md.py:143-155 | One enum member per bit, in order, each named by its table entry. |
| StripeCache.DecodeFlags | debug/md.py:143-155 | The flags are the table members of the set bits below the table size, in ascending bit order. Each flag carries the table name of its bit. |
| StripeCache.StripeStates | debug/md.py:84-148 | The flags are FlagsOf of the set bits below 28: in ascending bit order, all of them, each named by its table entry. Re-encoding gives state mod 2^28. |
| StripeCache.StripeRdevFlags | debug/md.py:114-155 | The same for the 27-entry disk-flag table: FlagsOf of the set bits below 27. Re-encoding gives flags mod 2^27. |
| StripeCache.RoleCounts | debug/md.py:168-174 | Among slots 0..n-1, P is assigned once when pd_idx is a slot. Q is assigned once when qd_idx is a different slot, so P wins a tie. Every slot gets exactly one label. |
| StripeCache.StripeInfo | debug/md.py:157-179 | The loop builds exactly StripeReportOf: the stripe's address, sector, state, decoded states and LRU label, and one entry per disk slot. |
| StripeCache.EncodeDecoded | debug/md.py:143-155 | Re-encoding the enum members decoded from a mask gives the mask mod 2^(table size). |
| StripeCache.StripeReportOfSpec | debug/md.py:157-179 | The report's states are FlagsOf the set bits below 28 and re-encode to state mod 2^28. Its label is the LRU classification. Entry i has index i, role P/Q/D, the slot's sector and flags, and decoded flags that are FlagsOf and re-encode to flags mod 2^27. |
| Raid5Active.WithState | debug/raid5_active.py:27-32 | A state's group holds exactly the hashed stripes with that state, in enumeration order. |
| Raid5Active.FirstSeenStates | debug/raid5_active.py:27-32 | The histogram keys are distinct and are exactly the states that occur. |
| Raid5Active.NotOnLru | debug/raid5_active.py:34-38 | The non-LRU list is exactly the stripes whose LRU link is empty, in enumeration order. |
| Raid5Active.FirstIndexOfState | debug/raid5_active.py:27-32 | Gives the position of a state's first occurrence among the stripes. |
| Raid5Active.HistogramComplete | debug/raid5_active.py:27-32 | The group sizes sum to the number of hashed stripes. |
| Raid5Active.FirstSeenOrder | debug/raid5_active.py:27-32 | The keys appear in the order their states are first seen. |
| Raid5Active.GroupTotalSnoc | debug/raid5_active.py:28-29 | Appending a stripe adds one to the total exactly when its state is a key. |
| Raid5Active.WithStateSnoc | debug/raid5_active.py:28-29 | Appending a stripe extends its own state's group, and no other group. |
| Raid5Active.HistogramSnoc | debug/raid5_active.py:28-29 | One setdefault/append step keeps keys in first-seen order and groups equal to the per-state filter. |
| Raid5Active.StateHistogram | debug/raid5_active.py:27-32 | keys are the first-seen states, the map has exactly those keys, and each group is that state's stripes in order. |
| Raid5Active.NonLruStripes | debug/raid5_active.py:34-38 | The list is the subsequence of stripes with an empty LRU link. |
| Raid5Active.FirstSeenSnoc | debug/raid5_active.py:27-32 | A new stripe adds its state at the end of the keys iff the state was not seen before. |
| Raid5Active.Detail | debug/raid5_active.py:40-41 | None iff there is no non-LRU stripe. Otherwise it is the stripe report of the first one. |
| Raid5Active.Report | debug/raid5_active.py:14-41 | The report holds the counters, the hashed stripes, the histogram, the non-LRU list and the detail of its first stripe. |
| Raid5Active.Raid5Active | debug/raid5_active.py:13-44 | A resolution or level error is returned as the exception text, and nothing else is read. Otherwise the report holds the counters, the hashed stripes, the histogram and the non-LRU list. A detail is present iff that list is non-empty. It is then the stripe report of that list's first stripe, whose label is "none". |
| WbtHang.Grep | debug/blk-wbt-hang.py:16-17 | Keeps exactly the lines that contain the pattern. |
| WbtHang.DmesgFilter | debug/blk-wbt-hang.py:15-20 | A line without ']' is an IndexError. Otherwise the result is the stripped text after the first ']'. |
| WbtHang.HungPid | debug/blk-wbt-hang.py:22-27 | IndexError iff there are fewer than three words. Otherwise it succeeds iff int() accepts the last ':'-piece of the third word, and gives that value; a rejected piece is a ValueError. |
| WbtHang.HungWordPid | debug/blk-wbt-hang.py:26-27 | Colons inside the task name are skipped: "comm:digits" yields the digits' value. |
| WbtHang.ThreeWords | debug/blk-wbt-hang.py:26 | Gives the first three whitespace words of a line built from three space-free words. |
| WbtHang.ReportBodyWords | debug/blk-wbt-hang.py:25-26 | The third word of a hung-task message is "comm:pid". |
| WbtHang.ReportBodyPid | debug/blk-wbt-hang.py:22-27 | A hung-task message yields its PID. |
| WbtHang.HungReportYieldsPid | debug/blk-wbt-hang.py:15-27 | A full "[ts] INFO: task comm:pid ..." log line filters to its message, which yields pid. |
| WbtHang.FindTask | debug/blk-wbt-hang.py:75 | None iff no task has the PID. Otherwise it returns a task with that PID. |
| WbtHang.LinePid | debug/blk-wbt-hang.py:19-27 | Succeeds iff the dmesg filter and hung_pid both do, with hung_pid's value. |
| WbtHang.StackRwb | debug/blk-wbt-hang.py:76-81 | A stack shorter than 5 frames is an IndexError. Otherwise frame 4 named rq_qos_wait gives the rwb of its wait structure, one of the snapshot's waiters; any other frame 4 gives nothing. |
| WbtHang.LineRwb | debug/blk-wbt-hang.py:74-81 | Filter and PID errors pass through, an unknown PID is a NoSuchTask error, and a found task's outcome is its stack's. A line contributes an rwb only when its task's frame 4 is rq_qos_wait, and it is then that frame's rwb, one of the snapshot's wait structures. |
| WbtHang.Outcomes | debug/blk-wbt-hang.py:74-81 | Gives one outcome per log line, in order. |
| WbtHang.Dedup | debug/blk-wbt-hang.py:74-83 | The collected rwbs are distinct and at most one per line. |
| WbtHang.DedupStep | debug/blk-wbt-hang.py:74-83 | One more line: an exception ends the loop with that error. An rwb not yet seen is appended. Anything else leaves the list unchanged. |
| WbtHang.DedupOkIff | debug/blk-wbt-hang.py:74-83 | The loop completes iff no line raises. |
| WbtHang.DedupErrSticky | debug/blk-wbt-hang.py:74-83 | The first exception ends the loop, and later lines do not matter. |
| WbtHang.DedupMembers | debug/blk-wbt-hang.py:78-83 | hung_rwbs has no duplicates. It holds exactly the rwbs the lines contribute, which by LineRwb are those of tasks whose frame 4 is rq_qos_wait. |
| WbtHang.DedupFirst | debug/blk-wbt-hang.py:82-85 | hung_rwbs[0] is the rwb of the first contributing line. |
| WbtHang.DedupEmpty | debug/blk-wbt-hang.py:78-85 | An empty hung_rwbs means that no line contributed. |
| WbtHang.HungRwbsInWaiters | debug/blk-wbt-hang.py:74-83 | Every collected rwb has a wait queue in the snapshot. |
| WbtHang.AddOutcome | debug/blk-wbt-hang.py:76-83 | One iteration on the outcome of the next line gives the de-duplicated list after that line, or its exception. |
| WbtHang.CollectHungRwbs | debug/blk-wbt-hang.py:74-83 | The loop computes the de-duplicated, first-seen list, or the first exception. |
| WbtHang.WbtBios | debug/blk-wbt-hang.py:42-44 | At most one bio per frame, and each collected bio has a wbt_wait frame carrying it. |
| WbtHang.WbtBiosCounts | debug/blk-wbt-hang.py:42-44 | Every wbt_wait frame of a stack contributes its bio once. The loop does not stop at the first match. |
| WbtHang.WbtBiosMembers | debug/blk-wbt-hang.py:42-44 | A bio is collected iff some wbt_wait frame carries it. |
| WbtHang.WbtBiosNone | debug/blk-wbt-hang.py:42-44 | A stack without wbt_wait frames contributes nothing. |
| WbtHang.HungBios | debug/blk-wbt-hang.py:37-44 | No waiters give no bios, and each collected bio comes from some waiter's stack. |
| WbtHang.HungBiosMembers | debug/blk-wbt-hang.py:29-46 | The result holds exactly the bios of wbt_wait frames across the waiters. |
| WbtHang.HungBiosSkipsIdle | debug/blk-wbt-hang.py:37-44 | A waiter without a wbt_wait frame adds nothing. |
| WbtHang.FindWbtHungBios | debug/blk-wbt-hang.py:29-46 | The nested loop returns the bios of every wbt_wait frame over the wait entries in list order. |
| WbtHang.ReachesNullUnique | debug/blk-wbt-hang.py:67-71 | A null-terminated request chain has one length. |
| WbtHang.ChainShape | debug/blk-wbt-hang.py:67-71 | The walk starts at the head and follows rq_next link by link. It stops at the first null, and every visited request is non-null. |
| WbtHang.WalkPlug | debug/blk-wbt-hang.py:67-71 | The while loop visits exactly the chain. |
| WbtHang.DumpPlugs | debug/blk-wbt-hang.py:60-72 | Tasks with a null plug or an empty request list are skipped. Each dumped task has a plug with requests, listed in chain order. |
| WbtHang.WbtHangMain | debug/blk-wbt-hang.py:52-94 | The plugs are dumped first. A parsing exception ends the tool with that error. No hung rwb ends it with IndexError. Whenever the collection succeeds with at least one rwb, the tool reports hung_rwbs[0], the count, and that rwb's hung bios. |
| MdInspector.LeValueOfBytes | debug/mdinspector.py:107-126 | Decoding little-endian bytes inverts encoding. |
| MdInspector.LeBytesOfValue | debug/mdinspector.py:107-126 | Encoding a decoded field gives back the bytes. |
| MdInspector.Signed32RoundTrip | debug/mdinspector.py:113-114 | The signed 32-bit read is two's complement: every i32 survives encode then decode. |
| MdInspector.SignedBitsAgree | debug/mdinspector.py:113-123 | Bit i of the signed word equals bit i of the unsigned word, for i < 32. |
| MdInspector.Pread | debug/mdinspector.py:132-133 | EINVAL iff the count or offset is negative. Otherwise it returns at most count bytes, taken from the device at the offset, and short only at the end. |
| MdInspector.ReadLe | debug/mdinspector.py:107-126 | A negative position is EINVAL. A read succeeds iff the field lies within the device, and then it is the little-endian value of those bytes. Otherwise it is a struct error. |
| MdInspector.ReadLeAfterWrite | debug/mdinspector.py:107-126 | A field written in little-endian reads back as the written value. |
| MdInspector.RdLong | debug/mdinspector.py:113-114 | Succeeds iff the unsigned read does. The value is in the i32 range and equals u or u - 2^32. |
| MdInspector.LongBitsOfSpec | debug/mdinspector.py:116-123 | The map's keys are exactly the names. names[i] maps to bit i of the word (a later duplicate name wins). |
| MdInspector.LongBitsOfSize | debug/mdinspector.py:116-123 | Distinct names give exactly len(names) keys. |
| MdInspector.RdLongbits | debug/mdinspector.py:116-123 | The loop builds that map from the signed word, or passes on the read error. |
| MdInspector.Locate | debug/mdinspector.py:54-71 | The offset found holds the magic. It is 0 (v1.1), else 4096 (v1.2), else the v1.0 candidate, each only if the earlier ones lack the magic. Conversely each of these is returned when it holds the magic and the earlier ones do not. NotImplementedError iff none of the three holds it; a device too short for a read is a struct error, and a negative v1.0 candidate is EINVAL. |
| MdInspector.V10GapMatchesKernel | debug/mdinspector.py:69 | With an 8 KiB gap the v1.0 candidate is the kernel's placement, (size - 8K) rounded down to 4K. |
| MdInspector.V10FoundWithKernelGap | debug/mdinspector.py:59-71 | With an 8 KiB gap, a v1.0 superblock where the kernel writes it is found. |
| MdInspector.V10MissedAsWritten | debug/mdinspector.py:13-71 | As written (32 KiB gap), a 64 KiB device with its only superblock at the kernel's v1.0 place is rejected with NotImplementedError. |
| MdInspector.FindSuperblock | debug/mdinspector.py:59-71 | The fallback chain settles on the located offset and version. |
| MdInspector.ReadArrayInfo | debug/mdinspector.py:73-88 | Succeeds iff the section fits. It then returns the fields at their fixed offsets (level signed at 0x48, size u64 at 0x50, raid_disks at 0x5c, ...). Otherwise it is a struct error. |
| MdInspector.ReadDeviceInfo | debug/mdinspector.py:89-96 | The same for the per-device section (data_offset u64 at 0x80, ..., devflags at 0xb8). |
| MdInspector.ReadRoles | debug/mdinspector.py:101-105 | Reads min(raid_disks,128) role words, entry i being the u16 at 0x100 + 2i. It fails iff the last word lies past the end. |
| MdInspector.ReadArrayState | debug/mdinspector.py:97-105 | Reads the array-state section and the role words, failing iff either lies past the end. |
| MdInspector.Open | debug/mdinspector.py:54-105 | A location error is passed on. Otherwise the superblock opens iff all three sections fit, with every field as laid out; else it is a struct error. |
| MdInspector.DumpStep | debug/mdinspector.py:198-204 | Appending the next contiguous read keeps the written bytes equal to the device slice. |
| MdInspector.DumpData | debug/mdinspector.py:190-204 | DumpWrites: covers the total min(length or data_size*512, data_size*512 - start). A zero total writes nothing; a negative total or offset is EINVAL. A total within the device writes exactly dev[abs..abs+total]; past the end it writes up to EOF and stalls. Chunks are 1 byte .. 1 MiB. |
| MdInspector.Inspect | debug/mdinspector.py:177-206 | Opens the device with the given v1.0 gap (`SZ_8K` as written), then dumps iff --data was given, else reports the superblock. A dump satisfies everything DumpData promises. Errors of opening are passed on. |
| MdInspector.ReadData | debug/mdinspector.py:132-133 | EINVAL iff the count or the absolute offset (data_offset*512 + pos) is negative. A read within the device returns exactly those bytes. |
| MdHarness.ToBool | md.py:21-30 | A bool passes through. A string is true iff its lowercase starts with y or t or is "1". Anything else is false. |
| MdHarness.ToBoolIgnoresCase | md.py:21-30 | Upper- and lower-casing a string does not change the answer. |
| MdHarness.ToBoolNegativeWords | md.py:21-30 | n/f prefixes and "0" give false. |
| MdHarness.LeadingDigits | md.py:50 | Gives the longest prefix of decimal digits. |
| MdHarness.MatchBody | md.py:50 | `$` ignores one trailing newline; the body is a prefix of the input. |
| MdHarness.SuffixParse | md.py:49-54 | Text not starting with a digit raises TypeError. A parsed size comes from text of at least two characters starting with a digit. |
| MdHarness.SuffixParseShape | md.py:49-54 | Conversely, anything not rejected with TypeError is, upper-cased and up to one final newline, digits, an optional unit letter and an optional B: a bare number is a KeyError, and with a unit it parses to the value times the unit. So "10X", "10KBB" and "10 K" are TypeErrors. |
| MdHarness.MatchSize | md.py:49-54 | No leading digits is a TypeError; a bare number is a KeyError; a match ends with a unit letter. |
| MdHarness.MatchSizeShape | md.py:49-54 | Whatever the match does not reject with TypeError is digits + optional unit + optional B; without a unit it is a KeyError, with one the value times the unit. |
| MdHarness.SuffixParseRoundTrip | md.py:42-53 | "<n><unit>[B]" (either case) parses to n * UNITS[unit], with B=1, K=2^10, M=2^20, G=2^30, T=2^40. |
| MdHarness.SuffixParseDigitsUnit | md.py:49-53 | Any digit string with a unit letter and optional B parses to its value times the unit. |
| MdHarness.MatchSizeDigitsUnit | md.py:50-53 | The regex match of digits, unit and optional B yields the value times the unit. |
| MdHarness.DigitsUnitBody | md.py:50 | An uppercase size text without newline is its own match body. |
| MdHarness.SuffixParseBareNumber | md.py:50-53 | A bare number (with or without a trailing newline) raises KeyError, since UNITS has no "" entry. |
| MdHarness.SuffixParseNeedsDigit | md.py:50-54 | Text not starting with a digit raises TypeError. |
| MdHarness.SuffixParseIgnoresCase | md.py:50 | Parsing is case-insensitive. |
| MdHarness.DeviceNames | md.py:105-118 | count names, the i-th being prefix + i. |
| MdHarness.ResolveDisks | md.py:102-118 | For each of the four argument errors, an iff with its condition. Otherwise: loop disks (no size forwarded), ram disks, or the given disks. |
| MdHarness.WithOptionsExtends | md.py:120-141 | The optional flags only append to the base arguments. |
| MdHarness.CommandShape | md.py:120-141 | The command starts with the 11 base arguments, with --raid-devices equal to the number of disks, and ends with the disks. |
| MdHarness.SizeArgsLast | md.py:136-139 | --size carries size>>10 and comes after all the other options. |
| MdHarness.LoopCommandWithoutSize | md.py:111-139 | With loop disks the command never has --size, and the loop disks get the given size. |
| MdHarness.MdInstance.constructor | md.py:60-62 | The device is /dev/<md> and the sysfs directory /sys/block/<md>/md. |
| MdHarness.MdInstance.ChooseDisks | md.py:102-118 | The checks and disk choice equal ResolveDisks. |
| MdHarness.MdInstance.MdadmArgs | md.py:120-141 | The appended list equals the base arguments followed by the options in their fixed order. |
| MdHarness.MdInstance.Setup | md.py:94-146 | Either the first argument error, or the disk source, the mdadm command and the sysfs writes. |
| MdHarness.DefaultDecimals | md.py:94-97 | The default level, chunk size in KiB, thread count and cache size print as 5, 64, 4 and 8192. |
| MdHarness.DefaultCommand | md.py:94-146 | With the defaults of setup and given disks, the command is mdadm --create <md> --level 5 --chunk 64 --raid-devices <n> --consistency-policy resync --assume-clean --force <disks>, and the sysfs writes set group_thread_cnt 4 and stripe_cache_size 8192. |
| MdHarness.MdInstance.SetupFromArgs | md.py:148-207 | setup is called with the normalised arguments. |
| MdHarness.Normalised | md.py:186-193 | --devs clears disks and loop_disks. loop_disks clears disks. With neither, disks defaults to 3. Nothing else changes. |
| MdHarness.DevsAlwaysRejected | md.py:186-207 | With --devs, setup raises "No disks specified" (see Findings). |
| MdHarness.DevsPlannedOnDevs | md.py:186-207 | Passing the --devs list on as disks, the array is planned on exactly those disks, given as they are and ending the mdadm command. |
| MdHarness.DefaultsToThreeRamDisks | md.py:186-207 | With nothing given, the array is built on /dev/ram0..2. |
| MdHarness.FromArgsNeverBothDisks | md.py:195-207 | setup_from_args never hits the disks-and-ram-disks error. |
| MdHarness.ZeroLoopDisksRejected | md.py:186-207 | --loop-disks 0 leaves disks at 3 and raises the disks-and-loop-disks error. |
| MdHarness.NextDiskFor | md.py:220-230 | It fails iff rd0's name contains neither "ram" nor "loop". A ram name gives a ram disk. A loop disk's size is sectors<<9. |
| MdHarness.NextDiskContinuesNaming | md.py:220-230 | The next disk is named like the n-th disk of its kind. |

## Left out

- drgn accessors (`for_each_disk`, the list and hlist walkers, `container_of`, `cast`, `prog.stack_trace`, `find_task`, `for_each_task`) are replaced by sequences and records. Whether a live kernel snapshot is consistent is a precondition (`WbtHang.Consistent`, `Raid5Active.Inspectable`), not modelled.
- The `dmesg | grep` pipeline, `mdadm`, `losetup`, `modprobe`, sysfs reads, writes and readlinks, `os.open` and `lseek` are side effects. `Grep` stands for the pipeline. `Setup` returns the command and sysfs writes instead of running them.
- `_rd_time` is left out because it produces floats; `ctime` and `utime` are kept as raw 64-bit words.
- MdInspector.ReadArrayInfo: the set name is kept as its 32 raw bytes. The UTF-8 `.decode()` and the `UnicodeDecodeError` it can raise are not modelled.
- All printing, `__str__` and hex formatting are output only.
- The argparse wiring and the environment-variable help formatter of `md.py` are not decision logic.
- `funccount.py` manages thread, process and signal lifecycles.
- `fio.py` wraps an external program, JSON decoding and `psutil`.
- `MDInstance.grow`, `degrade`, `recover`, `wait`, `stop`, `open_direct`, `get_level`, `get_num_disks` and `get_disks` only run commands or read sysfs. `get_next_disk` is modelled from the values it reads: the name of rd0, the disk count and rd0's size.
- `MdHarness.ToBool` and `MdHarness.SuffixParse`: upper/lower case and `\d` are ASCII only. Python's Unicode case mapping and Unicode digits are not modelled.
- `MdInspector.DumpData`: when a read returns nothing before the total is reached (past the end of the device), the source loops forever. The model stops and reports `Stalled` with what was written.
- `WbtHang.WalkPlug` and `WbtHang.DumpPlugs` require the plugged request chain to be null-terminated (a ghost length bound). A cyclic chain, on which the source would not terminate, is not modelled.
- `WbtHang.WbtHangMain`: an `MDException` is never raised inside the hang tool's try block, so the handler is not modelled.
- WbtHang.HungPid: `int()` is modelled by `PyText.PyInt`, which takes ASCII digits only, without `_` separators. Python's `int()` also accepts `_` between digits and Unicode decimal digits, which are not modelled, so "succeeds iff int() accepts" is stated for `PyText.PyInt`.
- WbtHang.HungReportYieldsPid: requires a task name without spaces. With a space in the name, `split()[2]` is a piece of the name: "INFO: task 12 x:99 blocked" yields PID 12, as `WbtHang.HungPid` models.

## Findings

| source | as written | input that shows it | evidently intended | confidence | as-written member | corrected member |
|---|---|---|---|---|---|---|
| md.py:186-207 | `setup_from_args` parses `--devs` ("specific disks to use") and clears the disk counts for it, but never passes `disks=args.devs` to `setup` | `--devs /dev/sdb /dev/sdc /dev/sdd`: `setup` gets no disks, ram disks or loop disks and raises "No disks specified for an array" | `setup(..., disks=args.devs, ...)`, building the array on the given devices | not executed | MdHarness.DevsAlwaysRejected | MdHarness.DevsPlannedOnDevs |
| debug/mdinspector.py:13-71 | `SZ_8K = 8 * SZ_4K` is 32768, so the v1.0 superblock is looked for 32 KiB before the 4 KiB-aligned end of the device | a 64 KiB device whose only superblock is at 0xe000, where the kernel places a v1.0 superblock ((size - 8K) rounded down to 4K): the tool reads 0x8000 and raises NotImplementedError | an 8 KiB gap (`8 * SZ_1K`), which matches the kernel's v1.0 placement | not executed | MdInspector.V10MissedAsWritten | MdInspector.V10FoundWithKernelGap |
