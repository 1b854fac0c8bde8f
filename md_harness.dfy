// The array harness of md.py: the size-suffix parser, the boolean reading
// of environment values, and the decisions `MDInstance` makes before it
// runs `mdadm`: which disks to use, which arguments to pass, and which
// sysfs attributes to write.
//
// The subprocesses (`mdadm`, `modprobe`, `losetup`) and the sysfs reads
// and writes are not run: `setup` returns the plan it would carry out.

module MdHarness {
  import opened Common
  import opened PyText

  // ---------------------------------------------------------------------
  // Boolean environment values

  /** The values an argparse default or an environment variable can hold. */
  datatype PyValue = BoolValue(b: bool) | StrValue(s: string) | IntValue(i: int) | NoneValue

  predicate StartsWith(s: string, prefix: string)
  {
    |prefix| <= |s| && s[..|prefix|] == prefix
  }

  /** `EnvironmentArgumentParser.to_bool`. */
  function ToBool(x: PyValue): (r: bool)
    ensures x.BoolValue? ==> r == x.b
    ensures x.StrValue? ==> (r <==> (Lower(x.s) != [] && Lower(x.s)[0] in "yt") || Lower(x.s) == "1")
    ensures !x.BoolValue? && !x.StrValue? ==> !r
  {
    match x
    case BoolValue(b) => b
    case StrValue(s) =>
      var l := Lower(s);
      if StartsWith(l, "y") || StartsWith(l, "t") || l == "1" then true
      else if StartsWith(l, "n") || StartsWith(l, "f") || l == "0" then false
      else false
    case _ => false
  }

  /** Lower-casing an upper-cased letter gives its lower case. */
  lemma {:induction false} LowerOfUpper(s: string)
    ensures Lower(Upper(s)) == Lower(s)
  {
    forall i | 0 <= i < |s|
      ensures Lower(Upper(s))[i] == Lower(s)[i]
    {
      var c := s[i];
      assert AsciiLowerChar(AsciiUpperChar(c)) == AsciiLowerChar(c);
    }
  }

  /** Upper-casing a lower-cased letter gives its upper case. */
  lemma {:induction false} UpperOfLower(s: string)
    ensures Upper(Lower(s)) == Upper(s)
  {
    forall i | 0 <= i < |s|
      ensures Upper(Lower(s))[i] == Upper(s)[i]
    {
      var c := s[i];
      assert AsciiUpperChar(AsciiLowerChar(c)) == AsciiUpperChar(c);
    }
  }

  /** `to_bool` does not depend on the case of a string. */
  lemma {:induction false} ToBoolIgnoresCase(s: string)
    ensures ToBool(StrValue(Upper(s))) == ToBool(StrValue(s))
    ensures ToBool(StrValue(Lower(s))) == ToBool(StrValue(s))
  {
    LowerOfUpper(s);
    assert Lower(Lower(s)) == Lower(s) by {
      LowerOfUpper(Lower(s));
      forall i | 0 <= i < |s|
        ensures Lower(Lower(s))[i] == Lower(s)[i]
      {
        assert AsciiLowerChar(AsciiLowerChar(s[i])) == AsciiLowerChar(s[i]);
      }
    }
  }

  /** The words the `n`/`f`/`0` branch names are all read as false. */
  lemma {:induction false} ToBoolNegativeWords(s: string)
    requires StartsWith(Lower(s), "n") || StartsWith(Lower(s), "f") || Lower(s) == "0"
    ensures !ToBool(StrValue(s))
  {
  }

  // ---------------------------------------------------------------------
  // Size suffixes

  const UNITS: map<string, nat> :=
    map["B" := 1, "K" := 0x400, "M" := 0x10_0000, "G" := 0x4000_0000, "T" := 0x100_0000_0000]

  /** The exceptions `suffix_parse` raises. */
  datatype SuffixError = TypeError | KeyError

  /** The length of the run of digits `\d+` takes at the start of `s`. */
  function LeadingDigits(s: string): (n: nat)
    ensures n <= |s| && AllDigits(s[..n]) && (n < |s| ==> !IsDigit(s[n]))
  {
    if s == [] || !IsDigit(s[0]) then 0
    else
      var m := LeadingDigits(s[1..]);
      assert s[..1 + m] == [s[0]] + s[1..][..m];
      1 + m
  }

  /** The part of the string the pattern has to match: `$` also matches
      just before one trailing newline. */
  function MatchBody(u: string): (b: string)
    ensures b <= u
  {
    if u != [] && u[|u| - 1] == '\n' then u[..|u| - 1] else u
  }

  /** `suffix_parse`: `^(\d+)([KMGTB]?)B?$` against the upper-cased value,
      then the number times the unit; a bare number has the unit `""`,
      which `UNITS` lacks. */
  function SuffixParse(val: string): (r: Result<nat, SuffixError>)
    ensures val == [] || !IsDigit(val[0]) ==> r == Err(TypeError)
    ensures r.Ok? ==> |val| >= 2 && IsDigit(val[0])
  {
    MatchSize(MatchBody(Upper(val)))
  }

  /** The pattern and the unit lookup on the part to match. */
  function MatchSize(body: string): (r: Result<nat, SuffixError>)
    ensures LeadingDigits(body) == 0 ==> r == Err(TypeError)
    ensures body != [] && AllDigits(body) ==> r == Err(KeyError)
    ensures r.Ok? ==> |body| >= 2 && IsDigit(body[0]) && body[|body| - 1] in "KMGTB"
  {
    var n := LeadingDigits(body);
    var rest := body[n..];
    var unit := if rest != [] && rest[0] in "KMGTB" then rest[..1] else "";
    var tail := rest[|unit|..];
    if n == 0 || !(tail == "" || tail == "B") then Err(TypeError)
    else if unit !in UNITS then Err(KeyError)
    else Ok(DecimalValue(body[..n]) * UNITS[unit])
  }

  /** Conversely, everything but `digits [unit] [B]` and a bare number is a
      `TypeError`: whatever `MatchSize` does not reject that way is a run of
      digits, an optional unit letter and an optional `B`. */
  lemma MatchSizeShape(body: string) returns (d: string, unit: string, b: bool)
    requires MatchSize(body) != Err(TypeError)
    ensures d != [] && AllDigits(d) && body == d + unit + (if b then "B" else "")
    ensures unit == "" ==> !b && MatchSize(body) == Err(KeyError)
    ensures unit != "" ==> unit in UNITS && MatchSize(body) == Ok(DecimalValue(d) * UNITS[unit])
  {
    var n := LeadingDigits(body);
    var rest := body[n..];
    unit := if rest != [] && rest[0] in "KMGTB" then rest[..1] else "";
    var tail := rest[|unit|..];
    d := body[..n];
    b := tail == "B";
    assert tail == (if b then "B" else "");
    assert rest == unit + tail;
    assert body == d + rest;
    if unit != "" {
      assert unit == [rest[0]];
    }
  }

  /** The same for the whole parser: a value that is not rejected with
      `TypeError` is, upper-cased and up to one final newline, a run of
      digits, an optional unit letter and an optional `B`. */
  lemma SuffixParseShape(val: string) returns (d: string, unit: string, b: bool)
    requires SuffixParse(val) != Err(TypeError)
    ensures d != [] && AllDigits(d)
    ensures var s := d + unit + (if b then "B" else "");
            Upper(val) == s || Upper(val) == s + "\n"
    ensures unit == "" ==> !b && SuffixParse(val) == Err(KeyError)
    ensures unit != "" ==> unit in UNITS && SuffixParse(val) == Ok(DecimalValue(d) * UNITS[unit])
  {
    var u := Upper(val);
    d, unit, b := MatchSizeShape(MatchBody(u));
    if u != [] && u[|u| - 1] == '\n' {
      assert u == u[..|u| - 1] + "\n";
    }
  }

  lemma {:induction false} LeadingDigitsAll(d: string, rest: string)
    requires AllDigits(d)
    requires rest == [] || !IsDigit(rest[0])
    ensures LeadingDigits(d + rest) == |d|
    decreases |d|
  {
    if d != [] {
      assert (d + rest)[1..] == d[1..] + rest;
      LeadingDigitsAll(d[1..], rest);
    }
  }

  lemma {:induction false} UpperUnchanged(s: string)
    requires forall i :: 0 <= i < |s| ==> !('a' <= s[i] <= 'z')
    ensures Upper(s) == s
  {
  }

  /** A run of digits, a unit letter and an optional `B` match with that
      unit. */
  lemma {:induction false} MatchSizeDigitsUnit(d: string, unit: string, b: bool)
    requires d != [] && AllDigits(d) && unit in UNITS
    ensures MatchSize(d + unit + (if b then "B" else "")) == Ok(DecimalValue(d) * UNITS[unit])
  {
    var tail := unit + (if b then "B" else "");
    assert |unit| == 1 && unit[0] in "KMGTB";
    var s := d + tail;
    assert s == d + unit + (if b then "B" else "");
    LeadingDigitsAll(d, tail);
    assert s[..|d|] == d;
    assert s[|d|..] == tail;
  }

  /** Such a string is already upper case and has no trailing newline. */
  lemma {:induction false} DigitsUnitBody(d: string, unit: string, b: bool)
    requires d != [] && AllDigits(d) && unit in UNITS
    ensures var s := d + unit + (if b then "B" else "");
            MatchBody(Upper(s)) == s
  {
    var tail := unit + (if b then "B" else "");
    assert |unit| == 1 && unit[0] in "KMGTB";
    var s := d + tail;
    assert s == d + unit + (if b then "B" else "");
    forall i | 0 <= i < |s|
      ensures !('a' <= s[i] <= 'z')
    {
      if i < |d| {
        assert s[i] == d[i];
      } else {
        assert s[i] == tail[i - |d|];
      }
    }
    UpperUnchanged(s);
  }

  /** A run of digits, a unit letter and an optional `B` parse to the
      digits' value times the unit. */
  lemma {:induction false} SuffixParseDigitsUnit(d: string, unit: string, b: bool)
    requires d != [] && AllDigits(d) && unit in UNITS
    ensures SuffixParse(d + unit + (if b then "B" else "")) == Ok(DecimalValue(d) * UNITS[unit])
  {
    DigitsUnitBody(d, unit, b);
    MatchSizeDigitsUnit(d, unit, b);
  }

  /** Writing a number, a unit letter and an optional `B`, in either case,
      parses back to the number times the unit. */
  lemma {:induction false} SuffixParseRoundTrip(n: nat, unit: string, b: bool)
    requires unit in UNITS
    ensures SuffixParse(NatToDecimal(n) + unit + (if b then "B" else "")) == Ok(n * UNITS[unit])
    ensures SuffixParse(Lower(NatToDecimal(n) + unit + (if b then "B" else ""))) == Ok(n * UNITS[unit])
  {
    SuffixParseDigitsUnit(NatToDecimal(n), unit, b);
    DecimalRoundTrip(n);
    SuffixParseIgnoresCase(NatToDecimal(n) + unit + (if b then "B" else ""));
  }

  /** A bare number, with or without the trailing newline `$` allows, is
      a `KeyError`. */
  lemma {:induction false} SuffixParseBareNumber(d: string)
    requires d != [] && AllDigits(d)
    ensures SuffixParse(d) == Err(KeyError)
    ensures SuffixParse(d + "\n") == Err(KeyError)
  {
    UpperUnchanged(d);
    UpperUnchanged(d + "\n");
    assert MatchBody(d + "\n") == d;
    LeadingDigitsAll(d, []);
    assert d + [] == d;
  }

  /** Nothing that does not start with a digit is a size. */
  lemma {:induction false} SuffixParseNeedsDigit(s: string)
    requires s == [] || !IsDigit(s[0])
    ensures SuffixParse(s) == Err(TypeError)
  {
    var body := MatchBody(Upper(s));
    if body != [] {
      assert body[0] == Upper(s)[0];
    }
  }

  /** The parser does not depend on case. */
  lemma {:induction false} SuffixParseIgnoresCase(s: string)
    ensures SuffixParse(Lower(s)) == SuffixParse(s)
  {
    UpperOfLower(s);
  }

  // ---------------------------------------------------------------------
  // Array setup

  /** The `MDInvalidArgumentError`s of `setup` and `get_next_disk`. */
  datatype MdError = NoDisks | DisksAndRamDisks | DisksAndLoopDisks | LoopWithoutSize | CannotGrow

  function Message(e: MdError): string
  {
    match e
    case NoDisks => "No disks specified for an array"
    case DisksAndRamDisks => "Must not specify both disks and ram_disks"
    case DisksAndLoopDisks => "Must not specify both disks and loop_disks"
    case LoopWithoutSize => "Must specify size with loop_disks"
    case CannotGrow => "Can't grow array with out using loop or ram disks"
  }

  /** The keyword arguments of `setup`; `None` is `Option.None`. */
  datatype SetupCall = SetupCall(
    level: int, disks: Option<seq<string>>, ramDisks: Option<int>, loopDisks: Option<int>,
    size: Option<int>, chunkSize: int, assumeClean: bool, force: bool, run: bool,
    policy: string, journal: Option<string>, quiet: bool,
    threadCnt: Option<int>, cacheSize: Option<int>)

  /** Where the member disks come from: given by name, ram disks after
      loading `brd`, or loop devices over backing files of `size` bytes. */
  datatype DiskSource = GivenDisks | RamDisks(count: int) | LoopDisks(count: int, size: int)

  /** What `setup` does once validated: the disks it prepares, the `mdadm`
      command it runs, and the sysfs attributes it writes. */
  datatype SetupPlan = SetupPlan(source: DiskSource, command: seq<string>, sysfsWrites: seq<(string, string)>)

  /** Python truth of an optional list and an optional integer. */
  predicate ListTruthy(x: Option<seq<string>>) { x.Some? && x.value != [] }
  predicate IntTruthy(x: Option<int>) { x.Some? && x.value != 0 }

  /** `[f"{prefix}{i}" for i in range(count)]`. */
  function DeviceNames(prefix: string, count: int): (r: seq<string>)
    ensures |r| == (if count < 0 then 0 else count)
    ensures forall i :: 0 <= i < |r| ==> r[i] == prefix + NatToDecimal(i)
  {
    if count <= 0 then [] else seq(count, i requires 0 <= i < count => prefix + NatToDecimal(i))
  }

  /** The checks at the top of `setup` and the disk list they leave: the
      disks, and the size still to pass to `mdadm`. */
  function ResolveDisks(c: SetupCall): (r: Result<(DiskSource, seq<string>, Option<int>), MdError>)
    ensures r == Err(NoDisks) <==> c.disks.None? && c.ramDisks.None? && c.loopDisks.None?
    ensures r == Err(DisksAndRamDisks) <==> c.ramDisks.Some? && ListTruthy(c.disks)
    ensures r == Err(DisksAndLoopDisks) <==>
              c.loopDisks.Some? &&
              (if c.ramDisks.Some? then !ListTruthy(c.disks) && c.ramDisks.value > 0 else ListTruthy(c.disks))
    ensures r == Err(LoopWithoutSize) <==>
              c.loopDisks.Some? && c.size.None? &&
              (if c.ramDisks.Some? then !ListTruthy(c.disks) && c.ramDisks.value <= 0 else !ListTruthy(c.disks))
    ensures r.Err? ==> r.error != CannotGrow
    ensures r.Ok? && c.loopDisks.Some? ==>
              r.value == (LoopDisks(c.loopDisks.value, c.size.value), DeviceNames("/dev/loop", c.loopDisks.value), None)
    ensures r.Ok? && c.loopDisks.None? && c.ramDisks.Some? ==>
              r.value == (RamDisks(c.ramDisks.value), DeviceNames("/dev/ram", c.ramDisks.value), c.size)
    ensures r.Ok? && c.loopDisks.None? && c.ramDisks.None? ==>
              c.disks.Some? && r.value == (GivenDisks, c.disks.value, c.size)
  {
    if c.disks.None? && c.ramDisks.None? && c.loopDisks.None? then Err(NoDisks)
    else if c.ramDisks.Some? && ListTruthy(c.disks) then Err(DisksAndRamDisks)
    else
      var disks := if c.ramDisks.Some? then Some(DeviceNames("/dev/ram", c.ramDisks.value)) else c.disks;
      if c.loopDisks.Some? then
        if ListTruthy(disks) then Err(DisksAndLoopDisks)
        else if c.size.None? then Err(LoopWithoutSize)
        else Ok((LoopDisks(c.loopDisks.value, c.size.value), DeviceNames("/dev/loop", c.loopDisks.value), None))
      else if c.ramDisks.Some? then Ok((RamDisks(c.ramDisks.value), disks.value, c.size))
      else Ok((GivenDisks, disks.value, c.size))
  }

  /** The fixed head of the `mdadm --create` command; `>> 10` is floor
      division by 1024. */
  function BaseArgs(mdDev: string, c: SetupCall, count: nat): seq<string>
  {
    ["mdadm", "--create", mdDev,
     "--level", IntToDecimal(c.level),
     "--chunk", IntToDecimal(c.chunkSize / 1024),
     "--raid-devices", NatToDecimal(count),
     "--consistency-policy", c.policy]
  }

  /** `head` followed by the optional flags, in their fixed order. */
  function WithOptions(head: seq<string>, c: SetupCall, size: Option<int>): seq<string>
  {
    head + BitmapArg(c) + AssumeCleanArg(c) + ForceArg(c) + RunArg(c) + QuietArg(c) +
    JournalArgs(c) + SizeArgs(size)
  }

  lemma TakeAppend(s: seq<string>, t: seq<string>)
    ensures (s + t)[..|s|] == s
  {
  }

  /** The optional flags only ever extend the head. */
  lemma {:induction false} WithOptionsExtends(head: seq<string>, c: SetupCall, size: Option<int>)
    ensures |head| <= |WithOptions(head, c, size)| && WithOptions(head, c, size)[..|head|] == head
  {
    var s1 := head + BitmapArg(c);
    var s2 := s1 + AssumeCleanArg(c);
    var s3 := s2 + ForceArg(c);
    var s4 := s3 + RunArg(c);
    var s5 := s4 + QuietArg(c);
    var s6 := s5 + JournalArgs(c);
    var s7 := s6 + SizeArgs(size);
    TakeAppend(head, BitmapArg(c));
    TakeAppend(s1, AssumeCleanArg(c));
    TakeAppend(s2, ForceArg(c));
    TakeAppend(s3, RunArg(c));
    TakeAppend(s4, QuietArg(c));
    TakeAppend(s5, JournalArgs(c));
    TakeAppend(s6, SizeArgs(size));
    assert s7[..|head|] == s6[..|head|] == s5[..|head|] == s4[..|head|] == s3[..|head|] == s2[..|head|] == s1[..|head|] == head;
  }

  function BitmapArg(c: SetupCall): seq<string> { if c.policy == "bitmap" then ["--bitmap=internal"] else [] }
  function AssumeCleanArg(c: SetupCall): seq<string> { if c.assumeClean then ["--assume-clean"] else [] }
  function ForceArg(c: SetupCall): seq<string> { if c.force then ["--force"] else [] }
  function RunArg(c: SetupCall): seq<string> { if c.run then ["--run"] else [] }
  function QuietArg(c: SetupCall): seq<string> { if c.quiet then ["--quiet"] else [] }

  function JournalArgs(c: SetupCall): seq<string>
  {
    if c.journal.Some? then ["--write-journal", c.journal.value] else []
  }

  /** `--size` in KiB; `>> 10` is floor division by 1024. */
  function SizeArgs(size: Option<int>): seq<string>
  {
    if size.Some? then ["--size", IntToDecimal(size.value / 1024)] else []
  }

  function SysfsWrites(c: SetupCall): seq<(string, string)>
  {
    (if c.threadCnt.Some? then [("group_thread_cnt", IntToDecimal(c.threadCnt.value))] else []) +
    (if c.cacheSize.Some? && c.cacheSize.value > 0 then [("stripe_cache_size", IntToDecimal(c.cacheSize.value))] else [])
  }

  /** What `setup` does for `c`: the checks, then the command and the
      sysfs writes. */
  function PlanFor(mdDev: string, c: SetupCall): Result<SetupPlan, MdError>
  {
    var resolved :- ResolveDisks(c);
    var (source, disks, size) := resolved;
    Ok(SetupPlan(source, WithOptions(BaseArgs(mdDev, c, |disks|), c, size) + disks, SysfsWrites(c)))
  }

  /** The command starts with the fixed head, whose `--raid-devices`
      value is the number of disks, and ends with exactly those disks. */
  lemma {:induction false} CommandShape(mdDev: string, c: SetupCall)
    requires PlanFor(mdDev, c).Ok?
    ensures var cmd, disks := PlanFor(mdDev, c).value.command, ResolveDisks(c).value.1;
            11 + |disks| <= |cmd| &&
            cmd[..11] == BaseArgs(mdDev, c, |disks|) &&
            cmd[8] == NatToDecimal(|disks|) &&
            cmd[|cmd| - |disks|..] == disks
  {
    var (source, disks, size) := ResolveDisks(c).value;
    var base := BaseArgs(mdDev, c, |disks|);
    var withOpts := WithOptions(base, c, size);
    var cmd := PlanFor(mdDev, c).value.command;
    assert cmd == withOpts + disks;
    WithOptionsExtends(base, c, size);
    TakeAppend(withOpts, disks);
    assert cmd[..11] == withOpts[..11];
  }

  /** When a size is passed it comes last among the flags, in KiB. */
  lemma {:induction false} SizeArgsLast(h: seq<string>, c: SetupCall, s: int)
    ensures WithOptions(h, c, Some(s)) == WithOptions(h, c, None) + ["--size", IntToDecimal(s / 1024)]
  {
  }

  /** Loop disks take their size from the backing files, so the command
      never carries `--size`, whatever size was asked for. */
  lemma {:induction false} LoopCommandWithoutSize(mdDev: string, c: SetupCall)
    requires c.loopDisks.Some? && PlanFor(mdDev, c).Ok?
    ensures PlanFor(mdDev, c).value.command ==
            WithOptions(BaseArgs(mdDev, c, |ResolveDisks(c).value.1|), c, None) + ResolveDisks(c).value.1
    ensures PlanFor(mdDev, c).value.source == LoopDisks(c.loopDisks.value, c.size.value)
  {
  }

  /** `setup` with only its disk arguments given: level 5, 64 KiB chunks,
      `--assume-clean` and `--force`, the "resync" policy, no journal, not
      quiet, 4 worker threads and a stripe cache of 8192. */
  function DefaultCall(disks: Option<seq<string>>, ramDisks: Option<int>, loopDisks: Option<int>, size: Option<int>): SetupCall
  {
    SetupCall(5, disks, ramDisks, loopDisks, size, 64 * 1024, true, true, false, "resync", None, false,
              Some(4), Some(8192))
  }

  lemma DefaultDecimals()
    ensures IntToDecimal(5) == "5" && IntToDecimal(64 * 1024 / 1024) == "64"
    ensures IntToDecimal(4) == "4" && IntToDecimal(8192) == "8192"
  {
    assert NatToDecimal(6) == "6";
    assert NatToDecimal(81) == NatToDecimal(8) + "1";
    assert NatToDecimal(819) == NatToDecimal(81) + "9";
  }

  /** With the defaults, given disks are created as a RAID5 array with a
      64 KiB chunk, assumed clean and forced, and the thread count and
      stripe cache size are then written to sysfs. */
  lemma {:induction false} DefaultCommand(mdDev: string, disks: seq<string>)
    ensures PlanFor(mdDev, DefaultCall(Some(disks), None, None, None)) ==
            Ok(SetupPlan(GivenDisks,
                         ["mdadm", "--create", mdDev, "--level", "5", "--chunk", "64",
                          "--raid-devices", NatToDecimal(|disks|), "--consistency-policy", "resync",
                          "--assume-clean", "--force"] + disks,
                         [("group_thread_cnt", "4"), ("stripe_cache_size", "8192")]))
  {
    var c := DefaultCall(Some(disks), None, None, None);
    DefaultDecimals();
    assert "resync" != "bitmap" by { assert "resync"[0] != "bitmap"[0]; }
    assert ResolveDisks(c) == Ok((GivenDisks, disks, None));
    var head := BaseArgs(mdDev, c, |disks|);
    assert head == ["mdadm", "--create", mdDev, "--level", "5", "--chunk", "64",
                    "--raid-devices", NatToDecimal(|disks|), "--consistency-policy", "resync"];
    assert WithOptions(head, c, None) == head + ["--assume-clean", "--force"];
    assert SysfsWrites(c) == [("group_thread_cnt", "4"), ("stripe_cache_size", "8192")];
    assert PlanFor(mdDev, c) == Ok(SetupPlan(GivenDisks, WithOptions(head, c, None) + disks, SysfsWrites(c)));
    assert head + ["--assume-clean", "--force"] ==
           ["mdadm", "--create", mdDev, "--level", "5", "--chunk", "64",
            "--raid-devices", NatToDecimal(|disks|), "--consistency-policy", "resync",
            "--assume-clean", "--force"];
  }

  class MdInstance {
    const mdDev: string
    const sysfs: string

    constructor (md: string)
      ensures mdDev == "/dev/" + md && sysfs == "/sys/block/" + md + "/md"
    {
      mdDev := "/dev/" + md;
      sysfs := "/sys/block/" + md + "/md";
    }

    /** The checks of `setup`, and the disk list it then uses: ram disks
        after loading `brd`, or loop devices whose size replaces `size`. */
    method ChooseDisks(c: SetupCall) returns (r: Result<(DiskSource, seq<string>, Option<int>), MdError>)
      ensures r == ResolveDisks(c)
    {
      if c.disks.None? && c.ramDisks.None? && c.loopDisks.None? {
        return Err(NoDisks);
      }
      var disks := c.disks;
      var size := c.size;
      var source := GivenDisks;
      if c.ramDisks.Some? {
        if ListTruthy(disks) {
          return Err(DisksAndRamDisks);
        }
        source := RamDisks(c.ramDisks.value);
        disks := Some(DeviceNames("/dev/ram", c.ramDisks.value));
      }
      if c.loopDisks.Some? {
        if ListTruthy(disks) {
          return Err(DisksAndLoopDisks);
        }
        if size.None? {
          return Err(LoopWithoutSize);
        }
        source := LoopDisks(c.loopDisks.value, size.value);
        disks := Some(DeviceNames("/dev/loop", c.loopDisks.value));
        size := None;
      }
      return Ok((source, disks.value, size));
    }

    /** `mdadm_args`, built by successive appends. */
    method MdadmArgs(c: SetupCall, count: nat, size: Option<int>) returns (args: seq<string>)
      ensures args == WithOptions(BaseArgs(mdDev, c, count), c, size)
    {
      args := ["mdadm", "--create", mdDev,
               "--level", IntToDecimal(c.level),
               "--chunk", IntToDecimal(c.chunkSize / 1024),
               "--raid-devices", NatToDecimal(count),
               "--consistency-policy", c.policy];
      ghost var head := args;
      if c.policy == "bitmap" {
        args := args + ["--bitmap=internal"];
      }
      assert args == head + BitmapArg(c);
      if c.assumeClean {
        args := args + ["--assume-clean"];
      }
      assert args == head + BitmapArg(c) + AssumeCleanArg(c);
      if c.force {
        args := args + ["--force"];
      }
      assert args == head + BitmapArg(c) + AssumeCleanArg(c) + ForceArg(c);
      if c.run {
        args := args + ["--run"];
      }
      assert args == head + BitmapArg(c) + AssumeCleanArg(c) + ForceArg(c) + RunArg(c);
      if c.quiet {
        args := args + ["--quiet"];
      }
      assert args == head + BitmapArg(c) + AssumeCleanArg(c) + ForceArg(c) + RunArg(c) + QuietArg(c);
      if c.journal.Some? {
        args := args + ["--write-journal", c.journal.value];
      }
      assert args == head + BitmapArg(c) + AssumeCleanArg(c) + ForceArg(c) + RunArg(c) + QuietArg(c) + JournalArgs(c);
      if size.Some? {
        args := args + ["--size", IntToDecimal(size.value / 1024)];
      }
    }

    /** `MDInstance.setup`, with the disks prepared, `mdadm` run and sysfs
        written only as the plan it returns. */
    method Setup(c: SetupCall) returns (r: Result<SetupPlan, MdError>)
      ensures r == PlanFor(mdDev, c)
    {
      var resolved :- ChooseDisks(c);
      var (source, disks, size) := resolved;
      var args := MdadmArgs(c, |disks|, size);
      var writes: seq<(string, string)> := [];
      if c.threadCnt.Some? {
        writes := writes + [("group_thread_cnt", IntToDecimal(c.threadCnt.value))];
      }
      if c.cacheSize.Some? && c.cacheSize.value > 0 {
        writes := writes + [("stripe_cache_size", IntToDecimal(c.cacheSize.value))];
      }
      assert writes == SysfsWrites(c);
      return Ok(SetupPlan(source, args + disks, writes));
    }

    /** `setup_from_args`: normalise the parsed arguments, then `setup`. */
    method SetupFromArgs(a: Args) returns (r: Result<SetupPlan, MdError>)
      ensures r == PlanFor(mdDev, CallFor(Normalised(a)))
    {
      var args := a;
      if ListTruthy(args.devs) {
        args := args.(disks := None, loopDisks := None);
      }
      if IntTruthy(args.loopDisks) {
        args := args.(disks := None);
      }
      if !ListTruthy(args.devs) && !IntTruthy(args.loopDisks) && !IntTruthy(args.disks) {
        args := args.(disks := Some(3));
      }
      r := Setup(CallFor(args));
    }
  }

  // ---------------------------------------------------------------------
  // Command-line arguments

  /** The parsed command line of `setup_from_args`; `disks` is the count of
      `-d`/`--disks`/`--ram-disks`. */
  datatype Args = Args(
    level: int, chunkSize: int, disks: Option<int>, loopDisks: Option<int>,
    devs: Option<seq<string>>, assumeClean: bool, force: bool, zeroFirst: bool,
    run: bool, policy: string, quiet: bool, threadCnt: Option<int>,
    cacheSize: Option<int>, journal: Option<string>, size: Option<int>)

  /** The arguments after the three adjustments of `setup_from_args`. */
  function Normalised(a: Args): (n: Args)
    ensures n == a.(disks := n.disks, loopDisks := n.loopDisks)
    ensures ListTruthy(a.devs) ==> n.disks.None? && n.loopDisks.None?
    ensures !ListTruthy(a.devs) ==> n.loopDisks == a.loopDisks
    ensures !ListTruthy(a.devs) && IntTruthy(a.loopDisks) ==> n.disks.None?
    ensures !ListTruthy(a.devs) && !IntTruthy(a.loopDisks) ==>
              n.disks == (if IntTruthy(a.disks) then a.disks else Some(3))
  {
    var a1 := if ListTruthy(a.devs) then a.(disks := None, loopDisks := None) else a;
    var a2 := if IntTruthy(a1.loopDisks) then a1.(disks := None) else a1;
    if !ListTruthy(a2.devs) && !IntTruthy(a2.loopDisks) && !IntTruthy(a2.disks) then a2.(disks := Some(3)) else a2
  }

  /** The `setup` call of `setup_from_args`: the disk count goes to
      `ram_disks`, `--zero-first` also sets `run`, and `devs` is dropped. */
  function CallFor(a: Args): SetupCall
  {
    SetupCall(a.level, None, a.disks, a.loopDisks, a.size, a.chunkSize, a.assumeClean, a.force,
              a.run || a.zeroFirst, a.policy, a.journal, a.quiet, a.threadCnt, a.cacheSize)
  }

  /** `--devs` clears the disk counts and is itself never passed on, so it
      always ends in "No disks specified". */
  lemma {:induction false} DevsAlwaysRejected(mdDev: string, a: Args)
    requires ListTruthy(a.devs)
    ensures PlanFor(mdDev, CallFor(Normalised(a))) == Err(NoDisks)
  {
    assert ResolveDisks(CallFor(Normalised(a))) == Err(NoDisks);
  }

  /** The `setup` call `setup_from_args` evidently means to make: the same,
      with the `--devs` list passed as `disks`. */
  function IntendedCallFor(a: Args): SetupCall
  {
    CallFor(a).(disks := a.devs)
  }

  /** With the list passed on, `--devs d` builds the array on exactly `d`:
      the disks are used as given and end the `mdadm` command. */
  lemma {:induction false} DevsPlannedOnDevs(mdDev: string, a: Args)
    requires ListTruthy(a.devs)
    ensures PlanFor(mdDev, IntendedCallFor(Normalised(a))).Ok?
    ensures PlanFor(mdDev, IntendedCallFor(Normalised(a))).value.source == GivenDisks
    ensures var cmd := PlanFor(mdDev, IntendedCallFor(Normalised(a))).value.command;
            |cmd| >= |a.devs.value| && cmd[|cmd| - |a.devs.value|..] == a.devs.value
  {
    var c := IntendedCallFor(Normalised(a));
    assert c.disks == a.devs && c.ramDisks.None? && c.loopDisks.None?;
    assert ResolveDisks(c) == Ok((GivenDisks, a.devs.value, c.size));
    var head := WithOptions(BaseArgs(mdDev, c, |a.devs.value|), c, c.size);
    var cmd := head + a.devs.value;
    assert PlanFor(mdDev, c) == Ok(SetupPlan(GivenDisks, cmd, SysfsWrites(c)));
    assert cmd[|head|..] == a.devs.value;
  }

  /** With no disks asked for, the array is built on three ram disks. */
  lemma {:induction false} DefaultsToThreeRamDisks(mdDev: string, a: Args)
    requires !ListTruthy(a.devs) && a.loopDisks.None? && !IntTruthy(a.disks)
    ensures PlanFor(mdDev, CallFor(Normalised(a))).Ok?
    ensures PlanFor(mdDev, CallFor(Normalised(a))).value.source == RamDisks(3)
    ensures ResolveDisks(CallFor(Normalised(a))).value.1 == ["/dev/ram0", "/dev/ram1", "/dev/ram2"]
  {
    var c := CallFor(Normalised(a));
    assert c.ramDisks == Some(3) && c.loopDisks.None?;
    var names := DeviceNames("/dev/ram", 3);
    assert NatToDecimal(0) == "0" && NatToDecimal(1) == "1" && NatToDecimal(2) == "2";
    assert names[0] == "/dev/ram0" && names[1] == "/dev/ram1" && names[2] == "/dev/ram2";
    assert names == ["/dev/ram0", "/dev/ram1", "/dev/ram2"];
  }

  /** The parsed arguments never name disks and ram disks together. */
  lemma {:induction false} FromArgsNeverBothDisks(mdDev: string, a: Args)
    ensures PlanFor(mdDev, CallFor(Normalised(a))) != Err(DisksAndRamDisks)
  {
    assert CallFor(Normalised(a)).disks.None?;
  }

  /** `--loop-disks 0` is falsy, so the default three ram disks are added
      and `setup` then refuses the two together. */
  lemma {:induction false} ZeroLoopDisksRejected(mdDev: string, a: Args)
    requires a.loopDisks == Some(0) && !ListTruthy(a.devs) && !IntTruthy(a.disks)
    ensures PlanFor(mdDev, CallFor(Normalised(a))) == Err(DisksAndLoopDisks)
  {
    var c := CallFor(Normalised(a));
    assert c.ramDisks == Some(3) && c.loopDisks == Some(0) && c.disks.None?;
  }

  // ---------------------------------------------------------------------
  // Growing

  /** The disk `get_next_disk` adds: the next ram disk, or a new loop
      device the size of the first member (`sectors << 9` bytes). */
  datatype NextDisk = NextRamDisk(path: string) | NextLoopDisk(path: string, sizeBytes: int)

  /** `get_next_disk`, given the name `rd0` links to, the number of member
      disks and `rd0`'s size in sectors. */
  function NextDiskFor(rd0: string, numDisks: int, rd0Sectors: int): (r: Result<NextDisk, MdError>)
    ensures r.Err? <==> !Contains(rd0, "ram") && !Contains(rd0, "loop")
    ensures r.Err? ==> r.error == CannotGrow
    ensures r.Ok? ==> (r.value.NextRamDisk? <==> Contains(rd0, "ram"))
    ensures r.Ok? && r.value.NextLoopDisk? ==> r.value.sizeBytes == rd0Sectors * 512
  {
    if Contains(rd0, "ram") then Ok(NextRamDisk("/dev/ram" + IntToDecimal(numDisks)))
    else if Contains(rd0, "loop") then Ok(NextLoopDisk("/dev/loop" + IntToDecimal(numDisks), rd0Sectors * 512))
    else Err(CannotGrow)
  }

  /** The disk added to an array of `n` ram or loop disks is the one a
      setup with `n + 1` such disks would have used last. */
  lemma {:induction false} NextDiskContinuesNaming(rd0: string, n: nat, rd0Sectors: int)
    requires NextDiskFor(rd0, n, rd0Sectors).Ok?
    ensures var next := NextDiskFor(rd0, n, rd0Sectors).value;
            next.path == DeviceNames(if next.NextRamDisk? then "/dev/ram" else "/dev/loop", n + 1)[n]
  {
  }
}
