// The stripe-cache report of debug/raid5_active.py: resolve the named array,
// read its counters, enumerate the hashed stripes, group them by state
// (first-seen order), collect the hashed stripes that are on no LRU list and
// detail the first of them.

module Raid5Active {
  import opened Common
  import opened StripeCache

  /** The stripes of `ss` whose state is `st`, in enumeration order. */
  function WithState(ss: seq<StripeHead>, st: nat): (r: seq<StripeHead>)
    ensures |r| <= |ss|
    ensures forall s :: s in r <==> s in ss && s.state == st
  {
    if ss == [] then []
    else
      var last := ss[|ss| - 1];
      assert ss == ss[..|ss| - 1] + [last];
      WithState(ss[..|ss| - 1], st) + (if last.state == st then [last] else [])
  }

  /** The distinct states of `ss`, each at the place it is first seen. */
  function FirstSeenStates(ss: seq<StripeHead>): (r: seq<nat>)
    ensures forall i, j :: 0 <= i < j < |r| ==> r[i] != r[j]
    ensures forall st :: st in r <==> exists s :: s in ss && s.state == st
    ensures forall k :: 0 <= k < |r| ==> exists s :: s in ss && s.state == r[k]
  {
    if ss == [] then []
    else
      var last := ss[|ss| - 1];
      assert ss == ss[..|ss| - 1] + [last];
      var prev := FirstSeenStates(ss[..|ss| - 1]);
      if last.state in prev then prev else prev + [last.state]
  }

  /** The hashed stripes whose LRU link is empty, in enumeration order. */
  function NotOnLru(ss: seq<StripeHead>): (r: seq<StripeHead>)
    ensures |r| <= |ss|
    ensures forall s :: s in r <==> s in ss && s.lruEmpty
  {
    if ss == [] then []
    else
      var last := ss[|ss| - 1];
      assert ss == ss[..|ss| - 1] + [last];
      NotOnLru(ss[..|ss| - 1]) + (if last.lruEmpty then [last] else [])
  }

  /** The sum of the group sizes over the given keys. */
  function GroupTotal(ss: seq<StripeHead>, keys: seq<nat>): nat
  {
    if keys == [] then 0 else GroupTotal(ss, keys[..|keys| - 1]) + |WithState(ss, keys[|keys| - 1])|
  }

  /** The position of the first stripe of `ss` in state `st`. */
  function FirstIndexOfState(ss: seq<StripeHead>, st: nat): (i: nat)
    requires exists s :: s in ss && s.state == st
    ensures i < |ss| && ss[i].state == st && forall j :: 0 <= j < i ==> ss[j].state != st
  {
    if ss[0].state == st then 0
    else
      assert exists s :: s in ss[1..] && s.state == st by {
        var s :| s in ss && s.state == st;
        var k :| 0 <= k < |ss| && ss[k] == s;
        assert ss[1..][k - 1] == s;
      }
      1 + FirstIndexOfState(ss[1..], st)
  }

  lemma WithStateSnoc(ss: seq<StripeHead>, x: StripeHead, st: nat)
    ensures WithState(ss + [x], st) == WithState(ss, st) + (if x.state == st then [x] else [])
  {
    assert (ss + [x])[..|ss|] == ss;
  }

  lemma {:induction false} GroupTotalSnoc(ss: seq<StripeHead>, x: StripeHead, keys: seq<nat>)
    requires forall i, j :: 0 <= i < j < |keys| ==> keys[i] != keys[j]
    ensures GroupTotal(ss + [x], keys) == GroupTotal(ss, keys) + (if x.state in keys then 1 else 0)
  {
    if keys != [] {
      var init := keys[..|keys| - 1];
      GroupTotalSnoc(ss, x, init);
      WithStateSnoc(ss, x, keys[|keys| - 1]);
      assert x.state in keys <==> x.state in init || x.state == keys[|keys| - 1];
      assert keys[|keys| - 1] !in init;
    }
  }

  /** Histogram completeness: the group sizes add up to the number of hashed
      stripes. */
  lemma {:induction false} HistogramComplete(ss: seq<StripeHead>)
    ensures GroupTotal(ss, FirstSeenStates(ss)) == |ss|
  {
    if ss != [] {
      var p, x := ss[..|ss| - 1], ss[|ss| - 1];
      assert ss == p + [x];
      var keys := FirstSeenStates(p);
      HistogramComplete(p);
      GroupTotalSnoc(p, x, keys);
      if x.state !in keys {
        assert keys + [x.state] == FirstSeenStates(ss);
        assert (keys + [x.state])[..|keys|] == keys;
        WithStateSnoc(p, x, x.state);
        WithStateAbsent(p, x.state);
      }
    }
  }

  /** The groups appear in the order in which their states are first met. */
  lemma {:induction false} FirstSeenOrder(ss: seq<StripeHead>, i: nat, j: nat)
    requires i < j < |FirstSeenStates(ss)|
    ensures FirstIndexOfState(ss, FirstSeenStates(ss)[i]) < FirstIndexOfState(ss, FirstSeenStates(ss)[j])
  {
    var keys := FirstSeenStates(ss);
    var p, x := ss[..|ss| - 1], ss[|ss| - 1];
    assert ss == p + [x];
    var pk := FirstSeenStates(p);
    var a, b := keys[i], keys[j];
    assert a == pk[i];
    FirstIndexPrefix(p, x, a);
    if j < |pk| {
      assert b == pk[j];
      FirstIndexPrefix(p, x, b);
      FirstSeenOrder(p, i, j);
    } else {
      assert b == x.state && b !in pk;
      FirstIndexLast(p, x);
    }
  }

  lemma FirstIndexPrefix(p: seq<StripeHead>, x: StripeHead, st: nat)
    requires exists s :: s in p && s.state == st
    ensures FirstIndexOfState(p + [x], st) == FirstIndexOfState(p, st)
  {
    var k := FirstIndexOfState(p, st);
    assert (p + [x])[k] == p[k];
    forall j | 0 <= j < k
      ensures (p + [x])[j].state != st
    {
      assert (p + [x])[j] == p[j];
    }
    FirstIndexUnique(p + [x], st, k);
  }

  lemma FirstIndexLast(p: seq<StripeHead>, x: StripeHead)
    requires x.state !in FirstSeenStates(p)
    ensures FirstIndexOfState(p + [x], x.state) == |p|
  {
    forall j | 0 <= j < |p|
      ensures (p + [x])[j].state != x.state
    {
      assert (p + [x])[j] == p[j];
      assert p[j] in p;
    }
    FirstIndexUnique(p + [x], x.state, |p|);
  }

  lemma FirstIndexUnique(ss: seq<StripeHead>, st: nat, k: nat)
    requires k < |ss| && ss[k].state == st && forall j :: 0 <= j < k ==> ss[j].state != st
    ensures FirstIndexOfState(ss, st) == k
  {
    assert ss[k] in ss;
  }

  /** A state no stripe has gets an empty group. */
  lemma WithStateAbsent(ss: seq<StripeHead>, st: nat)
    requires st !in FirstSeenStates(ss)
    ensures WithState(ss, st) == []
  {
    var r := WithState(ss, st);
    if r != [] {
      assert false;
    }
  }

  /** What the histogram holds after the stripes `ss`. */
  ghost predicate HistogramOf(ss: seq<StripeHead>, keys: seq<nat>, groups: map<nat, seq<StripeHead>>)
  {
    && keys == FirstSeenStates(ss)
    && (forall k :: k in groups <==> k in keys)
    && (forall k :: k in groups ==> groups[k] == WithState(ss, k))
  }

  lemma FirstSeenSnoc(ss: seq<StripeHead>, x: StripeHead)
    ensures FirstSeenStates(ss + [x]) ==
            (if x.state in FirstSeenStates(ss) then FirstSeenStates(ss) else FirstSeenStates(ss) + [x.state])
  {
    assert (ss + [x])[..|ss|] == ss;
  }

  lemma {:induction false} HistogramSnoc(ss: seq<StripeHead>, s: StripeHead, keys: seq<nat>, groups: map<nat, seq<StripeHead>>)
    requires HistogramOf(ss, keys, groups)
    ensures var keys' := if s.state in groups then keys else keys + [s.state];
            var old' := if s.state in groups then groups[s.state] else [];
            HistogramOf(ss + [s], keys', groups[s.state := old' + [s]])
  {
    FirstSeenSnoc(ss, s);
    if s.state !in groups {
      WithStateAbsent(ss, s.state);
    }
    var keys' := if s.state in groups then keys else keys + [s.state];
    var old' := if s.state in groups then groups[s.state] else [];
    var groups' := groups[s.state := old' + [s]];
    assert keys' == FirstSeenStates(ss + [s]);
    assert forall k :: k in groups' <==> k in keys';
    forall k | k in groups'
      ensures groups'[k] == WithState(ss + [s], k)
    {
      WithStateSnoc(ss, s, k);
    }
    assert HistogramOf(ss + [s], keys', groups');
  }

  /** The state histogram (`state_map`): a dictionary keyed by state, filled
      with `setdefault(state, []).append(stripe)`; `keys` is its insertion
      order. */
  method StateHistogram(stripes: seq<StripeHead>) returns (keys: seq<nat>, groups: map<nat, seq<StripeHead>>)
    ensures keys == FirstSeenStates(stripes)
    ensures forall k :: k in groups <==> k in keys
    ensures forall k :: k in groups ==> groups[k] == WithState(stripes, k)
  {
    keys := [];
    groups := map[];
    for i := 0 to |stripes|
      invariant HistogramOf(stripes[..i], keys, groups)
    {
      var s := stripes[i];
      assert stripes[..i + 1] == stripes[..i] + [s];
      HistogramSnoc(stripes[..i], s, keys, groups);
      if s.state !in groups {
        keys := keys + [s.state];
        groups := groups[s.state := []];
      }
      groups := groups[s.state := groups[s.state] + [s]];
    }
    assert stripes[..|stripes|] == stripes;
  }

  /** `non_lru_stripes`: the hashed stripes whose LRU link is empty. */
  method NonLruStripes(stripes: seq<StripeHead>) returns (nonLru: seq<StripeHead>)
    ensures nonLru == NotOnLru(stripes)
  {
    nonLru := [];
    for i := 0 to |stripes|
      invariant nonLru == NotOnLru(stripes[..i])
    {
      assert stripes[..i + 1] == stripes[..i] + [stripes[i]];
      assert stripes[..i + 1][..i] == stripes[..i];
      if stripes[i].lruEmpty {
        nonLru := nonLru + [stripes[i]];
      }
    }
    assert stripes[..|stripes|] == stripes;
  }

  /** The kernel's layout of a RAID4/5/6 configuration: a one-page hash
      table, the inactive-list shards, and a disk-slot record per disk. */
  predicate WellFormed(conf: R5Conf, linkSize: nat)
  {
    && linkSize > 0
    && |conf.hashTable| == NrHash(linkSize)
    && |conf.inactive| == NR_STRIPE_HASH_LOCKS
    && forall s :: s in Concat(conf.hashTable) ==> s.disks <= |s.dev|
  }

  /** The snapshot can be inspected: when the named disk resolves to a
      RAID4/5/6 array, that array's configuration is well formed. */
  predicate Inspectable(disks: seq<Gendisk>, name: string, linkSize: nat)
  {
    && linkSize > 0
    && var m := FindMddev(disks, name);
       (m.Ok? && IsRaid456(m.value.level) ==> WellFormed(m.value.conf, linkSize))
  }

  /** The counters printed before the stripes. */
  datatype Counters = Counters(
    activeStripes: int, maxStripes: int, reshapeStripes: int, recoveryActive: int, quiesce: int)

  datatype ActiveReport = ActiveReport(
    counters: Counters,
    hashed: seq<StripeHead>,
    stateKeys: seq<nat>,
    stateGroups: map<nat, seq<StripeHead>>,
    nonLru: seq<StripeHead>,
    detail: Option<StripeReport>)

  /** The report of one RAID4/5/6 configuration: the counters, the
      hashed stripes, the state histogram, the stripes on no LRU list, and
      the detail of the first of those. */
  ghost predicate IsReportOf(mddev: MdDev, rep: ActiveReport)
    requires |mddev.conf.inactive| >= NR_STRIPE_HASH_LOCKS
    requires forall s :: s in Concat(mddev.conf.hashTable) ==> s.disks <= |s.dev|
  {
    var conf := mddev.conf;
    && rep.counters == Counters(conf.activeStripes, conf.maxStripes, conf.reshapeStripes,
                                mddev.recoveryActive, conf.quiesce)
    && rep.hashed == Concat(conf.hashTable)
    && rep.stateKeys == FirstSeenStates(rep.hashed)
    && (forall k :: k in rep.stateGroups <==> k in rep.stateKeys)
    && (forall k :: k in rep.stateGroups ==> rep.stateGroups[k] == WithState(rep.hashed, k))
    && rep.nonLru == NotOnLru(rep.hashed)
    && (rep.detail.None? <==> rep.nonLru == [])
    && (rep.detail.Some? ==>
          rep.detail.value == StripeReportOf(conf, rep.nonLru[0]) && rep.detail.value.lruList == "none")
  }

  /** `print_stripe_info` of the first stripe on no LRU list, if any. */
  method Detail(conf: R5Conf, nonLru: seq<StripeHead>) returns (detail: Option<StripeReport>)
    requires |conf.inactive| >= NR_STRIPE_HASH_LOCKS
    requires forall s :: s in nonLru ==> s.lruEmpty && s.disks <= |s.dev|
    ensures detail.None? <==> nonLru == []
    ensures detail.Some? ==> detail.value == StripeReportOf(conf, nonLru[0]) && detail.value.lruList == "none"
  {
    detail := None;
    if nonLru != [] {
      assert nonLru[0] in nonLru;
      assert LruListOf(conf, nonLru[0]) == "none";
      var info := StripeInfo(conf, nonLru[0]);
      detail := Some(info);
    }
  }

  /** Everything the tool reads once the array is resolved. */
  method Report(mddev: MdDev, linkSize: nat) returns (rep: ActiveReport)
    requires WellFormed(mddev.conf, linkSize)
    ensures IsReportOf(mddev, rep)
  {
    var conf := mddev.conf;
    var counters := Counters(conf.activeStripes, conf.maxStripes, conf.reshapeStripes,
                             mddev.recoveryActive, conf.quiesce);
    var stripes := FindHashedStripes(conf, linkSize);
    assert conf.hashTable[..NrHash(linkSize)] == conf.hashTable;
    var keys, groups := StateHistogram(stripes);
    var nonLru := NonLruStripes(stripes);
    var detail := Detail(conf, nonLru);
    rep := ActiveReport(counters, stripes, keys, groups, nonLru, detail);
  }

  /** The main block of raid5_active.py: either the report, or the text of
      the `MDException` it prints instead (nothing else is then read). */
  method Raid5Active(disks: seq<Gendisk>, name: string, linkSize: nat) returns (r: Result<ActiveReport, string>)
    requires Inspectable(disks, name, linkSize)
    ensures FindMddev(disks, name).Err? ==> r == Err(FindMddev(disks, name).error)
    ensures FindMddev(disks, name).Ok? && !IsRaid456(FindMddev(disks, name).value.level) ==>
              r == Err(FindMddev(disks, name).value.diskName + ": not a raid5 device")
    ensures r.Ok? <==> FindMddev(disks, name).Ok? && IsRaid456(FindMddev(disks, name).value.level)
    ensures r.Ok? ==> WellFormed(FindMddev(disks, name).value.conf, linkSize) &&
                      IsReportOf(FindMddev(disks, name).value, r.value)
  {
    var mddev :- FindMddev(disks, name);
    var conf :- GetRaid5Conf(mddev);
    var rep := Report(mddev, linkSize);
    r := Ok(rep);
  }
}
