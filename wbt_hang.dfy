// The writeback-throttling hang correlator of debug/blk-wbt-hang.py. It
// walks the block plugs of every task, reads the PIDs of hung tasks from
// the kernel log, keeps the throttling domains (`rwb`) those tasks wait on,
// and lists the bios of the tasks queued on the first such domain.
//
// Kernel memory is a snapshot of plain values: tasks in `for_each_task`
// order, a stack trace per task address, the wait queue of each `rwb`
// (the task addresses of its entries, in list order), the `rwb` that each
// `rq_qos_wait_data` leads to, and the request records of plug lists.
// Address 0 is the null pointer.

module WbtHang {
  import opened Common
  import opened PyText

  type Addr = nat

  const NULL: Addr := 0

  const WBT_WAIT := "wbt_wait"
  const RQ_QOS_WAIT := "rq_qos_wait"
  const HUNG_PATTERN := "INFO: task"

  /** One stack frame: the function's name and the argument the tool reads
      from it (`bio` of `wbt_wait`, `data` of `rq_qos_wait`). */
  datatype Frame = Frame(name: string, arg: Addr)

  /** A task; `plug` is `None` for a null `tsk->plug`, otherwise the head
      of the plug's `mq_list` (which may itself be null). */
  datatype Task = Task(addr: Addr, pid: int, comm: string, plug: Option<Addr>)

  datatype Request = Request(bio: Addr, next: Addr)

  datatype Kernel = Kernel(
    tasks: seq<Task>,
    stacks: map<Addr, seq<Frame>>,
    waiters: map<Addr, seq<Addr>>,
    rwbOfWaitData: map<Addr, Addr>,
    requests: map<Addr, Request>)

  /** What a live kernel guarantees and the tool takes for granted: every
      task has a stack trace, every wait-queue entry belongs to a task with a
      stack, and every `rwb` a waiter leads to has a wait queue. */
  predicate Consistent(k: Kernel)
  {
    (forall t :: t in k.tasks ==> t.addr in k.stacks) &&
    (forall r :: r in k.waiters ==> forall w :: w in k.waiters[r] ==> w in k.stacks) &&
    (forall d :: d in k.rwbOfWaitData ==> k.rwbOfWaitData[d] in k.waiters)
  }

  /** The exceptions that can end the tool. Only `MDException` is caught by
      it, and none of these is one. */
  datatype HangError =
    | IndexError
    | ValueError
    | NoSuchTask(pid: int)
    | FaultError(addr: Addr)

  // ---------------------------------------------------------------------
  // Kernel log parsing

  /** The `grep` of the log pipeline: the lines that contain `pattern`. */
  function Grep(lines: seq<string>, pattern: string): (r: seq<string>)
    ensures |r| <= |lines|
    ensures forall x :: x in r <==> x in lines && Contains(x, pattern)
  {
    if lines == [] then []
    else
      var p := Grep(lines[..|lines| - 1], pattern);
      var x := lines[|lines| - 1];
      assert lines == lines[..|lines| - 1] + [x];
      if Contains(x, pattern) then p + [x] else p
  }

  /** `dmesg_filter` on one line: the text after the first `]`, stripped;
      `IndexError` when the line has no `]`. */
  function DmesgFilter(line: string): (r: Result<string, HangError>)
    ensures r.Err? <==> ']' !in line
    ensures r.Err? ==> r.error == IndexError
    ensures r.Ok? ==> exists i :: 0 <= i < |line| && line[i] == ']' && ']' !in line[..i] &&
                                  r.value == Strip(line[i + 1..])
  {
    match AfterFirst(line, ']')
    case None => Err(IndexError)
    case Some(rest) => Ok(Strip(rest))
  }

  /** `dmesg_find_hung` on one filtered line: `int` of the last `:` piece of
      the third word. */
  function HungPid(msg: string): (r: Result<int, HangError>)
    ensures r == Err(IndexError) <==> |Words(msg)| < 3
    ensures |Words(msg)| >= 3 ==> (r.Ok? <==> PyInt(Last(Split(Words(msg)[2], ':'))).Some?)
    ensures |Words(msg)| >= 3 && r.Err? ==> r.error == ValueError
    ensures r.Ok? ==> PyInt(Last(Split(Words(msg)[2], ':'))) == Some(r.value)
  {
    var words := Words(msg);
    if |words| < 3 then Err(IndexError)
    else
      match PyInt(Last(Split(words[2], ':')))
      case None => Err(ValueError)
      case Some(pid) => Ok(pid)
  }

  lemma {:induction false} SpaceThenWord(x: string, rest: string)
    requires x != [] && NoSpace(x) && (rest == [] || IsSpace(rest[0]))
    ensures Words(" " + x + rest) == [x] + Words(rest)
  {
    assert " " + x + rest == [' '] + (x + rest);
    WordsSkip(' ', x + rest);
    WordsCons(x, rest);
  }

  /** The words of `s == " <a> <b> <c><tail>"`. */
  lemma {:induction false} ThreeWords(s: string, a: string, b: string, c: string, tail: string)
    requires a != [] && NoSpace(a) && b != [] && NoSpace(b) && c != [] && NoSpace(c)
    requires tail == [] || IsSpace(tail[0])
    requires s == " " + a + " " + b + " " + c + tail
    ensures |Words(s)| >= 3 && Words(s)[0] == a && Words(s)[1] == b && Words(s)[2] == c
  {
    var t2 := " " + c + tail;
    var t1 := " " + b + t2;
    var t0 := " " + a + t1;
    assert Words(t2) == [c] + Words(tail) by {
      SpaceThenWord(c, tail);
    }
    assert Words(t1) == [b] + Words(t2) by {
      assert t2[0] == ' ';
      SpaceThenWord(b, t2);
    }
    assert Words(t0) == [a] + Words(t1) by {
      assert t1[0] == ' ';
      SpaceThenWord(a, t1);
    }
    assert s == t0;
  }

  /** The PID that `dmesg_find_hung` takes from `<comm>:<digits>`. */
  lemma {:induction false} HungWordPid(comm: string, digits: string)
    requires digits != [] && AllDigits(digits)
    ensures PyInt(Last(Split(comm + ":" + digits, ':'))) == Some(DecimalValue(digits))
  {
    assert ':' !in digits by {
      assert forall i :: 0 <= i < |digits| ==> IsDigit(digits[i]);
    }
    assert comm + ":" + digits == comm + [':'] + digits;
    SplitLastAfter(comm, ':', digits);
    PyIntDigits(digits);
  }

  lemma {:induction false} FilterAfterTimestamp(ts: string, m: string)
    requires ']' !in ts
    ensures DmesgFilter("[" + ts + "]" + m) == Ok(Strip(m))
  {
    assert "[" + ts + "]" + m == ("[" + ts) + [']'] + m;
    assert ']' !in "[" + ts;
    AfterFirstAt("[" + ts, ']', m);
  }

  lemma {:induction false} TaskWordNoSpace(comm: string, digits: string)
    requires NoSpace(comm) && AllDigits(digits)
    ensures NoSpace(comm + ":" + digits)
  {
    var w := comm + ":" + digits;
    assert forall i :: 0 <= i < |w| ==> w[i] == if i < |comm| then comm[i] else if i == |comm| then ':' else digits[i - |comm| - 1];
  }

  lemma InfoTaskWords()
    ensures NoSpace("INFO:") && NoSpace("task")
  {
  }

  lemma InfoTaskPrefix()
    ensures " INFO: task " == " " + "INFO:" + " " + "task" + " "
  {
  }

  /** The kernel's hung-task report `INFO: task <comm>:<pid> blocked for ...`
      as `dmesg` prints it: a `[timestamp]` prefix, then the message. */
  function HungReport(ts: string, comm: string, digits: string, tail: string): string
  {
    "[" + ts + "]" + HungReportBody(comm, digits, tail)
  }

  function HungReportBody(comm: string, digits: string, tail: string): string
  {
    " INFO: task " + comm + ":" + digits + tail
  }

  /** The third word of a report body is `<comm>:<digits>`. */
  lemma {:induction false} ReportBodyWords(comm: string, digits: string, tail: string)
    requires NoSpace(comm) && AllDigits(digits)
    requires tail == [] || IsSpace(tail[0])
    ensures |Words(Strip(HungReportBody(comm, digits, tail)))| >= 3
    ensures Words(Strip(HungReportBody(comm, digits, tail)))[2] == comm + ":" + digits
  {
    var w := comm + ":" + digits;
    var m := " INFO: task " + w + tail;
    assert HungReportBody(comm, digits, tail) == m;
    assert Words(Strip(m)) == Words(m) by {
      WordsStrip(m);
    }
    assert |Words(m)| >= 3 && Words(m)[2] == w by {
      TaskWordNoSpace(comm, digits);
      assert m == " " + "INFO:" + " " + "task" + " " + w + tail by {
        InfoTaskPrefix();
      }
      InfoTaskWords();
      ThreeWords(m, "INFO:", "task", w, tail);
    }
  }

  lemma {:induction false} ReportBodyPid(comm: string, digits: string, tail: string)
    requires NoSpace(comm) && digits != [] && AllDigits(digits)
    requires tail == [] || IsSpace(tail[0])
    ensures HungPid(Strip(HungReportBody(comm, digits, tail))) == Ok(DecimalValue(digits))
  {
    ReportBodyWords(comm, digits, tail);
    HungWordPid(comm, digits);
  }

  /** A hung-task report yields its PID, whatever colons (or `]`) the task
      name holds and whatever trails the line. */
  lemma {:induction false} HungReportYieldsPid(ts: string, comm: string, pid: nat, tail: string)
    requires ']' !in ts && NoSpace(comm)
    requires tail == [] || IsSpace(tail[0])
    ensures DmesgFilter(HungReport(ts, comm, NatToDecimal(pid), tail))
            == Ok(Strip(HungReportBody(comm, NatToDecimal(pid), tail)))
    ensures HungPid(Strip(HungReportBody(comm, NatToDecimal(pid), tail))) == Ok(pid)
  {
    var digits := NatToDecimal(pid);
    FilterAfterTimestamp(ts, HungReportBody(comm, digits, tail));
    ReportBodyPid(comm, digits, tail);
    DecimalRoundTrip(pid);
  }

  // ---------------------------------------------------------------------
  // The hung `rwb` list

  /** The first task with that PID (`find_task`). */
  function FindTask(tasks: seq<Task>, pid: int): (r: Option<Task>)
    ensures r.None? <==> forall t :: t in tasks ==> t.pid != pid
    ensures r.Some? ==> r.value in tasks && r.value.pid == pid
  {
    if tasks == [] then None
    else if tasks[0].pid == pid then Some(tasks[0])
    else FindTask(tasks[1..], pid)
  }

  /** The PID a log line names: the `dmesg` filter, then `hung_pid`. */
  function LinePid(line: string): (r: Result<int, HangError>)
    ensures r.Ok? <==> DmesgFilter(line).Ok? && HungPid(DmesgFilter(line).value).Ok?
    ensures r.Ok? ==> r.value == HungPid(DmesgFilter(line).value).value
  {
    var msg :- DmesgFilter(line);
    HungPid(msg)
  }

  /** What a hung task's stack contributes: only a frame 4 that is
      `rq_qos_wait` names a wait structure, whose `rwb` is the answer. */
  function StackRwb(k: Kernel, trace: seq<Frame>): (r: Result<Option<Addr>, HangError>)
    requires Consistent(k)
    ensures |trace| < 5 <==> r == Err(IndexError)
    ensures r.Ok? ==> |trace| >= 5 && (r.value.Some? <==> trace[4].name == RQ_QOS_WAIT)
    ensures r.Ok? && r.value.Some? ==> trace[4].arg in k.rwbOfWaitData && r.value.value == k.rwbOfWaitData[trace[4].arg]
    ensures r.Ok? && r.value.Some? ==> r.value.value in k.waiters
    ensures |trace| >= 5 && trace[4].name != RQ_QOS_WAIT ==> r == Ok(None)
  {
    if |trace| < 5 then Err(IndexError)
    else if trace[4].name != RQ_QOS_WAIT then Ok(None)
    else if trace[4].arg !in k.rwbOfWaitData then Err(FaultError(trace[4].arg))
    else Ok(Some(k.rwbOfWaitData[trace[4].arg]))
  }

  /** What one line of the log contributes: an error that ends the tool,
      nothing (a task whose frame 4 is not `rq_qos_wait`), or the `rwb` its
      hung task waits on. */
  function LineRwb(k: Kernel, line: string): (r: Result<Option<Addr>, HangError>)
    requires Consistent(k)
    ensures r.Ok? && r.value.Some? ==> r.value.value in k.waiters
    ensures LinePid(line).Err? ==> r == Err(LinePid(line).error)
    ensures LinePid(line).Ok? && FindTask(k.tasks, LinePid(line).value).None? ==> r == Err(NoSuchTask(LinePid(line).value))
    ensures LinePid(line).Ok? && FindTask(k.tasks, LinePid(line).value).Some? ==>
              r == StackRwb(k, k.stacks[FindTask(k.tasks, LinePid(line).value).value.addr])
    ensures r.Ok? ==>
              LinePid(line).Ok? && FindTask(k.tasks, LinePid(line).value).Some?
              && var trace := k.stacks[FindTask(k.tasks, LinePid(line).value).value.addr];
                 |trace| >= 5 && (r.value.Some? <==> trace[4].name == RQ_QOS_WAIT)
                 && (r.value.Some? ==> r.value.value == k.rwbOfWaitData[trace[4].arg])
  {
    var pid :- LinePid(line);
    match FindTask(k.tasks, pid)
    case None => Err(NoSuchTask(pid))
    case Some(t) => StackRwb(k, k.stacks[t.addr])
  }

  /** The outcome of each log line, in order. */
  function Outcomes(k: Kernel, lines: seq<string>): (r: seq<Result<Option<Addr>, HangError>>)
    requires Consistent(k)
    ensures |r| == |lines| && forall i :: 0 <= i < |lines| ==> r[i] == LineRwb(k, lines[i])
  {
    seq(|lines|, i requires 0 <= i < |lines| => LineRwb(k, lines[i]))
  }

  /** `hung_rwbs` after the loop has seen the given line outcomes, or the
      exception that stopped it. */
  function Dedup(outs: seq<Result<Option<Addr>, HangError>>): (r: Result<seq<Addr>, HangError>)
    ensures r.Ok? ==> |r.value| <= |outs|
    ensures r.Ok? ==> forall i, j :: 0 <= i < j < |r.value| ==> r.value[i] != r.value[j]
  {
    if outs == [] then Ok([])
    else
      var acc :- Dedup(outs[..|outs| - 1]);
      var got :- outs[|outs| - 1];
      Ok(if got.Some? && got.value !in acc then acc + [got.value] else acc)
  }

  function HungRwbs(k: Kernel, lines: seq<string>): Result<seq<Addr>, HangError>
    requires Consistent(k)
  {
    Dedup(Outcomes(k, lines))
  }

  /** The loop completes exactly when no line raises. */
  lemma {:induction false} DedupOkIff(outs: seq<Result<Option<Addr>, HangError>>)
    ensures Dedup(outs).Ok? <==> forall j :: 0 <= j < |outs| ==> outs[j].Ok?
  {
    if outs != [] {
      var p := outs[..|outs| - 1];
      DedupOkIff(p);
      assert forall j :: 0 <= j < |p| ==> p[j] == outs[j];
    }
  }

  /** The first line that raises decides the error. */
  lemma {:induction false} DedupErrSticky(outs: seq<Result<Option<Addr>, HangError>>, i: nat, e: HangError)
    requires i <= |outs| && Dedup(outs[..i]) == Err(e)
    ensures Dedup(outs) == Err(e)
    decreases |outs| - i
  {
    if i < |outs| {
      assert outs[..i + 1][..i] == outs[..i];
      DedupErrSticky(outs, i + 1, e);
    } else {
      assert outs[..i] == outs;
    }
  }

  /** `hung_rwbs` holds each contributed `rwb` once, and nothing else. */
  lemma {:induction false} DedupMembers(outs: seq<Result<Option<Addr>, HangError>>, acc: seq<Addr>)
    requires Dedup(outs) == Ok(acc)
    ensures forall a, b :: 0 <= a < b < |acc| ==> acc[a] != acc[b]
    ensures forall x :: x in acc <==> exists j :: 0 <= j < |outs| && outs[j] == Ok(Some(x))
  {
    if outs != [] {
      var p := outs[..|outs| - 1];
      var prev := Dedup(p).value;
      DedupMembers(p, prev);
      assert forall j :: 0 <= j < |p| ==> p[j] == outs[j];
    }
  }

  /** Nothing is kept only when every line contributes nothing. */
  lemma {:induction false} DedupEmpty(outs: seq<Result<Option<Addr>, HangError>>)
    requires Dedup(outs) == Ok([])
    ensures forall i :: 0 <= i < |outs| ==> outs[i] == Ok(None)
  {
    if outs != [] {
      var p := outs[..|outs| - 1];
      DedupEmpty(p);
      assert forall i :: 0 <= i < |p| ==> p[i] == outs[i];
    }
  }

  /** `hung_rwbs[0]` is the `rwb` of the first line that contributes one. */
  lemma {:induction false} DedupFirst(outs: seq<Result<Option<Addr>, HangError>>, acc: seq<Addr>)
    requires Dedup(outs) == Ok(acc) && acc != []
    ensures exists j :: 0 <= j < |outs| && outs[j] == Ok(Some(acc[0])) &&
                        forall i :: 0 <= i < j ==> outs[i] == Ok(None)
  {
    var p := outs[..|outs| - 1];
    var prev := Dedup(p).value;
    assert forall j :: 0 <= j < |p| ==> p[j] == outs[j];
    if prev != [] {
      DedupFirst(p, prev);
      var j :| 0 <= j < |p| && p[j] == Ok(Some(prev[0])) && forall i :: 0 <= i < j ==> p[i] == Ok(None);
      assert outs[j] == Ok(Some(acc[0]));
    } else {
      DedupEmpty(p);
      assert outs[|outs| - 1] == Ok(Some(acc[0]));
    }
  }

  lemma {:induction false} HungRwbsInWaiters(k: Kernel, lines: seq<string>, acc: seq<Addr>)
    requires Consistent(k) && HungRwbs(k, lines) == Ok(acc)
    ensures forall x :: x in acc ==> x in k.waiters
  {
    var outs := Outcomes(k, lines);
    DedupMembers(outs, acc);
    forall x | x in acc
      ensures x in k.waiters
    {
      var j :| 0 <= j < |outs| && outs[j] == Ok(Some(x));
      assert LineRwb(k, lines[j]) == Ok(Some(x));
    }
  }

  /** One more line: an exception ends the loop, an unseen `rwb` is appended. */
  lemma {:induction false} DedupStep(outs: seq<Result<Option<Addr>, HangError>>, i: nat, acc: seq<Addr>)
    requires i < |outs| && Dedup(outs[..i]) == Ok(acc)
    ensures outs[i].Err? ==> Dedup(outs[..i + 1]) == Err(outs[i].error)
    ensures outs[i].Ok? ==>
              Dedup(outs[..i + 1]) ==
              Ok(if outs[i].value.Some? && outs[i].value.value !in acc then acc + [outs[i].value.value] else acc)
  {
    assert outs[..i + 1][..i] == outs[..i];
  }

  /** One iteration of that loop on the outcome `got` of line `i`. */
  method AddOutcome(ghost outs: seq<Result<Option<Addr>, HangError>>, i: nat, rwbs: seq<Addr>,
                    got: Result<Option<Addr>, HangError>)
    returns (next: Result<seq<Addr>, HangError>)
    requires i < |outs| && Dedup(outs[..i]) == Ok(rwbs) && got == outs[i]
    ensures next == Dedup(outs[..i + 1])
  {
    DedupStep(outs, i, rwbs);
    if got.Err? {
      return Err(got.error);
    }
    next := Ok(rwbs);
    if got.value.Some? {
      var rwb := got.value.value;
      if rwb !in rwbs {
        next := Ok(rwbs + [rwb]);
      }
    }
  }

  /** The loop of the tool's main block over the hung-task PIDs. */
  method CollectHungRwbs(k: Kernel, lines: seq<string>) returns (r: Result<seq<Addr>, HangError>)
    requires Consistent(k)
    ensures r == HungRwbs(k, lines)
  {
    ghost var outs := Outcomes(k, lines);
    var rwbs: seq<Addr> := [];
    var i := 0;
    while i < |lines|
      invariant 0 <= i <= |lines|
      invariant Dedup(outs[..i]) == Ok(rwbs)
    {
      var got := LineRwb(k, lines[i]);
      var next := AddOutcome(outs, i, rwbs, got);
      if next.Err? {
        DedupErrSticky(outs, i + 1, next.error);
        return next;
      }
      rwbs := next.value;
      i := i + 1;
    }
    assert outs[..i] == outs;
    return Ok(rwbs);
  }

  // ---------------------------------------------------------------------
  // Bios waiting on an `rwb`

  /** The `bio` of every `wbt_wait` frame of one stack, innermost first. */
  function WbtBios(frames: seq<Frame>): (r: seq<Addr>)
    ensures |r| <= |frames|
    ensures forall i :: 0 <= i < |r| ==> Frame(WBT_WAIT, r[i]) in frames
  {
    if frames == [] then []
    else
      var f := frames[|frames| - 1];
      var pre := frames[..|frames| - 1];
      assert forall g :: g in pre ==> g in frames;
      WbtBios(pre) + (if f.name == WBT_WAIT then [f.arg] else [])
  }

  /** Each `wbt_wait` frame gives its bio once: the stack is not left at the
      first match. */
  lemma {:induction false} WbtBiosCounts(frames: seq<Frame>)
    ensures forall b :: multiset(WbtBios(frames))[b] == multiset(frames)[Frame(WBT_WAIT, b)]
  {
    if frames != [] {
      var p := frames[..|frames| - 1];
      var f := frames[|frames| - 1];
      WbtBiosCounts(p);
      assert frames == p + [f];
      assert multiset(frames) == multiset(p) + multiset{f};
    }
  }

  /** The bios of all the given waiters, waiter by waiter. */
  function HungBios(stacks: map<Addr, seq<Frame>>, ws: seq<Addr>): (r: seq<Addr>)
    requires forall w :: w in ws ==> w in stacks
    ensures ws == [] ==> r == []
    ensures forall i :: 0 <= i < |r| ==> exists w :: w in ws && r[i] in WbtBios(stacks[w])
  {
    if ws == [] then []
    else
      var p := ws[..|ws| - 1];
      assert forall w :: w in p ==> w in ws;
      HungBios(stacks, p) + WbtBios(stacks[ws[|ws| - 1]])
  }

  lemma {:induction false} WbtBiosMembers(frames: seq<Frame>)
    ensures forall b :: b in WbtBios(frames) <==> Frame(WBT_WAIT, b) in frames
  {
    WbtBiosCounts(frames);
    forall b
      ensures b in WbtBios(frames) <==> Frame(WBT_WAIT, b) in frames
    {
      assert b in WbtBios(frames) <==> multiset(WbtBios(frames))[b] > 0;
      assert Frame(WBT_WAIT, b) in frames <==> multiset(frames)[Frame(WBT_WAIT, b)] > 0;
    }
  }

  /** A bio is reported exactly when some waiter's stack has a `wbt_wait`
      frame for it. */
  lemma {:induction false} HungBiosMembers(stacks: map<Addr, seq<Frame>>, ws: seq<Addr>)
    requires forall w :: w in ws ==> w in stacks
    ensures forall b :: b in HungBios(stacks, ws) <==> exists i :: 0 <= i < |ws| && Frame(WBT_WAIT, b) in stacks[ws[i]]
  {
    if ws != [] {
      var p := ws[..|ws| - 1];
      var w := ws[|ws| - 1];
      assert forall i :: 0 <= i < |p| ==> p[i] == ws[i];
      HungBiosMembers(stacks, p);
      WbtBiosMembers(stacks[w]);
    }
  }

  lemma {:induction false} WbtBiosNone(frames: seq<Frame>)
    requires forall f :: f in frames ==> f.name != WBT_WAIT
    ensures WbtBios(frames) == []
  {
    if frames != [] {
      var p := frames[..|frames| - 1];
      assert forall f :: f in p ==> f in frames;
      WbtBiosNone(p);
    }
  }

  /** A waiter whose stack has no `wbt_wait` frame adds nothing. */
  lemma {:induction false} HungBiosSkipsIdle(stacks: map<Addr, seq<Frame>>, ws: seq<Addr>, w: Addr)
    requires forall x :: x in ws ==> x in stacks
    requires w in stacks && forall f :: f in stacks[w] ==> f.name != WBT_WAIT
    ensures HungBios(stacks, ws + [w]) == HungBios(stacks, ws)
  {
    WbtBiosNone(stacks[w]);
    assert (ws + [w])[..|ws|] == ws;
  }

  /** `find_wbt_hung_bios`: over the entries of `rwb`'s first wait queue,
      every `wbt_wait` frame's `bio`, not only the first of each stack. */
  method FindWbtHungBios(k: Kernel, rwb: Addr) returns (bios: seq<Addr>)
    requires Consistent(k) && rwb in k.waiters
    ensures bios == HungBios(k.stacks, k.waiters[rwb])
  {
    var ws := k.waiters[rwb];
    bios := [];
    for i := 0 to |ws|
      invariant bios == HungBios(k.stacks, ws[..i])
    {
      var frames := k.stacks[ws[i]];
      ghost var before := bios;
      for j := 0 to |frames|
        invariant bios == before + WbtBios(frames[..j])
      {
        assert frames[..j + 1][..j] == frames[..j];
        if frames[j].name == WBT_WAIT {
          bios := bios + [frames[j].arg];
        }
      }
      assert frames[..|frames|] == frames;
      assert ws[..i + 1][..i] == ws[..i];
      assert HungBios(k.stacks, ws[..i + 1]) == HungBios(k.stacks, ws[..i]) + WbtBios(frames);
    }
    assert ws[..|ws|] == ws;
  }

  // ---------------------------------------------------------------------
  // Plug request chains

  /** Following `rq_next` from `rq` reaches null after exactly `n` requests. */
  ghost predicate ReachesNull(requests: map<Addr, Request>, rq: Addr, n: nat)
    decreases n
  {
    if n == 0 then rq == NULL
    else rq != NULL && rq in requests && ReachesNull(requests, requests[rq].next, n - 1)
  }

  /** The requests visited from `rq`, in chain order. */
  function Chain(requests: map<Addr, Request>, rq: Addr, n: nat): seq<Addr>
    requires ReachesNull(requests, rq, n)
    decreases n
  {
    if n == 0 then [] else [rq] + Chain(requests, requests[rq].next, n - 1)
  }

  /** A chain is deterministic: its length is fixed by its head. */
  lemma {:induction false} ReachesNullUnique(requests: map<Addr, Request>, rq: Addr, n: nat, m: nat)
    requires ReachesNull(requests, rq, n) && ReachesNull(requests, rq, m)
    ensures n == m
    decreases n
  {
    if n > 0 && m > 0 {
      ReachesNullUnique(requests, requests[rq].next, n - 1, m - 1);
    }
  }

  /** The chain starts at the head, links each request to its `rq_next`,
      holds only non-null requests and ends at the one whose `rq_next` is
      null. */
  lemma {:induction false} ChainShape(requests: map<Addr, Request>, rq: Addr, n: nat)
    requires ReachesNull(requests, rq, n)
    ensures |Chain(requests, rq, n)| == n
    ensures n > 0 ==> Chain(requests, rq, n)[0] == rq
    ensures forall i :: 0 <= i < n ==> Chain(requests, rq, n)[i] != NULL && Chain(requests, rq, n)[i] in requests
    ensures forall i :: 0 <= i < n - 1 ==> requests[Chain(requests, rq, n)[i]].next == Chain(requests, rq, n)[i + 1]
    ensures n > 0 ==> requests[Chain(requests, rq, n)[n - 1]].next == NULL
    decreases n
  {
    if n > 0 {
      var next := requests[rq].next;
      ChainShape(requests, next, n - 1);
      var c := Chain(requests, rq, n);
      assert c == [rq] + Chain(requests, next, n - 1);
      assert forall i :: 1 <= i < n ==> c[i] == Chain(requests, next, n - 1)[i - 1];
      if n == 1 {
        assert next == NULL;
      }
    }
  }

  /** The `while rq: ... rq = rq.rq_next` walk of one plug. */
  method WalkPlug(requests: map<Addr, Request>, head: Addr, ghost n: nat) returns (visited: seq<Addr>)
    requires ReachesNull(requests, head, n)
    ensures visited == Chain(requests, head, n)
  {
    visited := [];
    var rq := head;
    ghost var m := n;
    while rq != NULL
      invariant ReachesNull(requests, rq, m)
      invariant visited + Chain(requests, rq, m) == Chain(requests, head, n)
      decreases m
    {
      visited := visited + [rq];
      rq := requests[rq].next;
      m := m - 1;
    }
  }

  /** A task whose plug holds requests, and those requests in chain order. */
  datatype PlugDump = PlugDump(task: Task, requests: seq<Addr>)

  predicate HasPluggedRequests(t: Task)
  {
    t.plug.Some? && t.plug.value != NULL
  }

  /** A task's plug list, when it has one, ends in null. */
  ghost predicate PlugTerminates(requests: map<Addr, Request>, t: Task)
  {
    HasPluggedRequests(t) ==> exists n :: ReachesNull(requests, t.plug.value, n)
  }

  ghost predicate PlugsTerminate(k: Kernel)
  {
    forall t :: t in k.tasks ==> PlugTerminates(k.requests, t)
  }

  /** The plugs the tool reports, task by task. */
  ghost function PlugDumps(requests: map<Addr, Request>, tasks: seq<Task>): seq<PlugDump>
    requires forall t :: t in tasks ==> PlugTerminates(requests, t)
  {
    if tasks == [] then []
    else
      var p := tasks[..|tasks| - 1];
      var t := tasks[|tasks| - 1];
      assert forall x :: x in p ==> x in tasks;
      assert PlugTerminates(requests, t);
      if HasPluggedRequests(t) then
        var n :| ReachesNull(requests, t.plug.value, n);
        PlugDumps(requests, p) + [PlugDump(t, Chain(requests, t.plug.value, n))]
      else PlugDumps(requests, p)
  }

  /** The first loop of the main block: tasks with a null plug or an empty
      plug list are skipped; the others have their requests walked. */
  method DumpPlugs(k: Kernel) returns (dumps: seq<PlugDump>)
    requires PlugsTerminate(k)
    ensures dumps == PlugDumps(k.requests, k.tasks)
    ensures forall d :: d in dumps ==> d.task in k.tasks && HasPluggedRequests(d.task) && d.requests != []
  {
    dumps := [];
    for i := 0 to |k.tasks|
      invariant forall t :: t in k.tasks[..i] ==> t in k.tasks
      invariant dumps == PlugDumps(k.requests, k.tasks[..i])
      invariant forall d :: d in dumps ==> d.task in k.tasks && HasPluggedRequests(d.task) && d.requests != []
    {
      var t := k.tasks[i];
      assert k.tasks[..i + 1][..i] == k.tasks[..i];
      if HasPluggedRequests(t) {
        assert PlugTerminates(k.requests, t);
        ghost var n :| ReachesNull(k.requests, t.plug.value, n);
        var visited := WalkPlug(k.requests, t.plug.value, n);
        forall m | ReachesNull(k.requests, t.plug.value, m)
          ensures m == n
        {
          ReachesNullUnique(k.requests, t.plug.value, n, m);
        }
        ChainShape(k.requests, t.plug.value, n);
        dumps := dumps + [PlugDump(t, visited)];
      }
    }
    assert k.tasks[..|k.tasks|] == k.tasks;
  }

  // ---------------------------------------------------------------------
  // The tool

  /** The hung `rwb`, how many were found, and the bios queued on it. */
  datatype HangReport = HangReport(rwb: Addr, rwbCount: nat, bios: seq<Addr>)

  /** The main block: the plug dump, then the log scan, then the bios of
      `hung_rwbs[0]`. An empty `hung_rwbs` raises `IndexError`, and no
      exception of the scan is caught, so each ends the tool after the plug
      dump. */
  method WbtHangMain(k: Kernel, log: seq<string>) returns (plugs: seq<PlugDump>, r: Result<HangReport, HangError>)
    requires Consistent(k) && PlugsTerminate(k)
    ensures plugs == PlugDumps(k.requests, k.tasks)
    ensures HungRwbs(k, Grep(log, HUNG_PATTERN)).Err? ==> r == Err(HungRwbs(k, Grep(log, HUNG_PATTERN)).error)
    ensures HungRwbs(k, Grep(log, HUNG_PATTERN)) == Ok([]) ==> r == Err(IndexError)
    ensures HungRwbs(k, Grep(log, HUNG_PATTERN)).Ok? && HungRwbs(k, Grep(log, HUNG_PATTERN)).value != [] ==> r.Ok?
    ensures r.Ok? ==>
              var rwbs := HungRwbs(k, Grep(log, HUNG_PATTERN)).value;
              rwbs != [] && r.value.rwb == rwbs[0] && r.value.rwbCount == |rwbs| &&
              r.value.rwb in k.waiters && r.value.bios == HungBios(k.stacks, k.waiters[r.value.rwb])
  {
    plugs := DumpPlugs(k);
    var lines := Grep(log, HUNG_PATTERN);
    var found := CollectHungRwbs(k, lines);
    if found.Err? {
      return plugs, Err(found.error);
    }
    var rwbs := found.value;
    if rwbs == [] {
      return plugs, Err(IndexError);
    }
    HungRwbsInWaiters(k, lines, rwbs);
    var bios := FindWbtHungBios(k, rwbs[0]);
    r := Ok(HangReport(rwbs[0], |rwbs|, bios));
  }
}
