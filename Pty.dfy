/** The pseudo-terminal handle of the local shell (`PTYProcess`,
    Sources/ShellSession.swift:1475-1675): its master descriptor and child
    process id, the blocking-tolerant write loop, the idempotent terminate and
    the decoding of the wait status. The system calls themselves are not
    modelled: every `write(2)` result comes from a `kernel` parameter, and the
    signals and closes `terminate` performs are recorded in the handle. */
module Pty {
  import opened Common

  /** `EAGAIN`, which Darwin also uses for `EWOULDBLOCK`. */
  const EAGAIN: int := 35

  /** How many times in a row a would-block result is retried. */
  const MaxWouldBlockRetries: nat := 40

  const SIGTERM: int := 15

  /** What one `write(2)` call reports: its return value and `errno`. */
  datatype SysResult = SysResult(returned: int, errno: int)

  predicate IsWouldBlock(s: SysResult) {
    s.returned < 0 && s.errno == EAGAIN
  }

  /** The outcome of writing a whole buffer: the error code thrown, if any,
      the bytes the kernel accepted, in order, and the number of calls made. */
  datatype WriteReport = WriteReport(error: Option<int>, sent: seq<bv8>, calls: nat)

  function Min(a: nat, b: nat): nat {
    if a <= b then a else b
  }

  /** The write loop as a function: `rest` is what is still to be written,
      `attempts` the would-block retries since the last progress, `call` the
      index of the next `write(2)` call. A return value larger than what was
      asked for ends the loop as the source's negative `remaining` does. */
  function Drive(rest: seq<bv8>, attempts: nat, call: nat, kernel: nat -> SysResult): WriteReport
    requires attempts <= MaxWouldBlockRetries
    decreases |rest|, MaxWouldBlockRetries - attempts
  {
    if |rest| == 0 then WriteReport(None, [], 0)
    else
      var s := kernel(call);
      if s.returned > 0 then
        var n := Min(s.returned, |rest|);
        var tail := Drive(rest[n..], 0, call + 1, kernel);
        WriteReport(tail.error, rest[..n] + tail.sent, tail.calls + 1)
      else if IsWouldBlock(s) && attempts < MaxWouldBlockRetries then
        var tail := Drive(rest, attempts + 1, call + 1, kernel);
        tail.(calls := tail.calls + 1)
      else WriteReport(Some(s.errno), [], 1)
  }

  /** A process-level action `terminate` takes, in the order taken. */
  datatype Action = Cancel | Signal(pid: int, sig: int) | ScheduleKill(pid: int) | Close(fd: int)

  /** The handle's state as a value. */
  datatype Handle = Handle(masterFD: int, childPID: int, reading: bool, actions: seq<Action>)

  /** The values the source ever stores: no descriptor is -1, no child is 0. */
  predicate WellFormed(h: Handle) {
    h.masterFD >= -1 && h.childPID >= 0
  }

  /** What `terminate(force:)` does to the outside world, in order: cancel
      the read source, schedule the delayed `SIGKILL` check, send `SIGTERM`,
      close the descriptor, each only when there is something to act on. */
  function TerminateActions(h: Handle, force: bool): seq<Action> {
    (if h.reading then [Cancel] else [])
    + (if h.childPID > 0 then (if force then [ScheduleKill(h.childPID)] else []) + [Signal(h.childPID, SIGTERM)] else [])
    + (if h.masterFD >= 0 then [Close(h.masterFD)] else [])
  }

  /** Each action is taken exactly when there is something for it to act on. */
  lemma TerminateActionsMeaning(h: Handle, force: bool)
    ensures var a := TerminateActions(h, force);
      && (Cancel in a <==> h.reading)
      && (Signal(h.childPID, SIGTERM) in a <==> h.childPID > 0)
      && (ScheduleKill(h.childPID) in a <==> h.childPID > 0 && force)
      && (Close(h.masterFD) in a <==> h.masterFD >= 0)
      && (|a| == 0 <==> !h.reading && h.childPID <= 0 && h.masterFD < 0)
  {
  }

  /** `terminate(force:)` on a handle value. */
  function Terminated(h: Handle, force: bool): (r: Handle)
    ensures !r.reading && WellFormed(r) == WellFormed(h)
    ensures WellFormed(h) ==> r.masterFD == -1 && r.childPID == 0
    ensures r.actions == h.actions + TerminateActions(h, force)
  {
    Handle(if h.masterFD >= 0 then -1 else h.masterFD, if h.childPID > 0 then 0 else h.childPID,
           false, h.actions + TerminateActions(h, force))
  }

  /** A second `terminate` cancels nothing, sends no signal and closes
      nothing: the handle is left exactly as the first call left it. */
  lemma TerminateIdempotent(h: Handle, force: bool, again: bool)
    ensures Terminated(Terminated(h, force), again) == Terminated(h, force)
  {
  }

  class PTYProcess {
    var masterFD: int
    var childPID: int
    /** Whether a read source is installed (`readSource != nil`). */
    var reading: bool
    /** The cancels, signals, scheduled kills and closes performed so far. */
    var actions: seq<Action>

    function State(): Handle
      reads this
    {
      Handle(masterFD, childPID, reading, actions)
    }

    constructor()
      ensures State() == Handle(-1, 0, false, [])
    {
      masterFD, childPID, reading, actions := -1, 0, false, [];
    }

    /** The parent's bookkeeping once `start` has spawned the shell: the
        descriptor and pid are kept and the read loop is installed. */
    method Attach(master: int, pid: int)
      modifies this
      ensures State() == Handle(master, pid, true, old(actions))
    {
      childPID := pid;
      masterFD := master;
      reading := true;
    }

    method Terminate(force: bool)
      modifies this
      ensures State() == Terminated(old(State()), force)
    {
      ghost var h := State();
      ghost var cancel := if reading then [Cancel] else [];
      ghost var kill := if childPID > 0 then (if force then [ScheduleKill(childPID)] else []) + [Signal(childPID, SIGTERM)] else [];
      ghost var close := if masterFD >= 0 then [Close(masterFD)] else [];
      if reading {
        actions := actions + [Cancel];
      }
      reading := false;
      assert actions == h.actions + cancel;
      if childPID > 0 {
        var pid := childPID;
        ghost var before := actions;
        if force {
          actions := actions + [ScheduleKill(pid)];
        }
        actions := actions + [Signal(pid, SIGTERM)];
        if force {
          AppendAssoc(before, [ScheduleKill(pid)], [Signal(pid, SIGTERM)]);
        }
        childPID := 0;
      }
      assert actions == h.actions + cancel + kill;
      if masterFD >= 0 {
        actions := actions + [Close(masterFD)];
        masterFD := -1;
      }
      assert actions == h.actions + cancel + kill + close;
      AppendAssoc3(h.actions, cancel, kill, close);
    }

    /** `write`: nothing at all happens without a descriptor; otherwise
        `data` (the text's UTF-8 bytes) is pushed until it is all accepted or
        a call fails, retrying a would-block at most forty times in a row. */
    method Write(data: seq<bv8>, kernel: nat -> SysResult) returns (r: WriteReport)
      ensures masterFD < 0 ==> r == WriteReport(None, [], 0)
      ensures masterFD >= 0 ==> r == Drive(data, 0, 0, kernel)
    {
      if masterFD < 0 {
        return WriteReport(None, [], 0);
      }
      var offset: nat := 0;
      var attempts: nat := 0;
      var call: nat := 0;
      ghost var goal := Drive(data, 0, 0, kernel);
      while offset < |data|
        invariant offset <= |data| && attempts <= MaxWouldBlockRetries
        invariant goal == Pending(data, offset, attempts, call, kernel)
        decreases |data| - offset, MaxWouldBlockRetries - attempts
      {
        var s := kernel(call);
        if s.returned > 0 {
          var n := Min(s.returned, |data| - offset);
          ProgressStep(data, offset, attempts, call, kernel);
          offset, attempts, call := offset + n, 0, call + 1;
        } else if IsWouldBlock(s) && attempts < MaxWouldBlockRetries {
          RetryStep(data, offset, attempts, call, kernel);
          attempts, call := attempts + 1, call + 1;
        } else {
          StallStep(data, offset, attempts, call, kernel);
          return WriteReport(Some(s.errno), data[..offset], call + 1);
        }
      }
      DoneStep(data, attempts, call, kernel);
      r := WriteReport(None, data, call);
    }
  }

  /** What is still to come of a write that has accepted `data[..offset]`
      in `call` calls and has used `attempts` retries since its last progress. */
  function Pending(data: seq<bv8>, offset: nat, attempts: nat, call: nat, kernel: nat -> SysResult): WriteReport
    requires offset <= |data| && attempts <= MaxWouldBlockRetries
  {
    Prepend(data[..offset], call, Drive(data[offset..], attempts, call, kernel))
  }

  /** One loop turn of `Write` that makes progress. */
  lemma ProgressStep(data: seq<bv8>, offset: nat, attempts: nat, call: nat, kernel: nat -> SysResult)
    requires offset < |data| && attempts <= MaxWouldBlockRetries && kernel(call).returned > 0
    ensures var n := Min(kernel(call).returned, |data| - offset);
      Pending(data, offset, attempts, call, kernel) == Pending(data, offset + n, 0, call + 1, kernel)
  {
    var n := Min(kernel(call).returned, |data| - offset);
    ProgressResetsRetries(data[offset..], attempts, call, kernel);
    assert data[offset..][n..] == data[offset + n..];
    assert data[offset..][..n] == data[offset..offset + n];
    PrependTwice(data[..offset], data[offset..offset + n], call, Drive(data[offset + n..], 0, call + 1, kernel));
    assert data[..offset] + data[offset..offset + n] == data[..offset + n];
  }

  /** One loop turn of `Write` that retries a would-block. */
  lemma RetryStep(data: seq<bv8>, offset: nat, attempts: nat, call: nat, kernel: nat -> SysResult)
    requires offset < |data| && attempts < MaxWouldBlockRetries && IsWouldBlock(kernel(call))
    ensures Pending(data, offset, attempts, call, kernel) == Pending(data, offset, attempts + 1, call + 1, kernel)
  {
    WouldBlockRetries(data[offset..], attempts, call, kernel);
    PrependTwice(data[..offset], [], call, Drive(data[offset..], attempts + 1, call + 1, kernel));
    assert data[..offset] + [] == data[..offset];
  }

  /** The loop exit of `Write`: everything was accepted. */
  lemma DoneStep(data: seq<bv8>, attempts: nat, call: nat, kernel: nat -> SysResult)
    requires attempts <= MaxWouldBlockRetries
    ensures Pending(data, |data|, attempts, call, kernel) == WriteReport(None, data, call)
  {
    assert data[|data|..] == [] && data[..|data|] == data;
    assert data + [] == data;
  }

  /** The loop turn of `Write` that throws. */
  lemma StallStep(data: seq<bv8>, offset: nat, attempts: nat, call: nat, kernel: nat -> SysResult)
    requires offset < |data| && attempts <= MaxWouldBlockRetries && kernel(call).returned <= 0
    requires !IsWouldBlock(kernel(call)) || attempts == MaxWouldBlockRetries
    ensures Pending(data, offset, attempts, call, kernel) == WriteReport(Some(kernel(call).errno), data[..offset], call + 1)
  {
    StallThrows(data[offset..], attempts, call, kernel);
    assert data[..offset] + [] == data[..offset];
  }

  /** `tail`, reached after `calls` calls that accepted `sent`. */
  function Prepend(sent: seq<bv8>, calls: nat, tail: WriteReport): WriteReport {
    WriteReport(tail.error, sent + tail.sent, calls + tail.calls)
  }

  /** Every byte the kernel accepts is the next one of the buffer, each once
      and in order, and a write that throws nothing delivered all of it. */
  lemma {:induction false} DriveSendsPrefix(rest: seq<bv8>, attempts: nat, call: nat, kernel: nat -> SysResult)
    requires attempts <= MaxWouldBlockRetries
    ensures var r := Drive(rest, attempts, call, kernel);
      && |r.sent| <= |rest| && r.sent == rest[..|r.sent|]
      && (r.error.None? ==> r.sent == rest)
    decreases |rest|, MaxWouldBlockRetries - attempts
  {
    if |rest| > 0 {
      var s := kernel(call);
      if s.returned > 0 {
        var n := Min(s.returned, |rest|);
        var tail := Drive(rest[n..], 0, call + 1, kernel);
        DriveSendsPrefix(rest[n..], 0, call + 1, kernel);
        assert rest[..n] + rest[n..][..|tail.sent|] == rest[..n + |tail.sent|];
        assert rest[..n] + rest[n..] == rest;
      } else if IsWouldBlock(s) && attempts < MaxWouldBlockRetries {
        DriveSendsPrefix(rest, attempts + 1, call + 1, kernel);
      }
    }
  }

  lemma PrependTwice(a: seq<bv8>, b: seq<bv8>, calls: nat, tail: WriteReport)
    ensures Prepend(a, calls, Prepend(b, 1, tail)) == Prepend(a + b, calls + 1, tail)
  {
    assert a + (b + tail.sent) == (a + b) + tail.sent;
  }

  // ------------------------------------------------------ the retry budget

  /** Any progress restores the whole retry budget: after a call that
      accepts `n > 0` bytes the rest is written with no retries used. */
  lemma ProgressResetsRetries(rest: seq<bv8>, attempts: nat, call: nat, kernel: nat -> SysResult)
    requires |rest| > 0 && attempts <= MaxWouldBlockRetries
    requires kernel(call).returned > 0
    ensures var n := Min(kernel(call).returned, |rest|);
      Drive(rest, attempts, call, kernel) == Prepend(rest[..n], 1, Drive(rest[n..], 0, call + 1, kernel))
  {
  }

  /** A would-block within the budget costs one retry and nothing else. */
  lemma WouldBlockRetries(rest: seq<bv8>, attempts: nat, call: nat, kernel: nat -> SysResult)
    requires |rest| > 0 && attempts < MaxWouldBlockRetries
    requires IsWouldBlock(kernel(call))
    ensures Drive(rest, attempts, call, kernel) == Prepend([], 1, Drive(rest, attempts + 1, call + 1, kernel))
  {
  }

  /** A call that writes nothing, fails otherwise than by blocking, or blocks
      with the budget spent throws its `errno` at once. */
  lemma StallThrows(rest: seq<bv8>, attempts: nat, call: nat, kernel: nat -> SysResult)
    requires |rest| > 0 && attempts <= MaxWouldBlockRetries
    requires kernel(call).returned <= 0
    requires !IsWouldBlock(kernel(call)) || attempts == MaxWouldBlockRetries
    ensures Drive(rest, attempts, call, kernel) == WriteReport(Some(kernel(call).errno), [], 1)
  {
  }

  /** A buffer is written in full when the kernel reports would-block at
      most forty times in a row and then accepts everything asked for. */
  lemma {:induction false} FortyWouldBlocksAreRetried(rest: seq<bv8>, attempts: nat, call: nat, j: nat, kernel: nat -> SysResult)
    requires |rest| > 0 && attempts + j <= MaxWouldBlockRetries
    requires forall c :: call <= c < call + j ==> IsWouldBlock(kernel(c))
    requires kernel(call + j).returned >= |rest|
    ensures Drive(rest, attempts, call, kernel) == WriteReport(None, rest, j + 1)
    decreases j
  {
    if j > 0 {
      WouldBlockRetries(rest, attempts, call, kernel);
      FortyWouldBlocksAreRetried(rest, attempts + 1, call + 1, j - 1, kernel);
    } else {
      ProgressResetsRetries(rest, attempts, call, kernel);
      assert rest[|rest|..] == [] && rest[..|rest|] == rest;
    }
  }

  /** The forty-first would-block in a row throws `EAGAIN`. */
  lemma {:induction false} FortyFirstWouldBlockThrows(rest: seq<bv8>, attempts: nat, call: nat, kernel: nat -> SysResult)
    requires |rest| > 0 && attempts <= MaxWouldBlockRetries
    requires forall c :: call <= c <= call + MaxWouldBlockRetries - attempts ==> IsWouldBlock(kernel(c))
    ensures Drive(rest, attempts, call, kernel) == WriteReport(Some(EAGAIN), [], MaxWouldBlockRetries - attempts + 1)
    decreases MaxWouldBlockRetries - attempts
  {
    assert IsWouldBlock(kernel(call));
    if attempts < MaxWouldBlockRetries {
      WouldBlockRetries(rest, attempts, call, kernel);
      FortyFirstWouldBlockThrows(rest, attempts + 1, call + 1, kernel);
    } else {
      StallThrows(rest, attempts, call, kernel);
    }
  }

  // ----------------------------------------------------- the wait status

  /** `exitCode(from:)`: -1 for a child killed by a signal (low seven bits
      set), otherwise the exit status in bits 8 to 15. */
  function ExitCode(status: bv32): (r: int)
    ensures r == -1 <==> status & 0x7f != 0
    ensures r != -1 ==> 0 <= r < 256
  {
    if status & 0x7f != 0 then -1 else ((status >> 8) & 0xff) as int
  }

  /** A child that called `exit(code)` is reported with that code. */
  lemma ExitCodeOfExit(code: bv32)
    requires code < 256
    ensures ExitCode(code << 8) == code as int
  {
  }

  /** A child killed by signal `sig` (with or without a core dump) is
      reported as -1. */
  lemma ExitCodeOfSignal(sig: bv32, core: bool)
    requires 0 < sig < 0x7f
    ensures ExitCode(sig | (if core then 0x80 else 0)) == -1
  {
  }
}
