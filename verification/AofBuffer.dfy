/** The write buffer of the append-only file: commands are fed into aof_buf and flushed to the
    file, through short writes, failed writes, truncations and postponed flushes. */
module AofBuffer {
  import AofLoader

  type byte = AofLoader.byte

  datatype Fsync = Never | EverySecond | Always

  /** What one write(2) does. */
  datatype WriteOutcome = Wrote(n: nat) | Interrupted | Error

  /** What the environment decides during one flush. After the listed writes every write
      succeeds completely. */
  datatype Env = Env(force: bool, now: nat, fsyncInProgress: bool, writes: seq<WriteOutcome>, truncates: bool)

  datatype Log = Log(
    file: seq<byte>,
    buf: seq<byte>,
    currentSize: nat,
    lastWriteOk: bool,
    postponedStart: nat,
    exited: bool)

  function Min(a: nat, b: nat): nat { if a < b then a else b }

  /** How many of `len` bytes the writes bring to the disk before one of them fails. */
  function OnDisk(writes: seq<WriteOutcome>, len: nat): (r: nat)
    ensures r <= len
  {
    if len == 0 then 0
    else if writes == [] then len
    else match writes[0]
      case Interrupted => OnDisk(writes[1..], len)
      case Error => 0
      case Wrote(n) => Min(n, len) + OnDisk(writes[1..], len - Min(n, len))
  }

  /** aofWrite: try again after short and interrupted writes; report what was written, or -1
      if that is nothing. */
  method AofWrite(writes: seq<WriteOutcome>, data: seq<byte>) returns (r: int, disk: seq<byte>)
    ensures disk == data[..OnDisk(writes, |data|)]
    ensures r == if disk == [] && data != [] then -1 else |disk|
  {
    disk := [];
    var i, len := 0, |data|;
    while len > 0
      invariant 0 <= i <= |writes| && 0 <= len <= |data|
      invariant disk == data[..|data| - len]
      invariant |data| - len + OnDisk(writes[i..], len) == OnDisk(writes, |data|)
      decreases |writes| - i, len
    {
      if i == |writes| {
        disk, len := data, 0;
      } else {
        assert writes[i..][1..] == writes[i + 1..];
        match writes[i] {
          case Interrupted => i := i + 1;
          case Error => return if disk != [] then |disk| else -1, disk;
          case Wrote(n) =>
            var nwritten := Min(n, len);
            disk := disk + data[|data| - len..|data| - len + nwritten];
            len := len - nwritten;
            i := i + 1;
        }
      }
    }
    r := |disk|;
  }

  /** Is the flush put off because an fsync is going on? */
  predicate Postpones(l: Log, policy: Fsync, env: Env) {
    && policy.EverySecond? && !env.force && env.fsyncInProgress
    && (l.postponedStart == 0 || env.now - l.postponedStart < 2)
  }

  /** The state after a flush whose writes brought `n` bytes to the disk. */
  function AfterWrite(l: Log, policy: Fsync, env: Env, n: nat): Log
    requires n <= |l.buf| && l.currentSize <= |l.file|
  {
    var l := l.(postponedStart := 0);
    if n == |l.buf| then
      l.(file := l.file + l.buf, buf := [], currentSize := l.currentSize + n, lastWriteOk := true)
    else
      var undone := n > 0 && env.truncates;
      var file := if undone then l.file[..l.currentSize] else l.file + l.buf[..n];
      if policy.Always? then l.(file := file, exited := true)
      else if undone || n == 0 then l.(file := file, lastWriteOk := false)
      else l.(file := file, lastWriteOk := false, currentSize := l.currentSize + n, buf := l.buf[n..])
  }

  function Flush(l: Log, policy: Fsync, env: Env): Log
    requires l.currentSize <= |l.file|
  {
    if l.buf == [] then l
    else if Postpones(l, policy, env) then
      if l.postponedStart == 0 then l.(postponedStart := env.now) else l
    else AfterWrite(l, policy, env, OnDisk(env.writes, |l.buf|))
  }

  // -------------------------------------------------------------------------
  // Runs
  // -------------------------------------------------------------------------

  datatype Step = Feed(bytes: seq<byte>) | DoFlush(env: Env)

  /** The file and the buffer together hold what was fed, in order. */
  ghost predicate Complete(l: Log, fed: seq<byte>) {
    && l.currentSize == |l.file| && l.file + l.buf == fed
    && (!l.lastWriteOk ==> l.buf != [])
  }

  /** With the policy `always` a failed write ends the process; the file is a prefix then. */
  ghost predicate Invariant(l: Log, policy: Fsync, fed: seq<byte>) {
    && l.currentSize <= |l.file|
    && (if l.exited then policy.Always? && l.file <= fed else Complete(l, fed))
  }

  function Next(l: Log, policy: Fsync, step: Step): Log
    requires l.currentSize <= |l.file|
  {
    if l.exited then l
    else match step
      case Feed(bytes) => l.(buf := l.buf + bytes)
      case DoFlush(env) => Flush(l, policy, env)
  }

  function Fed(l: Log, step: Step): seq<byte> {
    if step.Feed? && !l.exited then step.bytes else []
  }

  lemma FlushKeepsLog(l: Log, policy: Fsync, env: Env, fed: seq<byte>)
    requires Complete(l, fed) && !l.exited
    ensures var r := Flush(l, policy, env);
            && r.currentSize <= |r.file|
            && (if r.exited then policy.Always? && r.file <= fed else Complete(r, fed))
  {
    var n := OnDisk(env.writes, |l.buf|);
    assert l.buf[..n] + l.buf[n..] == l.buf;
    assert l.file + l.buf[..n] + l.buf[n..] == fed;
    assert l.file[..l.currentSize] == l.file;
  }

  lemma StepKeepsLog(l: Log, policy: Fsync, step: Step, fed: seq<byte>)
    requires Invariant(l, policy, fed)
    ensures Invariant(Next(l, policy, step), policy, fed + Fed(l, step))
  {
    hide Flush;
    assert fed + [] == fed;
    if !l.exited {
      match step
      case Feed(bytes) => assert l.file + (l.buf + bytes) == l.file + l.buf + bytes;
      case DoFlush(env) => FlushKeepsLog(l, policy, env, fed);
    }
  }

  ghost predicate IsRun(states: seq<Log>, policy: Fsync, steps: seq<Step>) {
    && |states| == |steps| + 1
    && (forall i :: 0 <= i < |steps| ==> states[i].currentSize <= |states[i].file|)
    && (forall i :: 0 <= i < |steps| ==> states[i + 1] == Next(states[i], policy, steps[i]))
  }

  /** What a run has fed into the buffer. */
  ghost function AllFed(states: seq<Log>, steps: seq<Step>): seq<byte>
    requires |states| == |steps| + 1
  {
    if steps == [] then []
    else
      var n := |steps| - 1;
      AllFed(states[..n + 1], steps[..n]) + Fed(states[n], steps[n])
  }

  lemma Started(l: Log, policy: Fsync)
    requires Complete(l, l.file + l.buf) && !l.exited
    ensures Invariant(l, policy, l.file + l.buf)
  {
  }

  /** Through any sequence of feeds and flushes, whatever the disk does: unless the policy is
      `always` and a write failed, aof_current_size is the length of the file, and the file
      followed by the buffer is what the file held when it was opened and all that was fed. */
  lemma {:induction false} RunKeepsLog(states: seq<Log>, policy: Fsync, steps: seq<Step>)
    requires IsRun(states, policy, steps)
    requires Complete(states[0], states[0].file + states[0].buf) && !states[0].exited
    ensures Invariant(states[|steps|], policy, states[0].file + states[0].buf + AllFed(states, steps))
  {
    hide Next, Fed, Complete;
    var start := states[0].file + states[0].buf;
    if steps == [] {
      assert start + [] == start;
      assert Invariant(states[0], policy, start) by { Started(states[0], policy); }
    } else {
      var n := |steps| - 1;
      RunKeepsLog(states[..n + 1], policy, steps[..n]);
      var before := AllFed(states[..n + 1], steps[..n]);
      StepKeepsLog(states[n], policy, steps[n], start + before);
      assert start + before + Fed(states[n], steps[n]) == start + (before + Fed(states[n], steps[n]));
    }
  }

  lemma FlushGrows(l: Log, policy: Fsync, env: Env, fed: seq<byte>)
    requires Complete(l, fed) && !l.exited
    ensures l.file <= Flush(l, policy, env).file
  {
    assert l.file[..l.currentSize] == l.file;
  }

  /** Nothing that happens takes back what was in the file: undoing a write that failed removes
      that write alone. */
  lemma {:induction false} FileGrows(states: seq<Log>, policy: Fsync, steps: seq<Step>)
    requires IsRun(states, policy, steps)
    requires Complete(states[0], states[0].file + states[0].buf) && !states[0].exited
    ensures states[0].file <= states[|steps|].file
  {
    hide Flush, Complete, AllFed;
    if steps != [] {
      var n := |steps| - 1;
      FileGrows(states[..n + 1], policy, steps[..n]);
      RunKeepsLog(states[..n + 1], policy, steps[..n]);
      if !states[n].exited && steps[n].DoFlush? {
        FlushGrows(states[n], policy, steps[n].env,
                   states[0].file + states[0].buf + AllFed(states[..n + 1], steps[..n]));
      }
    }
  }

  /** The bytes that some writes bring to the disk if they are given enough. */
  function Total(writes: seq<WriteOutcome>): nat {
    if writes == [] then 0 else (if writes[0].Wrote? then writes[0].n else 0) + Total(writes[1..])
  }

  /** The first error ends the writing; interrupted writes are tried again. */
  lemma {:induction false} ErrorStops(writes: seq<WriteOutcome>, rest: seq<WriteOutcome>, len: nat)
    requires forall i :: 0 <= i < |writes| ==> !writes[i].Error?
    ensures OnDisk(writes + [Error] + rest, len) == Min(Total(writes), len) && OnDisk(writes, len) == len
  {
    var all := writes + [Error] + rest;
    if writes == [] {
      assert all[0] == Error;
    } else {
      assert all[0] == writes[0] && all[1..] == writes[1..] + [Error] + rest;
      ErrorStops(writes[1..], rest, len);
      if writes[0].Wrote? { ErrorStops(writes[1..], rest, len - Min(writes[0].n, len)); }
    }
  }

  /** After a flush that was not put off the error state says whether something was left behind. */
  lemma ErrorIsNoted(l: Log, policy: Fsync, env: Env, fed: seq<byte>)
    requires Complete(l, fed) && !l.exited && l.buf != [] && !Postpones(l, policy, env)
    ensures var r := Flush(l, policy, env);
            && (r.exited <==> policy.Always? && OnDisk(env.writes, |l.buf|) < |l.buf|)
            && (!r.exited ==> (r.lastWriteOk <==> r.buf == [])) && r.postponedStart == 0
  {
  }

  /** While an fsync goes on, a flush that was put off is put off again if and only if less than
      two seconds have passed. */
  lemma WaitsExactlyIf(l: Log, env: Env)
    requires l.currentSize <= |l.file| && l.buf != [] && l.postponedStart > 0
    requires env.fsyncInProgress && !env.force
    ensures Flush(l, EverySecond, env) == l <==> env.now < l.postponedStart + 2
  {
  }

  /** A flush is put off only with the policy everysec, not forced, and during an fsync; the time
      is remembered and nothing else changes. */
  lemma PostponedOnlyIf(l: Log, policy: Fsync, env: Env)
    requires l.currentSize <= |l.file| && l.buf != [] && Postpones(l, policy, env)
    ensures policy.EverySecond? && !env.force && env.fsyncInProgress
    ensures Flush(l, policy, env) == l.(postponedStart := if l.postponedStart == 0 then env.now else l.postponedStart)
  {
  }

  /** The step puts a flush off. */
  ghost predicate PutsOff(l: Log, policy: Fsync, step: Step) {
    step.DoFlush? && !l.exited && l.buf != [] && Postpones(l, policy, step.env)
  }

  lemma {:induction false} KeepsWaiting(states: seq<Log>, policy: Fsync, steps: seq<Step>, i: nat, k: nat)
    requires IsRun(states, policy, steps) && i < k < |states| && PutsOff(states[i], policy, steps[i])
    requires states[i].postponedStart == 0 && steps[i].env.now > 0
    requires forall j :: i < j < k ==> steps[j].Feed? || PutsOff(states[j], policy, steps[j])
    ensures states[k].postponedStart == steps[i].env.now && states[k].buf != [] && !states[k].exited
    decreases k
  {
    assert states[k] == Next(states[k - 1], policy, steps[k - 1]);
    if i < k - 1 { KeepsWaiting(states, policy, steps, i, k - 1); }
  }

  /** In every run: between the flush that is put off first and any later one that is still put
      off less than two seconds pass. */
  lemma PostponedBriefly(states: seq<Log>, policy: Fsync, steps: seq<Step>, i: nat, k: nat)
    requires IsRun(states, policy, steps) && i < k < |steps| && PutsOff(states[i], policy, steps[i])
    requires states[i].postponedStart == 0 && steps[i].env.now > 0
    requires forall j :: i < j <= k ==> steps[j].Feed? || PutsOff(states[j], policy, steps[j])
    ensures steps[k].DoFlush? ==> steps[k].env.now < steps[i].env.now + 2
  {
    hide Next;
    KeepsWaiting(states, policy, steps, i, k);
  }

  /** With `always` a flush leaves nothing behind, or the process ends. */
  lemma AlwaysIsComplete(l: Log, env: Env, fed: seq<byte>)
    requires Complete(l, fed) && !l.exited
    ensures var r := Flush(l, Always, env); r.exited || (r.buf == [] && r.file == fed)
  {
    FlushKeepsLog(l, Always, env, fed);
    assert l.file + [] == l.file;
  }

  /** A forced flush that meets no more errors writes everything, whatever failed before. */
  lemma RecoversAfterErrors(l: Log, policy: Fsync, env: Env, fed: seq<byte>)
    requires Complete(l, fed) && !l.exited && env.force && OnDisk(env.writes, |l.buf|) == |l.buf|
    ensures var r := Flush(l, policy, env); r.buf == [] && r.file == fed && r.lastWriteOk && r.currentSize == |fed|
  {
    FlushKeepsLog(l, policy, env, fed);
    assert l.file + [] == l.file;
  }

  // -------------------------------------------------------------------------
  // In memory
  // -------------------------------------------------------------------------

  class AppendOnlyFile {
    const policy: Fsync
    var file: seq<byte>
    var buf: seq<byte>
    var currentSize: nat
    var lastWriteOk: bool
    var postponedStart: nat
    var exited: bool

    ghost function View(): Log
      reads this
    {
      Log(file, buf, currentSize, lastWriteOk, postponedStart, exited)
    }

    constructor (policy: Fsync, file: seq<byte>)
      ensures this.policy == policy && View() == Log(file, [], |file|, true, 0, false) && Complete(View(), file)
    {
      this.policy, this.file, buf, currentSize := policy, file, [], |file|;
      lastWriteOk, postponedStart, exited := true, 0, false;
    }

    /** The end of feedAppendOnlyFile. */
    method Append(bytes: seq<byte>)
      requires currentSize <= |file| && !exited
      modifies this`buf
      ensures View() == Next(old(View()), policy, Feed(bytes))
    {
      buf := buf + bytes;
    }

    /** flushAppendOnlyFile */
    method FlushAppendOnlyFile(env: Env)
      requires currentSize <= |file| && !exited
      modifies this`file, this`buf, this`currentSize, this`lastWriteOk, this`postponedStart, this`exited
      ensures View() == Flush(old(View()), policy, env)
    {
      hide OnDisk;
      if |buf| == 0 { return; }
      if policy.EverySecond? && !env.force {
        if env.fsyncInProgress {
          if postponedStart == 0 {
            postponedStart := env.now;
            return;
          } else if env.now - postponedStart < 2 {
            return;
          }
        }
      }
      var nwritten, disk := AofWrite(env.writes, buf);
      assert (file + disk)[..currentSize] == file[..currentSize];
      file := file + disk;
      postponedStart := 0;
      if nwritten != |buf| {
        if nwritten != -1 && env.truncates {
          file := file[..currentSize];
          nwritten := -1;
        }
        if policy.Always? {
          exited := true;
          return;
        }
        lastWriteOk := false;
        if nwritten > 0 {
          currentSize := currentSize + nwritten;
          buf := buf[nwritten..];
        }
        return;
      }
      lastWriteOk := true;
      currentSize := currentSize + nwritten;
      buf := [];
    }
  }
}
