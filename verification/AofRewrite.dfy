/** The background rewrite of the append-only file. The child writes a snapshot; meanwhile the
    parent keeps what it executes in a list of blocks and passes it on through a pipe, until
    the child asks it to stop. Processes are interleaved arbitrarily and pipes are FIFO. */
module AofRewrite {
  import AofLoader
  import opened Common

  type byte = AofLoader.byte

  const BLOCK_SIZE: nat := 10485760
  const READ_SIZE: nat := 65536

  // -------------------------------------------------------------------------
  // The protocol
  // -------------------------------------------------------------------------

  datatype Child = Rewriting | Asking | Draining | Written(file: seq<byte>) | Installed(file: seq<byte>) | Failed

  datatype State = State(
    buffer: seq<byte>,    // parent: aof_rewrite_buf_blocks
    stop: bool,           // parent: aof_stop_sending_diff
    pipe: seq<byte>,      // parent -> child data
    diff: seq<byte>,      // child: aof_child_diff
    request: bool,        // child -> parent '!'
    ack: bool,            // parent -> child '!'
    child: Child)

  datatype Step =
    | Feed(bytes: seq<byte>)       // the parent executes a command
    | PassOn(n: nat)               // the parent's write handler moves n bytes into the pipe
    | Receive(n: nat)              // one read(2) of the child
    | Request                      // the child asks the parent to stop
    | Acknowledge(sent: bool)      // the parent stops, and its answer may get lost
    | SeeAck                       // the child reads the answer
    | Finish                       // a read found the pipe empty: write the file
    | Collect(ok: bool)            // the parent appends what it kept and renames the file
    | Fail                         // the child gives up, is killed, or times out

  function Started(): State {
    State([], false, [], [], false, false, Rewriting)
  }

  predicate Enabled(s: State, step: Step) {
    match step
    case Feed(_) => !s.child.Installed?
    case PassOn(n) => n <= |s.buffer| && (s.stop ==> n == 0)
    case Receive(n) => (s.child.Rewriting? || s.child.Draining?) && n <= |s.pipe| && n <= READ_SIZE
    case Request => s.child.Rewriting?
    case Acknowledge(_) => s.request
    case SeeAck => s.child.Asking? && s.ack
    case Finish => s.child.Draining? && s.pipe == []
    case Collect(_) => s.child.Written?
    case Fail => !s.child.Installed?
  }

  function Next(s: State, step: Step, snapshot: seq<byte>): State
    requires Enabled(s, step)
  {
    match step
    case Feed(bytes) => s.(buffer := s.buffer + bytes)
    case PassOn(n) => s.(pipe := s.pipe + s.buffer[..n], buffer := s.buffer[n..])
    case Receive(n) => s.(diff := s.diff + s.pipe[..n], pipe := s.pipe[n..])
    case Request => s.(request := true, child := Asking)
    case Acknowledge(sent) => s.(request := false, stop := true, ack := sent)
    case SeeAck => s.(ack := false, child := Draining)
    case Finish => s.(child := Written(snapshot + s.diff))
    case Collect(ok) => s.(child := if ok then Installed(s.child.file + s.buffer) else Failed)
    case Fail => s.(child := Failed)
  }

  /** What a run has fed to the parent since the fork. */
  function Fed(steps: seq<Step>): seq<byte> {
    if steps == [] then []
    else
      var last := steps[|steps| - 1];
      Fed(steps[..|steps| - 1]) + if last.Feed? then last.bytes else []
  }

  ghost predicate IsRun(states: seq<State>, steps: seq<Step>, snapshot: seq<byte>) {
    && |states| == |steps| + 1 && states[0] == Started()
    && (forall i :: 0 <= i < |steps| ==> Enabled(states[i], steps[i]))
    && (forall i :: 0 <= i < |steps| ==> states[i + 1] == Next(states[i], steps[i], snapshot))
  }

  /** Nothing is lost or repeated on the way, and once the child drains the pipe for the last
      time nothing enters it any more. */
  ghost predicate Invariant(s: State, snapshot: seq<byte>, fed: seq<byte>) {
    && (s.ack || s.child.Draining? || s.child.Written? ==> s.stop)
    && (s.child.Rewriting? ==> !s.request)
    && match s.child
       case Rewriting => s.diff + s.pipe + s.buffer == fed
       case Asking => s.diff + s.pipe + s.buffer == fed
       case Draining => s.diff + s.pipe + s.buffer == fed
       case Written(file) => s.pipe == [] && file + s.buffer == snapshot + fed
       case Installed(file) => file == snapshot + fed
       case Failed => true
  }

  lemma FeedKeepsBytes(s: State, bytes: seq<byte>, snapshot: seq<byte>, fed: seq<byte>)
    requires Invariant(s, snapshot, fed) && !s.child.Installed?
    ensures Invariant(s.(buffer := s.buffer + bytes), snapshot, fed + bytes)
  {
    assert s.diff + s.pipe + (s.buffer + bytes) == s.diff + s.pipe + s.buffer + bytes;
    if s.child.Written? {
      assert s.child.file + (s.buffer + bytes) == s.child.file + s.buffer + bytes;
      assert snapshot + fed + bytes == snapshot + (fed + bytes);
    }
  }

  lemma MoveKeepsBytes(s: State, step: Step, snapshot: seq<byte>, fed: seq<byte>)
    requires Enabled(s, step) && Invariant(s, snapshot, fed) && (step.PassOn? || step.Receive?)
    ensures Invariant(Next(s, step, snapshot), snapshot, fed)
  {
    if step.PassOn? {
      PassedOn(s.diff, s.pipe, s.buffer, step.n);
    } else {
      Regroup(s.diff, s.pipe, step.n);
    }
  }

  lemma PassedOn(d: seq<byte>, p: seq<byte>, b: seq<byte>, n: nat)
    requires n <= |b|
    ensures d + (p + b[..n]) + b[n..] == d + p + b
  {
    Assoc(d, p, b[..n]);
    Regroup(d + p, b, n);
  }

  lemma Regroup(d: seq<byte>, p: seq<byte>, n: nat)
    requires n <= |p|
    ensures d + p[..n] + p[n..] == d + p
  {
    assert p[..n] + p[n..] == p;
    Assoc(d, p[..n], p[n..]);
  }

  lemma FinishKeepsBytes(s: State, snapshot: seq<byte>, fed: seq<byte>)
    requires Enabled(s, Finish) && Invariant(s, snapshot, fed)
    ensures Invariant(Next(s, Finish, snapshot), snapshot, fed)
  {
    assert snapshot + s.diff + s.buffer == snapshot + (s.diff + s.pipe + s.buffer);
  }

  lemma StepKeepsBytes(s: State, step: Step, snapshot: seq<byte>, fed: seq<byte>)
    requires Enabled(s, step) && Invariant(s, snapshot, fed)
    ensures Invariant(Next(s, step, snapshot), snapshot, fed + if step.Feed? then step.bytes else [])
  {
    assert fed + [] == fed;
    match step
    case Feed(bytes) => FeedKeepsBytes(s, bytes, snapshot, fed);
    case PassOn(n) => MoveKeepsBytes(s, step, snapshot, fed);
    case Receive(n) => MoveKeepsBytes(s, step, snapshot, fed);
    case Finish => FinishKeepsBytes(s, snapshot, fed);
    case _ =>
  }

  lemma {:induction false} RunKeepsBytes(states: seq<State>, steps: seq<Step>, snapshot: seq<byte>)
    requires IsRun(states, steps, snapshot)
    ensures Invariant(states[|steps|], snapshot, Fed(steps))
  {
    if steps != [] {
      var n := |steps| - 1;
      RunKeepsBytes(states[..n + 1], steps[..n], snapshot);
      StepKeepsBytes(states[n], steps[n], snapshot, Fed(steps[..n]));
    }
  }

  /** For every interleaving: a rewrite that succeeds leaves the snapshot followed by exactly
      what was fed since the fork. */
  lemma SuccessfulRewrite(states: seq<State>, steps: seq<Step>, snapshot: seq<byte>)
    requires IsRun(states, steps, snapshot) && states[|steps|].child.Installed?
    ensures states[|steps|].child.file == snapshot + Fed(steps)
  {
    RunKeepsBytes(states, steps, snapshot);
  }

  // -------------------------------------------------------------------------
  // A rewrite can succeed
  // -------------------------------------------------------------------------

  /** The steps lead from `s` to `r`. */
  ghost predicate Leads(s: State, steps: seq<Step>, snapshot: seq<byte>, r: State)
    decreases |steps|
  {
    if steps == [] then r == s
    else Enabled(s, steps[0]) && Leads(Next(s, steps[0], snapshot), steps[1..], snapshot, r)
  }

  /** The child has not failed, and the answer it waits for is not lost. */
  predicate Hopeful(s: State) { !s.child.Failed? && (s.child.Asking? ==> s.request || s.ack) }

  lemma LeadsFirst(s: State, step: Step, rest: seq<Step>, snapshot: seq<byte>, r: State)
    requires Enabled(s, step) && Leads(Next(s, step, snapshot), rest, snapshot, r)
    ensures Leads(s, [step] + rest, snapshot, r)
  {
    hide Enabled, Next;
    assert ([step] + rest)[1..] == rest;
  }

  /** How far the child is from the end. */
  function Distance(s: State): nat {
    match s.child
    case Rewriting => |s.pipe| + 6
    case Asking => |s.pipe| + if s.ack then 4 else 5
    case Draining => |s.pipe| + 3
    case Written(_) => 1
    case Installed(_) => 0
    case Failed => 0
  }

  /** What happens next if all goes well and no more commands are executed. */
  function Forward(s: State): Step {
    match s.child
    case Rewriting => Request
    case Asking => if s.ack then SeeAck else Acknowledge(true)
    case Draining => if s.pipe == [] then Finish else Receive(if |s.pipe| < READ_SIZE then |s.pipe| else READ_SIZE)
    case Written(_) => Collect(true)
    case Installed(_) => Fail
    case Failed => Fail
  }

  lemma ForwardWorks(s: State, snapshot: seq<byte>, fed: seq<byte>)
    requires Invariant(s, snapshot, fed) && Hopeful(s) && !s.child.Installed?
    ensures Enabled(s, Forward(s)) && !Forward(s).Feed?
    ensures var r := Next(s, Forward(s), snapshot); Hopeful(r) && Distance(r) < Distance(s)
  {
  }

  /** From every state in which the child has not failed and waits for no lost answer, the rewrite
      can be brought to its end, with a file of the snapshot and all that was fed. */
  lemma {:induction false} CanSucceed(s: State, snapshot: seq<byte>, fed: seq<byte>)
    returns (steps: seq<Step>, r: State)
    requires Invariant(s, snapshot, fed) && Hopeful(s)
    ensures Leads(s, steps, snapshot, r) && r.child == Installed(snapshot + fed)
    decreases Distance(s)
  {
    hide Enabled, Next, Distance, Forward;
    if s.child.Installed? {
      steps, r := [], s;
    } else {
      ForwardWorks(s, snapshot, fed);
      StepKeepsBytes(s, Forward(s), snapshot, fed);
      assert fed + [] == fed;
      var rest;
      rest, r := CanSucceed(Next(s, Forward(s), snapshot), snapshot, fed);
      LeadsFirst(s, Forward(s), rest, snapshot, r);
      steps := [Forward(s)] + rest;
    }
  }

  /** A child that fails, or whose file cannot be put in place, has failed for good. */
  lemma FailureIsFinal(s: State, step: Step, snapshot: seq<byte>, steps: seq<Step>, r: State)
    requires Enabled(s, step) && (step == Fail || step == Collect(false))
    requires Leads(Next(s, step, snapshot), steps, snapshot, r)
    ensures !r.child.Installed?
  {
    hide Leads;
    CannotSucceed(Next(s, step, snapshot), steps, snapshot, r);
  }

  /** From any other state nothing brings it there. */
  lemma {:induction false} CannotSucceed(s: State, steps: seq<Step>, snapshot: seq<byte>, r: State)
    requires !Hopeful(s) && Leads(s, steps, snapshot, r)
    ensures !Hopeful(r) && !r.child.Installed?
    decreases |steps|
  {
    if steps != [] { CannotSucceed(Next(s, steps[0], snapshot), steps[1..], snapshot, r); }
  }

  // -------------------------------------------------------------------------
  // Blocks
  // -------------------------------------------------------------------------

  /** aofrwblock: the used bytes and the room that is left. */
  datatype Block = Block(data: seq<byte>, free: nat)

  function Concat(blocks: seq<Block>): seq<byte> {
    if blocks == [] then [] else Concat(blocks[..|blocks| - 1]) + blocks[|blocks| - 1].data
  }

  lemma {:induction false} ConcatHead(blocks: seq<Block>)
    requires blocks != []
    ensures Concat(blocks) == blocks[0].data + Concat(blocks[1..])
  {
    if |blocks| > 1 {
      var n := |blocks| - 1;
      ConcatHead(blocks[..n]);
      assert blocks[..n][1..] == blocks[1..][..n - 1];
    }
  }

  /** Every block that holds something is written completely. */
  ghost predicate WritesAll(blocks: seq<Block>, outcomes: seq<int>) {
    forall i :: 0 <= i < |blocks| && blocks[i].data != [] ==> i < |outcomes| && outcomes[i] == |blocks[i].data|
  }

  /** Of what the pipe `p` and the buffer `all` held when the child had `d`, the first `n` bytes
      of the buffer have been passed on and nothing has been lost. */
  ghost predicate Flows(d: seq<byte>, p: seq<byte>, all: seq<byte>, s: State, n: nat) {
    n <= |all| && s.buffer == all[n..] && s.diff + s.pipe == d + p + all[..n]
  }

  lemma FlowStarts(s: State)
    ensures Flows(s.diff, s.pipe, s.buffer, s, 0)
  {
    assert s.diff + s.pipe + s.buffer[..0] == s.diff + s.pipe;
  }

  lemma FlowsOn(d: seq<byte>, p: seq<byte>, all: seq<byte>, s: State, n: nat, step: Step)
    requires Flows(d, p, all, s, n) && Enabled(s, step) && (step.PassOn? || step.Receive?)
    ensures Flows(d, p, all, Next(s, step, []), if step.PassOn? then n + step.n else n)
    ensures var r := Next(s, step, []);
            && r == s.(diff := r.diff, pipe := r.pipe, buffer := r.buffer)
            && (if step.PassOn? then s.stop ==> step.n == 0 else |r.pipe| == |s.pipe| - step.n)
  {
    if step.PassOn? {
      var more := s.buffer[..step.n];
      assert all[..n + step.n] == all[..n] + more;
      Assoc(s.diff, s.pipe, more);
      Assoc(d + p, all[..n], more);
    } else {
      Regroup(s.diff, s.pipe, step.n);
    }
  }

  lemma FlowEnds(d: seq<byte>, p: seq<byte>, all: seq<byte>, s: State, n: nat)
    requires Flows(d, p, all, s, n) && s.pipe == []
    ensures n <= |all| && s.buffer == all[n..] && s.diff == d + p + all[..n] && |s.diff| == |d| + |p| + n
  {
    assert s.diff + s.pipe == s.diff;
  }

  /** The child has received what was in the pipe and `n` bytes that the parent held. */
  ghost function Received(s: State, n: nat): State
    requires n <= |s.buffer|
  {
    s.(diff := s.diff + s.pipe + s.buffer[..n], pipe := [], buffer := s.buffer[n..])
  }

  /** The two processes and the pipes between them. */
  class Rewriter {
    var blocks: seq<Block>
    var stop: bool
    var pipe: seq<byte>
    var diff: seq<byte>
    var request: bool
    var ack: bool
    var child: Child

    ghost predicate Valid()
      reads this
    {
      forall b :: b in blocks ==> |b.data| + b.free == BLOCK_SIZE
    }

    ghost function View(): State
      reads this
    {
      State(Concat(blocks), stop, pipe, diff, request, ack, child)
    }

    constructor ()
      ensures Valid() && View() == Started()
    {
      blocks, stop, pipe, diff, request, ack, child := [], false, [], [], false, false, Rewriting;
    }

    /** Copy into the last block what fits, and return the rest. */
    method FillLast(s: seq<byte>) returns (rest: seq<byte>)
      requires Valid() && blocks != []
      modifies this`blocks
      ensures Valid() && |blocks| == |old(blocks)|
      ensures Concat(blocks) + rest == old(Concat(blocks)) + s
      ensures old(blocks)[|blocks| - 1].free > 0 && s != [] ==> |rest| < |s|
      ensures |rest| <= |s|
    {
      var n := |blocks| - 1;
      var last := blocks[n];
      var thislen := if last.free < |s| then last.free else |s|;
      blocks := blocks[n := Block(last.data + s[..thislen], last.free - thislen)];
      rest := s[thislen..];
      assert blocks[..n] == old(blocks)[..n];
      assert s[..thislen] + rest == s;
    }

    /** aofRewriteBufferAppend */
    method Append(s: seq<byte>)
      requires Valid() && !child.Installed?
      modifies this`blocks
      ensures Valid()
      ensures View() == Next(old(View()), Feed(s), [])
    {
      hide Concat;
      var rest := s;
      while rest != []
        invariant Valid()
        invariant Concat(blocks) + rest == old(Concat(blocks)) + s
        decreases |rest|, if blocks != [] && blocks[|blocks| - 1].free > 0 then 0 else 1
      {
        if blocks != [] { rest := FillLast(rest); }
        if rest != [] { Grow(); }
      }
      assert Concat(blocks) + rest == Concat(blocks);
    }

    method Grow()
      requires Valid()
      modifies this`blocks
      ensures Valid() && blocks != [] && blocks[|blocks| - 1].free > 0
      ensures Concat(blocks) == old(Concat(blocks))
    {
      blocks := blocks + [Block([], BLOCK_SIZE)];
      assert blocks[..|blocks| - 1] == old(blocks);
    }

    /** aofChildWriteDiffData: `outcomes` are the results of write(2), which says how much the
        pipe took, or fails. The bytes that move are a prefix of what was waiting. */
    method ChildWriteDiffData(outcomes: seq<int>) returns (ghost n: nat)
      requires Valid()
      modifies this`blocks, this`pipe
      ensures Valid() && Enabled(old(View()), PassOn(n))
      ensures View() == Next(old(View()), PassOn(n), [])
      ensures n == 0 ==> stop || old(Concat(blocks)) == [] || outcomes == [] || outcomes[0] <= 0
    {
      hide Concat;
      var i := 0;
      n := 0;
      ghost var all := Concat(blocks);
      while !stop && blocks != []
        invariant Valid() && 0 <= i <= |outcomes| && n <= |all|
        invariant pipe == old(pipe) + all[..n] && Concat(blocks) == all[n..]
        invariant (n == 0 ==> i == 0) && (stop ==> n == 0)
        decreases |outcomes| - i, |blocks|
      {
        if |blocks[0].data| > 0 {
          if i == |outcomes| || outcomes[i] <= 0 { return; }
          var nwritten := if outcomes[i] < |blocks[0].data| then outcomes[i] else |blocks[0].data|;
          i := i + 1;
          MoveFirst(nwritten);
          assert all[..n] + all[n..][..nwritten] == all[..n + nwritten];
          n := n + nwritten;
        }
        if |blocks[0].data| == 0 { DropFirst(); }
      }
      if blocks == [] { NoBlocks(); }
    }

    lemma NoBlocks()
      requires blocks == []
      ensures Concat(blocks) == []
    {
    }

    method MoveFirst(n: nat)
      requires Valid() && blocks != [] && n <= |blocks[0].data|
      modifies this`blocks, this`pipe
      ensures Valid() && |blocks| == |old(blocks)| && n <= |old(Concat(blocks))|
      ensures Concat(blocks) == old(Concat(blocks))[n..] && pipe == old(pipe) + old(Concat(blocks))[..n]
    {
      hide Concat;
      var b := blocks[0];
      ConcatHead(blocks);
      ghost var tail := Concat(blocks[1..]);
      assert (b.data + tail)[n..] == b.data[n..] + tail && (b.data + tail)[..n] == b.data[..n];
      pipe := pipe + b.data[..n];
      blocks := blocks[0 := Block(b.data[n..], b.free + n)];
      ConcatHead(blocks);
      assert blocks[1..] == old(blocks)[1..];
    }

    method DropFirst()
      requires Valid() && blocks != [] && blocks[0].data == []
      modifies this`blocks
      ensures Valid() && Concat(blocks) == old(Concat(blocks)) && |blocks| < |old(blocks)|
    {
      ConcatHead(blocks);
      blocks := blocks[1..];
    }

    /** One read(2) of the child. */
    method Read(nread: nat)
      requires Valid() && Enabled(View(), Receive(nread))
      modifies this`diff, this`pipe
      ensures Valid() && View() == Next(old(View()), Receive(nread), [])
    {
      diff, pipe := diff + pipe[..nread], pipe[nread..];
    }

    /** aofReadDiffFromParent: every read is a step, and it goes on until a read finds the pipe
        empty. Before the i-th read the parent's write handler may run, with the results
        `writes[i]` of its writes. All that was in the pipe and the `n` bytes that the parent
        moves into it meanwhile are received. */
    method ReadDiffFromParent(writes: seq<seq<int>>) returns (total: nat, ghost n: nat)
      requires Valid() && (child.Rewriting? || child.Draining?)
      modifies this`diff, this`pipe, this`blocks
      ensures Valid() && n <= |old(Concat(blocks))| && (stop ==> n == 0) && total == |old(pipe)| + n
      ensures View() == Received(old(View()), n)
    {
      hide Concat, Flows, Next;
      n := 0;
      ghost var d, p, all := diff, pipe, Concat(blocks);
      var i, had := 0, |diff|;
      FlowStarts(View());
      while true
        invariant Valid() && 0 <= i <= |writes| && (stop ==> n == 0) && Flows(d, p, all, View(), n)
        invariant View() == old(View()).(diff := diff, pipe := pipe, buffer := Concat(blocks))
        decreases |writes| - i, |pipe|
      {
        ghost var before := View();
        if i < |writes| {
          ghost var more := ChildWriteDiffData(writes[i]);
          FlowsOn(d, p, all, before, n, PassOn(more));
          n := n + more;
          i := i + 1;
          before := View();
        }
        if pipe == [] { break; }
        var nread := if |pipe| < READ_SIZE then |pipe| else READ_SIZE;
        Read(nread);
        FlowsOn(d, p, all, before, n, Receive(nread));
      }
      FlowEnds(d, p, all, View(), n);
      total := |diff| - had;
    }

    /** aofChildPipeReadable */
    method ChildPipeReadable(sent: bool)
      requires Valid() && request
      modifies this`request, this`stop, this`ack
      ensures Valid() && View() == Next(old(View()), Acknowledge(sent), [])
    {
      request := false;
      stop := true;
      ack := sent;
    }

    /** The end of rewriteAppendOnlyFile, once the parent has agreed to stop: drain the pipe,
        then write what was received behind the snapshot. */
    method FinishChild(snapshot: seq<byte>, writes: seq<seq<int>>) returns (ghost n: nat)
      requires Valid() && child.Draining?
      modifies this`diff, this`pipe, this`blocks, this`child
      ensures Valid() && n <= |old(Concat(blocks))| && (stop ==> n == 0)
      ensures View() == Next(Received(old(View()), n), Finish, snapshot)
    {
      hide Concat;
      var total;
      total, n := ReadDiffFromParent(writes);
      child := Written(snapshot + diff);
    }

    /** aofRewriteBufferWrite: all blocks in order, or -1 after a short or failed write. */
    method BufferWrite(outcomes: seq<int>) returns (count: int, written: seq<byte>)
      requires Valid()
      ensures count != -1 <==> WritesAll(blocks, outcomes)
      ensures count != -1 ==> count == |written| && written == Concat(blocks)
    {
      count, written := 0, [];
      for i := 0 to |blocks|
        invariant count == |written| && written == Concat(blocks[..i])
        invariant forall j :: 0 <= j < i && blocks[j].data != [] ==> j < |outcomes| && outcomes[j] == |blocks[j].data|
      {
        var used := |blocks[i].data|;
        assert blocks[..i + 1][..i] == blocks[..i];
        if used > 0 {
          if i >= |outcomes| || outcomes[i] != used { return -1, written; }
          written := written + blocks[i].data;
          count := count + used;
        }
      }
      assert blocks[..|blocks|] == blocks;
    }

    /** The success branch of backgroundRewriteDoneHandler, then its cleanup. */
    method DoneHandler(isOpen: bool, outcomes: seq<int>, renamed: bool) returns (ok: bool)
      requires Valid() && child.Written?
      modifies this
      ensures Valid() && blocks == []
      ensures ok <==> isOpen && WritesAll(old(blocks), outcomes) && renamed
      ensures View() == Next(old(View()), Collect(ok), []).(buffer := [])
    {
      ok := false;
      if isOpen {
        var count, written := BufferWrite(outcomes);
        if count != -1 && renamed {
          ok := true;
          child := Installed(child.file + written);
        }
      }
      if !ok { child := Failed; }
      blocks := [];
    }
  }
}
