/** SELECT elision in the append-only file. A command is logged with a SELECT in front of it
    only if the log is not already in its database; the log may be exchanged for a rewritten
    one, or be turned off and on, at any time. Replaying it always gives the dataset. */
module AofSelect {
  import AofLoader
  import opened Common

  /** What a log holds; `C` are the commands that are fed. */
  datatype Entry<C> = Select(db: nat) | Run(cmd: C)

  datatype Mode = Off | WaitRewrite | On

  /** The server. `selected` is aof_selected_db, with None for -1. While a child rewrites,
      `child` is the snapshot it writes and `diff` is what was fed since the fork. */
  datatype Server<D, C> = Server(
    data: D,
    mode: Mode,
    log: seq<Entry<C>>,
    selected: Option<nat>,
    child: Option<seq<Entry<C>>>,
    diff: seq<Entry<C>>)

  /** Replaying: the dataset, and the database that is selected. */
  datatype Replica<D> = Replica(data: D, db: nat)

  function Replay<D, C>(exec: (D, nat, C) -> D, r: Replica<D>, log: seq<Entry<C>>): Replica<D> {
    if log == [] then r
    else
      var p := Replay(exec, r, log[..|log| - 1]);
      match log[|log| - 1]
      case Select(db) => p.(db := db)
      case Run(c) => p.(data := exec(p.data, p.db, c))
  }

  /** A server that starts loads its log into an empty dataset, with database 0 selected. */
  function LoadLog<D, C>(exec: (D, nat, C) -> D, empty: D, log: seq<Entry<C>>): Replica<D> {
    Replay(exec, Replica(empty, 0), log)
  }

  /** What feedAppendOnlyFile prints for a command executed on `db`. */
  function Entries<C>(selected: Option<nat>, db: nat, c: C): seq<Entry<C>> {
    (if selected == Some(db) then [] else [Select(db)]) + [Run(c)]
  }

  datatype Step<C> =
    | Execute(db: nat, cmd: C)
    | Fork(snapshot: seq<Entry<C>>)
    | ForkFails
    | Done(ok: bool)
    | TurnOff
    | TurnOn(busy: bool, image: Option<seq<Entry<C>>>)

  /** A snapshot is faithful if it loads as the dataset at the fork. */
  ghost predicate Enabled<D, C>(exec: (D, nat, C) -> D, empty: D, s: Server<D, C>, step: Step<C>) {
    match step
    case Execute(_, _) => true
    case Fork(snapshot) => s.child.None? && LoadLog(exec, empty, snapshot).data == s.data
    case ForkFails => true
    case Done(_) => s.child.Some?
    case TurnOff => s.mode != Off
    case TurnOn(busy, snapshot) =>
      && s.mode == Off && (busy ==> s.child.None?)
      && (!busy && snapshot.Some? ==> LoadLog(exec, empty, snapshot.value).data == s.data)
  }

  function Feed<D, C>(s: Server<D, C>, db: nat, c: C): Server<D, C> {
    var new' := Entries(s.selected, db, c);
    s.(selected := Some(db),
       log := if s.mode == On then s.log + new' else s.log,
       diff := if s.child.Some? then s.diff + new' else s.diff)
  }

  function Forked<D, C>(s: Server<D, C>, snapshot: seq<Entry<C>>): Server<D, C> {
    s.(child := Some(snapshot), diff := [], selected := None)
  }

  function Killed<D, C>(s: Server<D, C>): Server<D, C> {
    s.(child := None, diff := [])
  }

  function Next<D, C>(exec: (D, nat, C) -> D, s: Server<D, C>, step: Step<C>): Server<D, C>
    requires step.Done? ==> s.child.Some?
  {
    match step
    case Execute(db, c) =>
      var s' := s.(data := exec(s.data, db, c));
      if s.mode == Off then s' else Feed(s', db, c)
    case Fork(snapshot) => Forked(s, snapshot)
    case ForkFails => s
    case Done(ok) =>
      if !ok then Killed(s)
      else if s.mode == Off then Killed(s.(log := s.child.value + s.diff))
      else Killed(s.(log := s.child.value + s.diff, selected := None, mode := On))
    case TurnOff => Killed(s.(mode := Off, selected := None))
    case TurnOn(busy, snapshot) =>
      if busy then s.(mode := WaitRewrite)
      else if snapshot.None? then Killed(s)
      else Forked(Killed(s), snapshot.value).(mode := WaitRewrite)
  }

  /** `log` replays to `data` and ends in the database the server believes it to be in. */
  ghost predicate Current<D, C>(exec: (D, nat, C) -> D, empty: D, data: D, selected: Option<nat>, log: seq<Entry<C>>) {
    var r := LoadLog(exec, empty, log);
    r.data == data && (selected.Some? ==> r.db == selected.value)
  }

  /** While the log is on it is current, and so is a rewrite in progress that is fed. */
  ghost predicate Invariant<D, C>(exec: (D, nat, C) -> D, empty: D, s: Server<D, C>) {
    && (s.mode == On ==> Current(exec, empty, s.data, s.selected, s.log))
    && (s.mode != Off && s.child.Some? ==> Current(exec, empty, s.data, s.selected, s.child.value + s.diff))
  }

  lemma {:induction false} ReplayAppends<D, C>(exec: (D, nat, C) -> D, r: Replica<D>, a: seq<Entry<C>>,
                                               b: seq<Entry<C>>)
    ensures Replay(exec, r, a + b) == Replay(exec, Replay(exec, r, a), b)
    decreases |b|
  {
    if b == [] {
      assert a + b == a;
    } else {
      var n := |b| - 1;
      assert (a + b)[..|a + b| - 1] == a + b[..n];
      ReplayAppends(exec, r, a, b[..n]);
    }
  }

  lemma ReplayOne<D, C>(exec: (D, nat, C) -> D, r: Replica<D>, e: Entry<C>)
    ensures Replay(exec, r, [e]) == if e.Select? then r.(db := e.db) else r.(data := exec(r.data, r.db, e.cmd))
  {
    assert [e][..0] == [];
  }

  /** One fed command keeps a log current, whatever was elided. */
  lemma FeedKeepsCurrent<D, C>(exec: (D, nat, C) -> D, empty: D, data: D, selected: Option<nat>, log: seq<Entry<C>>,
                               db: nat, c: C)
    requires Current(exec, empty, data, selected, log)
    ensures Current(exec, empty, exec(data, db, c), Some(db), log + Entries(selected, db, c))
  {
    var es := Entries(selected, db, c);
    ReplayAppends(exec, Replica(empty, 0), log, es);
    var r := LoadLog(exec, empty, log);
    var r1 := r.(db := db);
    if selected != Some(db) {
      ReplayOne(exec, r, Select(db));
      ReplayAppends(exec, r, [Select(db)], [Run(c)]);
    } else {
      assert es == [Run(c)];
    }
    ReplayOne(exec, r1, Run(c));
  }

  lemma StepKeepsLogs<D, C>(exec: (D, nat, C) -> D, empty: D, s: Server<D, C>, step: Step<C>)
    requires Invariant(exec, empty, s) && Enabled(exec, empty, s, step)
    ensures Invariant(exec, empty, Next(exec, s, step))
  {
    hide Replay, Entries;
    match step
    case Execute(db, c) =>
      var es := Entries(s.selected, db, c);
      if s.mode == On { FeedKeepsCurrent(exec, empty, s.data, s.selected, s.log, db, c); }
      if s.mode != Off && s.child.Some? {
        FeedKeepsCurrent(exec, empty, s.data, s.selected, s.child.value + s.diff, db, c);
        assert s.child.value + s.diff + es == s.child.value + (s.diff + es);
      }
    case Fork(snapshot) => assert snapshot + [] == snapshot;
    case TurnOn(busy, snapshot) => if snapshot.Some? { assert snapshot.value + [] == snapshot.value; }
    case _ =>
  }

  ghost predicate IsRun<D, C>(exec: (D, nat, C) -> D, empty: D, states: seq<Server<D, C>>, steps: seq<Step<C>>) {
    && |states| == |steps| + 1
    && (forall i :: 0 <= i < |steps| ==> Enabled(exec, empty, states[i], steps[i]))
    && (forall i :: 0 <= i < |steps| ==> states[i + 1] == Next(exec, states[i], steps[i]))
  }

  /** In every run, across rewrites that start, succeed and fail and across turning the log off
      and on: whenever the log is on, loading it gives the dataset of the running server. */
  lemma {:induction false} LogReplaysToDataset<D, C>(
    exec: (D, nat, C) -> D, empty: D, states: seq<Server<D, C>>, steps: seq<Step<C>>)
    requires IsRun(exec, empty, states, steps) && Invariant(exec, empty, states[0])
    ensures Invariant(exec, empty, states[|steps|])
    ensures states[|steps|].mode == On ==> LoadLog(exec, empty, states[|steps|].log).data == states[|steps|].data
  {
    hide Next, LoadLog;
    if steps != [] {
      var n := |steps| - 1;
      LogReplaysToDataset(exec, empty, states[..n + 1], steps[..n]);
      StepKeepsLogs(exec, empty, states[n], steps[n]);
      assert states[n + 1] == Next(exec, states[n], steps[n]);
    }
  }

  /** A new server, with the log on or off. */
  function Started<D, C>(empty: D, on: bool): Server<D, C> {
    Server(empty, if on then On else Off, [], None, None, [])
  }

  lemma StartsCurrent<D, C>(exec: (D, nat, C) -> D, empty: D, on: bool)
    ensures Invariant(exec, empty, Started<D, C>(empty, on))
  {
  }

  /** The same from the start. */
  lemma LogReplaysFromStart<D, C>(
    exec: (D, nat, C) -> D, empty: D, on: bool, states: seq<Server<D, C>>, steps: seq<Step<C>>)
    requires IsRun(exec, empty, states, steps) && states[0] == Started(empty, on)
    ensures states[|steps|].mode == On ==> LoadLog(exec, empty, states[|steps|].log).data == states[|steps|].data
  {
    hide Next, LoadLog;
    StartsCurrent<D, C>(exec, empty, on);
    LogReplaysToDataset(exec, empty, states, steps);
  }

  // -------------------------------------------------------------------------
  // When the log is on
  // -------------------------------------------------------------------------

  /** A rewrite that succeeds while the log is on, or waited for, leaves it on and complete. */
  lemma RewriteTurnsOn<D, C>(exec: (D, nat, C) -> D, empty: D, s: Server<D, C>)
    requires Invariant(exec, empty, s) && s.mode != Off && s.child.Some?
    ensures var r := Next(exec, s, Done(true));
            r.mode == On && r.child.None? && r.data == s.data && LoadLog(exec, empty, r.log).data == s.data
  {
  }

  /** Turning the log on succeeds if a rewrite starts now, or must wait for another child. */
  ghost predicate TurnsOn<C>(step: Step<C>) { step.TurnOn? && (step.busy || step.image.Some?) }

  /** What a step does to the mode of the log, to its file and to a rewrite in progress. */
  lemma StepSwitches<D, C>(exec: (D, nat, C) -> D, empty: D, s: Server<D, C>, step: Step<C>)
    requires Enabled(exec, empty, s, step)
    ensures var r := Next(exec, s, step);
            && (r.mode == Off <==> step.TurnOff? || (s.mode == Off && !TurnsOn(step)))
            && (r.mode == On <==> if s.mode == On then !step.TurnOff? else s.mode == WaitRewrite && step == Done(true))
            && (TurnsOn(step) ==> step.busy || r.child == step.image)
            && (step.Fork? ==> r.child == Some(step.snapshot) && r.diff == [])
            && (step.Execute? || step.ForkFails? ==> r.child == s.child)
            && (step.Done? || step.TurnOff? ==> r.child.None? && r.data == s.data)
            && (step.Done? ==> r.log == if step.ok then s.child.value + s.diff else s.log)
            && (step.TurnOff? || step.Fork? ==> r.log == s.log)
            && (step.Execute? ==> s.log <= r.log && (s.log < r.log <==> s.mode == On))
  {
    hide Replay;
  }

  ghost predicate StaysOn<C>(steps: seq<Step<C>>, first: nat, last: nat)
    requires first <= last <= |steps|
  {
    forall i :: first <= i < last ==> !steps[i].TurnOff?
  }

  lemma {:induction false} WaitsOrIsOn<D, C>(exec: (D, nat, C) -> D, empty: D, states: seq<Server<D, C>>,
                                             steps: seq<Step<C>>, a: nat, i: nat)
    requires IsRun(exec, empty, states, steps) && a <= i < |states| && StaysOn(steps, a, i)
    ensures states[a].mode != Off ==> states[i].mode != Off
    ensures states[a].mode == On ==> states[i].mode == On
    decreases i
  {
    hide Next, LoadLog;
    if a < i {
      WaitsOrIsOn(exec, empty, states, steps, a, i - 1);
      StepSwitches(exec, empty, states[i - 1], steps[i - 1]);
      assert states[i] == Next(exec, states[i - 1], steps[i - 1]);
    }
  }

  lemma LogReplaysAt<D, C>(exec: (D, nat, C) -> D, empty: D, states: seq<Server<D, C>>, steps: seq<Step<C>>, i: nat)
    requires IsRun(exec, empty, states, steps) && Invariant(exec, empty, states[0]) && i < |states|
    ensures Invariant(exec, empty, states[i])
    ensures states[i].mode == On ==> LoadLog(exec, empty, states[i].log).data == states[i].data
  {
    hide Next, LoadLog;
    LogReplaysToDataset(exec, empty, states[..i + 1], steps[..i]);
  }

  /** In every run: the log is turned on in step `a`, a rewrite succeeds in step `b`, and nobody
      turns it off until state `i`. From the end of the rewrite on the log is on, and in each of
      these states it replays to the dataset. */
  lemma OnAfterRewrite<D, C>(exec: (D, nat, C) -> D, empty: D, states: seq<Server<D, C>>, steps: seq<Step<C>>,
                             a: nat, b: nat, i: nat)
    requires IsRun(exec, empty, states, steps) && Invariant(exec, empty, states[0])
    requires a < b < i < |states| && TurnsOn(steps[a]) && steps[b] == Done(true) && StaysOn(steps, a, i)
    ensures states[i].mode == On && LoadLog(exec, empty, states[i].log).data == states[i].data
  {
    hide Next, LoadLog, Invariant;
    StepSwitches(exec, empty, states[a], steps[a]);
    assert states[a + 1] == Next(exec, states[a], steps[a]);
    WaitsOrIsOn(exec, empty, states, steps, a + 1, b);
    StepSwitches(exec, empty, states[b], steps[b]);
    assert states[b + 1] == Next(exec, states[b], steps[b]);
    WaitsOrIsOn(exec, empty, states, steps, b + 1, i);
    LogReplaysAt(exec, empty, states, steps, i);
  }

  /** And only so: a log that is on was on from the start, or has been turned on and a rewrite
      has succeeded since, without being turned off. */
  lemma {:induction false} OnOnlyAfterRewrite<D, C>(exec: (D, nat, C) -> D, empty: D, states: seq<Server<D, C>>,
                                                    steps: seq<Step<C>>, i: nat) returns (b: nat)
    requires IsRun(exec, empty, states, steps) && i < |states| && states[i].mode == On
    ensures b <= i && StaysOn(steps, b, i)
    ensures if b == 0 then states[0].mode == On else states[b - 1].mode == WaitRewrite && steps[b - 1] == Done(true)
    decreases i
  {
    hide Next, LoadLog;
    b := i;
    if i > 0 {
      StepSwitches(exec, empty, states[i - 1], steps[i - 1]);
      assert states[i] == Next(exec, states[i - 1], steps[i - 1]);
      if states[i - 1].mode == On { b := OnOnlyAfterRewrite(exec, empty, states, steps, i - 1); }
    }
  }

  // -------------------------------------------------------------------------
  // In memory
  // -------------------------------------------------------------------------

  const SELECT: AofLoader.Arg := [83, 69, 76, 69, 67, 84]

  /** The bytes that feedAppendOnlyFile prints for a SELECT. */
  function SelectBytes(db: nat): seq<AofLoader.byte> {
    var seldb := AofLoader.Digits(db);
    [42, 50, 13, 10, 36, 54, 13, 10] + SELECT + [13, 10, 36] + AofLoader.Digits(|seldb|) + [13, 10] + seldb + [13, 10]
  }

  /** They are the command SELECT in the format of the file. */
  lemma SelectIsACommand(db: nat)
    ensures SelectBytes(db) == AofLoader.Encode([SELECT, AofLoader.Digits(db)])
  {
    hide AofLoader.EncodeArg, AofLoader.EncodeLine, AofLoader.Digits;
    var seldb := AofLoader.Digits(db);
    var c: AofLoader.Command := [SELECT, seldb];
    var last: AofLoader.Command := [seldb];
    assert c[1..] == last && last[1..] == [];
    assert AofLoader.EncodeArgs(last[1..]) == [];
    assert AofLoader.EncodeArgs(last) == AofLoader.EncodeArg(seldb);
    SelectHeaders();
    ArgBytes(seldb);
  }

  lemma SelectHeaders()
    ensures AofLoader.EncodeLine(42, 2) == [42, 50, 13, 10]
    ensures AofLoader.EncodeArg(SELECT) == [36, 54, 13, 10] + SELECT + [13, 10]
  {
    assert AofLoader.EncodeLine(36, 6) == [36, 54, 13, 10];
  }

  lemma ArgBytes(a: AofLoader.Arg)
    ensures AofLoader.EncodeArg(a) == [36] + AofLoader.Digits(|a|) + [13, 10] + a + [13, 10]
  {
  }

  class Feeder<C> {
    var mode: Mode
    var log: seq<Entry<C>>
    var selected: Option<nat>
    var child: Option<seq<Entry<C>>>
    var diff: seq<Entry<C>>

    ghost function View<D>(data: D): Server<D, C>
      reads this
    {
      Server(data, mode, log, selected, child, diff)
    }

    constructor (mode: Mode)
      ensures this.mode == mode && log == [] && selected == None && child == None && diff == []
    {
      this.mode, log, selected, child, diff := mode, [], None, None, [];
    }

    /** feedAppendOnlyFile, called by propagate unless the log is off */
    method FeedAppendOnlyFile(db: nat, c: C)
      requires mode != Off
      modifies this`log, this`selected, this`diff
      ensures View(0) == Feed(old(View(0)), db, c)
    {
      var buf: seq<Entry<C>> := [];
      if selected != Some(db) {
        buf := buf + [Select(db)];
        selected := Some(db);
      }
      buf := buf + [Run(c)];
      if mode == On { log := log + buf; }
      if child.Some? { diff := diff + buf; }
    }

    /** rewriteAppendOnlyFileBackground */
    method RewriteBackground(snapshot: Option<seq<Entry<C>>>) returns (ok: bool)
      modifies this`child, this`diff, this`selected
      ensures ok == (old(child).None? && snapshot.Some?)
      ensures View(0) == if ok then Forked(old(View(0)), snapshot.value) else old(View(0))
    {
      if child.Some? || snapshot.None? { return false; }
      child, diff, selected := snapshot, [], None;
      return true;
    }

    /** backgroundRewriteDoneHandler */
    method RewriteDone(ok: bool)
      requires child.Some?
      modifies this
      ensures View(0) == Next((d, db, c) => d, old(View(0)), Done(ok))
    {
      if ok {
        log := child.value + diff;
        if mode != Off { selected := None; }
        if mode == WaitRewrite { mode := On; }
      }
      child, diff := None, [];
    }

    /** stopAppendOnly */
    method StopAppendOnly()
      requires mode != Off
      modifies this
      ensures View(0) == Next((d, db, c) => d, old(View(0)), TurnOff)
    {
      mode, selected := Off, None;
      child, diff := None, [];
    }

    /** startAppendOnly */
    method StartAppendOnly(opens: bool, busy: bool, snapshot: Option<seq<Entry<C>>>) returns (ok: bool)
      requires mode == Off && (busy ==> child.None?)
      modifies this
      ensures ok == (opens && (busy || snapshot.Some?))
      ensures View(0) == if opens then Next((d, db, c) => d, old(View(0)), TurnOn(busy, snapshot)) else old(View(0))
    {
      if !opens { return false; }
      if !busy {
        child, diff := None, [];
        ok := RewriteBackground(snapshot);
        if !ok { return; }
      }
      mode := WaitRewrite;
      return true;
    }
  }
}
