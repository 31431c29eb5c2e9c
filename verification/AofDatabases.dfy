/** The append-only file from the executed commands to the bytes and back: commands are printed
    with a SELECT in front where the log is in another database, pass through the write buffer
    or a rewrite, and loading the file runs each in its database. */
module AofDatabases {
  import AofBuffer
  import AofRewrite
  import opened AofDurable
  import opened AofLoader
  import opened AofResume
  import opened AofSelect
  import opened AofTransactions
  import opened Common

  datatype Execution = Execution(db: nat, cmd: Command)

  // -------------------------------------------------------------------------
  // The server that executes
  // -------------------------------------------------------------------------

  function Executed<D>(exec: (D, nat, Command) -> D, data: D, es: seq<Execution>): D {
    if es == [] then data
    else
      var n := |es| - 1;
      exec(Executed(exec, data, es[..n]), es[n].db, es[n].cmd)
  }

  /** aof_selected_db after some commands were fed; it starts as -1. */
  function SelectedAfter(es: seq<Execution>): Option<nat> {
    if es == [] then None else Some(es[|es| - 1].db)
  }

  /** The log of the executed commands. */
  function Printed(es: seq<Execution>): seq<Entry<Command>> {
    if es == [] then []
    else
      var n := |es| - 1;
      Printed(es[..n]) + Entries(SelectedAfter(es[..n]), es[n].db, es[n].cmd)
  }

  /** The bytes that feedAppendOnlyFile appends. */
  function PrintedBytes(selected: Option<nat>, e: Execution): seq<byte> {
    (if selected == Some(e.db) then [] else SelectBytes(e.db)) + Encode(e.cmd)
  }

  // -------------------------------------------------------------------------
  // The loader that executes
  // -------------------------------------------------------------------------

  const SELECT_NAME: Arg := [115, 101, 108, 101, 99, 116]

  /** The database that a string names: string2ll and selectDb. */
  function DbOf(a: Arg, dbnum: nat): Option<nat> {
    if a == [] || (exists i :: 0 <= i < |a| && !IsDigit(a[i])) || (a[0] == ZERO && |a| > 1) then None
    else if Value(a) < dbnum then Some(Value(a))
    else None
  }

  /** One command of the file. A SELECT that fails is only an error. */
  function Apply<D>(exec: (D, nat, Command) -> D, dbnum: nat, r: Replica<D>, c: Command): Replica<D> {
    if c == [] then r
    else if Lower(c[0]) == SELECT_NAME then
      if |c| > 1 && DbOf(c[1], dbnum).Some? then r.(db := DbOf(c[1], dbnum).value) else r
    else r.(data := exec(r.data, r.db, c))
  }

  function Applied<D>(exec: (D, nat, Command) -> D, dbnum: nat, r: Replica<D>, cs: seq<Command>): Replica<D> {
    if cs == [] then r else Apply(exec, dbnum, Applied(exec, dbnum, r, cs[..|cs| - 1]), cs[|cs| - 1])
  }

  /** The dataset of a server that starts with a file whose loading executes `cs`. */
  function Rebuilt<D>(exec: (D, nat, Command) -> D, dbnum: nat, empty: D, cs: seq<Command>): D {
    Applied(exec, dbnum, Replica(empty, 0), cs).data
  }

  lemma {:induction false} AppliedBoth<D>(exec: (D, nat, Command) -> D, dbnum: nat, r: Replica<D>, a: seq<Command>,
                                          b: seq<Command>)
    ensures Applied(exec, dbnum, r, a + b) == Applied(exec, dbnum, Applied(exec, dbnum, r, a), b)
    decreases |b|
  {
    hide Apply;
    if b == [] {
      assert a + b == a;
    } else {
      var n := |b| - 1;
      assert (a + b)[..|a + b| - 1] == a + b[..n];
      AppliedBoth(exec, dbnum, r, a, b[..n]);
    }
  }

  lemma AppliedOne<D>(exec: (D, nat, Command) -> D, dbnum: nat, r: Replica<D>, c: Command)
    ensures Applied(exec, dbnum, r, [c]) == Apply(exec, dbnum, r, c)
  {
    hide Apply;
    assert [c][..0] == [];
  }

  // -------------------------------------------------------------------------
  // Entries and commands
  // -------------------------------------------------------------------------

  function CommandOf(e: Entry<Command>): Command {
    match e
    case Select(db) => [SELECT, Digits(db)]
    case Run(c) => c
  }

  function CommandsOf(es: seq<Entry<Command>>): seq<Command> {
    seq(|es|, i requires 0 <= i < |es| => CommandOf(es[i]))
  }

  lemma CommandsBoth(a: seq<Entry<Command>>, b: seq<Entry<Command>>)
    ensures CommandsOf(a + b) == CommandsOf(a) + CommandsOf(b)
  {
    hide CommandOf;
  }

  /** What is executed: an existing database, and no SELECT, which is never fed. */
  ghost predicate Executable(e: Execution, dbnum: nat) {
    e.db < dbnum && e.cmd != [] && Lower(e.cmd[0]) != SELECT_NAME
  }

  ghost predicate AllExecutable(es: seq<Execution>, dbnum: nat) {
    forall i :: 0 <= i < |es| ==> Executable(es[i], dbnum)
  }

  lemma {:induction false} DigitsLead(n: nat)
    ensures Digits(n)[0] == ZERO ==> |Digits(n)| == 1
    ensures n > 0 ==> Digits(n)[0] != ZERO
  {
    if n >= 10 { DigitsLead(n / 10); }
  }

  lemma DbOfDigits(db: nat, dbnum: nat)
    requires db < dbnum
    ensures DbOf(Digits(db), dbnum) == Some(db)
  {
    hide Value, Digits;
    DigitsLead(db);
    ValueOfDigits(db);
  }

  lemma {:induction false} DigitsOfValue(a: seq<byte>)
    requires a != [] && (forall i :: 0 <= i < |a| ==> IsDigit(a[i])) && (a[0] == ZERO ==> |a| == 1)
    ensures Digits(Value(a)) == a && (|a| > 1 ==> Value(a) > 0)
  {
    var n := |a| - 1;
    assert IsDigit(a[n]);
    if n == 0 {
      assert a[..0] == [] && a == [a[0]];
    } else {
      DigitsOfValue(a[..n]);
      if n == 1 { assert Value(a[..1]) == a[0] - ZERO by { assert a[..1][..0] == []; } }
      var v, d := Value(a[..n]), a[n] - ZERO;
      assert Value(a) == 10 * v + d && v > 0;
      assert Value(a) / 10 == v && Value(a) % 10 == d;
      assert a == a[..n] + [a[n]];
    }
  }

  /** A string names a database if and only if it is the number of one as it is printed. */
  lemma DbOfExactly(a: Arg, dbnum: nat, db: nat)
    ensures DbOf(a, dbnum) == Some(db) <==> db < dbnum && a == Digits(db)
  {
    hide Value, Digits;
    if DbOf(a, dbnum) == Some(db) { DigitsOfValue(a); }
    if db < dbnum { DbOfDigits(db, dbnum); }
  }

  lemma LowerSelect()
    ensures Lower(SELECT) == SELECT_NAME
  {
  }

  /** SELECT with anything that does not name a database changes nothing. */
  lemma SelectExactly<D>(exec: (D, nat, Command) -> D, dbnum: nat, r: Replica<D>, c: Command)
    requires c != [] && Lower(c[0]) == SELECT_NAME
    ensures forall db: nat :: |c| > 1 && c[1] == Digits(db) && db < dbnum ==>
              Apply(exec, dbnum, r, c) == r.(db := db)
    ensures (forall db: nat :: db < dbnum ==> |c| == 1 || c[1] != Digits(db)) ==> Apply(exec, dbnum, r, c) == r
  {
    hide DbOf, Digits;
    if |c| > 1 {
      forall db: nat | c[1] == Digits(db) && db < dbnum ensures DbOf(c[1], dbnum) == Some(db) {
        DbOfExactly(c[1], dbnum, db);
      }
      if DbOf(c[1], dbnum).Some? { DbOfExactly(c[1], dbnum, DbOf(c[1], dbnum).value); }
    }
  }

  lemma SelectApplies<D>(exec: (D, nat, Command) -> D, dbnum: nat, r: Replica<D>, db: nat)
    requires db < dbnum
    ensures Apply(exec, dbnum, r, CommandOf(Select(db))) == r.(db := db)
  {
    hide DbOf, Lower, Digits;
    LowerSelect();
    DbOfDigits(db, dbnum);
  }

  /** One command, fed into a log that is in the database `selected`, runs in its own. */
  lemma EntriesApply<D>(exec: (D, nat, Command) -> D, dbnum: nat, r: Replica<D>, selected: Option<nat>, e: Execution)
    requires Executable(e, dbnum) && (selected.Some? ==> r.db == selected.value)
    ensures Applied(exec, dbnum, r, CommandsOf(Entries(selected, e.db, e.cmd)))
         == Replica(exec(r.data, e.db, e.cmd), e.db)
  {
    hide Lower, Digits, Applied;
    var select, run: seq<Command> := [CommandOf(Select(e.db))], [e.cmd];
    if selected == Some(e.db) {
      assert CommandsOf(Entries(selected, e.db, e.cmd)) == run;
      AppliedOne(exec, dbnum, r, e.cmd);
    } else {
      assert CommandsOf(Entries(selected, e.db, e.cmd)) == select + run;
      AppliedBoth(exec, dbnum, r, select, run);
      AppliedOne(exec, dbnum, r, CommandOf(Select(e.db)));
      SelectApplies(exec, dbnum, r, e.db);
      AppliedOne(exec, dbnum, r.(db := e.db), e.cmd);
    }
  }

  /** Whatever database the loader is in: the log of the executed commands has their effect. */
  lemma {:induction false} PrintedApply<D>(exec: (D, nat, Command) -> D, dbnum: nat, r: Replica<D>, es: seq<Execution>)
    requires AllExecutable(es, dbnum)
    ensures var p := Applied(exec, dbnum, r, CommandsOf(Printed(es)));
            p.data == Executed(exec, r.data, es) && (es != [] ==> p.db == es[|es| - 1].db)
  {
    hide Applied, Executable, Entries;
    if es == [] {
      assert Applied(exec, dbnum, r, []) == r by { AppliedNone(exec, dbnum, r); }
      assert CommandsOf([]) == [];
    } else {
      var n := |es| - 1;
      PrintedApply(exec, dbnum, r, es[..n]);
      var last := Entries(SelectedAfter(es[..n]), es[n].db, es[n].cmd);
      CommandsBoth(Printed(es[..n]), last);
      AppliedBoth(exec, dbnum, r, CommandsOf(Printed(es[..n])), CommandsOf(last));
      EntriesApply(exec, dbnum, Applied(exec, dbnum, r, CommandsOf(Printed(es[..n]))), SelectedAfter(es[..n]), es[n]);
    }
  }

  lemma AppliedNone<D>(exec: (D, nat, Command) -> D, dbnum: nat, r: Replica<D>)
    ensures Applied(exec, dbnum, r, []) == r
  {
  }

  // -------------------------------------------------------------------------
  // Logs that are cut off
  // -------------------------------------------------------------------------

  /** The first entries of a log are those of the first `j` commands, and perhaps the SELECT of
      the next. */
  ghost predicate CutsBehind(es: seq<Execution>, m: nat, j: nat) {
    && m <= |Printed(es)| && j <= |es| && |Printed(es[..j])| <= m
    && (j < |es| ==> m < |Printed(es[..j + 1])|)
    && (Printed(es)[..m] == Printed(es[..j])
        || (j < |es| && Printed(es)[..m] == Printed(es[..j]) + [Select(es[j].db)]))
  }

  lemma {:induction false} CutPrinted(es: seq<Execution>, m: nat) returns (j: nat)
    requires m <= |Printed(es)|
    ensures CutsBehind(es, m, j)
  {
    if m == |Printed(es)| {
      j := |es|;
      assert es[..j] == es;
    } else {
      var n := |es| - 1;
      var before := Printed(es[..n]);
      assert es[..n + 1] == es;
      if m <= |before| {
        j := CutPrinted(es[..n], m);
        assert es[..n][..j] == es[..j];
        if j < n { assert es[..n][..j + 1] == es[..j + 1]; }
        assert Printed(es)[..m] == before[..m];
      } else {
        j := n;
        assert Printed(es)[..m] == before + [Select(es[n].db)];
      }
    }
  }

  lemma CutApplies<D>(exec: (D, nat, Command) -> D, dbnum: nat, r: Replica<D>, es: seq<Execution>, m: nat, j: nat)
    requires AllExecutable(es, dbnum) && CutsBehind(es, m, j)
    ensures Applied(exec, dbnum, r, CommandsOf(Printed(es)[..m])).data == Executed(exec, r.data, es[..j])
  {
    hide Applied, Executed, Printed, CommandOf, Lower;
    PrintedApply(exec, dbnum, r, es[..j]);
    if Printed(es)[..m] != Printed(es[..j]) {
      var select := Select(es[j].db);
      CommandsBoth(Printed(es[..j]), [select]);
      AppliedBoth(exec, dbnum, r, CommandsOf(Printed(es[..j])), CommandsOf([select]));
      assert CommandsOf([select]) == [CommandOf(select)];
      var p := Applied(exec, dbnum, r, CommandsOf(Printed(es[..j])));
      AppliedOne(exec, dbnum, p, CommandOf(select));
      SelectApplies(exec, dbnum, p, es[j].db);
    }
  }

  // -------------------------------------------------------------------------
  // Transactions
  // -------------------------------------------------------------------------

  /** MULTI and EXEC themselves change no data. */
  ghost predicate IgnoresBrackets<D(!new)>(exec: (D, nat, Command) -> D) {
    forall d, db :: exec(d, db, MULTI_COMMAND) == d && exec(d, db, EXEC_COMMAND) == d
  }

  lemma BracketApplies<D(!new)>(exec: (D, nat, Command) -> D, dbnum: nat, r: Replica<D>, a: seq<Command>, c: Command)
    requires IgnoresBrackets(exec) && (c == MULTI_COMMAND || c == EXEC_COMMAND)
    ensures Applied(exec, dbnum, r, a + [c]) == Applied(exec, dbnum, r, a)
  {
    hide Applied;
    Brackets();
    AppliedBoth(exec, dbnum, r, a, [c]);
    AppliedOne(exec, dbnum, Applied(exec, dbnum, r, a), c);
  }

  lemma FlatApplies<D(!new)>(exec: (D, nat, Command) -> D, dbnum: nat, r: Replica<D>, item: Item)
    requires IgnoresBrackets(exec)
    ensures Applied(exec, dbnum, r, Flat(item)) == Applied(exec, dbnum, r, Effect(item))
  {
    hide Applied;
    match item
    case Plain(c) =>
    case Transaction(cs) =>
      var m := [MULTI_COMMAND];
      BracketApplies(exec, dbnum, r, m + cs, EXEC_COMMAND);
      AppliedBoth(exec, dbnum, r, m, cs);
      assert [] + m == m;
      BracketApplies(exec, dbnum, r, [], MULTI_COMMAND);
      AppliedNone(exec, dbnum, r);
  }

  /** What takes effect has the effect of what is logged. */
  lemma {:induction false} ItemsApply<D(!new)>(exec: (D, nat, Command) -> D, dbnum: nat, r: Replica<D>,
                                               items: seq<Item>)
    requires IgnoresBrackets(exec)
    ensures Applied(exec, dbnum, r, FlatAll(items)) == Applied(exec, dbnum, r, Effects(items))
    decreases |items|
  {
    hide Applied, Flat, Effect, IgnoresBrackets;
    if items != [] {
      var rest := items[1..];
      FlatApplies(exec, dbnum, r, items[0]);
      AppliedBoth(exec, dbnum, r, Flat(items[0]), FlatAll(rest));
      AppliedBoth(exec, dbnum, r, Effect(items[0]), Effects(rest));
      ItemsApply(exec, dbnum, Applied(exec, dbnum, r, Effect(items[0])), rest);
    }
  }

  // -------------------------------------------------------------------------
  // Through the write buffer
  // -------------------------------------------------------------------------

  /** The commands that were executed until the process exited; `execs[i]` belongs to step `i`. */
  ghost function Executions(states: seq<AofBuffer.Log>, steps: seq<AofBuffer.Step>,
                            execs: seq<Execution>): seq<Execution>
    requires |states| == |steps| + 1 && |execs| == |steps|
  {
    if steps == [] then []
    else
      var n := |steps| - 1;
      Executions(states[..n + 1], steps[..n], execs[..n])
      + if steps[n].Feed? && !states[n].exited then [execs[n]] else []
  }

  /** Every feed appends the bytes of its command, with SELECT if the log is elsewhere. */
  ghost predicate FeedsPrinted(states: seq<AofBuffer.Log>, steps: seq<AofBuffer.Step>, execs: seq<Execution>) {
    && |states| == |steps| + 1 && |execs| == |steps|
    && forall i :: 0 <= i < |steps| && steps[i].Feed? ==>
         steps[i].bytes == PrintedBytes(SelectedAfter(Executions(states[..i + 1], steps[..i], execs[..i])), execs[i])
  }

  lemma PrintedIsEncoded(selected: Option<nat>, e: Execution)
    ensures PrintedBytes(selected, e) == EncodeAll(CommandsOf(Entries(selected, e.db, e.cmd)))
  {
    hide Encode, EncodeAll, SelectBytes;
    SelectIsACommand(e.db);
    var select, run: seq<Command> := [CommandOf(Select(e.db))], [e.cmd];
    EncodeOne(e.cmd);
    EncodeOne(CommandOf(Select(e.db)));
    if selected == Some(e.db) {
      assert CommandsOf(Entries(selected, e.db, e.cmd)) == run;
    } else {
      assert CommandsOf(Entries(selected, e.db, e.cmd)) == select + run;
      EncodeBoth(select, run);
    }
  }

  lemma EncodeOne(c: Command)
    ensures EncodeAll([c]) == Encode(c)
  {
    hide Encode;
    assert [c][1..] == [];
    assert Encode(c) + [] == Encode(c);
  }

  lemma PrintedOneMore(es: seq<Execution>, e: Execution)
    ensures Printed(es + [e]) == Printed(es) + Entries(SelectedAfter(es), e.db, e.cmd)
  {
    hide Entries, SelectedAfter;
    assert (es + [e])[..|es|] == es;
  }

  /** The log of the executed commands, as commands. */
  function LogOf(es: seq<Execution>): seq<Command> { CommandsOf(Printed(es)) }

  /** What is appended to it. */
  function Appended(es: seq<Execution>, e: Execution): seq<Command> {
    CommandsOf(Entries(SelectedAfter(es), e.db, e.cmd))
  }

  lemma LogOneMore(es: seq<Execution>, e: Execution)
    ensures LogOf(es + [e]) == LogOf(es) + Appended(es, e)
  {
    hide Entries, SelectedAfter, Printed, CommandsOf;
    PrintedOneMore(es, e);
    CommandsBoth(Printed(es), Entries(SelectedAfter(es), e.db, e.cmd));
  }

  /** The same as commands. */
  lemma {:induction false} FeedsOf(states: seq<AofBuffer.Log>, steps: seq<AofBuffer.Step>, execs: seq<Execution>)
    returns (feeds: seq<seq<Command>>)
    requires FeedsPrinted(states, steps, execs)
    ensures FeedsCommands(steps, feeds)
    ensures Commands(states, steps, feeds) == LogOf(Executions(states, steps, execs))
  {
    hide PrintedBytes, EncodeAll, LogOf, Appended, SelectedAfter;
    if steps == [] {
      feeds := [];
      assert LogOf([]) == [] by { NothingPrinted(); }
    } else {
      var n := |steps| - 1;
      PrintedBefore(states, steps, execs);
      var before := FeedsOf(states[..n + 1], steps[..n], execs[..n]);
      var es := Executions(states[..n + 1], steps[..n], execs[..n]);
      AppendedIsPrinted(es, execs[n]);
      feeds := before + [Appended(es, execs[n])];
      FeedsOneMore(steps, before, Appended(es, execs[n]));
      assert feeds[..n] == before;
      LogOneMore(es, execs[n]);
      assert es + [] == es && LogOf(es) + [] == LogOf(es);
    }
  }

  lemma NothingPrinted()
    ensures LogOf([]) == []
  {
  }

  lemma AppendedIsPrinted(es: seq<Execution>, e: Execution)
    ensures PrintedBytes(SelectedAfter(es), e) == EncodeAll(Appended(es, e))
  {
    hide PrintedBytes, SelectedAfter, EncodeAll, CommandsOf, Entries;
    PrintedIsEncoded(SelectedAfter(es), e);
  }

  lemma FeedsOneMore(steps: seq<AofBuffer.Step>, feeds: seq<seq<Command>>, cs: seq<Command>)
    requires steps != [] && FeedsCommands(steps[..|steps| - 1], feeds)
    requires var last := steps[|steps| - 1]; last.Feed? ==> last.bytes == EncodeAll(cs)
    ensures FeedsCommands(steps, feeds + [cs])
  {
    hide EncodeAll;
  }

  lemma PrintedBefore(states: seq<AofBuffer.Log>, steps: seq<AofBuffer.Step>, execs: seq<Execution>)
    requires FeedsPrinted(states, steps, execs) && steps != []
    ensures var n := |steps| - 1; FeedsPrinted(states[..n + 1], steps[..n], execs[..n])
  {
    hide PrintedBytes, Executions, SelectedAfter;
    var n := |steps| - 1;
    forall i | 0 <= i < n && steps[..n][i].Feed?
      ensures steps[..n][i].bytes
           == PrintedBytes(SelectedAfter(Executions(states[..n + 1][..i + 1], steps[..n][..i], execs[..n][..i])),
                           execs[..n][i])
    {
      assert states[..n + 1][..i + 1] == states[..i + 1];
      assert steps[..n][..i] == steps[..i] && execs[..n][..i] == execs[..i];
    }
  }

  /** What the loading of a file executes. */
  function LoadedCommands(file: seq<byte>, o: Options): seq<Command> {
    var r := Load(file, o);
    if r.Loaded? || r.Exits? then r.commands else []
  }

  lemma PrefixOfCommands(es: seq<Entry<Command>>, cs: seq<Command>)
    requires cs <= CommandsOf(es)
    ensures cs == CommandsOf(es[..|cs|])
  {
    hide CommandOf;
  }

  /** The whole items of a log: the dataset after the first `j` commands. */
  lemma KeptRebuilds<D(!new)>(exec: (D, nat, Command) -> D, dbnum: nat, empty: D, was: seq<Item>, more: seq<Item>,
                              k: nat, es: seq<Execution>) returns (j: nat)
    requires IgnoresBrackets(exec) && AllExecutable(es, dbnum) && LogOf(es) == FlatAll(more)
    ensures |FlatAll(Kept(more, k))| <= |Printed(es)| && CutsBehind(es, |FlatAll(Kept(more, k))|, j)
    ensures Rebuilt(exec, dbnum, empty, Effects(was) + Effects(Kept(more, k)))
         == Executed(exec, Rebuilt(exec, dbnum, empty, Effects(was)), es[..j])
  {
    hide Applied, Executed, Printed, CommandOf, Executable, IgnoresBrackets, FlatAll, Effects, Finished;
    var kept := Kept(more, k);
    FlatPrefix(more, |kept|);
    var m := |FlatAll(kept)|;
    j := CutPrinted(es, m);
    PrefixOfCommands(Printed(es), FlatAll(kept));
    var r := Applied(exec, dbnum, Replica(empty, 0), Effects(was));
    AppliedBoth(exec, dbnum, Replica(empty, 0), Effects(was), Effects(kept));
    ItemsApply(exec, dbnum, r, kept);
    CutApplies(exec, dbnum, r, es, m, j);
  }

  lemma KeptOfNothing(more: seq<Item>)
    ensures Kept(more, 0) == []
  {
    hide Encode;
    var cs := FlatAll(more);
    EncodeNonEmpty(cs);
    assert Whole(cs, 0) == 0;
  }

  lemma {:induction false} FinishedAll(more: seq<Item>)
    ensures Finished(more, |FlatAll(more)|) == |more|
  {
    hide Flat;
    if more != [] { FinishedAll(more[1..]); }
  }

  lemma KeptOfAll(more: seq<Item>)
    ensures Kept(more, Size(more)) == more
  {
    hide FlatAll, Finished, Whole, EncodeAll;
    WholeOfAll(FlatAll(more));
    FinishedAll(more);
  }

  lemma NothingLogged(items: seq<Item>)
    requires Size(items) == 0
    ensures items == []
  {
    hide FlatAll, EncodeAll;
    if items != [] {
      NotEmptyFlat(items);
      EncodedPositive(FlatAll(items));
    }
  }

  lemma {:induction false} PrintedGrows(es: seq<Execution>, j: nat)
    requires j <= |es|
    ensures |Printed(es[..j])| <= |Printed(es)|
  {
    hide Entries;
    if j == |es| {
      assert es[..j] == es;
    } else {
      var n := |es| - 1;
      PrintedGrows(es[..n], j);
      assert es[..n][..j] == es[..j];
    }
  }

  /** Loading the file rebuilds the dataset after the first `j` commands since it held `was`. */
  ghost predicate RebuildsAt<D>(exec: (D, nat, Command) -> D, dbnum: nat, empty: D, l: AofBuffer.Log, was: seq<Item>,
                                more: seq<Item>, es: seq<Execution>, j: nat, o: Options)
    requires |EncodeAll(FlatAll(was))| <= |l.file|
  {
    && CutsBehind(es, |FlatAll(Kept(more, |l.file| - |EncodeAll(FlatAll(was))|))|, j)
    && Rebuilt(exec, dbnum, empty, LoadedCommands(l.file, o))
       == Executed(exec, Rebuilt(exec, dbnum, empty, Effects(was)), es[..j])
    && (!l.exited && l.buf == [] ==> j == |es|)
  }

  /** In every state of every run, whatever the disk did and also after the process exited:
      loading the file rebuilds the dataset as it was after the first `j` of the executed
      commands, `j` being the most whose entries lie among the whole items of the file. If it
      was flushed that is the dataset of the running server. */
  lemma FileRebuilds<D(!new)>(
    exec: (D, nat, Command) -> D, dbnum: nat, empty: D, states: seq<AofBuffer.Log>, policy: AofBuffer.Fsync,
    steps: seq<AofBuffer.Step>, execs: seq<Execution>, was: seq<Item>, more: seq<Item>, o: Options)
    returns (j: nat)
    requires IgnoresBrackets(exec)
    requires AofBuffer.IsRun(states, policy, steps) && FeedsPrinted(states, steps, execs)
    requires states[0].file == EncodeAll(FlatAll(was)) && states[0].buf == []
    requires AofBuffer.Complete(states[0], states[0].file) && !states[0].exited
    requires Logged(was) && Logged(more) && Loadable(FlatAll(was) + FlatAll(more), o)
    requires var es := Executions(states, steps, execs);
             AllExecutable(es, dbnum) && LogOf(es) == FlatAll(more)
    ensures |EncodeAll(FlatAll(was))| <= |states[|steps|].file|
    ensures RebuildsAt(exec, dbnum, empty, states[|steps|], was, more, Executions(states, steps, execs), j, o)
  {
    hide Applied, Executed, Printed, CommandOf, Executable, IgnoresBrackets, FlatAll, Effects, Finished, EncodeAll,
      Load, Logged, Loadable, Commands, Executions, AofBuffer.Next, Kept, Whole, HasTransaction;
    var es, l := Executions(states, steps, execs), states[|steps|];
    var feeds := FeedsOf(states, steps, execs);
    assert FlatAll(was) + [] == FlatAll(was);
    FileResumes(states, policy, steps, feeds, was, [], more, o);
    var k := |l.file| - |states[0].file|;
    j := KeptRebuilds(exec, dbnum, empty, was, more, k, es);
    assert l.file != [] ==> LoadedCommands(l.file, o) == Effects(was) + Effects(Kept(more, k));
    if l.file == [] {
      NothingLogged(was);
      KeptOfNothing(more);
      assert Effects([]) + Effects([]) == [] by { NoEffects(); }
    }
    assert states[0].file + [] == states[0].file;
    AofBuffer.FileGrows(states, policy, steps);
    if !l.exited && l.buf == [] {
      EncodeBoth(FlatAll(was), FlatAll(more));
      KeptOfAll(more);
      if j < |es| { PrintedGrows(es, j + 1); }
    }
  }

  lemma NoEffects()
    ensures Effects([]) == []
  {
  }

  // -------------------------------------------------------------------------
  // Through a rewrite
  // -------------------------------------------------------------------------

  ghost function ExecutedSinceFork(steps: seq<AofRewrite.Step>, execs: seq<Execution>): seq<Execution>
    requires |execs| == |steps|
  {
    if steps == [] then []
    else
      var n := |steps| - 1;
      ExecutedSinceFork(steps[..n], execs[..n]) + if steps[n].Feed? then [execs[n]] else []
  }

  /** The fork resets aof_selected_db. */
  ghost predicate RewritePrinted(steps: seq<AofRewrite.Step>, execs: seq<Execution>) {
    && |execs| == |steps|
    && forall i :: 0 <= i < |steps| && steps[i].Feed? ==>
         steps[i].bytes == PrintedBytes(SelectedAfter(ExecutedSinceFork(steps[..i], execs[..i])), execs[i])
  }

  lemma RewritePrintedBefore(steps: seq<AofRewrite.Step>, execs: seq<Execution>)
    requires RewritePrinted(steps, execs) && steps != []
    ensures var n := |steps| - 1; RewritePrinted(steps[..n], execs[..n])
  {
    hide PrintedBytes, ExecutedSinceFork, SelectedAfter;
    var n := |steps| - 1;
    forall i | 0 <= i < n && steps[..n][i].Feed?
      ensures steps[..n][i].bytes
           == PrintedBytes(SelectedAfter(ExecutedSinceFork(steps[..n][..i], execs[..n][..i])), execs[..n][i])
    {
      assert steps[..n][..i] == steps[..i] && execs[..n][..i] == execs[..i];
    }
  }

  lemma {:induction false} RewriteFeedsOf(steps: seq<AofRewrite.Step>, execs: seq<Execution>)
    returns (feeds: seq<seq<Command>>)
    requires RewritePrinted(steps, execs)
    ensures RewriteFeeds(steps, feeds)
    ensures SinceFork(steps, feeds) == LogOf(ExecutedSinceFork(steps, execs))
  {
    hide PrintedBytes, EncodeAll, LogOf, Appended, SelectedAfter;
    if steps == [] {
      feeds := [];
      assert LogOf([]) == [] by { NothingPrinted(); }
    } else {
      var n := |steps| - 1;
      RewritePrintedBefore(steps, execs);
      var before := RewriteFeedsOf(steps[..n], execs[..n]);
      var es := ExecutedSinceFork(steps[..n], execs[..n]);
      AppendedIsPrinted(es, execs[n]);
      feeds := before + [Appended(es, execs[n])];
      assert feeds[..n] == before;
      LogOneMore(es, execs[n]);
      assert es + [] == es && LogOf(es) + [] == LogOf(es);
    }
  }

  /** A rewrite that succeeds, under any interleaving, leaves a file whose loading rebuilds the
      dataset of the snapshot and then runs every command since the fork in its database. */
  lemma RewriteRebuilds<D(!new)>(
    exec: (D, nat, Command) -> D, dbnum: nat, empty: D, states: seq<AofRewrite.State>, steps: seq<AofRewrite.Step>,
    execs: seq<Execution>, snapshot: seq<Command>, items: seq<Item>, o: Options)
    requires IgnoresBrackets(exec)
    requires AofRewrite.IsRun(states, steps, EncodeAll(snapshot)) && RewritePrinted(steps, execs)
    requires states[|steps|].child.Installed?
    requires var es := ExecutedSinceFork(steps, execs);
             AllExecutable(es, dbnum) && snapshot + LogOf(es) == FlatAll(items)
    requires Logged(items) && Loadable(FlatAll(items), o)
    ensures Rebuilt(exec, dbnum, empty, LoadedCommands(states[|steps|].child.file, o))
         == Executed(exec, Rebuilt(exec, dbnum, empty, snapshot), ExecutedSinceFork(steps, execs))
  {
    hide Applied, Executed, Printed, CommandOf, Executable, IgnoresBrackets, FlatAll, Effects, EncodeAll, Load, Logged,
      Loadable, SinceFork, ExecutedSinceFork, AofRewrite.Next;
    var es, file := ExecutedSinceFork(steps, execs), states[|steps|].child.file;
    var feeds := RewriteFeedsOf(steps, execs);
    RewrittenLoads(states, steps, feeds, snapshot, items, o);
    var log := LogOf(es);
    var r := Applied(exec, dbnum, Replica(empty, 0), snapshot);
    ItemsApply(exec, dbnum, Replica(empty, 0), items);
    AppliedBoth(exec, dbnum, Replica(empty, 0), snapshot, log);
    PrintedApply(exec, dbnum, r, es);
    if file == [] {
      AofRewrite.SuccessfulRewrite(states, steps, EncodeAll(snapshot));
      RewriteFedIsEncoded(steps, feeds);
      EncodeBoth(snapshot, log);
      NothingLogged(items);
      NoEffects();
    }
  }

  // -------------------------------------------------------------------------
  // The log of entries
  // -------------------------------------------------------------------------

  ghost predicate Writable(e: Entry<Command>, dbnum: nat) {
    match e
    case Select(db) => db < dbnum
    case Run(c) => c != [] && Lower(c[0]) != SELECT_NAME
  }

  /** Replaying entries is applying their commands. */
  lemma {:induction false} ReplayIsApplied<D>(exec: (D, nat, Command) -> D, dbnum: nat, r: Replica<D>,
                                              log: seq<Entry<Command>>)
    requires forall i :: 0 <= i < |log| ==> Writable(log[i], dbnum)
    ensures Replay(exec, r, log) == Applied(exec, dbnum, r, CommandsOf(log))
  {
    hide Lower, Digits, DbOf;
    if log != [] {
      var n := |log| - 1;
      ReplayIsApplied(exec, dbnum, r, log[..n]);
      assert CommandsOf(log)[..n] == CommandsOf(log[..n]);
      var p := Replay(exec, r, log[..n]);
      match log[n]
      case Select(db) => SelectApplies(exec, dbnum, p, db);
      case Run(c) =>
    }
  }

  /** In every run of the server, across rewrites that start, succeed and fail and across turning
      the log off and on: whenever the log is on, loading its bytes rebuilds the dataset. */
  lemma LogBytesRebuild<D(!new)>(
    exec: (D, nat, Command) -> D, dbnum: nat, empty: D, on: bool, states: seq<Server<D, Command>>,
    steps: seq<AofSelect.Step<Command>>, items: seq<Item>, o: Options)
    requires IgnoresBrackets(exec)
    requires AofSelect.IsRun(exec, empty, states, steps) && states[0] == AofSelect.Started(empty, on)
    requires states[|steps|].mode == On
    requires var log := states[|steps|].log;
             && (forall i :: 0 <= i < |log| ==> Writable(log[i], dbnum))
             && CommandsOf(log) == FlatAll(items) && Logged(items) && Loadable(FlatAll(items), o)
    ensures var s := states[|steps|];
            Rebuilt(exec, dbnum, empty, LoadedCommands(EncodeAll(CommandsOf(s.log)), o)) == s.data
  {
    hide Applied, CommandOf, IgnoresBrackets, FlatAll, Effects, EncodeAll, Load, Logged, Loadable, Writable, Replay,
      AofSelect.Next, AofSelect.Enabled;
    var log := states[|steps|].log;
    LogReplaysFromStart(exec, empty, on, states, steps);
    ReplayIsApplied(exec, dbnum, Replica(empty, 0), log);
    ItemsApply(exec, dbnum, Replica(empty, 0), items);
    if Size(items) == 0 {
      NothingLogged(items);
      NoEffects();
      assert Load([], o) == Empty by { LoadsEmpty(o); }
    } else {
      assert items[..|items|] == items;
      WholeItemsLoad(items, |items|, o);
    }
  }

  lemma LoadsEmpty(o: Options)
    ensures Load([], o) == Empty
  {
  }
}
