/** Logging goes on after a load that cut the file off. A load that ends inside a command of a
    transaction leaves the beginning of the transaction in the file, and what is logged behind
    it is read as its continuation: single commands are rolled back with it, and the next
    transaction executes the torn one. Here is what exactly is executed, and when it is right. */
module AofResume {
  import opened AofLoader
  import opened AofTransactions
  import opened Common

  ghost predicate HasTransaction(items: seq<Item>) {
    exists i :: 0 <= i < |items| && items[i].Transaction?
  }

  lemma HasFirst(items: seq<Item>)
    requires items != []
    ensures HasTransaction(items) <==> items[0].Transaction? || HasTransaction(items[1..])
  {
    if HasTransaction(items[1..]) {
      var i :| 0 <= i < |items[1..]| && items[1..][i].Transaction?;
      assert items[i + 1].Transaction?;
    }
    if HasTransaction(items) && !items[0].Transaction? {
      var i :| 0 <= i < |items| && items[i].Transaction?;
      assert items[1..][i - 1].Transaction?;
    }
  }

  /** The beginning of a transaction, or nothing. */
  ghost predicate TornStart(t: seq<Command>) {
    t != [] ==> t[0] == MULTI_COMMAND && AllOrdinary(t[1..])
  }

  // -------------------------------------------------------------------------
  // The client with an open transaction
  // -------------------------------------------------------------------------

  /** A queue has been executed: everything in it that acts, and then what followed. */
  ghost predicate Flushed(c: Client, items: seq<Item>, r: Client)
    requires c.queue.Some?
  {
    r.queue.None? && r.done == c.done + Acting(c.queue.value) + Effects(items)
  }

  /** The queue has only grown. */
  ghost predicate StillOpen(c: Client, items: seq<Item>, r: Client)
    requires c.queue.Some?
  {
    r.queue == Some(c.queue.value + Effects(items)) && r.done == c.done && r.before == c.before
  }

  lemma PlainQueued(c: Client, cmd: Command, pos: nat)
    requires c.queue.Some? && AllOrdinary([cmd])
    ensures RanAll(c, [cmd], pos) == c.(queue := Some(c.queue.value + [cmd]))
    ensures Acting(c.queue.value + [cmd]) == Acting(c.queue.value) + [cmd]
  {
    hide Acting;
    Queues(c, [cmd], pos);
    OrdinaryActs([cmd]);
    ActingBoth(c.queue.value, [cmd]);
  }

  lemma AreProper(cs: seq<Command>)
    requires AllOrdinary(cs)
    ensures Proper([MULTI_COMMAND] + cs) && Proper(cs)
  {
    hide Ordinary;
  }

  lemma OneEffect(item: Item)
    ensures Effects([item]) == Effect(item) && FlatAll([item]) == Flat(item)
  {
    hide Effect, Flat;
    assert [item][1..] == [];
    assert Effect(item) + [] == Effect(item) && Flat(item) + [] == Flat(item);
  }

  /** The EXEC of the next transaction executes what was left of the torn one as well. */
  lemma TransactionFlushes(c: Client, cs: seq<Command>, pos: nat)
    requires c.queue.Some? && AllOrdinary(cs)
    ensures Proper(Flat(Transaction(cs)))
    ensures var r := RanAll(c, Flat(Transaction(cs)), pos);
            r.queue.None? && r.done == c.done + (Acting(c.queue.value) + cs)
  {
    hide RanAll, Lower, EncodeAll, Acting, AllOrdinary;
    Brackets();
    AreProper(cs);
    var q, m := c.queue.value, [MULTI_COMMAND];
    var c1 := c.(queue := Some(q + m), before := pos);
    RanOne(c, MULTI_COMMAND, pos);
    RanBoth(c, m, cs, pos);
    Queues(c1, cs, pos + |EncodeAll(m)|);
    RanBoth(c, m + cs, [EXEC_COMMAND], pos);
    RanOne(c1.(queue := Some(q + m + cs)), EXEC_COMMAND, pos + |EncodeAll(m + cs)|);
    ActingBoth(q + m, cs);
    ActingBoth(q, m);
    ActingOne(MULTI_COMMAND);
    OrdinaryActs(cs);
    assert Acting(q) + [] == Acting(q);
  }

  /** What is logged behind an open transaction. */
  lemma {:induction false} OpenRuns(c: Client, more: seq<Item>, pos: nat)
    requires c.queue.Some? && Logged(more)
    ensures Proper(FlatAll(more))
    ensures var r := RanAll(c, FlatAll(more), pos);
            if HasTransaction(more) then Flushed(c, more, r) else StillOpen(c, more, r)
    decreases |more|, 1
  {
    hide RanAll, EncodeAll, Acting, AllOrdinary, Flat, HasTransaction;
    if more == [] {
      NothingRan(c, pos);
      NoTransaction();
      assert c.queue.value + [] == c.queue.value;
    } else {
      HasFirst(more);
      var first, rest := Flat(more[0]), more[1..];
      var pos' := pos + |EncodeAll(first)|;
      match more[0]
      case Plain(cmd) =>
        assert [Plain(cmd)] + rest == more;
        OneEffect(more[0]);
        PlainFirst(c, cmd, rest, pos);
      case Transaction(cs) =>
        TransactionFlushes(c, cs, pos);
        var c' := RanAll(c, first, pos);
        ItemsRun(c', rest, pos');
        RanBoth(c, first, FlatAll(rest), pos);
        Assoc(c.done, Acting(c.queue.value), cs);
        Assoc(c.done + Acting(c.queue.value), cs, Effects(rest));
    }
  }

  lemma NoTransaction()
    ensures !HasTransaction([])
  {
  }

  lemma PlainFirst(c: Client, cmd: Command, rest: seq<Item>, pos: nat)
    requires c.queue.Some? && AllOrdinary([cmd]) && Logged(rest)
    ensures var more := [Plain(cmd)] + rest;
            && Proper(FlatAll(more))
            && var r := RanAll(c, FlatAll(more), pos);
               if HasTransaction(rest) then Flushed(c, more, r) else StillOpen(c, more, r)
    decreases |rest| + 1, 0
  {
    hide RanAll, EncodeAll, Acting, HasTransaction;
    var more := [Plain(cmd)] + rest;
    assert more[1..] == rest;
    PlainQueued(c, cmd, pos);
    var c' := c.(queue := Some(c.queue.value + [cmd]));
    OpenRuns(c', rest, pos + |EncodeAll([cmd])|);
    RanBoth(c, [cmd], FlatAll(rest), pos);
    Assoc(c.queue.value, [cmd], Effects(rest));
    Assoc(Acting(c.queue.value), [cmd], Effects(rest));
    Assoc(c.done, Acting(c.queue.value) + [cmd], Effects(rest));
    Assoc(c.done, Acting(c.queue.value), [cmd] + Effects(rest));
  }

  // -------------------------------------------------------------------------
  // What is executed
  // -------------------------------------------------------------------------

  /** What loading executes when a file holds the items, the beginning `t` of a transaction, and
      what was logged behind it. */
  ghost function Resumed(items: seq<Item>, t: seq<Command>, more: seq<Item>): seq<Command> {
    if t == [] then Effects(items) + Effects(more)
    else if HasTransaction(more) then Effects(items) + t[1..] + Effects(more)
    else Effects(items)
  }

  ghost function Log(items: seq<Item>, t: seq<Command>, more: seq<Item>): seq<Command> {
    FlatAll(items) + t + FlatAll(more)
  }

  lemma ClientTorn(items: seq<Item>, t: seq<Command>)
    requires Logged(items) && TornStart(t)
    ensures Proper(FlatAll(items) + t)
    ensures var c := RanAll(NEW_CLIENT, FlatAll(items) + t, 0);
            && c.done == Effects(items)
            && (if t == [] then c.queue.None? else c.queue == Some(t[1..]) && c.before == Size(items))
  {
    hide RanAll, FlatAll, Effects, EncodeAll, AllOrdinary, Logged;
    ItemsRun(NEW_CLIENT, items, 0);
    assert [] + Effects(items) == Effects(items);
    if t == [] {
      assert FlatAll(items) + t == FlatAll(items);
    } else {
      assert t == [MULTI_COMMAND] + t[1..];
      AreProper(t[1..]);
      RanBoth(NEW_CLIENT, FlatAll(items), t, 0);
      Opens(RanAll(NEW_CLIENT, FlatAll(items), 0), t[1..], |EncodeAll(FlatAll(items))|);
    }
  }

  lemma ClientResumes(items: seq<Item>, t: seq<Command>, more: seq<Item>)
    requires Logged(items) && TornStart(t) && Logged(more)
    ensures Proper(Log(items, t, more))
    ensures var c := RanAll(NEW_CLIENT, Log(items, t, more), 0);
            && c.done == Resumed(items, t, more) && (c.queue.None? <==> t == [] || HasTransaction(more))
            && (c.queue.Some? ==> c.before == Size(items))
  {
    hide RanAll, FlatAll, Effects, EncodeAll, AllOrdinary, Logged, HasTransaction, Acting;
    var first := FlatAll(items) + t;
    ClientTorn(items, t);
    var c := RanAll(NEW_CLIENT, first, 0);
    if t == [] {
      ItemsRun(c, more, |EncodeAll(first)|);
    } else {
      OrdinaryActs(t[1..]);
      OpenRuns(c, more, |EncodeAll(first)|);
    }
    RanBoth(NEW_CLIENT, first, FlatAll(more), 0);
  }

  /** The beginning of one more transaction executes nothing. */
  lemma TornExecutesNothing(c: Client, t: seq<Command>, pos: nat)
    requires TornStart(t)
    ensures Proper(t) && RanAll(c, t, pos).done == c.done
  {
    hide RanAll, EncodeAll, AllOrdinary, Lower;
    if t == [] {
      NothingRan(c, pos);
    } else {
      var rest := t[1..];
      assert t == [MULTI_COMMAND] + rest;
      AreProper(rest);
      Brackets();
      RanOne(c, MULTI_COMMAND, pos);
      RanBoth(c, [MULTI_COMMAND], rest, pos);
      Queues(Ran(c, MULTI_COMMAND, pos), rest, pos + |EncodeAll([MULTI_COMMAND])|);
    }
  }

  /** A whole file. */
  lemma WholeLogLoads(items: seq<Item>, t: seq<Command>, more: seq<Item>, o: Options)
    requires Logged(items) && TornStart(t) && Logged(more)
    requires Loadable(Log(items, t, more), o) && Log(items, t, more) != []
    ensures var cs := Log(items, t, more);
            Load(EncodeAll(cs), o) ==
            if t == [] || HasTransaction(more) then Loaded(Resumed(items, t, more), |EncodeAll(cs)|)
            else CutOff(Effects(items), Size(items), o)
  {
    hide RanAll, FlatAll, Effects, EncodeAll, AllOrdinary, Logged, HasTransaction, Load, Loadable;
    ClientResumes(items, t, more);
    WholeFileLoads(Log(items, t, more), o);
  }

  // -------------------------------------------------------------------------
  // The file after the first load
  // -------------------------------------------------------------------------

  /** Was the file cut off inside a command of a transaction, behind its MULTI? */
  ghost predicate CutInTransaction(items: seq<Item>, k: nat) {
    var cs := FlatAll(items);
    var m := Whole(cs, k);
    |FlatAll(items[..Finished(items, m)])| < m && |EncodeAll(cs[..m])| < k
  }

  /** The items that are whole. */
  ghost function Kept(items: seq<Item>, k: nat): seq<Item> { items[..Finished(items, Whole(FlatAll(items), k))] }

  /** What a load leaves behind them. */
  ghost function Left(items: seq<Item>, k: nat): seq<Command> {
    var cs := FlatAll(items);
    var m := Whole(cs, k);
    var n := |FlatAll(Kept(items, k))|;
    if CutInTransaction(items, k) then cs[n..m] else []
  }

  lemma TornIsStart(items: seq<Item>, m: nat, n: nat, t: seq<Command>)
    requires Logged(items) && CutsAt(items, m, n, t)
    ensures TornStart(t)
  {
    hide FlatAll, Flat, Ordinary;
    if t != [] {
      EffectOf(items[n]);
      Torn(items[n], t);
      assert t[1..] == items[n].cmds[..|t| - 1];
    }
  }

  lemma EncodedPositive(cs: seq<Command>)
    requires cs != []
    ensures EncodeAll(cs) != []
  {
    hide Encode, EncodeAll;
    EncodeNonEmpty(cs);
    EncodeAllStarts(cs);
  }

  /** The first load keeps the whole items. It leaves more than them in the file if and only if
      the cut lies inside a command of a transaction. */
  lemma LeftBehind(items: seq<Item>, k: nat, o: Options)
    requires Logged(items) && Loadable(FlatAll(items), o) && 0 < k <= Size(items)
    requires o.loadTruncated && o.truncates
    ensures var done, left := Kept(items, k), Left(items, k);
            var r := Load(EncodeAll(FlatAll(items))[..k], o);
            && TornStart(left) && (left == [] <==> !CutInTransaction(items, k))
            && r == Loaded(Effects(done), |EncodeAll(FlatAll(done) + left)|)
            && r.size <= k && EncodeAll(FlatAll(items))[..r.size] == EncodeAll(FlatAll(done) + left)
            && (r.size == Size(done) <==> !CutInTransaction(items, k))
            && FlatAll(done) + left <= FlatAll(items)
  {
    hide RanAll, Flat, FlatAll, Effects, Finished, EncodeAll, Load, Loadable, Logged, Whole, AllOrdinary;
    var cs := FlatAll(items);
    var m := Whole(cs, k);
    var t := Cuts(items, m);
    var done, left := Kept(items, k), Left(items, k);
    ClientAtCut(items, m, t);
    CutFileLoads(cs, k, o);
    WholeIsMost(cs, k);
    EncodeAllPrefix(cs, m);
    TornIsStart(items, m, Finished(items, m), t);
    EncodeBoth(FlatAll(done), t);
    if t != [] { EncodedPositive(t); }
    if CutInTransaction(items, k) {
      assert left == t;
    } else {
      FlatPrefix(items, |done|);
      assert FlatAll(done) + left == FlatAll(done);
      if t == [] { assert FlatAll(done) + t == FlatAll(done); }
    }
  }

  lemma LoadableParts(a: seq<Command>, b: seq<Command>, c: seq<Command>, o: Options)
    requires Loadable(a, o) && Loadable(c, o) && b <= a
    ensures Loadable(b + c, o)
  {
    hide Fits, Lower, Foreign;
  }

  lemma EffectsOfPlain(more: seq<Item>)
    requires more != [] && !HasTransaction(more)
    ensures Effects(more) != []
  {
    assert more[0].Plain?;
  }

  lemma NotEmptyFlat(more: seq<Item>)
    requires more != []
    ensures FlatAll(more) != []
  {
    hide FlatAll;
    FlatFirst(more, |more|);
    assert more[..|more|] == more;
  }

  /** The server goes on after the first load and logs `more` behind what it left in the file.
      The next load executes exactly the following. It is what took effect, the whole items and
      then `more`, if and only if the file was not cut off inside a command of a transaction, or
      the cut was in the first command behind MULTI and `more` has a transaction. */
  lemma ResumesExactlyIf(items: seq<Item>, k: nat, more: seq<Item>, o: Options)
    requires Logged(items) && Loadable(FlatAll(items), o) && 0 < k <= Size(items)
    requires o.loadTruncated && o.truncates
    requires more != [] && Logged(more) && Loadable(FlatAll(more), o)
    ensures var done, left := Kept(items, k), Left(items, k);
            var file := EncodeAll(FlatAll(items))[..k];
            var first := Load(file, o);
            && first.Loaded? && first.size <= k
            && var second := Load(file[..first.size] + EncodeAll(FlatAll(more)), o);
            && second == (if left == [] then Loaded(Effects(done) + Effects(more), first.size + Size(more))
                          else if HasTransaction(more)
                          then Loaded(Effects(done) + left[1..] + Effects(more), first.size + Size(more))
                          else Loaded(Effects(done), Size(done)))
            && (second.commands == Effects(done) + Effects(more)
                <==> !CutInTransaction(items, k) || (|left| == 1 && HasTransaction(more)))
  {
    hide Flat, FlatAll, Effects, Finished, EncodeAll, Load, Loadable, Logged, Whole, AllOrdinary, HasTransaction,
      CutInTransaction;
    var done, left := Kept(items, k), Left(items, k);
    var kept := FlatAll(done) + left;
    LeftBehind(items, k, o);
    LoggedKept(items, k);
    var size := |EncodeAll(kept)|;
    assert EncodeAll(FlatAll(items))[..k][..size] == EncodeAll(FlatAll(items))[..size];
    EncodeBoth(kept, FlatAll(more));
    LoadableParts(FlatAll(items), kept, FlatAll(more), o);
    NotEmptyFlat(more);
    WholeLogLoads(done, left, more, o);
    if left != [] {
      if HasTransaction(more) {
        Cancels(Effects(done), left[1..], Effects(more));
      } else {
        EffectsOfPlain(more);
      }
    }
  }

  lemma Cancels(a: seq<Command>, b: seq<Command>, c: seq<Command>)
    ensures a + b + c == a + c <==> b == []
  {
    if a + b + c == a + c { assert |a + b + c| == |a + c|; }
  }

  lemma LoggedKept(items: seq<Item>, k: nat)
    requires Logged(items)
    ensures Logged(Kept(items, k))
  {
    hide AllOrdinary, Effect, Finished;
  }

  // -------------------------------------------------------------------------
  // Files for which it goes wrong
  // -------------------------------------------------------------------------

  /** Where the first byte of `c2` ends in the transaction of `c1` and `c2`. */
  ghost function InsideSecond(c1: Command): nat { |EncodeAll([MULTI_COMMAND, c1])| + 1 }

  lemma OnlyTransaction(cs: seq<Command>)
    ensures FlatAll([Transaction(cs)]) == [MULTI_COMMAND] + cs + [EXEC_COMMAND]
  {
    OneEffect(Transaction(cs));
  }

  /** A transaction of two commands, cut off inside the second: its beginning stays. */
  lemma CutInsideSecond(c1: Command, c2: Command)
    requires c1 != [] && c2 != []
    ensures var items, k := [Transaction([c1, c2])], InsideSecond(c1);
            && k <= Size(items) && CutInTransaction(items, k)
            && Kept(items, k) == [] && Left(items, k) == [MULTI_COMMAND, c1]
  {
    hide EncodeAll, Encode, Effects;
    var items, k := [Transaction([c1, c2])], InsideSecond(c1);
    OnlyTransaction([c1, c2]);
    var a, b := [MULTI_COMMAND, c1], [c2, EXEC_COMMAND];
    var cs := FlatAll(items);
    assert cs == a + b && cs[..2] == a;
    WholeBoth(a, b, k);
    EncodeBoth(a, b);
    EncodeAllStarts(b);
    LongerThanOne(c2);
    assert Finished(items, 2) == 0;
    NoItems();
    assert items[..0] == [];
  }

  lemma LongerThanOne(c: Command)
    ensures |Encode(c)| > 1
  {
  }

  /** The transaction did not take effect. A single command that is logged afterwards is lost. */
  lemma LoggedCommandIsLost(c1: Command, c2: Command, d: Command, o: Options)
    requires AllOrdinary([c1, c2]) && AllOrdinary([d])
    requires Loadable([MULTI_COMMAND, c1, c2, EXEC_COMMAND], o) && Loadable([d], o) && o.loadTruncated && o.truncates
    ensures var torn := EncodeAll([MULTI_COMMAND, c1]);
            && torn < EncodeAll([MULTI_COMMAND, c1, c2, EXEC_COMMAND])
            && Load(EncodeAll([MULTI_COMMAND, c1, c2, EXEC_COMMAND])[..|torn| + 1], o) == Loaded([], |torn|)
            && Load(torn + EncodeAll([d]), o) == Loaded([], 0)
  {
    hide EncodeAll, Load, Loadable, AllOrdinary, HasTransaction, CutInTransaction, Kept, Left;
    TornByTwo(c1, c2, o);
    var items := [Transaction([c1, c2])];
    OneEffect(Plain(d));
    assert Logged([Plain(d)]);
    assert !HasTransaction([Plain(d)]) by { PlainHasNone(d); }
    ResumesExactlyIf(items, InsideSecond(c1), [Plain(d)], o);
    NothingEncoded();
  }

  lemma PlainHasNone(d: Command)
    ensures !HasTransaction([Plain(d)])
  {
  }

  lemma OneHas(cs: seq<Command>)
    ensures HasTransaction([Transaction(cs)])
  {
    assert [Transaction(cs)][0].Transaction?;
  }

  lemma TornByTwo(c1: Command, c2: Command, o: Options)
    requires AllOrdinary([c1, c2]) && Loadable([MULTI_COMMAND, c1, c2, EXEC_COMMAND], o)
    requires o.loadTruncated && o.truncates
    ensures var items, k := [Transaction([c1, c2])], InsideSecond(c1);
            var torn := EncodeAll([MULTI_COMMAND, c1]);
            && FlatAll(items) == [MULTI_COMMAND, c1, c2, EXEC_COMMAND] && Logged(items)
            && Kept(items, k) == [] && Left(items, k) == [MULTI_COMMAND, c1]
            && 0 < k <= Size(items) && k == |torn| + 1
            && Load(EncodeAll(FlatAll(items))[..k], o) == Loaded([], |torn|)
            && EncodeAll(FlatAll(items))[..k][..|torn|] == torn && torn < EncodeAll(FlatAll(items))
  {
    hide EncodeAll, Load, Loadable, HasTransaction, CutInTransaction, Kept, Left, Lower;
    var items, k := [Transaction([c1, c2])], InsideSecond(c1);
    assert [c1, c2][0] == c1 && [c1, c2][1] == c2;
    OnlyTransaction([c1, c2]);
    assert [MULTI_COMMAND] + [c1, c2] + [EXEC_COMMAND] == [MULTI_COMMAND, c1, c2, EXEC_COMMAND];
    CutInsideSecond(c1, c2);
    LeftBehind(items, k, o);
    NoItems();
    assert [] + [MULTI_COMMAND, c1] == [MULTI_COMMAND, c1];
    var e, n := EncodeAll(FlatAll(items)), |EncodeAll([MULTI_COMMAND, c1])|;
    assert e[..k][..n] == e[..n];
  }

  /** The next transaction that is logged executes the first command of the torn one. */
  lemma HalfIsExecuted(c1: Command, c2: Command, d: Command, o: Options)
    requires AllOrdinary([c1, c2]) && AllOrdinary([d])
    requires Loadable([MULTI_COMMAND, c1, c2, EXEC_COMMAND], o) && Loadable([d], o) && o.loadTruncated && o.truncates
    ensures var file := EncodeAll([MULTI_COMMAND, c1]) + EncodeAll([MULTI_COMMAND, d, EXEC_COMMAND]);
            Load(file, o) == Loaded([c1, d], |file|)
  {
    hide EncodeAll, Load, AllOrdinary, HasTransaction, CutInTransaction, Kept, Left, Lower, Fits, Foreign;
    TornByTwo(c1, c2, o);
    var items, more := [Transaction([c1, c2])], [Transaction([d])];
    OneEffect(more[0]);
    OneHas([d]);
    assert [MULTI_COMMAND] + [d] + [EXEC_COMMAND] == [MULTI_COMMAND, d, EXEC_COMMAND];
    LoadableAround(c1, c2, d, o);
    ResumesExactlyIf(items, InsideSecond(c1), more, o);
    assert [] + [c1] + [d] == [c1, d];
  }

  lemma LoadableAround(c1: Command, c2: Command, d: Command, o: Options)
    requires Loadable([MULTI_COMMAND, c1, c2, EXEC_COMMAND], o) && Loadable([d], o)
    ensures Loadable([MULTI_COMMAND, d, EXEC_COMMAND], o)
  {
    hide Lower, Fits, Foreign;
    assert [MULTI_COMMAND, c1, c2, EXEC_COMMAND][0] == MULTI_COMMAND;
    assert [MULTI_COMMAND, c1, c2, EXEC_COMMAND][3] == EXEC_COMMAND;
    assert [d][0] == d;
  }

  // -------------------------------------------------------------------------
  // Cutting the file off again
  // -------------------------------------------------------------------------

  lemma {:induction false} WholeBoth(a: seq<Command>, b: seq<Command>, k: nat)
    requires |EncodeAll(a)| <= k
    ensures Whole(a + b, k) == |a| + Whole(b, k - |EncodeAll(a)|)
  {
    hide Encode;
    if a == [] {
      assert a + b == b;
    } else {
      assert (a + b)[0] == a[0] && (a + b)[1..] == a[1..] + b;
      WholeBoth(a[1..], b, k - |Encode(a[0])|);
    }
  }

  /** The commands in front of a cut behind the torn transaction. */
  lemma CutLog(items: seq<Item>, t: seq<Command>, more: seq<Item>, k: nat) returns (u: seq<Command>)
    requires Logged(more)
    requires var size := |EncodeAll(FlatAll(items) + t)|; size <= k <= size + Size(more)
    ensures var cs := Log(items, t, more);
            cs[..Whole(cs, k)] == Log(items, t, Kept(more, k - |EncodeAll(FlatAll(items) + t)|)) + u
    ensures TornStart(u)
  {
    hide FlatAll, EncodeAll, Whole, Finished, AllOrdinary, Logged, Flat;
    var first := FlatAll(items) + t;
    var rest := k - |EncodeAll(first)|;
    WholeBoth(first, FlatAll(more), k);
    var m := Whole(FlatAll(more), rest);
    u := Cuts(more, m);
    TornIsStart(more, m, Finished(more, m), u);
    assert (first + FlatAll(more))[..|first| + m] == first + FlatAll(more)[..m];
    Assoc(first, FlatAll(Kept(more, rest)), u);
  }

  /** Whatever was logged behind the file that the first load left: if it is cut off there,
      loading executes what the whole items among it give. */
  lemma CutResumes(items: seq<Item>, t: seq<Command>, more: seq<Item>, k: nat, o: Options)
    requires Logged(items) && TornStart(t) && Logged(more) && Loadable(Log(items, t, more), o)
    requires var size := |EncodeAll(FlatAll(items) + t)|; 0 < k && size <= k <= size + Size(more)
    ensures k <= |EncodeAll(Log(items, t, more))|
    ensures var r := Load(EncodeAll(Log(items, t, more))[..k], o);
            && (r.Loaded? || r.Exits?)
            && r.commands == Resumed(items, t, Kept(more, k - |EncodeAll(FlatAll(items) + t)|))
  {
    hide RanAll, Flat, FlatAll, Effects, Finished, EncodeAll, Load, Loadable, Logged, Whole, AllOrdinary, Resumed,
      HasTransaction;
    var cs := Log(items, t, more);
    var first := FlatAll(items) + t;
    var kept := Kept(more, k - |EncodeAll(first)|);
    EncodeBoth(first, FlatAll(more));
    var u := CutLog(items, t, more, k);
    LoggedKept(more, k - |EncodeAll(first)|);
    ClientResumes(items, t, kept);
    var whole := Log(items, t, kept);
    TornExecutesNothing(RanAll(NEW_CLIENT, whole, 0), u, |EncodeAll(whole)|);
    RanBoth(NEW_CLIENT, whole, u, 0);
    CutFileLoads(cs, k, o);
  }
}
