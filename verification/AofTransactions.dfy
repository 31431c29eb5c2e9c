/** Transactions in the append-only file. MULTI, the commands and EXEC are logged as separate
    commands; wherever the file is cut off, the load that follows executes a transaction
    entirely or not at all. It may leave the beginning of a transaction in the file, which is
    gone after the next load if nothing is logged in between. */
module AofTransactions {
  import opened AofLoader
  import opened Common

  /** What is logged at once. */
  datatype Item = Plain(cmd: Command) | Transaction(cmds: seq<Command>)

  const MULTI_COMMAND: Command := [[77, 85, 76, 84, 73]]
  const EXEC_COMMAND: Command := [[69, 88, 69, 67]]

  lemma Brackets()
    ensures Lower(MULTI_COMMAND[0]) == MULTI && Lower(EXEC_COMMAND[0]) == EXEC && MULTI != EXEC
  {
  }

  function Flat(item: Item): seq<Command> {
    match item
    case Plain(c) => [c]
    case Transaction(cs) => [MULTI_COMMAND] + cs + [EXEC_COMMAND]
  }

  function FlatAll(items: seq<Item>): seq<Command> {
    if items == [] then [] else Flat(items[0]) + FlatAll(items[1..])
  }

  /** The commands that take effect. */
  function Effect(item: Item): seq<Command> {
    match item
    case Plain(c) => [c]
    case Transaction(cs) => cs
  }

  function Effects(items: seq<Item>): seq<Command> {
    if items == [] then [] else Effect(items[0]) + Effects(items[1..])
  }

  ghost predicate Ordinary(c: Command) {
    c != [] && Lower(c[0]) != MULTI && Lower(c[0]) != EXEC
  }

  ghost predicate AllOrdinary(cs: seq<Command>) {
    forall i :: 0 <= i < |cs| ==> cs[i] != [] && Ordinary(cs[i])
  }

  /** What the server logs: brackets only around transactions. */
  ghost predicate Logged(items: seq<Item>) {
    forall i :: 0 <= i < |items| ==> AllOrdinary(Effect(items[i]))
  }

  // -------------------------------------------------------------------------
  // The client
  // -------------------------------------------------------------------------

  ghost predicate Proper(cs: seq<Command>) { forall i :: 0 <= i < |cs| ==> cs[i] != [] }

  lemma {:induction false} RanBoth(c: Client, a: seq<Command>, b: seq<Command>, pos: nat)
    requires Proper(a) && Proper(b)
    ensures RanAll(c, a + b, pos) == RanAll(RanAll(c, a, pos), b, pos + |EncodeAll(a)|)
    decreases |a|
  {
    hide Ran, Encode;
    if a == [] {
      assert a + b == b;
    } else {
      RanBoth(Ran(c, a[0], pos), a[1..], b, pos + |Encode(a[0])|);
      assert (a + b)[0] == a[0] && (a + b)[1..] == a[1..] + b;
    }
  }

  /** Inside a transaction commands are queued. */
  lemma {:induction false} Queues(c: Client, cs: seq<Command>, pos: nat)
    requires c.queue.Some? && AllOrdinary(cs)
    ensures RanAll(c, cs, pos) == c.(queue := Some(c.queue.value + cs))
    decreases |cs|
  {
    hide Encode, Lower;
    if cs == [] {
      assert c.queue.value + cs == c.queue.value;
    } else {
      Queues(Ran(c, cs[0], pos), cs[1..], pos + |Encode(cs[0])|);
      assert c.queue.value + [cs[0]] + cs[1..] == c.queue.value + cs;
    }
  }

  lemma RanOne(c: Client, cmd: Command, pos: nat)
    requires cmd != []
    ensures RanAll(c, [cmd], pos) == Ran(c, cmd, pos)
  {
    hide Ran, Encode;
    assert [cmd][1..] == [];
  }

  /** MULTI and what follows, as far as it got. */
  lemma Opens(c: Client, cs: seq<Command>, pos: nat)
    requires c.queue.None? && AllOrdinary(cs)
    ensures RanAll(c, [MULTI_COMMAND] + cs, pos) == Client(c.done, Some(cs), pos)
  {
    hide RanAll, Lower, EncodeAll;
    Brackets();
    RanOne(c, MULTI_COMMAND, pos);
    RanBoth(c, [MULTI_COMMAND], cs, pos);
    Queues(Client(c.done, Some([]), pos), cs, pos + |EncodeAll([MULTI_COMMAND])|);
    assert [] + cs == cs;
  }

  lemma OrdinaryActs(cs: seq<Command>)
    requires AllOrdinary(cs)
    ensures Acting(cs) == cs
  {
    hide Lower;
    AllActing(cs);
  }

  /** A whole item takes effect at once and leaves no transaction open. */
  lemma ItemRuns(c: Client, item: Item, pos: nat)
    requires c.queue.None? && AllOrdinary(Effect(item))
    ensures Proper(Flat(item))
    ensures var r := RanAll(c, Flat(item), pos); r.queue.None? && r.done == c.done + Effect(item)
  {
    hide RanAll, Lower, EncodeAll, Acting;
    match item
    case Plain(cmd) =>
      assert Ordinary(Effect(item)[0]);
      RanOne(c, cmd, pos);
    case Transaction(cs) =>
      Brackets();
      OrdinaryActs(cs);
      var body := [MULTI_COMMAND] + cs;
      Opens(c, cs, pos);
      RanBoth(c, body, [EXEC_COMMAND], pos);
      RanOne(Client(c.done, Some(cs), pos), EXEC_COMMAND, pos + |EncodeAll(body)|);
  }

  lemma {:induction false} ItemsRun(c: Client, items: seq<Item>, pos: nat)
    requires Logged(items) && c.queue.None?
    ensures Proper(FlatAll(items))
    ensures var r := RanAll(c, FlatAll(items), pos); r.queue.None? && r.done == c.done + Effects(items)
    decreases |items|
  {
    hide RanAll, AllOrdinary, EncodeAll, Flat, Effect;
    if items == [] {
      NothingRan(c, pos);
      assert c.done + [] == c.done;
    } else {
      var first := Flat(items[0]);
      ItemRuns(c, items[0], pos);
      ItemsRun(RanAll(c, first, pos), items[1..], pos + |EncodeAll(first)|);
      RanBoth(c, first, FlatAll(items[1..]), pos);
      assert c.done + Effect(items[0]) + Effects(items[1..]) == c.done + Effects(items);
    }
  }

  lemma NothingRan(c: Client, pos: nat)
    ensures RanAll(c, [], pos) == c
  {
  }

  // -------------------------------------------------------------------------
  // Files that are cut off
  // -------------------------------------------------------------------------

  /** How many items are among the first `m` commands. */
  ghost function Finished(items: seq<Item>, m: nat): (n: nat)
    ensures n <= |items|
  {
    if items == [] || m < |Flat(items[0])| then 0 else 1 + Finished(items[1..], m - |Flat(items[0])|)
  }

  lemma FlatFirst(items: seq<Item>, n: nat)
    requires 0 < n <= |items|
    ensures FlatAll(items[..n]) == Flat(items[0]) + FlatAll(items[1..][..n - 1])
  {
    hide Flat;
    assert items[..n][1..] == items[1..][..n - 1];
  }

  lemma {:induction false} FinishedIsMost(items: seq<Item>, m: nat)
    ensures var n := Finished(items, m);
            |FlatAll(items[..n])| <= m && (n < |items| ==> m < |FlatAll(items[..n + 1])|)
  {
    hide Flat;
    if items != [] {
      var n := Finished(items, m);
      if m >= |Flat(items[0])| {
        FinishedIsMost(items[1..], m - |Flat(items[0])|);
        FlatFirst(items, n);
      }
      if n < |items| { FlatFirst(items, n + 1); }
    }
  }

  lemma {:induction false} FlatPrefix(items: seq<Item>, n: nat)
    requires n <= |items|
    ensures FlatAll(items[..n]) <= FlatAll(items)
  {
    hide Flat;
    if n > 0 {
      FlatPrefix(items[1..], n - 1);
      FlatFirst(items, n);
    }
  }

  /** The first commands are whole items and at most the beginning of a transaction. */
  ghost predicate CutsAt(items: seq<Item>, m: nat, n: nat, t: seq<Command>) {
    && m <= |FlatAll(items)| && n <= |items| && FlatAll(items)[..m] == FlatAll(items[..n]) + t
    && (t != [] ==> n < |items| && items[n].Transaction? && t < Flat(items[n]))
  }

  lemma CutsInFirst(items: seq<Item>, m: nat)
    requires items != [] && m < |Flat(items[0])|
    ensures CutsAt(items, m, 0, Flat(items[0])[..m])
  {
    hide FlatAll;
    var first := Flat(items[0]);
    FlatFirst(items, |items|);
    assert items[..|items|] == items && items[..0] == [];
    assert FlatAll([]) == [] by { NoItems(); }
    assert FlatAll(items)[..m] == first[..m] && [] + first[..m] == first[..m];
  }

  lemma NoItems()
    ensures FlatAll([]) == []
  {
  }

  lemma CutsLater(items: seq<Item>, m: nat, n: nat, t: seq<Command>)
    requires items != [] && m >= |Flat(items[0])| && CutsAt(items[1..], m - |Flat(items[0])|, n, t)
    ensures CutsAt(items, m, n + 1, t)
  {
    hide Flat, FlatAll;
    var first := Flat(items[0]);
    var rest := FlatAll(items[1..]);
    FlatFirst(items, |items|);
    assert items[..|items|] == items && items[1..][..|items| - 1] == items[1..];
    FlatFirst(items, n + 1);
    assert (first + rest)[..m] == first + rest[..m - |first|];
    assert first + (FlatAll(items[1..][..n]) + t) == first + FlatAll(items[1..][..n]) + t;
  }

  lemma {:induction false} Cuts(items: seq<Item>, m: nat) returns (t: seq<Command>)
    requires m <= |FlatAll(items)|
    ensures CutsAt(items, m, Finished(items, m), t)
  {
    hide Flat;
    if items == [] {
      t := [];
    } else if m < |Flat(items[0])| {
      t := Flat(items[0])[..m];
      CutsInFirst(items, m);
    } else {
      t := Cuts(items[1..], m - |Flat(items[0])|);
      CutsLater(items, m, Finished(items[1..], m - |Flat(items[0])|), t);
    }
  }

  ghost function Size(items: seq<Item>): nat { |EncodeAll(FlatAll(items))| }

  /** What is left of a transaction that was cut off. */
  lemma Torn(item: Item, t: seq<Command>)
    requires item.Transaction? && AllOrdinary(item.cmds) && t != [] && t < Flat(item)
    ensures Proper(t) && |t| <= |item.cmds| + 1 && t == [MULTI_COMMAND] + item.cmds[..|t| - 1]
    ensures AllOrdinary(item.cmds[..|t| - 1])
  {
    hide Ordinary;
    assert t == Flat(item)[..|t|];
  }

  /** The client after the whole commands of a file that was cut off. */
  lemma ClientAtCut(items: seq<Item>, m: nat, t: seq<Command>)
    requires Logged(items) && CutsAt(items, m, Finished(items, m), t)
    ensures Proper(FlatAll(items)[..m]) && Proper(FlatAll(items))
    ensures var n := Finished(items, m);
            var c := RanAll(NEW_CLIENT, FlatAll(items)[..m], 0);
            && c.done == Effects(items[..n]) && (c.queue.None? <==> t == [])
            && (t != [] ==> c.before == Size(items[..n]))
  {
    hide RanAll, Flat, FlatAll, Effect, Effects, Finished, EncodeAll, AllOrdinary;
    var n := Finished(items, m);
    var whole := FlatAll(items[..n]);
    ItemsRun(NEW_CLIENT, items[..n], 0);
    ItemsRun(NEW_CLIENT, items, 0);
    assert [] + Effects(items[..n]) == Effects(items[..n]);
    var c := RanAll(NEW_CLIENT, whole, 0);
    if t == [] {
      assert whole + t == whole;
    } else {
      EffectOf(items[n]);
      Torn(items[n], t);
      Opens(c, items[n].cmds[..|t| - 1], |EncodeAll(whole)|);
      RanBoth(NEW_CLIENT, whole, t, 0);
    }
  }

  lemma EffectOf(item: Item)
    requires item.Transaction?
    ensures Effect(item) == item.cmds
  {
  }

  /** The items that are whole are the most that fit. */
  lemma MostItems(items: seq<Item>, k: nat)
    requires k <= Size(items)
    ensures var n := Finished(items, Whole(FlatAll(items), k));
            Size(items[..n]) <= k && (n < |items| ==> k < Size(items[..n + 1]))
  {
    hide FlatAll, EncodeAll, Whole, Finished;
    var cs := FlatAll(items);
    var m := Whole(cs, k);
    var n := Finished(items, m);
    WholeIsMost(cs, k);
    FinishedIsMost(items, m);
    FlatPrefix(items, n);
    var whole := FlatAll(items[..n]);
    assert whole == cs[..m][..|whole|];
    EncodeAllGrows(cs[..m], |whole|);
    if n < |items| {
      FlatPrefix(items, n + 1);
      var more := FlatAll(items[..n + 1]);
      assert cs[..m + 1] == more[..m + 1];
      EncodeAllGrows(more, m + 1);
    }
  }

  /** A file of whole commands that was cut off inside a transaction or behind an item. */
  lemma CleanCutLoads(items: seq<Item>, m: nat, t: seq<Command>, o: Options)
    requires Logged(items) && CutsAt(items, m, Finished(items, m), t) && Loadable(FlatAll(items), o)
    requires o.loadTruncated && o.truncates && m > 0
    ensures var n := Finished(items, m);
            Load(EncodeAll(FlatAll(items)[..m]), o) == Loaded(Effects(items[..n]), Size(items[..n]))
  {
    hide RanAll, Flat, Effect, Effects, Finished, EncodeAll, Load, Lower, Foreign, Fits, FlatAll, AllOrdinary;
    ClientAtCut(items, m, t);
    WholeFileLoads(FlatAll(items)[..m], o);
    var n := Finished(items, m);
    if t == [] { assert FlatAll(items[..n]) + t == FlatAll(items[..n]); }
  }

  /** Wherever the file is cut off: the commands that are executed are those of the whole items,
      so every transaction takes effect entirely or not at all. */
  lemma TransactionsAreAtomic(items: seq<Item>, k: nat, o: Options)
    requires Logged(items) && Loadable(FlatAll(items), o) && 0 < k <= Size(items)
    ensures var n := Finished(items, Whole(FlatAll(items), k));
            var r := Load(EncodeAll(FlatAll(items))[..k], o);
            (r.Loaded? || r.Exits?) && r.commands == Effects(items[..n])
  {
    hide RanAll, Flat, FlatAll, Effects, Finished, EncodeAll, Load, Loadable, Logged, Whole;
    var m := Whole(FlatAll(items), k);
    var t := Cuts(items, m);
    ClientAtCut(items, m, t);
    CutFileLoads(FlatAll(items), k, o);
  }

  /** If the loader may cut the file, then after the first load it holds the whole items and at
      most the beginning of a transaction. Loading it again, with nothing logged in between,
      executes the same commands and leaves exactly the whole items. */
  lemma TwoLoadsSettle(items: seq<Item>, k: nat, o: Options)
    requires Logged(items) && Loadable(FlatAll(items), o) && 0 < k <= Size(items)
    requires o.loadTruncated && o.truncates
    ensures var done := items[..Finished(items, Whole(FlatAll(items), k))];
            var file := EncodeAll(FlatAll(items))[..k];
            var r := Load(file, o);
            && r.Loaded? && Size(done) <= r.size <= k
            && (r.size > 0 ==> Load(file[..r.size], o) == Loaded(Effects(done), Size(done)))
  {
    hide RanAll, Flat, FlatAll, Effects, Finished, EncodeAll, Load, Loadable, Logged, Whole;
    var cs := FlatAll(items);
    var m := Whole(cs, k);
    var t := Cuts(items, m);
    var n := Finished(items, m);
    ClientAtCut(items, m, t);
    CutFileLoads(cs, k, o);
    MostItems(items, k);
    WholeIsMost(cs, k);
    EncodeAllPrefix(cs, m);
    var whole := FlatAll(items[..n]);
    EncodeBoth(whole, t);
    var r := Load(EncodeAll(cs)[..k], o);
    if r.size > 0 {
      if r.size == |EncodeAll(cs[..m])| {
        assert EncodeAll(cs)[..k][..r.size] == EncodeAll(cs[..m]);
        if m == 0 { NothingEncoded(); }
        CleanCutLoads(items, m, t, o);
      } else {
        assert EncodeAll(cs)[..k][..r.size] == EncodeAll(whole);
        WholeItemsLoad(items, n, o);
      }
    }
  }

  lemma NothingEncoded()
    ensures EncodeAll([]) == []
  {
  }

  lemma WholeItemsLoad(items: seq<Item>, n: nat, o: Options)
    requires Logged(items) && Loadable(FlatAll(items), o) && n <= |items| && Size(items[..n]) > 0
    ensures Load(EncodeAll(FlatAll(items[..n])), o) == Loaded(Effects(items[..n]), Size(items[..n]))
  {
    hide RanAll, Flat, FlatAll, Effect, Effects, EncodeAll, Load, Lower, Foreign, Fits, AllOrdinary;
    FlatPrefix(items, n);
    ItemsRun(NEW_CLIENT, items[..n], 0);
    assert [] + Effects(items[..n]) == Effects(items[..n]);
    if FlatAll(items[..n]) == [] { NothingEncoded(); }
    WholeFileLoads(FlatAll(items[..n]), o);
  }
}
