/** Users as they lie in memory: the bitmap is an array that rules change in place, and the
    description is built by trying its own rules on a fake user. */
module AclState {
  import opened Acl
  import opened Common

  lemma CategoryIdsNext(t: Table, category: nat, n: nat)
    requires n < |t|
    ensures CategoryIds(t[..n + 1], category)
         == CategoryIds(t[..n], category) + if !t[n].isModule && InCategory(t[n], category) then {t[n].id} else {}
  {
    var a, b := CategoryIds(t[..n + 1], category), CategoryIds(t[..n], category);
    forall id | id in a ensures id in b || (!t[n].isModule && InCategory(t[n], category) && id == t[n].id) {
      var i :| 0 <= i < n + 1 && !t[..n + 1][i].isModule && InCategory(t[..n + 1][i], category)
          && t[..n + 1][i].id == id;
      if i < n { assert t[..n][i] == t[..n + 1][i]; }
    }
    forall id | id in b ensures id in a {
      var i :| 0 <= i < n && !t[..n][i].isModule && InCategory(t[..n][i], category) && t[..n][i].id == id;
      assert t[..n + 1][i] == t[..n][i];
    }
    if !t[n].isModule && InCategory(t[n], category) { assert t[..n + 1][n] == t[n]; }
  }

  /** A user after the commands in `ids` have been switched by a category rule. */
  ghost function Switched(u: User, ids: set<nat>, on: bool): User {
    User(if on then u.bits + ids else u.bits - ids, u.all && (on || ids == {}), u.subs - ids)
  }

  lemma SwitchedMore(u: User, ids: set<nat>, id: nat, on: bool)
    ensures Switched(Switched(u, ids, on), {id}, on) == Switched(u, ids + {id}, on)
  {
    var a, b := Switched(Switched(u, ids, on), {id}, on), Switched(u, ids + {id}, on);
    assert a.bits == b.bits && a.subs == b.subs;
    assert id in ids + {id};
  }

  lemma SwitchedNone(u: User, on: bool)
    ensures Switched(u, {}, on) == u
  {
    assert u.bits + {} == u.bits && u.bits - {} == u.bits && u.subs - {} == u.subs;
  }

  /** The fake bitmap when the first `n` commands of the table are done. */
  ghost predicate Fixed(t: Table, bits: set<nat>, start: set<nat>, n: nat, fake: set<nat>)
    requires n <= |t|
  {
    && (forall i :: 0 <= i < n ==> (t[i].id in fake <==> t[i].id in bits))
    && (forall i :: n <= i < |t| ==> (t[i].id in fake <==> t[i].id in start))
    && (forall id :: !IsId(t, id) ==> (id in fake <==> id in bits))
  }

  lemma FixedStart(t: Table, bits: set<nat>, start: set<nat>)
    requires forall id :: !IsId(t, id) ==> (id in start <==> id in bits)
    ensures Fixed(t, bits, start, 0, start)
  {
  }

  lemma FixedNext(t: Table, bits: set<nat>, start: set<nat>, n: nat, fake: set<nat>)
    requires n < |t| && WellFormed(t) && Fixed(t, bits, start, n, fake)
    ensures t[n].id in fake <==> t[n].id in start
    ensures Fixed(t, bits, start, n + 1, if t[n].id in bits then fake + {t[n].id} else fake - {t[n].id})
  {
    assert IsId(t, t[n].id);
  }

  lemma FixedEnds(t: Table, bits: set<nat>, start: set<nat>, fake: set<nat>)
    requires Fixed(t, bits, start, |t|, fake)
    ensures fake == bits
  {
    forall id ensures id in fake <==> id in bits {
      if IsId(t, id) { var i :| 0 <= i < |t| && t[i].id == id; }
    }
  }

  class AclUser {
    const bits: array<bool>
    var all: bool
    var subs: map<nat, seq<string>>

    ghost predicate Valid() { bits.Length == BITS }

    ghost function Bits(): set<nat>
      reads bits
    {
      set i: nat | i < bits.Length && bits[i]
    }

    ghost function View(): User
      reads this, bits
    {
      User(Bits(), all, subs)
    }

    constructor ()
      ensures Valid() && fresh(bits) && View() == Fresh()
    {
      bits := new bool[BITS](_ => false);
      all, subs := false, map[];
    }

    /** ACLGetUserCommandBit */
    method GetCommandBit(id: nat) returns (r: bool)
      requires Valid()
      ensures r <==> id in Bits()
    {
      if id >= BITS { return false; }
      return bits[id];
    }

    /** ACLSetUserCommandBit */
    method SetCommandBit(id: nat, value: bool)
      requires Valid()
      modifies bits, this`all
      ensures id >= BITS ==> View() == old(View())
      ensures id < BITS ==> Bits() == if value then old(Bits()) + {id} else old(Bits()) - {id}
      ensures id < BITS ==> all == (old(all) && value)
    {
      if id >= BITS { return; }
      bits[id] := value;
      if !value { all := false; }
    }

    /** Switch one command and forget its subcommands. */
    method SwitchCommand(id: nat, on: bool)
      requires Valid() && id < BITS
      modifies bits, this`all, this`subs
      ensures View() == Switched(old(View()), {id}, on)
    {
      SetCommandBit(id, on);
      if id in subs { subs := subs - {id}; }
      assert subs == old(subs) - {id};
    }

    method SetAllBits(value: bool)
      requires Valid()
      modifies bits
      ensures Bits() == if value then AllBits() else {}
    {
      for i := 0 to BITS
        invariant forall j :: 0 <= j < i ==> bits[j] == value
      {
        bits[i] := value;
      }
      assert value ==> Bits() == AllBits();
    }

    /** ACLSetUserCommandBitsForCategory */
    method SetBitsForCategory(t: Table, category: nat, on: bool) returns (ok: bool)
      requires Valid() && WellFormed(t)
      modifies bits, this`all, this`subs
      ensures ok == (category < CATEGORIES)
      ensures View() == if ok then Switched(old(View()), CategoryIds(t, category), on) else old(View())
    {
      hide Switched, CategoryIds, Bits;
      if category >= CATEGORIES { return false; }
      assert CategoryIds(t[..0], category) == {} by { NoIds(t, category); }
      SwitchedNone(View(), on);
      for i := 0 to |t|
        invariant View() == Switched(old(View()), CategoryIds(t[..i], category), on)
      {
        CategoryIdsNext(t, category, i);
        if !t[i].isModule && InCategory(t[i], category) {
          SwitchedMore(old(View()), CategoryIds(t[..i], category), t[i].id, on);
          SwitchCommand(t[i].id, on);
        } else {
          assert CategoryIds(t[..i], category) + {} == CategoryIds(t[..i], category);
        }
      }
      assert t[..|t|] == t;
      return true;
    }

    lemma NoIds(t: Table, category: nat)
      ensures CategoryIds(t[..0], category) == {}
    {
    }

    /** ACLAddAllowedSubcommand */
    method AddAllowedSubcommand(id: nat, sub: string)
      modifies this`subs
      ensures View() == AddSub(old(View()), id, sub)
    {
      var list := if id in subs then subs[id] else [];
      var items := 0;
      while items < |list|
        invariant 0 <= items <= |list| && forall j :: 0 <= j < items ==> !SameName(list[j], sub)
      {
        if SameName(list[items], sub) { return; }
        items := items + 1;
      }
      subs := subs[id := list + [sub]];
    }

    /** ACLSetUser, the rules about commands */
    method Set(t: Table, rule: Rule) returns (o: Outcome)
      requires Valid() && WellFormed(t)
      modifies bits, this`all, this`subs
      ensures (View(), o) == SetUser(t, old(View()), rule)
    {
      hide Bits, AddSub, CategoryIds, Find, AllBits;
      match rule {
        case AllCommands =>
          SetAllBits(true);
          all, subs := true, map[];
          return Ok;
        case NoCommands =>
          SetAllBits(false);
          all, subs := false, map[];
          return Ok;
        case Category(category, on) =>
          var ok := SetBitsForCategory(t, category, on);
          return if ok then Ok else UnknownName;
        case Single(name, on) =>
          var i := Find(t, name);
          if i.None? { return UnknownName; }
          SwitchCommand(t[i.value].id, on);
          return Ok;
        case Sub(name, sub) =>
          var i := Find(t, name);
          if i.None? { return UnknownName; }
          if |sub| == 0 { return SyntaxError; }
          var id := t[i.value].id;
          var bit := GetCommandBit(id);
          if bit { return Busy; }
          AddAllowedSubcommand(id, sub);
          SetCommandBit(id, false);
          assert Bits() == old(Bits());
          SubsOnly(old(View()), id, sub);
          return Ok;
      }
    }

    lemma SubsOnly(u: User, id: nat, sub: string)
      ensures AddSub(u, id, sub).bits == u.bits && AddSub(u, id, sub).all == u.all
    {
    }

    /** ACLCountCategoryBitsForUser */
    method CountCategoryBits(t: Table, category: nat) returns (on: nat, off: nat)
      requires Valid()
      ensures on == Count(t, View(), category, true) && off == Count(t, View(), category, false)
    {
      on, off := 0, 0;
      for i := 0 to |t|
        invariant on == Count(t[..i], View(), category, true) && off == Count(t[..i], View(), category, false)
      {
        assert t[..i + 1][..i] == t[..i];
        if InCategory(t[i], category) {
          var bit := GetCommandBit(t[i].id);
          if bit { on := on + 1; } else { off := off + 1; }
        }
      }
      assert t[..|t|] == t;
    }

    /** The command part of ACLCheckCommandPerm */
    method CheckCommandPerm(c: Command, arg: Option<string>) returns (ok: bool)
      requires Valid()
      ensures ok == Permits(View(), c, arg)
    {
      if all || c.isAuth { return true; }
      var bit := GetCommandBit(c.id);
      if bit { return true; }
      if arg.None? || c.id !in subs { return false; }
      var subid := 0;
      while subid < |subs[c.id]|
        invariant 0 <= subid <= |subs[c.id]| && forall j :: 0 <= j < subid ==> !SameName(subs[c.id][j], arg.value)
      {
        if SameName(arg.value, subs[c.id][subid]) { return true; }
        subid := subid + 1;
      }
      return false;
    }

    /** The category part of the description; `fake` follows the rules as they are found. */
    method DescribeCategories(t: Table, fake: AclUser) returns (rules: seq<Rule>)
      requires Valid() && fake.Valid() && WellFormed(t) && fake != this && fake.bits != bits && fake.View() == Fresh()
      modifies fake.bits, fake`all, fake`subs
      ensures rules == FirstRules(t, View()) && (fake.View(), Ok) == SetUserAll(t, Fresh(), rules)
    {
      hide Bits, SetUser, WorthACategory, Count;
      ghost var u := View();
      var future := GetCommandBit(FUTURE);
      var additive := !future;
      var first := if additive then NoCommands else AllCommands;
      OneRule(t, Fresh(), first);
      AlwaysOk(t, Fresh(), first);
      var _ := fake.Set(t, first);
      rules := [first];
      for j := 0 to CATEGORIES
        invariant View() == u && rules == [first] + CategoryRules(t, u, additive, j)
        invariant (fake.View(), Ok) == SetUserAll(t, Fresh(), rules)
      {
        var on, off := CountCategoryBits(t, j);
        Worth(t, u, additive, j, on, off);
        if (additive && on > off) || (!additive && off > on) {
          var op := Category(j, additive);
          RulesAppend(t, Fresh(), rules, [op]);
          OneRule(t, fake.View(), op);
          AlwaysOk(t, fake.View(), op);
          var _ := fake.Set(t, op);
          rules := rules + [op];
        }
      }
    }

    lemma Worth(t: Table, u: User, additive: bool, category: nat, on: nat, off: nat)
      requires on == Count(t, u, category, true) && off == Count(t, u, category, false)
      ensures WorthACategory(t, u, additive, category) <==> (additive && on > off) || (!additive && off > on)
    {
    }

    lemma AlwaysOk(t: Table, u: User, rule: Rule)
      requires rule.AllCommands? || rule.NoCommands? || (rule.Category? && rule.category < CATEGORIES)
      ensures SetUser(t, u, rule).1 == Ok
    {
    }

    /** The rules for the subcommands of one command. */
    method DescribeSubcommands(c: Command) returns (rules: seq<Rule>)
      requires Valid()
      ensures rules == SubRules(c.name, SubsOf(View(), c.id))
    {
      rules := [];
      if c.id !in subs { return; }
      var list := subs[c.id];
      for j := 0 to |list|
        invariant rules == SubRules(c.name, list[..j])
      {
        assert list[..j + 1][..j] == list[..j];
        rules := rules + [Sub(c.name, list[j])];
      }
      assert list[..|list|] == list;
    }

    /** Bring one command of the fake user in line, and return the rules for it. */
    method FixCommand(c: Command, fake: AclUser, ghost start: set<nat>) returns (rules: seq<Rule>)
      requires Valid() && fake.Valid() && fake != this && fake.bits != bits && c.id < BITS
      requires c.id in fake.Bits() <==> c.id in start
      modifies fake.bits, fake`all
      ensures rules == FixRule(View(), start, c)
      ensures fake.Bits() == if c.id in Bits() then old(fake.Bits()) + {c.id} else old(fake.Bits()) - {c.id}
    {
      hide Bits, SubRules;
      var userbit := GetCommandBit(c.id);
      var fakebit := fake.GetCommandBit(c.id);
      rules := [];
      if userbit != fakebit {
        rules := rules + [Single(c.name, userbit)];
        fake.SetCommandBit(c.id, userbit);
      }
      if !userbit {
        var more := DescribeSubcommands(c);
        rules := rules + more;
      }
    }

    lemma SameBits(fake: AclUser)
      requires Valid() && fake.Valid() && fake.Bits() == Bits()
      ensures forall i :: 0 <= i < BITS ==> fake.bits[i] == bits[i]
    {
      forall i: nat | i < BITS ensures fake.bits[i] == bits[i] {
        assert (i in Bits() <==> bits[i]) && (i in fake.Bits() <==> fake.bits[i]);
      }
    }

    /** ACLDescribeUserCommandRules: the final comparison of the bitmaps, which would stop the
        server, always succeeds. */
    method DescribeUserCommandRules(t: Table) returns (rules: seq<Rule>)
      requires Valid() && WellFormed(t) && Reachable(t, View())
      ensures rules == Describe(t, View())
    {
      hide SetUserAll, FirstRules, FixRule, Fixed, Bits, Reachable;
      ghost var u := View();
      var fake := new AclUser();
      rules := DescribeCategories(t, fake);
      ghost var first, start := rules, fake.Bits();
      FirstRulesApply(t, u);
      FixedStart(t, u.bits, start);
      for n := 0 to |t|
        invariant View() == u && rules == first + FixRules(t, u, start, n)
        invariant Fixed(t, u.bits, start, n, fake.Bits())
      {
        FixedNext(t, u.bits, start, n, fake.Bits());
        var more := FixCommand(t[n], fake, start);
        assert first + FixRules(t, u, start, n) + more == first + (FixRules(t, u, start, n) + more);
        rules := rules + more;
      }
      FixedEnds(t, u.bits, start, fake.Bits());
      SameBits(fake);
      assert forall i :: 0 <= i < BITS ==> fake.bits[i] == bits[i];
    }
  }

  /** The ids given to command names. */
  class CommandIds {
    var ids: map<string, nat>
    var nextid: nat

    /** Different names have different ids, and none has the reserved one. */
    ghost predicate Valid()
      reads this
    {
      && nextid != FUTURE
      && (forall n :: n in ids ==> ids[n] < nextid && ids[n] != FUTURE)
      && (forall m, n :: m in ids && n in ids && m != n ==> ids[m] != ids[n])
    }

    constructor ()
      ensures Valid() && ids == map[]
    {
      ids, nextid := map[], 0;
    }

    /** ACLGetCommandID: a name keeps its id. */
    method GetCommandID(name: string) returns (id: nat)
      requires Valid()
      modifies this
      ensures Valid() && Lower(name) in ids && id == ids[Lower(name)] && id != FUTURE
      ensures ids == old(ids)[Lower(name) := id] && (Lower(name) in old(ids) ==> ids == old(ids))
    {
      var lower := Lower(name);
      if lower in ids { return ids[lower]; }
      id := nextid;
      ids := ids[lower := id];
      nextid := nextid + 1;
      if nextid == FUTURE { nextid := nextid + 1; }
    }
  }
}
