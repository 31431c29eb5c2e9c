/** The command rules of ACLs. A user's permissions are a bitmap over command ids, with lists
    of allowed subcommands. They are printed as a list of rules, found by a heuristic, and
    applying that list to a new user gives the same permissions. */
module Acl {
  import opened Common

  const BITS: nat := 1024
  /** Never assigned to a command: set by +@all only. */
  const FUTURE: nat := BITS - 1
  /** Entries of ACLCommandCategories. */
  const CATEGORIES: nat := 21

  /** An entry of the command table. */
  datatype Command = Command(name: string, id: nat, categories: set<nat>, isModule: bool, isAuth: bool)

  type Table = seq<Command>

  ghost predicate WellFormed(t: Table) {
    && (forall i :: 0 <= i < |t| ==> t[i].id < FUTURE)
    && (forall i, j :: 0 <= i < j < |t| ==> t[i].id != t[j].id && !SameName(t[i].name, t[j].name))
  }

  /** The command part of a user. */
  datatype User = User(bits: set<nat>, all: bool, subs: map<nat, seq<string>>)

  function Fresh(): User { User({}, false, map[]) }

  predicate IsBit(i: int) { 0 <= i < BITS }

  function AllBits(): (r: set<nat>)
    ensures forall i: nat :: i in r <==> i < BITS
  {
    var r := set i: nat | 0 <= i < BITS && IsBit(i);
    assert forall i: nat :: IsBit(i) <==> i in r;
    r
  }

  function Everything(): User { User(AllBits(), true, map[]) }

  datatype Rule =
    | AllCommands
    | NoCommands
    | Category(category: nat, on: bool)
    | Single(name: string, on: bool)
    | Sub(name: string, sub: string)

  datatype Outcome = Ok | UnknownName | SyntaxError | Busy

  function Lower(s: string): string {
    seq(|s|, i requires 0 <= i < |s| => if 'A' <= s[i] <= 'Z' then s[i] - 'A' + 'a' else s[i])
  }

  /** strcasecmp */
  predicate SameName(a: string, b: string) { Lower(a) == Lower(b) }

  /** The command table is a dictionary that ignores the case of names. */
  function Find(t: Table, name: string): (r: Option<nat>)
    ensures r.Some? ==> r.value < |t| && SameName(t[r.value].name, name)
    ensures r.None? ==> forall i :: 0 <= i < |t| ==> !SameName(t[i].name, name)
  {
    if t == [] then None
    else if SameName(t[|t| - 1].name, name) then Some(|t| - 1)
    else Find(t[..|t| - 1], name)
  }

  predicate InCategory(c: Command, category: nat) { category in c.categories }

  /** The ids that a category rule touches. */
  function CategoryIds(t: Table, category: nat): set<nat> {
    set i | 0 <= i < |t| && !t[i].isModule && InCategory(t[i], category) :: t[i].id
  }

  function Has(list: seq<string>, sub: string): bool {
    exists i :: 0 <= i < |list| && SameName(list[i], sub)
  }

  function SubsOf(u: User, id: nat): seq<string> { if id in u.subs then u.subs[id] else [] }

  /** ACLAddAllowedSubcommand */
  function AddSub(u: User, id: nat, sub: string): User {
    if Has(SubsOf(u, id), sub) then u else u.(subs := u.subs[id := SubsOf(u, id) + [sub]])
  }

  /** The part of ACLSetUser that is about commands. */
  function SetUser(t: Table, u: User, rule: Rule): (User, Outcome) {
    match rule
    case AllCommands => (Everything(), Ok)
    case NoCommands => (Fresh(), Ok)
    case Category(category, on) =>
      if category >= CATEGORIES then (u, UnknownName)
      else
        var ids := CategoryIds(t, category);
        (User(if on then u.bits + ids else u.bits - ids, u.all && (on || ids == {}), u.subs - ids), Ok)
    case Single(name, on) =>
      var i := Find(t, name);
      if i.None? then (u, UnknownName)
      else
        var id := t[i.value].id;
        (User(if on then u.bits + {id} else u.bits - {id}, u.all && on, u.subs - {id}), Ok)
    case Sub(name, sub) =>
      var i := Find(t, name);
      if i.None? then (u, UnknownName)
      else if |sub| == 0 then (u, SyntaxError)
      else
        var id := t[i.value].id;
        if id in u.bits then (u, Busy)
        else (AddSub(u, id, sub).(all := false), Ok)
  }

  // -------------------------------------------------------------------------
  // Reachable users
  // -------------------------------------------------------------------------

  ghost predicate IsId(t: Table, id: nat) {
    exists i :: 0 <= i < |t| && t[i].id == id
  }

  ghost predicate GoodList(list: seq<string>) {
    && list != [] && (forall i :: 0 <= i < |list| ==> list[i] != "")
    && (forall i, j :: 0 <= i < j < |list| ==> !SameName(list[i], list[j]))
  }

  /** What every user that ACLSetUser can produce satisfies. */
  ghost predicate Reachable(t: Table, u: User) {
    && (forall id :: id in u.bits ==> id < BITS)
    && (forall id :: 0 <= id < BITS && !IsId(t, id) ==> (id in u.bits <==> FUTURE in u.bits))
    && (forall id :: id in u.subs ==> IsId(t, id) && id !in u.bits && GoodList(u.subs[id]))
    && (u.all ==> forall id :: 0 <= id < BITS ==> id in u.bits)
  }

  lemma FutureIsFree(t: Table)
    requires WellFormed(t)
    ensures !IsId(t, FUTURE)
  {
  }

  lemma CategoryIdsAreIds(t: Table, category: nat)
    ensures forall id :: id in CategoryIds(t, category) ==> IsId(t, id)
  {
  }

  lemma AddSubGood(list: seq<string>, sub: string)
    requires (list == [] || GoodList(list)) && sub != ""
    ensures if Has(list, sub) then GoodList(list) else GoodList(list + [sub])
  {
  }

  lemma SubKeepsReachable(t: Table, u: User, name: string, sub: string)
    requires WellFormed(t) && Reachable(t, u)
    ensures Reachable(t, SetUser(t, u, Sub(name, sub)).0)
  {
    hide GoodList, Has, SameName;
    var i := Find(t, name);
    if i.Some? && sub != "" { AddSubGood(SubsOf(u, t[i.value].id), sub); }
  }

  lemma BitsKeepReachable(t: Table, u: User, ids: set<nat>, on: bool)
    requires WellFormed(t) && Reachable(t, u) && forall id :: id in ids ==> IsId(t, id) && id < BITS
    ensures Reachable(t, User(if on then u.bits + ids else u.bits - ids, u.all && (on || ids == {}), u.subs - ids))
  {
    hide GoodList;
    FutureIsFree(t);
  }

  lemma RuleKeepsReachable(t: Table, u: User, rule: Rule)
    requires WellFormed(t) && Reachable(t, u)
    ensures Reachable(t, SetUser(t, u, rule).0)
  {
    hide GoodList, Reachable;
    match rule
    case Category(category, on) =>
      CategoryIdsAreIds(t, category);
      BitsKeepReachable(t, u, CategoryIds(t, category), on);
    case Single(name, on) =>
      var i := Find(t, name);
      if i.Some? { BitsKeepReachable(t, u, {t[i.value].id}, on); }
    case Sub(name, sub) => SubKeepsReachable(t, u, name, sub);
    case AllCommands => AllReachable(t);
    case NoCommands => AllReachable(t);
  }

  lemma AllReachable(t: Table)
    requires WellFormed(t)
    ensures Reachable(t, Everything()) && Reachable(t, Fresh())
  {
  }

  /** Apply rules one after the other; stop at the first that fails. */
  function SetUserAll(t: Table, u: User, rules: seq<Rule>): (User, Outcome) {
    if rules == [] then (u, Ok)
    else
      var (v, o) := SetUserAll(t, u, rules[..|rules| - 1]);
      if o != Ok then (v, o) else SetUser(t, v, rules[|rules| - 1])
  }

  /** Every user made by rules is reachable. */
  lemma {:induction false} RulesKeepReachable(t: Table, u: User, rules: seq<Rule>)
    requires WellFormed(t) && Reachable(t, u)
    ensures Reachable(t, SetUserAll(t, u, rules).0)
  {
    hide Reachable;
    if rules != [] {
      RulesKeepReachable(t, u, rules[..|rules| - 1]);
      RuleKeepsReachable(t, SetUserAll(t, u, rules[..|rules| - 1]).0, rules[|rules| - 1]);
    }
  }

  // -------------------------------------------------------------------------
  // Printing
  // -------------------------------------------------------------------------

  /** ACLCountCategoryBitsForUser: how many commands of a category have the given bit. */
  function Count(t: Table, u: User, category: nat, on: bool): nat {
    if t == [] then 0
    else
      var c := t[|t| - 1];
      Count(t[..|t| - 1], u, category, on) + if InCategory(c, category) && (c.id in u.bits <==> on) then 1 else 0
  }

  /** Is most of the category different from where the description started? */
  predicate WorthACategory(t: Table, u: User, additive: bool, category: nat) {
    var on, off := Count(t, u, category, true), Count(t, u, category, false);
    if additive then on > off else off > on
  }

  function CategoryRules(t: Table, u: User, additive: bool, n: nat): seq<Rule>
    requires n <= CATEGORIES
  {
    if n == 0 then []
    else CategoryRules(t, u, additive, n - 1)
         + if WorthACategory(t, u, additive, n - 1) then [Category(n - 1, additive)] else []
  }

  predicate IsAdditive(u: User) { FUTURE !in u.bits }

  /** +@all or -@all, then categories. */
  function FirstRules(t: Table, u: User): seq<Rule> {
    [if IsAdditive(u) then NoCommands else AllCommands] + CategoryRules(t, u, IsAdditive(u), CATEGORIES)
  }

  function SubRules(name: string, list: seq<string>): seq<Rule> {
    if list == [] then [] else SubRules(name, list[..|list| - 1]) + [Sub(name, list[|list| - 1])]
  }

  /** What is needed for one command when the rules so far gave `fake`. */
  function FixRule(u: User, fake: set<nat>, c: Command): seq<Rule> {
    (if (c.id in u.bits) == (c.id in fake) then [] else [Single(c.name, c.id in u.bits)])
    + if c.id in u.bits then [] else SubRules(c.name, SubsOf(u, c.id))
  }

  /** The rules for the first `n` commands of the table. */
  function FixRules(t: Table, u: User, fake: set<nat>, n: nat): seq<Rule>
    requires n <= |t|
  {
    if n == 0 then [] else FixRules(t, u, fake, n - 1) + FixRule(u, fake, t[n - 1])
  }

  /** ACLDescribeUserCommandRules */
  function Describe(t: Table, u: User): seq<Rule> {
    FirstRules(t, u) + FixRules(t, u, SetUserAll(t, Fresh(), FirstRules(t, u)).0.bits, |t|)
  }

  // -------------------------------------------------------------------------
  // Replaying
  // -------------------------------------------------------------------------

  lemma {:induction false} RulesAppend(t: Table, u: User, a: seq<Rule>, b: seq<Rule>)
    requires SetUserAll(t, u, a).1 == Ok
    ensures SetUserAll(t, u, a + b) == SetUserAll(t, SetUserAll(t, u, a).0, b)
    decreases |b|
  {
    hide SetUser;
    if b == [] {
      assert a + b == a;
    } else {
      var n := |b| - 1;
      RulesAppend(t, u, a, b[..n]);
      assert (a + b)[..|a + b| - 1] == a + b[..n];
    }
  }

  lemma OneRule(t: Table, u: User, r: Rule)
    ensures SetUserAll(t, u, [r]) == SetUser(t, u, r)
  {
    assert [r][..0] == [];
  }

  lemma {:induction false} CategoryRulesApply(t: Table, u: User, v: User, additive: bool, n: nat)
    requires n <= CATEGORIES && v.subs == map[]
    ensures var (r, o) := SetUserAll(t, v, CategoryRules(t, u, additive, n));
            o == Ok && r.subs == map[] && forall id :: !IsId(t, id) ==> (id in r.bits <==> id in v.bits)
  {
    hide SetUser, SetUserAll, WorthACategory, IsId;
    if n == 0 {
      NoRules(t, v);
    } else {
      CategoryRulesApply(t, u, v, additive, n - 1);
      var before := CategoryRules(t, u, additive, n - 1);
      if WorthACategory(t, u, additive, n - 1) {
        var r := SetUserAll(t, v, before).0;
        RulesAppend(t, v, before, [Category(n - 1, additive)]);
        OneRule(t, r, Category(n - 1, additive));
        CategoryStep(t, r, n - 1, additive);
      } else {
        assert before + [] == before;
      }
    }
  }

  lemma NoRules(t: Table, u: User)
    ensures SetUserAll(t, u, []) == (u, Ok)
  {
  }

  lemma CategoryStep(t: Table, r: User, category: nat, on: bool)
    requires category < CATEGORIES && r.subs == map[]
    ensures var (v, o) := SetUser(t, r, Category(category, on));
            o == Ok && v.subs == map[] && forall id :: !IsId(t, id) ==> (id in v.bits <==> id in r.bits)
  {
    hide CategoryIds, IsId;
    CategoryIdsAreIds(t, category);
    assert r.subs - CategoryIds(t, category) == r.subs;
  }

  /** After the first rules all bits without a command are right, and there are no lists. */
  lemma FirstRulesApply(t: Table, u: User)
    requires WellFormed(t) && Reachable(t, u)
    ensures var (r, o) := SetUserAll(t, Fresh(), FirstRules(t, u));
            && o == Ok && r.subs == map[]
            && forall id :: !IsId(t, id) ==> (id in r.bits <==> id in u.bits)
  {
    hide CategoryRules, GoodList;
    FutureIsFree(t);
    var first := if IsAdditive(u) then NoCommands else AllCommands;
    OneRule(t, Fresh(), first);
    var v := SetUser(t, Fresh(), first).0;
    RulesAppend(t, Fresh(), [first], CategoryRules(t, u, IsAdditive(u), CATEGORIES));
    CategoryRulesApply(t, u, v, IsAdditive(u), CATEGORIES);
  }

  lemma NamesFound(t: Table, i: nat)
    requires WellFormed(t) && i < |t|
    ensures Find(t, t[i].name) == Some(i)
  {
  }

  lemma NewSub(list: seq<string>, n: nat)
    requires GoodList(list) && n < |list|
    ensures !Has(list[..n], list[n]) && list[n] != "" && list[..n] + [list[n]] == list[..n + 1]
    ensures n > 0 ==> GoodList(list[..n])
  {
  }

  lemma SubStep(t: Table, i: nat, r: User, list: seq<string>, n: nat)
    requires WellFormed(t) && i < |t| && t[i].id !in r.bits && GoodList(list) && n < |list|
    requires SubsOf(r, t[i].id) == list[..n]
    ensures SetUser(t, r, Sub(t[i].name, list[n])) == (r.(subs := r.subs[t[i].id := list[..n + 1]], all := false), Ok)
  {
    hide GoodList, Has;
    NamesFound(t, i);
    NewSub(list, n);
  }

  /** A list of subcommands is rebuilt in order. */
  lemma {:induction false} SubRulesApply(t: Table, i: nat, v: User, list: seq<string>)
    requires WellFormed(t) && i < |t| && t[i].id !in v.bits && t[i].id !in v.subs
    requires list == [] || GoodList(list)
    ensures var (r, o) := SetUserAll(t, v, SubRules(t[i].name, list));
            && o == Ok && r.bits == v.bits
            && r.subs == if list == [] then v.subs else v.subs[t[i].id := list]
  {
    hide GoodList, Has, SetUser, WellFormed;
    if list != [] {
      var n := |list| - 1;
      var id, name, sub := t[i].id, t[i].name, list[n];
      NewSub(list, n);
      SubRulesApply(t, i, v, list[..n]);
      var r := SetUserAll(t, v, SubRules(name, list[..n])).0;
      RulesAppend(t, v, SubRules(name, list[..n]), [Sub(name, sub)]);
      OneRule(t, r, Sub(name, sub));
      SubStep(t, i, r, list, n);
      assert list[..n + 1] == list;
    }
  }

  /** What the replayed user is when the first `n` commands of the table are done. */
  ghost predicate Halfway(t: Table, u: User, fake: set<nat>, n: nat, r: User)
    requires n <= |t|
  {
    HalfBits(t, u, fake, n, r) && HalfSubs(t, u, n, r)
  }

  ghost predicate HalfBits(t: Table, u: User, fake: set<nat>, n: nat, r: User)
    requires n <= |t|
  {
    && (forall i :: 0 <= i < n ==> (t[i].id in r.bits <==> t[i].id in u.bits))
    && (forall i :: n <= i < |t| ==> (t[i].id in r.bits <==> t[i].id in fake))
    && (forall id :: !IsId(t, id) ==> (id in r.bits <==> id in u.bits))
  }

  ghost predicate HalfSubs(t: Table, u: User, n: nat, r: User)
    requires n <= |t|
  {
    && (forall i :: 0 <= i < n ==> SubsOf(r, t[i].id) == SubsOf(u, t[i].id))
    && (forall i :: n <= i < |t| ==> t[i].id !in r.subs)
    && (forall id :: !IsId(t, id) ==> id !in r.subs)
    && (forall id :: id in r.subs ==> r.subs[id] != [])
  }

  /** The bit of one command. */
  lemma BitFixed(t: Table, u: User, fake: set<nat>, n: nat, r: User)
    requires WellFormed(t) && Reachable(t, u) && n < |t| && Halfway(t, u, fake, n, r)
    ensures var c := t[n];
            var rules := if (c.id in u.bits) == (c.id in fake) then [] else [Single(c.name, c.id in u.bits)];
            var (v, o) := SetUserAll(t, r, rules);
            && o == Ok && v.bits == (if c.id in u.bits then r.bits + {c.id} else r.bits - {c.id}) && v.subs == r.subs
  {
    hide GoodList, IsId;
    var c := t[n];
    NamesFound(t, n);
    OneRule(t, r, Single(c.name, c.id in u.bits));
    assert r.subs - {c.id} == r.subs;
  }

  /** One command is brought in line without touching the others. */
  lemma CommandFixed(t: Table, u: User, fake: set<nat>, n: nat, r: User)
    requires WellFormed(t) && Reachable(t, u) && n < |t| && Halfway(t, u, fake, n, r)
    ensures var (v, o) := SetUserAll(t, r, FixRule(u, fake, t[n]));
            && o == Ok && v.bits == (if t[n].id in u.bits then r.bits + {t[n].id} else r.bits - {t[n].id})
            && v.subs == if SubsOf(u, t[n].id) == [] then r.subs else r.subs[t[n].id := SubsOf(u, t[n].id)]
  {
    hide GoodList, IsId, SetUserAll, WellFormed;
    var c := t[n];
    var first := if (c.id in u.bits) == (c.id in fake) then [] else [Single(c.name, c.id in u.bits)];
    BitFixed(t, u, fake, n, r);
    var v := SetUserAll(t, r, first).0;
    if c.id in u.bits {
      assert first + [] == first;
    } else {
      RulesAppend(t, r, first, SubRules(c.name, SubsOf(u, c.id)));
      SubRulesApply(t, n, v, SubsOf(u, c.id));
    }
  }

  lemma HalfwayNext(t: Table, u: User, fake: set<nat>, n: nat, r: User, v: User)
    requires WellFormed(t) && Reachable(t, u) && n < |t| && Halfway(t, u, fake, n, r)
    requires v.bits == if t[n].id in u.bits then r.bits + {t[n].id} else r.bits - {t[n].id}
    requires v.subs == if SubsOf(u, t[n].id) == [] then r.subs else r.subs[t[n].id := SubsOf(u, t[n].id)]
    ensures Halfway(t, u, fake, n + 1, v)
  {
    hide HalfBits, HalfSubs, SubsOf, WellFormed, Reachable;
    BitsNext(t, u, fake, n, r, v);
    SubsNext(t, u, n, r, v);
  }

  lemma BitsNext(t: Table, u: User, fake: set<nat>, n: nat, r: User, v: User)
    requires WellFormed(t) && n < |t| && HalfBits(t, u, fake, n, r)
    requires v.bits == if t[n].id in u.bits then r.bits + {t[n].id} else r.bits - {t[n].id}
    ensures HalfBits(t, u, fake, n + 1, v)
  {
    hide SameName;
    assert IsId(t, t[n].id);
  }

  lemma SubsNext(t: Table, u: User, n: nat, r: User, v: User)
    requires WellFormed(t) && n < |t| && HalfSubs(t, u, n, r)
    requires v.subs == if SubsOf(u, t[n].id) == [] then r.subs else r.subs[t[n].id := SubsOf(u, t[n].id)]
    ensures HalfSubs(t, u, n + 1, v)
  {
    hide SameName;
    assert IsId(t, t[n].id);
  }

  lemma {:induction false} FixRulesApply(t: Table, u: User, fake: User, n: nat)
    requires WellFormed(t) && Reachable(t, u) && n <= |t| && fake.subs == map[]
    requires forall id :: !IsId(t, id) ==> (id in fake.bits <==> id in u.bits)
    ensures var (r, o) := SetUserAll(t, fake, FixRules(t, u, fake.bits, n)); o == Ok && Halfway(t, u, fake.bits, n, r)
  {
    hide WellFormed, Reachable, FixRule, Halfway, SetUserAll, SetUser;
    if n == 0 {
      NoRules(t, fake);
      assert Halfway(t, u, fake.bits, 0, fake) by { HalfwayStart(t, u, fake); }
    } else {
      FixRulesApply(t, u, fake, n - 1);
      var before := FixRules(t, u, fake.bits, n - 1);
      var r := SetUserAll(t, fake, before).0;
      CommandFixed(t, u, fake.bits, n - 1, r);
      RulesAppend(t, fake, before, FixRule(u, fake.bits, t[n - 1]));
      HalfwayNext(t, u, fake.bits, n - 1, r, SetUserAll(t, r, FixRule(u, fake.bits, t[n - 1])).0);
    }
  }

  lemma HalfwayStart(t: Table, u: User, fake: User)
    requires fake.subs == map[] && forall id :: !IsId(t, id) ==> (id in fake.bits <==> id in u.bits)
    ensures Halfway(t, u, fake.bits, 0, fake)
  {
  }

  lemma HalfwayEnds(t: Table, u: User, fake: set<nat>, r: User)
    requires Reachable(t, u) && Halfway(t, u, fake, |t|, r)
    ensures r.bits == u.bits && r.subs == u.subs
  {
    forall id ensures id in r.bits <==> id in u.bits {
      if IsId(t, id) { var i :| 0 <= i < |t| && t[i].id == id; }
    }
    forall id ensures id in r.subs <==> id in u.subs {
      if IsId(t, id) { var i :| 0 <= i < |t| && t[i].id == id; assert SubsOf(r, t[i].id) == SubsOf(u, t[i].id); }
    }
    forall id | id in r.subs ensures r.subs[id] == u.subs[id] {
      var i :| 0 <= i < |t| && t[i].id == id;
      assert SubsOf(r, t[i].id) == SubsOf(u, t[i].id);
    }
  }

  /** Every emitted rule is accepted, and together they rebuild the bitmap and the lists. */
  lemma DescriptionReplays(t: Table, u: User)
    requires WellFormed(t) && Reachable(t, u)
    ensures var (r, o) := SetUserAll(t, Fresh(), Describe(t, u)); o == Ok && r.bits == u.bits && r.subs == u.subs
  {
    hide WellFormed, Reachable, FirstRules, FixRules, Halfway, SetUserAll;
    FirstRulesApply(t, u);
    var fake := SetUserAll(t, Fresh(), FirstRules(t, u)).0;
    FixRulesApply(t, u, fake, |t|);
    RulesAppend(t, Fresh(), FirstRules(t, u), FixRules(t, u, fake.bits, |t|));
    HalfwayEnds(t, u, fake.bits, SetUserAll(t, fake, FixRules(t, u, fake.bits, |t|)).0);
  }

  // -------------------------------------------------------------------------
  // Checking
  // -------------------------------------------------------------------------

  /** The command part of ACLCheckCommandPerm, with the first argument if there is one. */
  predicate Permits(u: User, c: Command, arg: Option<string>) {
    u.all || c.isAuth || c.id in u.bits || (arg.Some? && Has(SubsOf(u, c.id), arg.value))
  }

  /** For every user made by rules, the user that is rebuilt from its description is permitted
      exactly the same commands and subcommands. */
  lemma SamePermissions(t: Table, rules: seq<Rule>, i: nat, arg: Option<string>)
    requires WellFormed(t) && i < |t|
    ensures var u := SetUserAll(t, Fresh(), rules).0;
            var (r, o) := SetUserAll(t, Fresh(), Describe(t, u));
            o == Ok && (Permits(u, t[i], arg) <==> Permits(r, t[i], arg))
  {
    hide Describe, SetUserAll, GoodList;
    AllReachable(t);
    RulesKeepReachable(t, Fresh(), rules);
    var u := SetUserAll(t, Fresh(), rules).0;
    DescriptionReplays(t, u);
    RulesKeepReachable(t, Fresh(), Describe(t, u));
  }
}
