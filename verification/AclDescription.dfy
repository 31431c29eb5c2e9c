/** Which rules a description holds: each of them exactly when it is needed. */
module AclDescription {
  import opened Acl
  import opened Common

  /** The commands of a category whose bit is `on`. */
  ghost function Members(t: Table, u: User, category: nat, on: bool): set<int> {
    set i | 0 <= i < |t| && IsMember(u, t[i], category, on)
  }

  ghost predicate IsMember(u: User, c: Command, category: nat, on: bool) {
    category in c.categories && on == (c.id in u.bits)
  }

  lemma MembersNext(t: Table, u: User, category: nat, on: bool)
    requires t != []
    ensures var n := |t| - 1;
            && n !in Members(t[..n], u, category, on)
            && Members(t, u, category, on)
               == Members(t[..n], u, category, on) + if IsMember(u, t[n], category, on) then {n} else {}
  {
    hide IsMember;
  }

  lemma {:induction false} CountIsSize(t: Table, u: User, category: nat, on: bool)
    ensures Count(t, u, category, on) == |Members(t, u, category, on)|
  {
    if t == [] {
      assert Members(t, u, category, on) == {};
    } else {
      hide Members;
      CountIsSize(t[..|t| - 1], u, category, on);
      MembersNext(t, u, category, on);
    }
  }

  lemma {:induction false} CategoriesListed(t: Table, u: User, additive: bool, n: nat, r: Rule)
    requires n <= CATEGORIES
    ensures r in CategoryRules(t, u, additive, n) <==>
            r.Category? && r.category < n && r.on == additive && WorthACategory(t, u, additive, r.category)
  {
    hide WorthACategory;
    if n > 0 { CategoriesListed(t, u, additive, n - 1, r); }
  }

  lemma {:induction false} SubsListed(name: string, list: seq<string>, r: Rule)
    ensures r in SubRules(name, list) <==> r.Sub? && r.name == name && r.sub in list
  {
    if list != [] {
      var n := |list| - 1;
      SubsListed(name, list[..n], r);
      assert list == list[..n] + [list[n]];
    }
  }

  /** What command `i` needs when the first rules gave `fake`. */
  ghost predicate Needed(t: Table, u: User, fake: set<nat>, i: nat, r: Rule)
    requires i < |t|
  {
    var on := t[i].id in u.bits;
    || (r == Single(t[i].name, on) && on != (t[i].id in fake))
    || (r.Sub? && r.name == t[i].name && !on && r.sub in SubsOf(u, t[i].id))
  }

  lemma {:induction false} FixesListed(t: Table, u: User, fake: set<nat>, n: nat, r: Rule)
    requires n <= |t|
    ensures r in FixRules(t, u, fake, n) <==> exists i :: 0 <= i < n && Needed(t, u, fake, i, r)
  {
    hide SubsOf;
    if n > 0 {
      FixesListed(t, u, fake, n - 1, r);
      SubsListed(t[n - 1].name, SubsOf(u, t[n - 1].id), r);
      assert r in FixRule(u, fake, t[n - 1]) <==> Needed(t, u, fake, n - 1, r);
    }
  }

  /** Why a rule is in a description that starts by giving `fake`: the first rule says what becomes
      of future commands, a category is named if it has more commands with the other bit, a
      command if the rules so far got it wrong, and a subcommand if it is allowed. */
  ghost predicate Reason(t: Table, u: User, fake: set<nat>, r: Rule) {
    if r.AllCommands? then FUTURE in u.bits
    else if r.NoCommands? then FUTURE !in u.bits
    else if r.Category? then
      && r.category < CATEGORIES && r.on == (FUTURE !in u.bits)
      && |Members(t, u, r.category, r.on)| > |Members(t, u, r.category, !r.on)|
    else exists i :: 0 <= i < |t| && Needed(t, u, fake, i, r)
  }

  lemma ListedForReason(t: Table, u: User, fake: set<nat>, r: Rule)
    ensures r in FirstRules(t, u) + FixRules(t, u, fake, |t|) <==> Reason(t, u, fake, r)
  {
    hide CategoryRules, FixRules, Count, Members, Needed;
    var first := if IsAdditive(u) then NoCommands else AllCommands;
    CategoriesListed(t, u, IsAdditive(u), CATEGORIES, r);
    FixesListed(t, u, fake, |t|, r);
    assert r in [first] <==> r == first;
    if r.Category? {
      CountIsSize(t, u, r.category, true);
      CountIsSize(t, u, r.category, false);
    }
    OnlyCommandsNeeded(t, u, fake, r);
  }

  lemma OnlyCommandsNeeded(t: Table, u: User, fake: set<nat>, r: Rule)
    ensures !r.Single? && !r.Sub? ==> forall i :: 0 <= i < |t| ==> !Needed(t, u, fake, i, r)
  {
  }

  /** Every rule of a description is there for a reason, and no reason is missed. */
  lemma DescribedExactly(t: Table, u: User, r: Rule)
    ensures r in Describe(t, u) <==> Reason(t, u, SetUserAll(t, Fresh(), FirstRules(t, u)).0.bits, r)
  {
    hide FirstRules, FixRules, Reason;
    ListedForReason(t, u, SetUserAll(t, Fresh(), FirstRules(t, u)).0.bits, r);
  }
}
