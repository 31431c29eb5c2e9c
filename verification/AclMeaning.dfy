/** What rules mean for a command, said without bitmaps and lists: a command is permitted if some
    accepted rule grants it and no later rule takes it away. */
module AclMeaning {
  import opened Acl
  import opened Common

  /** The rule is about every use of the command. */
  ghost predicate Covers(t: Table, rule: Rule, i: nat)
    requires i < |t|
  {
    match rule
    case AllCommands => true
    case NoCommands => true
    case Category(category, _) => !t[i].isModule && category in t[i].categories
    case Single(name, _) => SameName(t[i].name, name)
    case Sub(_, _) => false
  }

  ghost predicate Revokes(t: Table, rule: Rule, i: nat)
    requires i < |t|
  {
    Covers(t, rule, i) && (rule.NoCommands? || (rule.Category? && !rule.on) || (rule.Single? && !rule.on))
  }

  /** The rule permits the command with this first argument. */
  ghost predicate Permitting(t: Table, rule: Rule, i: nat, arg: Option<string>)
    requires i < |t|
  {
    || (Covers(t, rule, i) && !Revokes(t, rule, i))
    || (rule.Sub? && SameName(t[i].name, rule.name) && arg.Some? && SameName(rule.sub, arg.value))
  }

  // -------------------------------------------------------------------------
  // One rule
  // -------------------------------------------------------------------------

  /** When a rule is accepted: the name is known, a subcommand is not empty, and its command is
      not permitted as a whole. A rule that is not accepted changes nothing. */
  lemma AcceptedExactlyIf(t: Table, u: User, rule: Rule)
    requires WellFormed(t)
    ensures var (v, o) := SetUser(t, u, rule);
            && (o != Ok ==> v == u)
            && match rule
               case AllCommands => o == Ok
               case NoCommands => o == Ok
               case Category(category, _) => o == if category < CATEGORIES then Ok else UnknownName
               case Single(name, _) => o == if Named(t, name) then Ok else UnknownName
               case Sub(name, sub) =>
                 if !Named(t, name) then o == UnknownName
                 else if sub == "" then o == SyntaxError
                 else
                   forall i :: 0 <= i < |t| && SameName(t[i].name, name) ==>
                     o == if t[i].id in u.bits then Busy else Ok
  {
    match rule
    case Single(name, _) => FoundExactlyIf(t, name);
    case Sub(name, sub) => FoundExactlyIf(t, name);
    case _ =>
  }

  ghost predicate Named(t: Table, name: string) {
    exists i :: 0 <= i < |t| && SameName(t[i].name, name)
  }

  lemma FoundExactlyIf(t: Table, name: string)
    requires WellFormed(t)
    ensures Named(t, name) <==> Find(t, name).Some?
    ensures forall i :: 0 <= i < |t| && SameName(t[i].name, name) ==> Find(t, name) == Some(i)
  {
    var r := Find(t, name);
    if r.Some? { assert SameName(t[r.value].name, name); }
  }

  lemma CategoryMembers(t: Table, category: nat, i: nat)
    requires WellFormed(t) && i < |t|
    ensures t[i].id in CategoryIds(t, category) <==> !t[i].isModule && category in t[i].categories
  {
  }

  lemma CategoryDecides(t: Table, u: User, category: nat, on: bool, i: nat, arg: Option<string>)
    requires WellFormed(t) && Reachable(t, u) && i < |t| && category < CATEGORIES
    ensures var v := SetUser(t, u, Category(category, on)).0;
            if !t[i].isModule && category in t[i].categories
            then Permits(v, t[i], arg) <==> on || t[i].isAuth
            else Permits(v, t[i], arg) <==> Permits(u, t[i], arg)
  {
    hide GoodList, CategoryIds, IsId, Has;
    CategoryMembers(t, category, i);
    assert t[i].id < BITS;
    NoSubs(arg);
  }

  lemma NoSubs(arg: Option<string>)
    ensures arg.Some? ==> !Has([], arg.value)
  {
  }

  lemma SingleDecides(t: Table, u: User, name: string, on: bool, i: nat, arg: Option<string>)
    requires WellFormed(t) && Reachable(t, u) && i < |t| && Named(t, name)
    ensures var v := SetUser(t, u, Single(name, on)).0;
            if SameName(t[i].name, name)
            then Permits(v, t[i], arg) <==> on || t[i].isAuth
            else Permits(v, t[i], arg) <==> Permits(u, t[i], arg)
  {
    hide GoodList, IsId, Has;
    FoundExactlyIf(t, name);
    assert t[i].id < BITS;
    NoSubs(arg);
  }

  lemma HasMore(list: seq<string>, sub: string, arg: string)
    ensures var now := if Has(list, sub) then list else list + [sub];
            Has(now, arg) <==> Has(list, arg) || SameName(sub, arg)
  {
    if Has(list, arg) {
      var i :| 0 <= i < |list| && SameName(list[i], arg);
      assert SameName((list + [sub])[i], arg);
    }
    assert (list + [sub])[|list|] == sub;
    if Has(list + [sub], arg) {
      var i :| 0 <= i < |list| + 1 && SameName((list + [sub])[i], arg);
      if i < |list| { assert SameName(list[i], arg); }
    }
  }

  lemma SubDecides(t: Table, u: User, name: string, sub: string, i: nat, arg: Option<string>)
    requires WellFormed(t) && Reachable(t, u) && i < |t| && SetUser(t, u, Sub(name, sub)).1 == Ok
    ensures var v := SetUser(t, u, Sub(name, sub)).0;
            Permits(v, t[i], arg) <==>
              Permits(u, t[i], arg) || (SameName(t[i].name, name) && arg.Some? && SameName(sub, arg.value))
  {
    hide GoodList, IsId, Has, SameName;
    FoundExactlyIf(t, name);
    assert t[i].id < BITS;
    if arg.Some? { HasMore(SubsOf(u, t[i].id), sub, arg.value); }
  }

  /** What one accepted rule does to one command, whatever it is and whoever the user. */
  lemma RuleDecides(t: Table, u: User, rule: Rule, i: nat, arg: Option<string>)
    requires WellFormed(t) && Reachable(t, u) && i < |t| && SetUser(t, u, rule).1 == Ok
    ensures var v := SetUser(t, u, rule).0;
            Permits(v, t[i], arg) <==>
              || t[i].isAuth || Permitting(t, rule, i, arg)
              || (Permits(u, t[i], arg) && !Revokes(t, rule, i))
  {
    hide GoodList, Reachable, SameName, Has;
    match rule
    case Category(category, on) => CategoryDecides(t, u, category, on, i, arg);
    case Single(name, on) =>
      FoundExactlyIf(t, name);
      SingleDecides(t, u, name, on, i, arg);
    case Sub(name, sub) => SubDecides(t, u, name, sub, i, arg);
    case AllCommands =>
    case NoCommands => NoSubs(arg);
  }

  // -------------------------------------------------------------------------
  // Every list of rules
  // -------------------------------------------------------------------------

  /** How many rules are accepted before the first that is not. */
  ghost function Accepted(t: Table, u: User, rules: seq<Rule>): (n: nat)
    ensures n <= |rules|
  {
    if rules == [] then 0
    else
      var n := Accepted(t, u, rules[..|rules| - 1]);
      if SetUserAll(t, u, rules).1 == Ok then |rules| else n
  }

  lemma {:induction false} AcceptedGiveUser(t: Table, u: User, rules: seq<Rule>)
    requires WellFormed(t)
    ensures var n := Accepted(t, u, rules);
            && SetUserAll(t, u, rules[..n]) == (SetUserAll(t, u, rules).0, Ok)
            && (n < |rules| ==> SetUser(t, SetUserAll(t, u, rules).0, rules[n]).1 == SetUserAll(t, u, rules).1 != Ok)
  {
    hide SetUser, WellFormed;
    var n := Accepted(t, u, rules);
    if SetUserAll(t, u, rules).1 == Ok {
      assert rules[..|rules|] == rules;
      if rules == [] { assert n == 0; }
    } else {
      var m := |rules| - 1;
      AcceptedGiveUser(t, u, rules[..m]);
      assert rules[..m][..n] == rules[..n];
      var (v, o) := SetUserAll(t, u, rules[..m]);
      if o == Ok {
        assert rules[..m][..m] == rules[..m];
        AcceptedExactlyIf(t, v, rules[m]);
      }
    }
  }

  /** Some rule grants, and none after it revokes. */
  ghost predicate Granted(t: Table, rules: seq<Rule>, i: nat, arg: Option<string>)
    requires i < |t|
  {
    exists k :: 0 <= k < |rules| && Permitting(t, rules[k], i, arg) && NoneRevokes(t, rules, k + 1, i)
  }

  ghost predicate NoneRevokes(t: Table, rules: seq<Rule>, from: nat, i: nat)
    requires i < |t|
  {
    forall j :: from <= j < |rules| ==> !Revokes(t, rules[j], i)
  }

  lemma GrantedMore(t: Table, rules: seq<Rule>, r: Rule, i: nat, arg: Option<string>)
    requires i < |t|
    ensures Granted(t, rules + [r], i, arg) <==>
              Permitting(t, r, i, arg) || (Granted(t, rules, i, arg) && !Revokes(t, r, i))
    ensures NoneRevokes(t, rules + [r], 0, i) <==> NoneRevokes(t, rules, 0, i) && !Revokes(t, r, i)
  {
    hide Permitting, Revokes;
    var all, n := rules + [r], |rules|;
    assert all[n] == r;
    if Granted(t, all, i, arg) {
      var k :| 0 <= k < |all| && Permitting(t, all[k], i, arg) && NoneRevokes(t, all, k + 1, i);
      if k < n {
        assert rules[k] == all[k] && !Revokes(t, all[n], i);
        forall j | k + 1 <= j < n ensures !Revokes(t, rules[j], i) { assert all[j] == rules[j]; }
        assert NoneRevokes(t, rules, k + 1, i);
      }
    }
    if Granted(t, rules, i, arg) && !Revokes(t, r, i) {
      var k :| 0 <= k < n && Permitting(t, rules[k], i, arg) && NoneRevokes(t, rules, k + 1, i);
      assert all[k] == rules[k] && NoneRevokes(t, all, k + 1, i);
    }
    if NoneRevokes(t, all, 0, i) {
      forall j | 0 <= j < n ensures !Revokes(t, rules[j], i) { assert all[j] == rules[j]; }
    }
  }

  lemma {:induction false} AcceptedRulesDecide(t: Table, u: User, rules: seq<Rule>, i: nat, arg: Option<string>)
    requires WellFormed(t) && Reachable(t, u) && i < |t| && SetUserAll(t, u, rules).1 == Ok
    ensures Permits(SetUserAll(t, u, rules).0, t[i], arg) <==>
              || t[i].isAuth || Granted(t, rules, i, arg)
              || (Permits(u, t[i], arg) && NoneRevokes(t, rules, 0, i))
  {
    hide WellFormed, Reachable, SetUser, Permits, Permitting, Revokes, Granted, NoneRevokes;
    if rules == [] {
      NothingGranted(t, i, arg);
      AuthPermitted(u, t[i], arg);
    } else {
      var n := |rules| - 1;
      var v := SetUserAll(t, u, rules[..n]).0;
      AcceptedRulesDecide(t, u, rules[..n], i, arg);
      RulesKeepReachable(t, u, rules[..n]);
      RuleDecides(t, v, rules[n], i, arg);
      GrantedMore(t, rules[..n], rules[n], i, arg);
      assert rules[..n] + [rules[n]] == rules;
      PermittingIsNoRevoke(t, rules[n], i, arg);
    }
  }

  lemma NothingGranted(t: Table, i: nat, arg: Option<string>)
    requires i < |t|
    ensures !Granted(t, [], i, arg) && NoneRevokes(t, [], 0, i)
  {
  }

  lemma AuthPermitted(u: User, c: Command, arg: Option<string>)
    ensures c.isAuth ==> Permits(u, c, arg)
  {
  }

  lemma PermittingIsNoRevoke(t: Table, r: Rule, i: nat, arg: Option<string>)
    requires i < |t|
    ensures !(Permitting(t, r, i, arg) && Revokes(t, r, i))
  {
  }

  /** For every list of rules, given to a new user: a command with its first argument is permitted
      if and only if it is AUTH, or an accepted rule grants it and no later accepted rule
      revokes it. */
  lemma RulesDecide(t: Table, rules: seq<Rule>, i: nat, arg: Option<string>)
    requires WellFormed(t) && i < |t|
    ensures var n := Accepted(t, Fresh(), rules);
            Permits(SetUserAll(t, Fresh(), rules).0, t[i], arg) <==> t[i].isAuth || Granted(t, rules[..n], i, arg)
  {
    hide WellFormed, Reachable, SetUserAll, Granted, NoneRevokes, Accepted;
    var n := Accepted(t, Fresh(), rules);
    AcceptedGiveUser(t, Fresh(), rules);
    AllReachable(t);
    AcceptedRulesDecide(t, Fresh(), rules[..n], i, arg);
    NoSubs(arg);
  }
}
