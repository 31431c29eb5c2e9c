/** The order of elements over a drain. The replies, read in the order in which they are sent as
    pops from one end of a list and pushes at the head of another, explain every list exactly.
    So what arrives at a target stands there in the reverse order of serving. */
module DrainOrder {
  import opened Blocked
  import opened Common
  import opened Draining
  import opened Serving

  /** The end from which a client pops: BLPOP the head, BRPOP and BRPOPLPUSH the tail. */
  function End(items: seq<Value>, head: bool): Value
    requires items != []
  {
    if head then items[0] else items[|items| - 1]
  }

  function Shortened(items: seq<Value>, head: bool): seq<Value> {
    if items == [] then [] else if head then items[1..] else items[..|items| - 1]
  }

  /** The list at `j` after client `w` got `v` from the list at `k`. */
  function AfterReply(w: Waiter, k: Key, v: Value, j: Key, items: seq<Value>): seq<Value> {
    var left := if k == j then Shortened(items, w.popHead) else items;
    if w.target == Some(j) then [v] + left else left
  }

  /** The list at `j` after the replies. */
  ghost function Replayed(clients: Clients, rs: seq<Reply>, j: Key, items: seq<Value>): seq<Value> {
    if rs == [] then items
    else
      var (c, k, v) := rs[|rs| - 1];
      var before := Replayed(clients, rs[..|rs| - 1], j, items);
      if c in clients then AfterReply(clients[c], k, v, j, before) else before
  }

  /** Every reply was the element at its client's end of the list at that time. */
  ghost predicate Right(clients: Clients, rs: seq<Reply>, j: Key, items: seq<Value>) {
    forall i :: 0 <= i < |rs| ==>
      && rs[i].0 in clients
      && (rs[i].1 == j ==> RightAt(clients[rs[i].0], rs[i].2, Replayed(clients, rs[..i], j, items)))
  }

  ghost predicate RightAt(w: Waiter, v: Value, items: seq<Value>) { items != [] && v == End(items, w.popHead) }

  /** `rs` explains how the list at `j` got from one dictionary to the other. */
  ghost predicate Explains(clients: Clients, rs: seq<Reply>, j: Key, d: Dict, d': Dict) {
    Right(clients, rs, j, ItemsAt(d, j)) && ItemsAt(d', j) == Replayed(clients, rs, j, ItemsAt(d, j))
  }

  lemma {:induction false} ReplayedBoth(clients: Clients, a: seq<Reply>, b: seq<Reply>, j: Key, items: seq<Value>)
    ensures Replayed(clients, a + b, j, items) == Replayed(clients, b, j, Replayed(clients, a, j, items))
    decreases |b|
  {
    hide AfterReply;
    if b == [] {
      assert a + b == a;
    } else {
      var n := |b| - 1;
      assert (a + b)[..|a| + n] == a + b[..n];
      ReplayedBoth(clients, a, b[..n], j, items);
    }
  }

  lemma RightBoth(clients: Clients, a: seq<Reply>, b: seq<Reply>, j: Key, items: seq<Value>)
    requires Right(clients, a, j, items) && Right(clients, b, j, Replayed(clients, a, j, items))
    ensures Right(clients, a + b, j, items)
  {
    hide Replayed, RightAt;
    var rs := a + b;
    forall i | 0 <= i < |rs|
      ensures rs[i].0 in clients
      ensures rs[i].1 == j ==> RightAt(clients[rs[i].0], rs[i].2, Replayed(clients, rs[..i], j, items))
    {
      if i < |a| {
        assert rs[..i] == a[..i];
      } else {
        var n := i - |a|;
        assert rs[..i] == a + b[..n];
        ReplayedBoth(clients, a, b[..n], j, items);
        assert b[n] == rs[i];
      }
    }
  }

  lemma ExplainsBoth(clients: Clients, a: seq<Reply>, b: seq<Reply>, j: Key, d: Dict, d': Dict, d'': Dict)
    requires Explains(clients, a, j, d, d') && Explains(clients, b, j, d', d'')
    ensures Explains(clients, a + b, j, d, d'')
  {
    hide Replayed, Right, ItemsAt;
    ReplayedBoth(clients, a, b, j, ItemsAt(d, j));
    RightBoth(clients, a, b, j, ItemsAt(d, j));
  }

  lemma ExplainsNothing(clients: Clients, j: Key, d: Dict, d': Dict)
    requires ItemsAt(d', j) == ItemsAt(d, j)
    ensures Explains(clients, [], j, d, d')
  {
  }

  // -------------------------------------------------------------------------
  // Serving one client
  // -------------------------------------------------------------------------

  /** BLPOP takes the first element, BRPOP the last; the others stay in their order. */
  lemma PopTakesEnd(dict: Dict, k: Key, c: ClientId, w: Waiter, v: Value, rest: seq<Value>)
    requires k in dict && dict[k].ListObject? && w.target.None?
    requires dict[k].items == if w.popHead then [v] + rest else rest + [v]
    ensures var (d, rs) := ServeOne(dict, k, c, w);
            rs == [(c, k, v)] && ItemsAt(d, k) == rest && forall j :: j != k ==> ItemsAt(d, j) == ItemsAt(dict, j)
  {
    EndOf(dict[k].items, w.popHead, v, rest);
  }

  lemma EndOf(items: seq<Value>, head: bool, v: Value, rest: seq<Value>)
    requires items == if head then [v] + rest else rest + [v]
    ensures items != [] && Popped(items, head) == (v, rest)
  {
    if head { assert ([v] + rest)[1..] == rest; } else { assert (rest + [v])[..|rest|] == rest; }
  }

  /** BRPOPLPUSH takes the last element and puts it in front of the target, which for the same
      list is a rotation; if the target holds something else nothing happens. */
  lemma MoveGoesToHead(dict: Dict, k: Key, c: ClientId, w: Waiter, v: Value, front: seq<Value>)
    requires k in dict && dict[k] == ListObject(front + [v]) && !w.popHead && w.target.Some?
    ensures var (d, rs), dst := ServeOne(dict, k, c, w), w.target.value;
            if dst in dict && !dict[dst].ListObject? then d == dict && rs == []
            else
              && rs == [(c, k, v)] && (forall j :: j != k && j != dst ==> ItemsAt(d, j) == ItemsAt(dict, j))
              && if dst == k then ItemsAt(d, k) == [v] + front
                 else ItemsAt(d, k) == front && ItemsAt(d, dst) == [v] + ItemsAt(dict, dst)
  {
    EndOf(dict[k].items, w.popHead, v, front);
  }

  /** The answer of BLPOP and BRPOP when the list is there; the last element takes the key along. */
  lemma PopOneTakesEnd(dict: Dict, k: Key, c: ClientId, head: bool, replies: seq<Reply>, v: Value, rest: seq<Value>)
    requires k in dict && dict[k] == ListObject(if head then [v] + rest else rest + [v])
    ensures var (d, rs) := PopOne(dict, k, c, head, replies);
            && rs == replies + [(c, k, v)] && ItemsAt(d, k) == rest && (k in d <==> rest != [])
            && forall j :: j != k ==> (j in d <==> j in dict) && (j in dict ==> d[j] == dict[j])
  {
    EndOf(dict[k].items, head, v, rest);
  }

  /** Key `i` is the first that exists. */
  ghost predicate FirstAt(dict: Dict, keys: seq<Key>, i: nat) {
    i < |keys| && keys[i] in dict && forall j :: 0 <= j < i ==> keys[j] !in dict
  }

  lemma {:induction false} FirstPresentIsFirst(dict: Dict, keys: seq<Key>)
    ensures forall i: nat :: FirstAt(dict, keys, i) ==> FirstPresent(dict, keys) == Some(keys[i])
    ensures (forall k :: k in keys ==> k !in dict) <==> FirstPresent(dict, keys) == None
  {
    if keys != [] {
      FirstPresentIsFirst(dict, keys[1..]);
      assert keys == [keys[0]] + keys[1..];
      forall i: nat | FirstAt(dict, keys, i) ensures FirstPresent(dict, keys) == Some(keys[i]) {
        if i > 0 { assert keys[0] !in dict && FirstAt(dict, keys[1..], i - 1); }
      }
    }
  }

  /** What becomes of BLPOP and BRPOP: the first key that exists decides; if there is none the
      client waits, or gets nothing in a transaction. */
  lemma PopMeans(dict: Dict, keys: seq<Key>, timeoutOk: bool, inMulti: bool)
    ensures var r, none := Kind(dict, keys, timeoutOk, inMulti), forall k :: k in keys ==> k !in dict;
            && (r == BadTimeout <==> !timeoutOk)
            && (r == Waits <==> timeoutOk && none && !inMulti) && (r == NullReply <==> timeoutOk && none && inMulti)
            && forall i: nat :: timeoutOk && FirstAt(dict, keys, i) ==>
                 && FirstPresent(dict, keys) == Some(keys[i])
                 && r == if dict[keys[i]].ListObject? then Answered else WrongType
  {
    hide FirstPresent;
    FirstPresentIsFirst(dict, keys);
  }

  lemma ServeExplains(dict: Dict, k: Key, c: ClientId, clients: Clients, j: Key)
    requires k in dict && dict[k].ListObject? && dict[k].items != [] && c in clients
    ensures var (d, rs) := ServeOne(dict, k, c, clients[c]); Explains(clients, rs, j, dict, d)
  {
    var (d, rs) := ServeOne(dict, k, c, clients[c]);
    if rs == [] {
      ExplainsNothing(clients, j, dict, d);
    } else {
      assert rs[..0] == [] && Replayed(clients, [], j, ItemsAt(dict, j)) == ItemsAt(dict, j);
    }
  }

  // -------------------------------------------------------------------------
  // A whole drain
  // -------------------------------------------------------------------------

  lemma SameWaiter(first: Clients, clients: Clients, c: ClientId)
    requires Fewer(first, clients) && c in clients
    ensures c in first && clients[c] == first[c]
  {
  }

  lemma {:induction false} TurnExplains(dict: Dict, k: Key, first: Clients, clients: Clients, w: seq<ClientId>, j: Key)
    requires k in dict && dict[k].ListObject? && Fewer(first, clients)
    requires forall c :: c in w ==> c in clients
    ensures var t := InTurn(dict, k, clients, w); Explains(first, t.replies, j, dict, t.dict)
    decreases |w|
  {
    hide Explains, ServeOne;
    if w != [] && dict[k].items != [] {
      var (d, rs) := ServeOne(dict, k, w[0], clients[w[0]]);
      SameWaiter(first, clients, w[0]);
      ServeExplains(dict, k, w[0], first, j);
      TurnExplains(d, k, first, clients, w[1..], j);
      ExplainsBoth(first, rs, InTurn(d, k, clients, w[1..]).replies, j, dict, d, InTurn(d, k, clients, w[1..]).dict);
    } else {
      ExplainsNothing(first, j, dict, dict);
    }
  }

  lemma KeyExplains(rows: Rows, first: Clients, s: Drained, k: Key, j: Key)
    requires Fewer(first, s.clients)
    ensures var r := ServedKey(rows, s, k);
            && s.replies <= r.replies && Fewer(first, r.clients)
            && Explains(first, r.replies[|s.replies|..], j, s.dict, r.dict)
  {
    hide Explains, InTurn, Waiting, Queue;
    if k in s.dict && s.dict[k].ListObject? {
      var w := Waiting(s.clients, Queue(rows, k));
      AllWait(s.clients, Queue(rows, k));
      var t := InTurn(s.dict, k, s.clients, w);
      TurnExplains(s.dict, k, first, s.clients, w, j);
      var d := if ItemsAt(t.dict, k) == [] then t.dict - {k} else t.dict;
      SameItems(first, t.replies, j, s.dict, t.dict, d);
      assert (s.replies + t.replies)[|s.replies|..] == t.replies;
    } else {
      ExplainsNothing(first, j, s.dict, s.dict);
      assert s.replies[|s.replies|..] == [];
    }
  }

  lemma SameItems(clients: Clients, rs: seq<Reply>, j: Key, d: Dict, d': Dict, d'': Dict)
    requires Explains(clients, rs, j, d, d') && ItemsAt(d'', j) == ItemsAt(d', j)
    ensures Explains(clients, rs, j, d, d'')
  {
    hide Replayed, Right, ItemsAt;
  }

  /** Over a whole drain, however often a BRPOPLPUSH makes another key ready: the replies sent in
      it explain every list. */
  lemma {:induction false} DrainExplains(rows: Rows, s: Drained, keys: seq<Key>, j: Key)
    ensures var r := ServedKeys(rows, s, keys);
            && s.replies <= r.replies && Fewer(s.clients, r.clients)
            && Explains(s.clients, r.replies[|s.replies|..], j, s.dict, r.dict)
    decreases |keys|
  {
    hide Explains, ServedKey;
    if keys == [] {
      ExplainsNothing(s.clients, j, s.dict, s.dict);
      assert s.replies[|s.replies|..] == [];
    } else {
      var n := |keys| - 1;
      DrainExplains(rows, s, keys[..n], j);
      var m := ServedKeys(rows, s, keys[..n]);
      KeyExplains(rows, s.clients, m, keys[n], j);
      var r := ServedKey(rows, m, keys[n]);
      ExplainsBoth(s.clients, m.replies[|s.replies|..], r.replies[|m.replies|..], j, s.dict, m.dict, r.dict);
      assert m.replies[|s.replies|..] + r.replies[|m.replies|..] == r.replies[|s.replies|..];
    }
  }

  // -------------------------------------------------------------------------
  // Targets
  // -------------------------------------------------------------------------

  /** What the replies move to the list at `dst`, in the order of serving. */
  ghost function Arrived(clients: Clients, rs: seq<Reply>, dst: Key): seq<Value> {
    if rs == [] then []
    else
      var (c, _, v) := rs[|rs| - 1];
      Arrived(clients, rs[..|rs| - 1], dst) + if c in clients && clients[c].target == Some(dst) then [v] else []
  }

  function Reversed(s: seq<Value>): seq<Value> { if s == [] then [] else [s[|s| - 1]] + Reversed(s[..|s| - 1]) }

  lemma ReversedMore(s: seq<Value>, v: Value)
    ensures Reversed(s + [v]) == [v] + Reversed(s)
  {
    assert (s + [v])[..|s|] == s;
  }

  lemma {:induction false} ReplayedArrivals(clients: Clients, rs: seq<Reply>, dst: Key, items: seq<Value>)
    requires forall i :: 0 <= i < |rs| ==> rs[i].1 != dst
    ensures Replayed(clients, rs, dst, items) == Reversed(Arrived(clients, rs, dst)) + items
  {
    hide Reversed;
    if rs == [] {
      assert Reversed([]) + items == items by { NothingReversed(); }
    } else {
      var n := |rs| - 1;
      ReplayedArrivals(clients, rs[..n], dst, items);
      var before := Arrived(clients, rs[..n], dst);
      var (c, k, v) := rs[n];
      if c in clients && clients[c].target == Some(dst) {
        ReversedMore(before, v);
        assert [v] + (Reversed(before) + items) == [v] + Reversed(before) + items;
      } else {
        assert before + [] == before;
      }
    }
  }

  lemma NothingReversed()
    ensures Reversed([]) == []
  {
  }

  /** A list from which nothing is served in a drain: what arrived in it stands in front of what
      was there, the last one served first. */
  lemma ArrivalsAreReversed(rows: Rows, s: Drained, keys: seq<Key>, dst: Key)
    requires var r := ServedKeys(rows, s, keys);
             forall i :: |s.replies| <= i < |r.replies| ==> r.replies[i].1 != dst
    ensures var r := ServedKeys(rows, s, keys);
            && s.replies <= r.replies
            && ItemsAt(r.dict, dst)
               == Reversed(Arrived(s.clients, r.replies[|s.replies|..], dst)) + ItemsAt(s.dict, dst)
  {
    hide ServedKeys, ItemsAt, Right;
    DrainExplains(rows, s, keys, dst);
    ReplayedArrivals(s.clients, ServedKeys(rows, s, keys).replies[|s.replies|..], dst, ItemsAt(s.dict, dst));
  }

  // -------------------------------------------------------------------------
  // Who gets a reply
  // -------------------------------------------------------------------------

  /** No client occurs twice, and all are in `s`. */
  ghost predicate Once(rs: seq<Reply>, s: set<ClientId>) {
    && (forall i :: 0 <= i < |rs| ==> rs[i].0 in s)
    && (forall i, j :: 0 <= i < j < |rs| ==> rs[i].0 != rs[j].0)
  }

  ghost function ClientSet(w: seq<ClientId>): set<ClientId> { set c | c in w }

  lemma OnceBoth(a: seq<Reply>, b: seq<Reply>, s: set<ClientId>, t: set<ClientId>)
    requires Once(a, s) && Once(b, t) && s !! t
    ensures Once(a + b, s + t)
  {
    var rs := a + b;
    forall i, j | 0 <= i < j < |rs| ensures rs[i].0 != rs[j].0 {
      if i < |a| && j >= |a| { assert rs[i].0 in s && rs[j].0 in t; }
    }
  }

  lemma OneReply(dict: Dict, k: Key, c: ClientId, w: Waiter)
    requires k in dict && dict[k].ListObject? && dict[k].items != []
    ensures Once(ServeOne(dict, k, c, w).1, {c})
  {
  }

  lemma {:induction false} TurnRepliesOnce(dict: Dict, k: Key, clients: Clients, w: seq<ClientId>)
    requires k in dict && dict[k].ListObject? && (forall c :: c in w ==> c in clients) && Distinct(w)
    ensures var t := InTurn(dict, k, clients, w);
            |t.left| <= |w| && Once(t.replies, ClientSet(w[..|w| - |t.left|]))
    decreases |w|
  {
    hide ServeOne, Once;
    if w != [] && dict[k].items != [] {
      var (d, rs) := ServeOne(dict, k, w[0], clients[w[0]]);
      TurnRepliesOnce(d, k, clients, w[1..]);
      var t := InTurn(d, k, clients, w[1..]);
      var n := |w| - 1 - |t.left|;
      OneReply(dict, k, w[0], clients[w[0]]);
      assert w[0] !in w[1..][..n];
      OnceBoth(rs, t.replies, {w[0]}, ClientSet(w[1..][..n]));
      assert w[..n + 1] == [w[0]] + w[1..][..n];
      assert ClientSet(w[..n + 1]) == {w[0]} + ClientSet(w[1..][..n]);
    } else {
      assert w[..0] == [];
      assert Once([], ClientSet([])) by { NoReplies(ClientSet([])); }
    }
  }

  lemma NoReplies(s: set<ClientId>)
    ensures Once([], s)
  {
  }

  lemma OnceWithin(rs: seq<Reply>, s: set<ClientId>, t: set<ClientId>)
    requires Once(rs, s) && s <= t
    ensures Once(rs, t)
  {
  }

  lemma {:induction false} WaitingDistinct(clients: Clients, q: seq<ClientId>)
    requires Distinct(q)
    ensures Distinct(Waiting(clients, q))
  {
    if q != [] {
      WaitingDistinct(clients, q[1..]);
      WaitingMembers(clients, q[1..], q[0]);
      assert q[0] !in q[1..];
    }
  }

  /** The clients that were unblocked. */
  ghost function Gone(before: Clients, after: Clients): set<ClientId> { before.Keys - after.Keys }

  lemma KeyRepliesOnce(rows: Rows, s: Drained, k: Key)
    requires Distinct(Queue(rows, k))
    ensures var r := ServedKey(rows, s, k);
            && s.replies <= r.replies && Fewer(s.clients, r.clients)
            && Once(r.replies[|s.replies|..], Gone(s.clients, r.clients))
            && forall c :: c in Gone(s.clients, r.clients) ==> s.clients[c].btype == ForList
  {
    hide InTurn, Waiting, Queue, Once, Distinct, ItemsAt;
    var r := ServedKey(rows, s, k);
    if k in s.dict && s.dict[k].ListObject? {
      var w := Waiting(s.clients, Queue(rows, k));
      AllWait(s.clients, Queue(rows, k));
      WaitingDistinct(s.clients, Queue(rows, k));
      var t := InTurn(s.dict, k, s.clients, w);
      TurnRepliesOnce(s.dict, k, s.clients, w);
      FirstServed(s.dict, k, s.clients, w);
      var n := |w| - |t.left|;
      assert (s.replies + t.replies)[|s.replies|..] == t.replies;
      ServedAreGone(w, n);
      forall c | c in w[..n] ensures c in Gone(s.clients, r.clients) { assert c in w && c !in w[n..]; }
      OnceWithin(t.replies, ClientSet(w[..n]), Gone(s.clients, r.clients));
      forall c | c in w ensures s.clients[c].btype == ForList { WaitingMembers(s.clients, Queue(rows, k), c); }
    } else {
      assert s.replies[|s.replies|..] == [];
      NoReplies(Gone(s.clients, r.clients));
    }
  }

  lemma ServedAreGone(w: seq<ClientId>, n: nat)
    requires Distinct(w) && n <= |w|
    ensures forall c :: c in w[..n] ==> c in w && c !in w[n..]
  {
  }

  /** In a whole drain every client gets at most one reply, who gets one waits no longer, and only
      clients that waited for a list are unblocked. */
  lemma {:induction false} DrainRepliesOnce(rows: Rows, s: Drained, keys: seq<Key>)
    requires forall k :: Distinct(Queue(rows, k))
    ensures var r := ServedKeys(rows, s, keys);
            && s.replies <= r.replies && Fewer(s.clients, r.clients)
            && Once(r.replies[|s.replies|..], Gone(s.clients, r.clients))
            && forall c :: c in Gone(s.clients, r.clients) ==> s.clients[c].btype == ForList
    decreases |keys|
  {
    hide ServedKey, Once, Queue, Distinct;
    if keys == [] {
      assert s.replies[|s.replies|..] == [];
      NoReplies(Gone(s.clients, s.clients));
    } else {
      var n := |keys| - 1;
      DrainRepliesOnce(rows, s, keys[..n]);
      var m := ServedKeys(rows, s, keys[..n]);
      KeyRepliesOnce(rows, m, keys[n]);
      var r := ServedKey(rows, m, keys[n]);
      var a, b := m.replies[|s.replies|..], r.replies[|m.replies|..];
      OnceBoth(a, b, Gone(s.clients, m.clients), Gone(m.clients, r.clients));
      assert Gone(s.clients, m.clients) + Gone(m.clients, r.clients) == Gone(s.clients, r.clients);
      assert a + b == r.replies[|s.replies|..];
    }
  }
}
