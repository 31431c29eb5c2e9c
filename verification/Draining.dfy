/** What draining the queue of ready keys means: clients that wait for a list are served in
    their order, and no element is lost or doubled, however often a BRPOPLPUSH makes another
    key ready. */
module Draining {
  import opened Blocked
  import opened Common
  import opened Serving

  function Here(dict: Dict, k: Key, v: Value): nat { multiset(ItemsAt(dict, k))[v] }

  /** How often `v` stands in the lists at `ks`. */
  ghost function Stock(dict: Dict, ks: seq<Key>, v: Value): nat {
    if ks == [] then 0 else Here(dict, ks[0], v) + Stock(dict, ks[1..], v)
  }

  /** How often `v` was sent to a client of BLPOP or BRPOP; those of BRPOPLPUSH see an element
      that stays in a list. */
  ghost function Delivered(clients: Clients, rs: seq<Reply>, v: Value): nat {
    if rs == [] then 0
    else
      var (c, _, x) := rs[|rs| - 1];
      Delivered(clients, rs[..|rs| - 1], v) + if c in clients && clients[c].target.None? && x == v then 1 else 0
  }

  lemma {:induction false} DeliveredBoth(clients: Clients, rs: seq<Reply>, rs': seq<Reply>, v: Value)
    ensures Delivered(clients, rs + rs', v) == Delivered(clients, rs, v) + Delivered(clients, rs', v)
  {
    if rs' == [] {
      assert rs + rs' == rs;
    } else {
      var n := |rs'| - 1;
      DeliveredBoth(clients, rs, rs'[..n], v);
      assert (rs + rs')[..|rs| + n] == rs + rs'[..n];
    }
  }

  /** `ks` names every key that holds something or may receive something. */
  ghost predicate Covers(ks: seq<Key>, dict: Dict, clients: Clients) {
    && Distinct(ks) && (forall k :: k in dict ==> k in ks)
    && (forall c :: c in clients && clients[c].target.Some? ==> clients[c].target.value in ks)
  }

  lemma {:induction false} StockSame(d: Dict, d': Dict, ks: seq<Key>, v: Value)
    requires forall j :: j in ks ==> Here(d', j, v) == Here(d, j, v)
    ensures Stock(d', ks, v) == Stock(d, ks, v)
  {
    hide Here;
    if ks != [] { StockSame(d, d', ks[1..], v); }
  }

  lemma {:induction false} StockChange(d: Dict, d': Dict, ks: seq<Key>, k: Key, v: Value)
    requires Distinct(ks) && k in ks && forall j :: j != k ==> Here(d', j, v) == Here(d, j, v)
    ensures Stock(d', ks, v) - Stock(d, ks, v) == Here(d', k, v) - Here(d, k, v)
  {
    hide Here;
    if ks[0] == k { StockSame(d, d', ks[1..], v); } else { StockChange(d, d', ks[1..], k, v); }
  }

  lemma StockMove(d: Dict, d': Dict, ks: seq<Key>, k: Key, dst: Key, v: Value)
    requires Distinct(ks) && k in ks && dst in ks && k != dst
    requires forall j :: j != k && j != dst ==> Here(d', j, v) == Here(d, j, v)
    ensures Stock(d', ks, v) - Stock(d, ks, v) == Here(d', k, v) + Here(d', dst, v) - Here(d, k, v) - Here(d, dst, v)
  {
    var mid := d[k := ListObject(ItemsAt(d', k))];
    assert Here(mid, k, v) == Here(d', k, v) && forall j :: j != k ==> Here(mid, j, v) == Here(d, j, v);
    hide Here, Distinct, Stock;
    StockChange(d, mid, ks, k, v);
    StockChange(mid, d', ks, dst, v);
  }

  lemma MoveCounts(dict: Dict, k: Key, c: ClientId, w: Waiter, v: Value)
    requires k in dict && dict[k].ListObject? && dict[k].items != [] && w.target.Some? && w.target.value != k
    ensures var d, dst := ServeOne(dict, k, c, w).0, w.target.value;
            && Here(d, k, v) + Here(d, dst, v) == Here(dict, k, v) + Here(dict, dst, v)
            && forall j :: j != k && j != dst ==> Here(d, j, v) == Here(dict, j, v)
  {
    hide ServeOne, ItemsAt;
    MoveConserves(dict, k, c, w);
    var d, dst := ServeOne(dict, k, c, w).0, w.target.value;
    assert (multiset(ItemsAt(d, k)) + multiset(ItemsAt(d, dst)))[v] ==
        (multiset(ItemsAt(dict, k)) + multiset(ItemsAt(dict, dst)))[v];
  }

  lemma PopCounts(dict: Dict, k: Key, c: ClientId, w: Waiter, v: Value)
    requires k in dict && dict[k].ListObject? && dict[k].items != [] && w.target.None?
    ensures var (d, rs) := ServeOne(dict, k, c, w);
            && |rs| == 1 && rs[0].0 == c && Here(d, k, v) + (if rs[0].2 == v then 1 else 0) == Here(dict, k, v)
            && forall j :: j != k ==> Here(d, j, v) == Here(dict, j, v)
  {
    hide ServeOne, ItemsAt;
    PopConserves(dict, k, c, w);
  }

  lemma RepliesTo(dict: Dict, k: Key, c: ClientId, w: Waiter, clients: Clients, v: Value)
    requires k in dict && dict[k].ListObject? && dict[k].items != [] && c in clients && w == clients[c]
    requires w.target.Some?
    ensures Delivered(clients, ServeOne(dict, k, c, w).1, v) == 0
  {
  }

  lemma StillCovers(dict: Dict, k: Key, clients: Clients, c: ClientId, ks: seq<Key>)
    requires k in dict && dict[k].ListObject? && dict[k].items != [] && c in clients && Covers(ks, dict, clients)
    ensures Covers(ks, ServeOne(dict, k, c, clients[c]).0, clients)
  {
    hide Distinct;
  }

  /** Serving one client. */
  lemma ServeConserves(dict: Dict, k: Key, clients: Clients, c: ClientId, ks: seq<Key>, v: Value)
    requires k in dict && dict[k].ListObject? && dict[k].items != [] && c in clients && Covers(ks, dict, clients)
    ensures var (d, rs) := ServeOne(dict, k, c, clients[c]);
            Stock(d, ks, v) + Delivered(clients, rs, v) == Stock(dict, ks, v)
  {
    hide ServeOne, Here, Stock, Distinct;
    var w := clients[c];
    var (d, rs) := ServeOne(dict, k, c, w);
    if w.target.None? {
      PopCounts(dict, k, c, w, v);
      StockChange(dict, d, ks, k, v);
    } else {
      hide Delivered;
      RepliesTo(dict, k, c, w, clients, v);
      if w.target.value == k {
        TurnCounts(dict, k, c, w, v);
        StockChange(dict, d, ks, k, v);
      } else {
        MoveCounts(dict, k, c, w, v);
        StockMove(dict, d, ks, k, w.target.value, v);
      }
    }
  }

  lemma TurnCounts(dict: Dict, k: Key, c: ClientId, w: Waiter, v: Value)
    requires k in dict && dict[k].ListObject? && dict[k].items != [] && w.target == Some(k)
    ensures forall j :: Here(ServeOne(dict, k, c, w).0, j, v) == Here(dict, j, v)
  {
    hide ServeOne, ItemsAt;
    RotateConserves(dict, k, c, w);
  }

  /** Serving the clients of one key; some of those that waited at first may be gone. */
  lemma {:induction false} TurnConserves(dict: Dict, k: Key, first: Clients, clients: Clients, w: seq<ClientId>,
                                         ks: seq<Key>, v: Value)
    requires k in dict && dict[k].ListObject? && Covers(ks, dict, first) && Fewer(first, clients)
    requires forall c :: c in w ==> c in clients
    ensures var t := InTurn(dict, k, clients, w);
            Stock(t.dict, ks, v) + Delivered(first, t.replies, v) == Stock(dict, ks, v) && Covers(ks, t.dict, first)
    decreases |w|
  {
    if w != [] && dict[k].items != [] {
      hide ServeOne, Stock, Delivered, Covers;
      var (d, rs) := ServeOne(dict, k, w[0], clients[w[0]]);
      ServeConserves(dict, k, first, w[0], ks, v);
      StillCovers(dict, k, first, w[0], ks);
      TurnConserves(d, k, first, clients, w[1..], ks, v);
      DeliveredBoth(first, rs, InTurn(d, k, clients, w[1..]).replies, v);
    }
  }

  /** Deleting a list that became empty. */
  lemma DeleteConserves(d: Dict, k: Key, first: Clients, ks: seq<Key>, v: Value)
    requires Covers(ks, d, first) && ItemsAt(d, k) == []
    ensures Stock(d - {k}, ks, v) == Stock(d, ks, v) && Covers(ks, d - {k}, first)
  {
    hide Stock, Distinct;
    StockSame(d, d - {k}, ks, v);
  }

  lemma KeyConserves(rows: Rows, first: Clients, s: Drained, k: Key, ks: seq<Key>, v: Value)
    requires Covers(ks, s.dict, first) && Fewer(first, s.clients)
    ensures var r := ServedKey(rows, s, k);
            && Stock(r.dict, ks, v) + Delivered(first, r.replies, v) ==
                  Stock(s.dict, ks, v) + Delivered(first, s.replies, v)
            && Covers(ks, r.dict, first) && Fewer(first, r.clients)
  {
    if k in s.dict && s.dict[k].ListObject? {
      hide Stock, Delivered, Waiting, Queue, InTurn, Covers, ItemsAt;
      var w := Waiting(s.clients, Queue(rows, k));
      AllWait(s.clients, Queue(rows, k));
      var t := InTurn(s.dict, k, s.clients, w);
      TurnConserves(s.dict, k, first, s.clients, w, ks, v);
      DeliveredBoth(first, s.replies, t.replies, v);
      if ItemsAt(t.dict, k) == [] { DeleteConserves(t.dict, k, first, ks, v); }
    }
  }

  /** No element is lost or doubled over a whole drain: what is not in a list any more was sent
      to a client that asked for it. */
  lemma {:induction false} DrainConserves(rows: Rows, s: Drained, keys: seq<Key>, ks: seq<Key>, v: Value)
    requires Covers(ks, s.dict, s.clients)
    ensures var r := ServedKeys(rows, s, keys);
            && Stock(r.dict, ks, v) + Delivered(s.clients, r.replies, v) ==
                  Stock(s.dict, ks, v) + Delivered(s.clients, s.replies, v)
            && Covers(ks, r.dict, s.clients) && Fewer(s.clients, r.clients)
    decreases |keys|
  {
    hide Stock, Delivered, Covers, ServedKey;
    if keys != [] {
      var n := |keys| - 1;
      DrainConserves(rows, s, keys[..n], ks, v);
      KeyConserves(rows, s.clients, ServedKeys(rows, s, keys[..n]), keys[n], ks, v);
    }
  }

  /** Those who are served are the first in the queue, and who is left found the list empty. */
  lemma {:induction false} FirstServed(dict: Dict, k: Key, clients: Clients, w: seq<ClientId>)
    requires k in dict && dict[k].ListObject? && forall c :: c in w ==> c in clients
    ensures var t := InTurn(dict, k, clients, w);
            && |t.left| <= |w| && t.left == w[|w| - |t.left|..]
            && (t.left != [] ==> ItemsAt(t.dict, k) == [])
    decreases |w|
  {
    if w != [] && dict[k].items != [] {
      hide ServeOne;
      FirstServed(ServeOne(dict, k, w[0], clients[w[0]]).0, k, clients, w[1..]);
    }
  }
}
