/** Serving blocked clients. Keys that received data are queued; the queue is drained after
    every command, and serving BRPOPLPUSH may fill it again. */
module Serving {
  import opened Adlist
  import opened Blocked
  import opened Common

  type Value = string

  datatype Object = ListObject(items: seq<Value>) | OtherObject

  type Dict = map<Key, Object>

  // -------------------------------------------------------------------------
  // Who waits for what
  // -------------------------------------------------------------------------

  /** A client waits for a list at key `k`. */
  ghost predicate Hungry(rows: Rows, clients: Clients, k: Key) {
    exists c :: c in Queue(rows, k) && c in clients && clients[c].btype == ForList
  }

  /** There is a list at key `k`, and a client that waits for it. */
  ghost predicate Starved(rows: Rows, clients: Clients, dict: Dict, k: Key) {
    k in dict && dict[k].ListObject? && dict[k].items != [] && Hungry(rows, clients, k)
  }

  /** Every such key is queued, with at most one exception. */
  ghost predicate Covered(rows: Rows, clients: Clients, dict: Dict, ready: set<Key>, but: Option<Key>) {
    forall k :: but != Some(k) && Starved(rows, clients, dict, k) ==> k in ready
  }

  /** No list is empty, with at most one exception. */
  ghost predicate NoEmptyLists(dict: Dict, but: Option<Key>) {
    forall k :: but != Some(k) && k in dict && dict[k].ListObject? ==> dict[k].items != []
  }

  lemma {:induction false} WithoutMembers(s: seq<ClientId>, c: ClientId, d: ClientId)
    ensures d in Without(s, c) <==> d in s && d != c
  {
    if s != [] {
      WithoutMembers(s[..|s| - 1], c, d);
      assert s == s[..|s| - 1] + [s[|s| - 1]];
    }
  }

  lemma UnblockKeepsCovered(rows: Rows, rows': Rows, clients: Clients, c: ClientId, dict: Dict, ready: set<Key>,
                            but: Option<Key>)
    requires Covered(rows, clients, dict, ready, but)
    requires forall k :: Queue(rows', k) == Without(Queue(rows, k), c)
    ensures Covered(rows', clients - {c}, dict, ready, but)
  {
    hide Queue;
    forall k | Starved(rows', clients - {c}, dict, k) ensures Starved(rows, clients, dict, k) {
      var d :| d in Queue(rows', k) && d in clients - {c} && (clients - {c})[d].btype == ForList;
      WithoutMembers(Queue(rows, k), c, d);
    }
  }

  lemma ChangeKeepsCovered(rows: Rows, rows': Rows, clients: Clients, dict: Dict, dict': Dict, ready: set<Key>, k: Key)
    requires Covered(rows, clients, dict, ready, Some(k))
    requires forall j :: j != k ==> Queue(rows', j) == Queue(rows, j)
    requires forall j :: j != k ==> (j in dict <==> j in dict') && (j in dict ==> dict[j] == dict'[j])
    ensures Covered(rows', clients, dict', ready, Some(k))
  {
    hide Queue;
  }

  /** A push to another key: either it was queued when needed, or it is now. */
  lemma PushKeepsCovered(rows: Rows, clients: Clients, dict: Dict, dict': Dict, ready: set<Key>, ready': set<Key>,
                         but: Option<Key>, dst: Key)
    requires Covered(rows, clients, dict, ready, but) && NoEmptyLists(dict, but) && ready <= ready'
    requires forall j :: j != dst ==> (j in dict <==> j in dict') && (j in dict ==> dict[j] == dict'[j])
    requires dst in dict ==> dict[dst].ListObject?
    requires dst !in dict && Queue(rows, dst) != [] ==> dst in ready'
    ensures Covered(rows, clients, dict', ready', but)
  {
    hide Queue;
    forall k | but != Some(k) && Starved(rows, clients, dict', k) ensures k in ready' {
      if k != dst || k in dict { assert Starved(rows, clients, dict, k); }
    }
  }

  /** A client that blocks for keys that hold nothing. */
  lemma BlockKeepsCovered(rows: Rows, rows': Rows, clients: Clients, clients': Clients, c: ClientId, keys: seq<Key>,
                          dict: Dict, ready: set<Key>)
    requires Covered(rows, clients, dict, ready, None) && Joined(rows, rows', c, KeySet(keys)) && Paired(rows, clients)
    requires c in clients' && clients' == clients[c := clients'[c]] && c !in clients
    requires forall k :: k in keys ==> k !in dict
    ensures Covered(rows', clients', dict, ready, None)
  {
    hide Queue, Paired;
    forall k | Starved(rows', clients', dict, k) ensures Starved(rows, clients, dict, k) {
      var d :| d in Queue(rows', k) && d in clients' && clients'[d].btype == ForList;
      assert Queue(rows', k) == Queue(rows, k) + [];
      QueueMembers(rows, clients, k, d);
    }
  }

  /** The clients in `s` that do not wait for a list. */
  ghost function Others(clients: Clients, s: seq<ClientId>): seq<ClientId> {
    if s == [] then []
    else
      var c := s[|s| - 1];
      Others(clients, s[..|s| - 1]) + if c in clients && clients[c].btype == ForList then [] else [c]
  }

  lemma {:induction false} OthersMembers(clients: Clients, s: seq<ClientId>, d: ClientId)
    ensures d in Others(clients, s) <==> d in s && !(d in clients && clients[d].btype == ForList)
  {
    if s != [] {
      OthersMembers(clients, s[..|s| - 1], d);
      assert s == s[..|s| - 1] + [s[|s| - 1]];
    }
  }

  lemma QueueDistinct(rows: Rows, clients: Clients, k: Key)
    requires Paired(rows, clients) && Separate(rows)
    ensures Distinct(Queue(rows, k))
  {
    var q := Queue(rows, k);
    forall i, j | 0 <= i < j < |q| ensures q[i] != q[j] { OneNodeEach(rows, clients, k, i, j); }
  }

  /** The queue of a key when the first `i` of its clients `q` have been looked at. */
  ghost function After(clients: Clients, q: seq<ClientId>, i: nat): seq<ClientId>
    requires i <= |q|
  {
    q[i..] + Others(clients, q[..i])
  }

  lemma RotateStep(clients: Clients, q: seq<ClientId>, i: nat)
    requires i < |q| && !(q[i] in clients && clients[q[i]].btype == ForList)
    ensures var now := After(clients, q, i); now[1..] + [now[0]] == After(clients, q, i + 1)
  {
    assert q[..i + 1][..i] == q[..i];
    assert q[i..][1..] == q[i + 1..];
  }

  lemma ServeStep(clients: Clients, q: seq<ClientId>, i: nat)
    requires i < |q| && q[i] in clients && clients[q[i]].btype == ForList && Distinct(q)
    ensures Without(After(clients, q, i), q[i]) == After(clients, q, i + 1)
  {
    var c, others := q[i], Others(clients, q[..i]);
    var tail := q[i + 1..] + others;
    assert c !in q[i + 1..];
    OthersMembers(clients, q[..i], c);
    hide Distinct, Without;
    assert q[..i + 1][..i] == q[..i];
    assert Others(clients, q[..i + 1]) == others;
    assert After(clients, q, i) == [c] + tail;
    WithoutOne([c] + tail, 0, c);
    assert ([c] + tail)[..0] + ([c] + tail)[1..] == tail;
  }

  /** Clients have only been unblocked. */
  ghost predicate Fewer(clients: Clients, clients': Clients) {
    forall c :: c in clients' ==> c in clients && clients'[c] == clients[c]
  }

  /** The clients in `s` that wait for a list, in their order. */
  ghost function Waiting(clients: Clients, s: seq<ClientId>): seq<ClientId> {
    if s == [] then []
    else (if s[0] in clients && clients[s[0]].btype == ForList then [s[0]] else []) + Waiting(clients, s[1..])
  }

  lemma {:induction false} WaitingMembers(clients: Clients, s: seq<ClientId>, c: ClientId)
    ensures c in Waiting(clients, s) <==> c in s && c in clients && clients[c].btype == ForList
  {
    if s != [] {
      WaitingMembers(clients, s[1..], c);
      assert s == [s[0]] + s[1..];
    }
  }

  lemma {:induction false} WaitingBoth(clients: Clients, s: seq<ClientId>, t: seq<ClientId>)
    ensures Waiting(clients, s + t) == Waiting(clients, s) + Waiting(clients, t)
  {
    if s == [] {
      assert s + t == t;
    } else {
      var first := if s[0] in clients && clients[s[0]].btype == ForList then [s[0]] else [];
      var rest := Waiting(clients, s[1..]);
      WaitingBoth(clients, s[1..], t);
      calc {
        Waiting(clients, s + t);
        { assert (s + t)[0] == s[0] && (s + t)[1..] == s[1..] + t; }
        first + Waiting(clients, s[1..] + t);
        first + (rest + Waiting(clients, t));
        { Assoc(first, rest, Waiting(clients, t)); }
        first + rest + Waiting(clients, t);
        Waiting(clients, s) + Waiting(clients, t);
      }
    }
  }

  lemma {:induction false} WaitingStill(clients: Clients, clients': Clients, s: seq<ClientId>)
    requires Fewer(clients, clients')
    ensures Waiting(clients', Waiting(clients, s)) == Waiting(clients', s)
  {
    if s != [] {
      WaitingStill(clients, clients', s[1..]);
      WaitingBoth(clients', if s[0] in clients && clients[s[0]].btype == ForList then [s[0]]
          else [], Waiting(clients, s[1..]));
    }
  }

  lemma {:induction false} WaitingWithout(clients: Clients, s: seq<ClientId>, c: ClientId)
    requires c !in clients
    ensures Waiting(clients, Without(s, c)) == Waiting(clients, s)
  {
    if s != [] {
      var n := |s| - 1;
      WaitingWithout(clients, s[..n], c);
      assert s == s[..n] + [s[n]];
      WaitingBoth(clients, s[..n], [s[n]]);
      WaitingBoth(clients, Without(s[..n], c), [s[n]]);
      if s[n] == c { assert Waiting(clients, [c]) == [] && Without(s, c) == Without(s[..n], c); }
    }
  }

  lemma WaitingRotated(clients: Clients, s: seq<ClientId>)
    requires s != [] && !(s[0] in clients && clients[s[0]].btype == ForList)
    ensures Waiting(clients, s[1..] + [s[0]]) == Waiting(clients, s)
  {
    WaitingBoth(clients, s[1..], [s[0]]);
  }

  /** In every queue, those who still wait for a list stand in the order they stood in. */
  ghost predicate InOrder(rows: Rows, rows': Rows, clients: Clients) {
    forall j :: Waiting(clients, Queue(rows', j)) == Waiting(clients, Queue(rows, j))
  }

  /** Clients have only left the queues, apart from those who do not wait for a list. */
  ghost predicate Thinned(rows: Rows, clients: Clients, rows': Rows, clients': Clients) {
    InOrder(rows, rows', clients') && Fewer(clients, clients')
  }

  lemma SameOrder(rows: Rows, clients: Clients)
    ensures Thinned(rows, clients, rows, clients)
  {
  }

  lemma OrderKept(r0: Rows, c0: Clients, r1: Rows, c1: Clients, r2: Rows, c2: Clients)
    requires Thinned(r0, c0, r1, c1) && Thinned(r1, c1, r2, c2)
    ensures Thinned(r0, c0, r2, c2)
  {
    hide Queue, Waiting;
    forall j ensures Waiting(c2, Queue(r2, j)) == Waiting(c2, Queue(r0, j)) {
      WaitingStill(c1, c2, Queue(r1, j));
      WaitingStill(c1, c2, Queue(r0, j));
    }
  }

  lemma RotationKeepsOrder(rows: Rows, rows': Rows, clients: Clients, k: Key)
    requires var q := Queue(rows, k);
             && q != [] && !(q[0] in clients && clients[q[0]].btype == ForList)
             && forall j :: Queue(rows', j) == if j == k then q[1..] + [q[0]] else Queue(rows, j)
    ensures Thinned(rows, clients, rows', clients)
  {
    hide Queue, Waiting;
    WaitingRotated(clients, Queue(rows, k));
  }

  lemma UnblockKeepsOrder(rows: Rows, rows': Rows, clients: Clients, c: ClientId)
    requires c !in clients && forall j :: Queue(rows', j) == Without(Queue(rows, j), c)
    ensures InOrder(rows, rows', clients)
  {
    hide Queue, Waiting;
    forall j ensures Waiting(clients, Queue(rows', j)) == Waiting(clients, Queue(rows, j)) {
      WaitingWithout(clients, Queue(rows, j), c);
    }
  }

  /** The first `i` of the clients `q` have been looked at: those of them that waited for a list
      are unblocked, and what is left of the queue is `queue`. */
  ghost predicate Position(before: Clients, q: seq<ClientId>, i: nat, queue: seq<ClientId>, clients: Clients) {
    && i <= |q| && queue == After(before, q, i) && Distinct(q) && Fewer(before, clients)
    && (forall j :: 0 <= j < i && q[j] in before && before[q[j]].btype == ForList ==> q[j] !in clients)
    && (forall c :: c in before && (before[c].btype != ForList || c !in q[..i]) ==> c in clients)
  }

  lemma SameClient(before: Clients, q: seq<ClientId>, i: nat, queue: seq<ClientId>, clients: Clients)
    requires Position(before, q, i, queue, clients) && i < |q| && q[i] in before && before[q[i]].btype != ForList
    ensures q[i] in clients && clients[q[i]] == before[q[i]]
  {
    hide After, Distinct;
  }

  lemma PositionServed(before: Clients, q: seq<ClientId>, i: nat, queue: seq<ClientId>, clients: Clients)
    requires Position(before, q, i, queue, clients) && i < |q| && q[i] in before && before[q[i]].btype == ForList
    ensures Position(before, q, i + 1, Without(queue, q[i]), clients - {q[i]})
  {
    hide After, Distinct;
    ServeStep(before, q, i);
    assert q[..i + 1] == q[..i] + [q[i]];
  }

  lemma PositionRotated(before: Clients, q: seq<ClientId>, i: nat, queue: seq<ClientId>, clients: Clients)
    requires Position(before, q, i, queue, clients) && i < |q| && q[i] in before && before[q[i]].btype != ForList
    ensures queue != [] && queue[0] == q[i] && Position(before, q, i + 1, queue[1..] + [queue[0]], clients)
  {
    assert queue != [] && queue[0] == q[i];
    hide After, Distinct;
    RotateStep(before, q, i);
    assert q[..i + 1] == q[..i] + [q[i]];
  }

  /** The queues, who waits in them, and the ready keys. */
  datatype Waitlist = Waitlist(rows: Rows, clients: Clients, ready: seq<Key>)

  /** Clients have been unblocked, or nothing has become ready. */
  ghost predicate Unblocks(w: Waitlist, w': Waitlist) {
    && w.ready <= w'.ready && Thinned(w.rows, w.clients, w'.rows, w'.clients)
    && (|w'.clients| < |w.clients| || (w'.clients == w.clients && w'.ready == w.ready))
  }

  lemma UnblocksNone(w: Waitlist)
    ensures Unblocks(w, w)
  {
    SameOrder(w.rows, w.clients);
  }

  lemma UnblocksMore(w: Waitlist, w': Waitlist, w'': Waitlist)
    requires Unblocks(w, w') && Unblocks(w', w'')
    ensures Unblocks(w, w'')
  {
    hide Thinned;
    OrderKept(w.rows, w.clients, w'.rows, w'.clients, w''.rows, w''.clients);
  }

  lemma SatedWhenDone(rows: Rows, before: Clients, clients: Clients, k: Key, q: seq<ClientId>)
    requires Fewer(before, clients) && Queue(rows, k) == After(before, q, |q|)
    ensures !Hungry(rows, clients, k)
  {
    assert q[..|q|] == q && q[|q|..] == [];
    forall c | c in Queue(rows, k) && c in clients ensures clients[c].btype != ForList { OthersMembers(before, q, c); }
  }

  // -------------------------------------------------------------------------
  // The server
  // -------------------------------------------------------------------------

  /** `ready` is the set of the pending entries, and every key has one entry. */
  ghost predicate Pending(entries: seq<Key>, ready: set<Key>) {
    Distinct(entries) && ready == KeySet(entries)
  }

  lemma PendingMore(entries: seq<Key>, ready: set<Key>, k: Key)
    requires Pending(entries, ready) && k !in ready
    ensures Pending(entries + [k], ready + {k})
  {
  }

  lemma PendingLess(entries: seq<Key>, ready: set<Key>)
    requires Pending(entries, ready) && entries != []
    ensures Pending(entries[1..], ready - {entries[0]})
  {
  }

  /** `dict` after a push at the head of the list at `dst`. */
  function Pushed(dict: Dict, dst: Key, v: Value): Dict
    requires dst in dict ==> dict[dst].ListObject?
  {
    dict[dst := ListObject([v] + if dst in dict then dict[dst].items else [])]
  }

  type Reply = (ClientId, Key, Value)

  /** The element a client pops, and the list without it. */
  function Popped(items: seq<Value>, head: bool): (Value, seq<Value>)
    requires items != []
  {
    if head then (items[0], items[1..]) else (items[|items| - 1], items[..|items| - 1])
  }

  lemma PopUndone(items: seq<Value>, head: bool)
    requires items != []
    ensures var (v, rest) := Popped(items, head);
            items == (if head then [v] + rest else rest + [v]) && multiset(items) == multiset(rest) + multiset{v}
  {
    var (v, rest) := Popped(items, head);
    assert items == if head then [v] + rest else rest + [v];
  }

  /** A pop that empties the list deletes its key. */
  function PopOne(dict: Dict, k: Key, c: ClientId, head: bool, replies: seq<Reply>): (Dict, seq<Reply>)
    requires k in dict && dict[k].ListObject?
  {
    if dict[k].items == [] then (dict, replies)
    else
      var (v, rest) := Popped(dict[k].items, head);
      (if rest == [] then dict - {k} else dict[k := ListObject(rest)], replies + [(c, k, v)])
  }

  function FirstPresent(dict: Dict, keys: seq<Key>): (r: Option<Key>)
    ensures r.Some? ==> r.value in dict
  {
    if keys == [] then None else if keys[0] in dict then Some(keys[0]) else FirstPresent(dict, keys[1..])
  }

  datatype PopResult = BadTimeout | WrongType | Answered | NullReply | Waits

  /** What becomes of a BLPOP or BRPOP. */
  function Kind(dict: Dict, keys: seq<Key>, timeoutOk: bool, inMulti: bool): (r: PopResult)
    ensures r == Answered ==> FirstPresent(dict, keys).Some? && dict[FirstPresent(dict, keys).value].ListObject?
  {
    var k := FirstPresent(dict, keys);
    if !timeoutOk then BadTimeout
    else if k.Some? then if dict[k.value].ListObject? then Answered else WrongType
    else if inMulti then NullReply else Waits
  }

  /** What serving client `c` from the list at `k` does: it gets an element, which for
      BRPOPLPUSH moves to the target; if that holds something else, nothing happens. */
  function ServeOne(dict: Dict, k: Key, c: ClientId, w: Waiter): (r: (Dict, seq<Reply>))
    requires k in dict && dict[k].ListObject? && dict[k].items != []
    ensures k in r.0 && r.0[k].ListObject?
  {
    var (v, rest) := Popped(dict[k].items, w.popHead);
    var d := dict[k := ListObject(rest)];
    if w.target.None? then (d, [(c, k, v)])
    else if w.target.value in d && !d[w.target.value].ListObject? then (dict, [])
    else (Pushed(d, w.target.value, v), [(c, k, v)])
  }

  datatype Served = Served(dict: Dict, replies: seq<Reply>, stop: nat)

  /** What serving the queue `q` of key `k` from position `i` on does: every client that waits
      for a list is served in turn, as long as there are elements. */
  ghost function Rounds(dict: Dict, k: Key, clients: Clients, q: seq<ClientId>, i: nat): Served
    requires k in dict && dict[k].ListObject? && i <= |q|
    decreases |q| - i
  {
    if i == |q| then Served(dict, [], i)
    else if !(q[i] in clients && clients[q[i]].btype == ForList) then Rounds(dict, k, clients, q, i + 1)
    else if dict[k].items == [] then Served(dict, [], i)
    else
      var (d, rs) := ServeOne(dict, k, q[i], clients[q[i]]);
      Following(rs, Rounds(d, k, clients, q, i + 1))
  }

  function Following(rs: seq<Reply>, t: Served): Served { t.(replies := rs + t.replies) }

  /** What is still to be done after some of the rounds is `rest`. */
  ghost predicate Ahead(was: Drained, now: Drained, k: Key, clients: Clients, q: seq<ClientId>, i: nat, rest: Served)
    requires k in was.dict && was.dict[k].ListObject? && i <= |q|
  {
    was.replies <= now.replies && Rounds(was.dict, k, clients, q, i) == Following(now.replies[|was.replies|..], rest)
  }

  lemma AheadStarts(s: Drained, k: Key, clients: Clients, q: seq<ClientId>)
    requires k in s.dict && s.dict[k].ListObject?
    ensures Ahead(s, s, k, clients, q, 0, Rounds(s.dict, k, clients, q, 0))
  {
    hide Rounds;
    var t := Rounds(s.dict, k, clients, q, 0);
    assert s.replies[|s.replies|..] + t.replies == t.replies;
  }

  lemma AheadMore(s: Drained, s': Drained, s'': Drained, k: Key, clients: Clients, q: seq<ClientId>, i: nat,
                  rest: Served)
    requires k in s.dict && s.dict[k].ListObject? && k in s'.dict && s'.dict[k].ListObject? && i <= |q|
    requires Ahead(s, s', k, clients, q, 0, Rounds(s'.dict, k, clients, q, i)) && Ahead(s', s'', k, clients, q, i, rest)
    ensures Ahead(s, s'', k, clients, q, 0, rest)
  {
    hide Rounds;
    var a, b, c := s.replies, s'.replies, s''.replies;
    assert b[|a|..] + c[|b|..] == c[|a|..];
    Assoc(b[|a|..], c[|b|..], rest.replies);
  }

  lemma AheadOfNothing(s: Drained, s': Drained, k: Key, clients: Clients, q: seq<ClientId>, i: nat)
    requires k in s.dict && s.dict[k].ListObject? && Ahead(s, s', k, clients, q, 0, Served(s'.dict, [], i))
    ensures s.replies <= s'.replies && Rounds(s.dict, k, clients, q, 0) == Served(s'.dict, s'.replies[|s.replies|..], i)
  {
    hide Rounds;
    assert s'.replies[|s.replies|..] + [] == s'.replies[|s.replies|..];
  }

  /** One turn. */
  lemma RoundsStep(dict: Dict, k: Key, clients: Clients, q: seq<ClientId>, i: nat)
    requires k in dict && dict[k].ListObject? && i < |q|
    ensures if !(q[i] in clients && clients[q[i]].btype == ForList)
            then Rounds(dict, k, clients, q, i) == Following([], Rounds(dict, k, clients, q, i + 1))
            else if dict[k].items == [] then Rounds(dict, k, clients, q, i) == Following([], Served(dict, [], i))
            else var (d, rs) := ServeOne(dict, k, q[i], clients[q[i]]);
                 Rounds(dict, k, clients, q, i) == Following(rs, Rounds(d, k, clients, q, i + 1))
  {
    hide ServeOne;
  }

  function ItemsAt(dict: Dict, k: Key): seq<Value> {
    if k in dict && dict[k].ListObject? then dict[k].items else []
  }

  // -------------------------------------------------------------------------
  // What draining the queue of ready keys does, without queues, nodes and rotations
  // -------------------------------------------------------------------------

  datatype Drained = Drained(dict: Dict, clients: Clients, replies: seq<Reply>)

  datatype Turn = Turn(dict: Dict, replies: seq<Reply>, left: seq<ClientId>)

  /** The clients in `w` are served from the list at `k`, in this order, until it is empty. */
  ghost function InTurn(dict: Dict, k: Key, clients: Clients, w: seq<ClientId>): (t: Turn)
    requires k in dict && dict[k].ListObject? && forall c :: c in w ==> c in clients
    decreases |w|
  {
    if w == [] || dict[k].items == [] then Turn(dict, [], w)
    else
      var (d, rs) := ServeOne(dict, k, w[0], clients[w[0]]);
      var t := InTurn(d, k, clients, w[1..]);
      t.(replies := rs + t.replies)
  }

  ghost predicate ServedAlike(clients: Clients, q: seq<ClientId>, s: Served, t: Turn) {
    s.stop <= |q| && s.dict == t.dict && s.replies == t.replies && t.left == Waiting(clients, q[s.stop..])
  }

  /** The clients that do not wait for a list make no difference. */
  lemma {:induction false} RoundsInTurn(dict: Dict, k: Key, clients: Clients, q: seq<ClientId>, i: nat)
    requires k in dict && dict[k].ListObject? && i <= |q|
    ensures (forall c :: c in Waiting(clients, q[i..]) ==> c in clients)
    ensures ServedAlike(clients, q, Rounds(dict, k, clients, q, i), InTurn(dict, k, clients, Waiting(clients, q[i..])))
    decreases |q| - i
  {
    hide ServeOne;
    forall c | c in Waiting(clients, q[i..]) ensures c in clients { WaitingMembers(clients, q[i..], c); }
    if i < |q| {
      assert q[i..][1..] == q[i + 1..];
      if !(q[i] in clients && clients[q[i]].btype == ForList) {
        RoundsInTurn(dict, k, clients, q, i + 1);
        assert Waiting(clients, q[i..]) == Waiting(clients, q[i + 1..]);
      } else if dict[k].items != [] {
        RoundsInTurn(ServeOne(dict, k, q[i], clients[q[i]]).0, k, clients, q, i + 1);
        assert Waiting(clients, q[i..])[1..] == Waiting(clients, q[i + 1..]);
      }
    }
  }

  /** One ready key; `rows` are the queues when the draining began. */
  ghost function ServedKey(rows: Rows, s: Drained, k: Key): Drained {
    if !(k in s.dict && s.dict[k].ListObject?) then s
    else
      var w := Waiting(s.clients, Queue(rows, k));
      AllWait(s.clients, Queue(rows, k));
      var t := InTurn(s.dict, k, s.clients, w);
      Drained(if ItemsAt(t.dict, k) == [] then t.dict - {k} else t.dict,
              map c | c in s.clients && !(c in w && c !in t.left) :: s.clients[c],
              s.replies + t.replies)
  }

  lemma AllWait(clients: Clients, q: seq<ClientId>)
    ensures forall c :: c in Waiting(clients, q) ==> c in clients
  {
    forall c | c in Waiting(clients, q) ensures c in clients { WaitingMembers(clients, q, c); }
  }

  /** The ready keys in the order in which they are taken up. */
  ghost function ServedKeys(rows: Rows, s: Drained, keys: seq<Key>): Drained {
    if keys == [] then s else ServedKey(rows, ServedKeys(rows, s, keys[..|keys| - 1]), keys[|keys| - 1])
  }

  lemma OneMore(rows: Rows, s: Drained, keys: seq<Key>, k: Key)
    ensures ServedKeys(rows, s, keys + [k]) == ServedKey(rows, ServedKeys(rows, s, keys), k)
  {
    assert (keys + [k])[..|keys|] == keys;
  }

  /** Who was looked at and waits for a list is who is not left. */
  lemma WhoIsServed(clients: Clients, q: seq<ClientId>, i: nat, c: ClientId)
    requires i <= |q| && Distinct(q) && c in clients
    ensures c in Waiting(clients, q) && c !in Waiting(clients, q[i..]) <==> clients[c].btype == ForList && c in q[..i]
  {
    WaitingMembers(clients, q, c);
    WaitingMembers(clients, q[i..], c);
    assert q == q[..i] + q[i..];
  }

  lemma ServedAsSaid(rows0: Rows, clients0: Clients, rows: Rows, k: Key, dict: Dict, clients: Clients, rows': Rows,
                     clients': Clients, replies: seq<Reply>, i: nat)
    requires Thinned(rows0, clients0, rows, clients) && Thinned(rows, clients, rows', clients') && k in dict
    requires dict[k].ListObject?
    requires var q := Queue(rows, k);
             && Distinct(q) && i <= |q| && i == Rounds(dict, k, clients, q, 0).stop
             && forall c :: c in clients ==> (c in clients' <==> clients[c].btype != ForList || c !in q[..i])
    ensures var r := Rounds(dict, k, clients, Queue(rows, k), 0);
            ServedKey(rows0, Drained(dict, clients, replies), k) ==
            Drained(if ItemsAt(r.dict, k) == [] then r.dict - {k} else r.dict, clients', replies + r.replies)
  {
    hide Queue, Rounds, Distinct, InOrder, ServedKey, ItemsAt;
    KeyServed(rows0, rows, k, dict, clients, clients', replies, i);
  }

  /** Serving one key in memory, seen from outside. */
  lemma KeyServed(rows0: Rows, rows: Rows, k: Key, dict: Dict, clients: Clients, clients': Clients,
                  replies: seq<Reply>, i: nat)
    requires InOrder(rows0, rows, clients) && k in dict && dict[k].ListObject?
    requires var q := Queue(rows, k);
             && Distinct(q) && i <= |q| && i == Rounds(dict, k, clients, q, 0).stop
             && Fewer(clients, clients')
             && forall c :: c in clients ==> (c in clients' <==> clients[c].btype != ForList || c !in q[..i])
    ensures var r := Rounds(dict, k, clients, Queue(rows, k), 0);
            ServedKey(rows0, Drained(dict, clients, replies), k) ==
            Drained(if ItemsAt(r.dict, k) == [] then r.dict - {k} else r.dict, clients', replies + r.replies)
  {
    hide Queue, Waiting, Rounds, InTurn, Distinct, ItemsAt;
    var q := Queue(rows, k);
    assert q[0..] == q;
    assert Waiting(clients, Queue(rows0, k)) == Waiting(clients, q);
    RoundsInTurn(dict, k, clients, q, 0);
    var w, left := Waiting(clients, q), Waiting(clients, q[i..]);
    forall c | c in clients ensures c in clients' <==> !(c in w && c !in left) { WhoIsServed(clients, q, i, c); }
    assert clients' == map c | c in clients && !(c in w && c !in left) :: clients[c];
  }

  /** No element is lost or doubled when a client is served: BLPOP and BRPOP take it. */
  lemma PopConserves(dict: Dict, k: Key, c: ClientId, w: Waiter)
    requires k in dict && dict[k].ListObject? && dict[k].items != [] && w.target.None?
    ensures var (d, rs) := ServeOne(dict, k, c, w);
            && |rs| == 1 && rs[0].0 == c && multiset(ItemsAt(dict, k)) == multiset(ItemsAt(d, k)) + multiset{rs[0].2}
            && forall j :: j != k ==> ItemsAt(d, j) == ItemsAt(dict, j)
  {
    hide Popped;
    PopUndone(dict[k].items, w.popHead);
  }

  /** BRPOPLPUSH moves it, also when it moves to the same list or cannot move. */
  lemma MoveConserves(dict: Dict, k: Key, c: ClientId, w: Waiter)
    requires k in dict && dict[k].ListObject? && dict[k].items != [] && w.target.Some? && w.target.value != k
    ensures var d, dst := ServeOne(dict, k, c, w).0, w.target.value;
            && multiset(ItemsAt(d, k)) + multiset(ItemsAt(d, dst)) ==
                  multiset(ItemsAt(dict, k)) + multiset(ItemsAt(dict, dst))
            && forall j :: j != k && j != dst ==> ItemsAt(d, j) == ItemsAt(dict, j)
  {
    hide Popped;
    PopUndone(dict[k].items, w.popHead);
    var (v, rest) := Popped(dict[k].items, w.popHead);
    assert multiset([v] + ItemsAt(dict, w.target.value)) == multiset{v} + multiset(ItemsAt(dict, w.target.value));
  }

  lemma RotateConserves(dict: Dict, k: Key, c: ClientId, w: Waiter)
    requires k in dict && dict[k].ListObject? && dict[k].items != [] && w.target == Some(k)
    ensures var d := ServeOne(dict, k, c, w).0;
            && multiset(ItemsAt(d, k)) == multiset(ItemsAt(dict, k)) && forall j :: j != k ==>
                  ItemsAt(d, j) == ItemsAt(dict, j)
  {
    hide Popped;
    PopUndone(dict[k].items, w.popHead);
    var (v, rest) := Popped(dict[k].items, w.popHead);
    assert multiset([v] + rest) == multiset{v} + multiset(rest);
  }

  class Server {
    const index: Index
    var readyKeys: seq<Key>
    var readySet: set<Key>
    var dict: Dict
    var replies: seq<Reply>

    /** The lists are sound while entries in `taken` are still being processed. */
    ghost predicate Sound(taken: seq<Key>, but: Option<Key>)
      reads this, index, index.repr
    {
      && this !in index.repr && index.Valid()
      && Pending(taken + readyKeys, readySet)
      && NoEmptyLists(dict, but)
      && Covered(index.rows, index.clients, dict, readySet, but)
    }

    /** Between commands: nothing is queued unless a command is being executed, and every key
        with data and a client that waits for it is queued. */
    ghost predicate Valid()
      reads this, index, index.repr
    {
      Sound([], None)
    }

    constructor ()
      ensures Valid() && fresh(index) && fresh(index.repr) && readyKeys == [] && dict == map[] && index.clients == map[]
    {
      index := new Index();
      readyKeys, readySet, dict, replies := [], {}, map[], [];
    }

    /** signalKeyAsReady */
    method SignalKeyAsReady(k: Key, ghost taken: seq<Key>)
      requires index.Valid() && Pending(taken + readyKeys, readySet)
      modifies this`readyKeys, this`readySet
      ensures Pending(taken + readyKeys, readySet)
      ensures readySet == old(readySet) + if Queue(index.rows, k) != [] then {k} else {}
      ensures old(readyKeys) <= readyKeys
    {
      hide Pending, Index.Valid, Separate, Paired;
      BlockingIffQueue(k);
      if k !in index.blocking { return; }
      if k in readySet { return; }
      PendingMore(taken + readyKeys, readySet, k);
      assert taken + readyKeys + [k] == taken + (readyKeys + [k]);
      readyKeys := readyKeys + [k];
      readySet := readySet + {k};
    }

    lemma BlockingIffQueue(k: Key)
      requires index.Valid()
      ensures k in index.blocking <==> Queue(index.rows, k) != []
      ensures k in index.blocking ==>
                index.blocking[k].Valid() && index.blocking[k].nodes == index.rows[k] && index.rows[k] != []
    {
    }

    /** dbAdd when needed, then a push: rpoplpushHandlePush, and the LPUSH and RPUSH commands. */
    method PushTo(dst: Key, v: Value, head: bool, ghost taken: seq<Key>, ghost but: Option<Key>)
      requires Sound(taken, but) && (dst in dict ==> dict[dst].ListObject?)
      modifies this`readyKeys, this`readySet, this`dict
      ensures Sound(taken, but) && old(readyKeys) <= readyKeys
      ensures var items := if dst in old(dict) then old(dict)[dst].items else [];
              dict == old(dict)[dst := ListObject(if head then [v] + items else items + [v])]
    {
      hide Pending, Index.Valid;
      var items := [];
      if dst !in dict {
        SignalKeyAsReady(dst, taken);
      } else {
        items := dict[dst].items;
      }
      dict := dict[dst := ListObject(if head then [v] + items else items + [v])];
      PushKeepsCovered(index.rows, index.clients, old(dict), dict, old(readySet), readySet, but, dst);
    }

    /** serveClientBlockedOnList: false if the destination holds something else. */
    method ServeClient(c: ClientId, k: Key, target: Option<Key>, v: Value, ghost taken: seq<Key>)
      returns (ok: bool)
      requires Sound(taken, Some(k)) && k in dict && dict[k].ListObject?
      modifies this`readyKeys, this`readySet, this`dict, this`replies
      ensures Sound(taken, Some(k)) && old(readyKeys) <= readyKeys
      ensures ok == (target.None? || target.value !in old(dict) || old(dict)[target.value].ListObject?)
      ensures dict == if ok && target.Some? then Pushed(old(dict), target.value, v) else old(dict)
      ensures replies == if ok then old(replies) + [(c, k, v)] else old(replies)
    {
      hide Pending, Index.Valid, Covered, NoEmptyLists;
      if target.Some? {
        if target.value in dict && !dict[target.value].ListObject? { return false; }
        PushTo(target.value, v, true, taken, Some(k));
      }
      replies := replies + [(c, k, v)];
      return true;
    }

    /** listTypePop */
    method PopFrom(k: Key, head: bool, ghost taken: seq<Key>) returns (v: Value)
      requires Sound(taken, Some(k)) && k in dict && dict[k].ListObject? && dict[k].items != []
      modifies this`dict
      ensures Sound(taken, Some(k))
      ensures var (w, rest) := Popped(old(dict)[k].items, head); v == w && dict == old(dict)[k := ListObject(rest)]
    {
      hide Pending, Index.Valid;
      var items := dict[k].items;
      if head {
        v := items[0];
        items := items[1..];
      } else {
        v := items[|items| - 1];
        items := items[..|items| - 1];
      }
      dict := dict[k := ListObject(items)];
      ChangeKeepsCovered(index.rows, index.rows, index.clients, old(dict), dict, readySet, k);
    }

    /** Undo a pop. */
    method PushBack(k: Key, v: Value, head: bool, ghost taken: seq<Key>)
      requires Sound(taken, Some(k)) && k in dict && dict[k].ListObject?
      modifies this`dict
      ensures Sound(taken, Some(k))
      ensures dict == old(dict)[k := ListObject(if head then [v] + old(dict)[k].items else old(dict)[k].items + [v])]
    {
      hide Pending, Index.Valid;
      dict := dict[k := ListObject(if head then [v] + dict[k].items else dict[k].items + [v])];
      ChangeKeepsCovered(index.rows, index.rows, index.clients, old(dict), dict, readySet, k);
    }

    method Unblock(c: ClientId, ghost taken: seq<Key>, ghost but: Option<Key>)
      requires Sound(taken, but) && c in index.clients
      modifies index`blocking, index`rows, index`clients, index.repr
      ensures Sound(taken, but) && index.clients == old(index.clients) - {c}
      ensures Kept(old(index.blocking), index.blocking)
      ensures forall j :: Queue(index.rows, j) == Without(Queue(old(index.rows), j), c)
    {
      hide Pending, Index.Valid, Covered, NoEmptyLists, Queue, Kept;
      assert index !in index.repr by { NotInside(); }
      index.UnblockClient(c);
      UnblockKeepsCovered(old(index.rows), index.rows, old(index.clients), c, dict, readySet, but);
    }

    lemma NotInside()
      requires index.Valid()
      ensures index !in index.repr
    {
    }

    /** Serve one client that waits for the list at `k`, which is not empty. If it cannot be
        served the element goes back to where it came from; either way the client is free. */
    method ServeReceiver(k: Key, c: ClientId, ghost taken: seq<Key>)
      requires Sound(taken, Some(k)) && c in index.clients
      requires k in dict && dict[k].ListObject? && dict[k].items != []
      modifies this`readyKeys, this`readySet, this`dict, this`replies, index`blocking, index`rows, index`clients,
          index.repr
      ensures Sound(taken, Some(k)) && old(readyKeys) <= readyKeys && k in dict && dict[k].ListObject?
      ensures index.clients == old(index.clients) - {c} && Kept(old(index.blocking), index.blocking)
      ensures forall j :: Queue(index.rows, j) == Without(Queue(old(index.rows), j), c)
      ensures (dict, replies) == var (d, rs) := ServeOne(old(dict), k, c, old(index.clients)[c]); (d, old(replies) + rs)
    {
      hide Sound, Queue, Kept;
      var target, head := index.clients[c].target, index.clients[c].popHead;
      var v := PopFrom(k, head, taken);
      Apart();
      Unblock(c, taken, Some(k));
      var ok := ServeClient(c, k, target, v, taken);
      if !ok {
        PopUndone(old(dict)[k].items, head);
        PushBack(k, v, head, taken);
        assert dict == old(dict);
        assert old(replies) + [] == old(replies);
      }
    }

    lemma Apart()
      requires exists taken, but :: Sound(taken, but)
      ensures this !in index.repr && index !in index.repr && index.Valid()
    {
      NotInside();
    }

    /** Move a client that does not wait for a list out of the way. */
    method RotateClient(k: Key, ghost taken: seq<Key>)
      requires Sound(taken, Some(k)) && k in index.blocking
      modifies index`rows, index.repr
      ensures Sound(taken, Some(k)) && Queue(old(index.rows), k) != []
      ensures index.clients == old(index.clients) && index.blocking == old(index.blocking)
      ensures var q := Queue(old(index.rows), k);
              forall j :: Queue(index.rows, j) == if j == k then q[1..] + [q[0]] else Queue(old(index.rows), j)
    {
      hide Pending, Index.Valid, NoEmptyLists, Queue;
      NotInside();
      index.Rotate(k);
      ChangeKeepsCovered(old(index.rows), index.rows, index.clients, dict, dict, readySet, k);
    }

    ghost function View(): Drained
      reads this, index
    {
      Drained(dict, index.clients, replies)
    }

    ghost function Queues(): Waitlist
      reads this, index
    {
      Waitlist(index.rows, index.clients, readyKeys)
    }

    /** What the loop below keeps. `q` is the queue it found, `i` how far it got. */
    ghost predicate Progress(taken: seq<Key>, k: Key, before: Clients, q: seq<ClientId>, i: nat, l: List<ClientId>)
      reads this, index, index.repr
    {
      && Sound(taken, Some(k)) && k in dict && dict[k].ListObject?
      && Position(before, q, i, Queue(index.rows, k), index.clients)
      && (k in index.blocking ==> index.blocking[k] == l)
    }

    /** As long as there is a client to look at, the list is there and it is the first. */
    lemma HeadIsThere(taken: seq<Key>, k: Key, before: Clients, q: seq<ClientId>, i: nat, l: List<ClientId>)
      requires Progress(taken, k, before, q, i, l) && i < |q|
      ensures k in index.blocking && index.blocking[k] == l && l.Valid() && l.head != null && l.head.value == q[i]
      ensures q[i] in index.clients && q[i] in before && index.clients[q[i]] == before[q[i]]
    {
      assert Queue(index.rows, k)[0] == q[i];
      BlockingIffQueue(k);
      QueueMembers(index.rows, index.clients, k, q[i]);
    }

    lemma Start(taken: seq<Key>, k: Key)
      requires Sound(taken, Some(k)) && k in dict && dict[k].ListObject?
      ensures var q := Queue(index.rows, k);
              if k in index.blocking
              then Progress(taken, k, index.clients, q, 0, index.blocking[k]) && index.blocking[k].Valid()
                  && index.blocking[k].len == |q|
              else q == []
    {
      var q := Queue(index.rows, k);
      assert q[0..] + [] == q;
      QueueDistinct(index.rows, index.clients, k);
      BlockingIffQueue(k);
    }

    /** The first client waits for a list, and there is one: serve it. */
    method ServeHead(k: Key, l: List<ClientId>, c: ClientId, ghost taken: seq<Key>, ghost before: Clients,
                     ghost q: seq<ClientId>, ghost i: nat)
      requires Progress(taken, k, before, q, i, l) && i < |q| && q[i] == c && dict[k].items != []
      requires c in before && before[c].btype == ForList && c in index.clients && index.clients[c] == before[c]
      modifies this`readyKeys, this`readySet, this`dict, this`replies, index`blocking, index`rows, index`clients,
          index.repr
      ensures old(readyKeys) <= readyKeys && Progress(taken, k, before, q, i + 1, l)
      ensures |index.clients| < |old(index.clients)| && index.clients != old(index.clients)
      ensures Thinned(old(index.rows), old(index.clients), index.rows, index.clients)
      ensures (dict, replies) == var (d, rs) := ServeOne(old(dict), k, c, before[c]); (d, old(replies) + rs)
    {
      hide Sound, Queue, Position, ServeOne, InOrder;
      Apart();
      PositionServed(before, q, i, Queue(index.rows, k), index.clients);
      ServeReceiver(k, c, taken);
      UnblockKeepsOrder(old(index.rows), index.rows, index.clients, c);
      OneLess(old(index.clients), c);
    }

    /** The first client does not wait for a list: it goes to the end. */
    method RotateHead(k: Key, l: List<ClientId>, c: ClientId, ghost taken: seq<Key>, ghost before: Clients,
                      ghost q: seq<ClientId>, ghost i: nat)
      requires Progress(taken, k, before, q, i, l) && i < |q| && q[i] == c && k in index.blocking
      requires c in before && before[c].btype != ForList
      modifies index`rows, index.repr
      ensures Progress(taken, k, before, q, i + 1, l) && index.clients == old(index.clients)
      ensures Thinned(old(index.rows), old(index.clients), index.rows, index.clients)
    {
      hide Sound, Queue, Position, Thinned;
      Apart();
      PositionRotated(before, q, i, Queue(index.rows, k), index.clients);
      SameClient(before, q, i, Queue(index.rows, k), index.clients);
      RotateClient(k, taken);
      RotationKeepsOrder(old(index.rows), index.rows, index.clients, k);
    }

    /** One turn of the loop below: rotate or serve the first client; false if there is nothing
        to serve it with. */
    method ServeTurn(k: Key, l: List<ClientId>, ghost taken: seq<Key>, ghost before: Clients, ghost q: seq<ClientId>,
                     ghost i: nat)
      returns (go: bool)
      requires Progress(taken, k, before, q, i, l) && i < |q|
      modifies this`readyKeys, this`readySet, this`dict, this`replies, index`blocking, index`rows, index`clients,
          index.repr
      ensures Progress(taken, k, before, q, if go then i + 1 else i, l)
      ensures k in dict && dict[k].ListObject? && (!go ==> dict[k].items == [])
      ensures Unblocks(old(Queues()), Queues())
      ensures Ahead(old(View()), View(), k, before, q, i, if go then Rounds(dict, k, before, q, i + 1)
              else Served(dict, [], i))
    {
      hide Progress, Rounds, Following, ServeOne, Queue, Thinned;
      HasList(taken, k, before, q, i, l);
      HeadIsThere(taken, k, before, q, i, l);
      RoundsStep(dict, k, before, q, i);
      assert replies[|replies|..] == [];
      SameOrder(index.rows, index.clients);
      var c := l.head.value;
      if index.clients[c].btype != ForList {
        RotateHead(k, l, c, taken, before, q, i);
        return true;
      }
      if |dict[k].items| == 0 { return false; }
      ghost var rs := ServeOne(dict, k, c, before[c]).1;
      assert (replies + rs)[|replies|..] == rs;
      ServeHead(k, l, c, taken, before, q, i);
      return true;
    }

    lemma HasList(taken: seq<Key>, k: Key, before: Clients, q: seq<ClientId>, i: nat, l: List<ClientId>)
      requires Progress(taken, k, before, q, i, l)
      ensures k in dict && dict[k].ListObject? && this !in index.repr && index !in index.repr
    {
      NotInside();
    }

    lemma OneLess(clients: Clients, c: ClientId)
      requires c in clients
      ensures |clients - {c}| < |clients| && clients - {c} != clients
    {
      assert (clients - {c}).Keys == clients.Keys - {c};
    }

    method ServeLoop(k: Key, l: List<ClientId>, ghost taken: seq<Key>) returns (ghost i: nat)
      requires Sound(taken, Some(k)) && k in dict && dict[k].ListObject? && k in index.blocking
      requires index.blocking[k] == l
      modifies this`readyKeys, this`readySet, this`dict, this`replies, index`blocking, index`rows, index`clients,
          index.repr
      ensures Progress(taken, k, old(index.clients), Queue(old(index.rows), k), i, l)
      ensures k in dict && dict[k].ListObject? && (i < |Queue(old(index.rows), k)| ==> dict[k].items == [])
      ensures Unblocks(old(Queues()), Queues())
      ensures Ahead(old(View()), View(), k, old(index.clients), Queue(old(index.rows), k), 0, Served(dict, [], i))
    {
      hide Sound, Progress, Queue, Rounds, Ahead, Unblocks;
      UnblocksNone(Queues());
      Apart();
      Start(taken, k);
      ghost var before, q := index.clients, Queue(index.rows, k);
      var numclients := l.len;
      i := 0;
      AheadStarts(View(), k, before, q);
      while numclients > 0
        invariant Progress(taken, k, before, q, i, l) && numclients == |q| - i
        invariant index.repr == old(index.repr)
        invariant Unblocks(old(Queues()), Queues()) && k in dict && dict[k].ListObject?
        invariant Ahead(old(View()), View(), k, before, q, 0, Rounds(dict, k, before, q, i))
      {
        numclients := numclients - 1;
        ghost var sofar, queues := View(), Queues();
        var go := ServeTurn(k, l, taken, before, q, i);
        UnblocksMore(old(Queues()), queues, Queues());
        AheadMore(old(View()), sofar, View(), k, before, q, i, if go then Rounds(dict, k, before, q, i + 1)
            else Served(dict, [], i));
        if !go { return; }
        i := i + 1;
      }
      RoundsEnd(dict, k, before, q);
    }

    lemma RoundsEnd(dict: Dict, k: Key, clients: Clients, q: seq<ClientId>)
      requires k in dict && dict[k].ListObject?
      ensures Rounds(dict, k, clients, q, |q|) == Served(dict, [], |q|)
    {
    }

    /** serveClientsBlockedOnListKey: serve the clients in the order in which they blocked,
        until all have been looked at or the list is empty. */
    method ServeListKey(k: Key, ghost taken: seq<Key>) returns (ghost i: nat)
      requires Sound(taken, Some(k)) && k in dict && dict[k].ListObject?
      modifies this`readyKeys, this`readySet, this`dict, this`replies, index`blocking, index`rows, index`clients,
          index.repr
      ensures Sound(taken, None) && Unblocks(old(Queues()), Queues())
      ensures var q, before := Queue(old(index.rows), k), old(index.clients);
              && i <= |q| && Queue(index.rows, k) == After(before, q, i) && (i < |q| ==> k !in dict)
              && (forall c :: c in before ==> (c in index.clients <==> before[c].btype != ForList || c !in q[..i]))
      ensures var served := Rounds(old(dict), k, old(index.clients), Queue(old(index.rows), k), 0);
              && old(replies) <= replies && served.replies == replies[|old(replies)|..] && served.stop == i
              && dict == if ItemsAt(served.dict, k) == [] then served.dict - {k} else served.dict
    {
      hide Sound, Queue, After, Distinct, Unblocks, Rounds;
      i := 0;
      Start(taken, k);
      UnblocksNone(Queues());
      ghost var q, before := Queue(index.rows, k), index.clients;
      if k in index.blocking {
        i := ServeLoop(k, index.blocking[k], taken);
        AheadOfNothing(old(View()), View(), k, before, q, i);
      } else {
        assert q == After(before, q, 0) by { NobodyAfter(before); }
        RoundsEnd(dict, k, before, q);
        assert replies[|replies|..] == [];
      }
      if i == |q| { SatedWhenDone(index.rows, before, index.clients, k, q); }
      if |dict[k].items| == 0 { DeleteKey(k, taken); } else { Settle(taken, k); }
    }

    lemma NobodyAfter(clients: Clients)
      ensures After(clients, [], 0) == []
    {
    }

    method DeleteKey(k: Key, ghost taken: seq<Key>)
      requires Sound(taken, Some(k))
      modifies this`dict
      ensures Sound(taken, None) && dict == old(dict) - {k}
    {
      hide Pending, Index.Valid, Queue;
      dict := dict - {k};
    }

    lemma Settle(taken: seq<Key>, k: Key)
      requires Sound(taken, Some(k)) && k in dict && dict[k].ListObject? && dict[k].items != []
      requires !Hungry(index.rows, index.clients, k)
      ensures Sound(taken, None)
    {
      hide Pending, Index.Valid, Hungry;
    }

    /** Is the object at a key a list? Clients that wait for other types are left alone. */
    method ServeKey(k: Key, ghost taken: seq<Key>, ghost rows0: Rows, ghost clients0: Clients)
      requires Sound(taken, Some(k)) && Thinned(rows0, clients0, index.rows, index.clients)
      modifies this`readyKeys, this`readySet, this`dict, this`replies, index`blocking, index`rows, index`clients,
          index.repr
      ensures Sound(taken, None) && Thinned(rows0, clients0, index.rows, index.clients)
      ensures old(readyKeys) <= readyKeys
      ensures |index.clients| < |old(index.clients)|
              || (index.clients == old(index.clients) && readyKeys == old(readyKeys))
      ensures View() == ServedKey(rows0, old(View()), k)
    {
      hide Sound, ServedKey, Queue, Rounds, Thinned, Distinct, After;
      if k in dict && dict[k].ListObject? {
        OneEach(taken, k);
        ghost var i := ServeListKey(k, taken);
        OrderKept(rows0, clients0, old(index.rows), old(index.clients), index.rows, index.clients);
        ServedAsSaid(rows0, clients0, old(index.rows), k, old(dict), old(index.clients), index.rows, index.clients,
            old(replies), i);
        assert old(replies) + replies[|old(replies)|..] == replies;
      } else {
        NotServed(taken, k, rows0);
      }
    }

    lemma NotServed(taken: seq<Key>, k: Key, rows0: Rows)
      requires Sound(taken, Some(k)) && !(k in dict && dict[k].ListObject?)
      ensures Sound(taken, None) && View() == ServedKey(rows0, View(), k)
    {
      hide Pending, Index.Valid, Queue;
    }

    lemma OneEach(taken: seq<Key>, k: Key)
      requires Sound(taken, Some(k))
      ensures Distinct(Queue(index.rows, k))
    {
      QueueDistinct(index.rows, index.clients, k);
    }

    /** Point server.ready_keys to a fresh list. */
    method DetachReadyKeys() returns (l: seq<Key>)
      requires Valid()
      modifies this`readyKeys
      ensures Sound(l, None) && l == old(readyKeys) && readyKeys == []
    {
      hide Pending, Index.Valid, Queue;
      l := readyKeys;
      assert [] + l == l + [];
      readyKeys := [];
    }

    /** Take the first entry off the queue and forget that it is queued. */
    method TakeEntry(l: seq<Key>)
      requires Sound(l, None) && l != []
      modifies this`readySet
      ensures Sound(l[1..], Some(l[0]))
    {
      hide Pending, Index.Valid, Queue;
      PendingLess(l + readyKeys, readySet);
      assert (l + readyKeys)[1..] == l[1..] + readyKeys;
      readySet := readySet - {l[0]};
    }

    /** Take up the ready keys `l`, which may make others ready. */
    method ServeReadyKeys(l: seq<Key>, ghost view0: Drained, ghost rows0: Rows, ghost done: seq<Key>)
      requires Sound(l, None) && readyKeys == []
      requires Thinned(rows0, view0.clients, index.rows, index.clients) && View() == ServedKeys(rows0, view0, done)
      modifies this`readyKeys, this`readySet, this`dict, this`replies, index`blocking, index`rows, index`clients,
          index.repr
      ensures Valid() && index.repr == old(index.repr)
      ensures |index.clients| < |old(index.clients)| || (index.clients == old(index.clients) && readyKeys == [])
      ensures Thinned(rows0, view0.clients, index.rows, index.clients) && View() == ServedKeys(rows0, view0, done + l)
    {
      hide Sound, Thinned, ServedKey, ServedKeys, Queue;
      Apart();
      assert done + l[..0] == done;
      for i := 0 to |l|
        invariant Sound(l[i..], None) && index.repr == old(index.repr)
        invariant Thinned(rows0, view0.clients, index.rows, index.clients)
        invariant View() == ServedKeys(rows0, view0, done + l[..i])
        invariant |index.clients| < |old(index.clients)| || (index.clients == old(index.clients) && readyKeys == [])
      {
        Apart();
        TakeEntry(l[i..]);
        assert l[i..][1..] == l[i + 1..];
        ServeKey(l[i], l[i + 1..], rows0, view0.clients);
        OneMore(rows0, view0, done + l[..i], l[i]);
        assert done + l[..i] + [l[i]] == done + l[..i + 1];
      }
      assert l[..|l|] == l && l[|l|..] == [];
    }

    /** handleClientsBlockedOnKeys. It ends, because every refill costs a blocked client, and
        then no key holds a list that a client still waits for. `keys` are the ready keys in the
        order in which they were taken up, the refills included. */
    method HandleClientsBlockedOnKeys() returns (ghost keys: seq<Key>)
      requires Valid()
      modifies this`readyKeys, this`readySet, this`dict, this`replies, index`blocking, index`rows, index`clients,
          index.repr
      ensures Valid() && readyKeys == [] && readySet == {}
      ensures forall k :: !Starved(index.rows, index.clients, dict, k)
      ensures View() == ServedKeys(old(index.rows), old(View()), keys) && old(readyKeys) <= keys
      ensures Thinned(old(index.rows), old(index.clients), index.rows, index.clients)
    {
      hide Sound, Starved, Thinned, ServedKey, Queue;
      Apart();
      SameOrder(index.rows, index.clients);
      keys := [];
      assert keys + readyKeys == readyKeys;
      while readyKeys != []
        invariant Valid() && index.repr == old(index.repr)
        invariant Thinned(old(index.rows), old(index.clients), index.rows, index.clients)
        invariant View() == ServedKeys(old(index.rows), old(View()), keys)
        invariant old(readyKeys) <= keys + readyKeys
        decreases |index.clients|, |readyKeys|
      {
        var l := DetachReadyKeys();
        ServeReadyKeys(l, old(View()), old(index.rows), keys);
        keys := keys + l;
      }
      assert keys + [] == keys;
      NothingLeft();
    }

    lemma NothingLeft()
      requires Valid() && readyKeys == []
      ensures readySet == {} && forall k :: !Starved(index.rows, index.clients, dict, k)
    {
      hide Index.Valid, Starved, NoEmptyLists;
      assert [] + readyKeys == [];
    }

    /** LPUSH and RPUSH of one value; false if the key holds something else. */
    method Push(k: Key, v: Value, head: bool) returns (ok: bool)
      requires Valid()
      modifies this`readyKeys, this`readySet, this`dict
      ensures Valid() && ok == (k !in old(dict) || old(dict)[k].ListObject?)
      ensures var items := ItemsAt(old(dict), k);
              dict == if ok then old(dict)[k := ListObject(if head then [v] + items else items + [v])] else old(dict)
    {
      hide Sound;
      if k in dict && !dict[k].ListObject? { return false; }
      PushTo(k, v, head, [], None);
      return true;
    }

    /** blockingPopGenericCommand: pop from the first key that exists, which fails if it is not a
        list; if none exists, block for all of them, or in a transaction reply with nothing. */
    method BlockingPop(c: ClientId, keys: seq<Key>, head: bool, timeoutOk: bool, inMulti: bool) returns (r: PopResult)
      requires Valid() && c !in index.clients
      modifies this`dict, this`replies, index, index.repr
      ensures Valid() && fresh(index.repr - old(index.repr))
      ensures r == Kind(old(dict), keys, timeoutOk, inMulti)
      ensures (dict, replies) ==
              if r == Answered then PopOne(old(dict), FirstPresent(old(dict), keys).value, c, head, old(replies))
              else (old(dict), old(replies))
      ensures if r == Waits
              then && Waited(old(index.clients), index.clients, c, Waiter(ForList, None, head, map[]), KeySet(keys))
                   && Joined(old(index.rows), index.rows, c, KeySet(keys))
              else index.clients == old(index.clients) && index.rows == old(index.rows)
    {
      hide Sound, PopOne, Joined, Waited, KeySet;
      Apart();
      if !timeoutOk { return BadTimeout; }
      var i := 0;
      while i < |keys| && keys[i] !in dict
        invariant 0 <= i <= |keys| && (forall j :: 0 <= j < i ==> keys[j] !in dict)
        invariant FirstPresent(dict, keys) == FirstPresent(dict, keys[i..])
      {
        assert keys[i..][1..] == keys[i + 1..];
        i := i + 1;
      }
      if i < |keys| {
        if !dict[keys[i]].ListObject? { return WrongType; }
        PopNow(c, keys[i], head);
        return Answered;
      }
      if inMulti { return NullReply; }
      Block(c, keys, None, head);
      return Waits;
    }

    method PopNow(c: ClientId, k: Key, head: bool)
      requires Valid() && k in dict && dict[k].ListObject?
      modifies this`dict, this`replies
      ensures Valid() && (dict, replies) == PopOne(old(dict), k, c, head, old(replies))
    {
      hide Pending, Index.Valid, Queue, Hungry;
      var (v, items) := Popped(dict[k].items, head);
      replies := replies + [(c, k, v)];
      dict := if |items| == 0 then dict - {k} else dict[k := ListObject(items)];
      assert forall j :: Starved(index.rows, index.clients, dict, j) ==>
          Starved(index.rows, index.clients, old(dict), j);
    }

    /** The client blocks; for BRPOPLPUSH with a target. */
    method Block(c: ClientId, keys: seq<Key>, target: Option<Key>, head: bool)
      requires Valid() && c !in index.clients && forall k :: k in keys ==> k !in dict
      modifies index, index.repr
      ensures Valid() && fresh(index.repr - old(index.repr))
      ensures Waited(old(index.clients), index.clients, c, Waiter(ForList, target, head, map[]), KeySet(keys))
      ensures Joined(old(index.rows), index.rows, c, KeySet(keys))
    {
      hide Pending, Index.Linked, Separate, Paired, Covered, NoEmptyLists, Joined;
      index.BlockForKeys(c, ForList, keys, target, head);
      BlockKeepsCovered(old(index.rows), index.rows, old(index.clients), index.clients, c, keys, dict, readySet);
    }
  }
}