/** Clients that block for keys. Every blocked client keeps, for every key it waits for, a
    pointer to its node in that key's list of waiting clients, while the same lists are
    rotated and shrink as clients are served. */
module Blocked {
  import opened Adlist
  import opened Common

  datatype Key = Key(db: nat, name: string)
  type ClientId = nat
  type Node = ListNode<ClientId>

  datatype BlockType = ForList | ForZset | ForStream

  /** client->bpop: what a blocked client waits for. `keys` holds its bkinfo.listnode. */
  datatype Waiter = Waiter(btype: BlockType, target: Option<Key>, popHead: bool, keys: map<Key, Node>)

  type Rows = map<Key, seq<Node>>
  type Clients = map<ClientId, Waiter>

  /** Every pair of a client and a key it waits for owns a node of the key's list, and every
      node belongs to the pair of its client and its key. */
  ghost predicate Paired(rows: Rows, clients: Clients) {
    && (forall c, k :: c in clients && k in clients[c].keys ==>
          k in rows && clients[c].keys[k] in rows[k] && clients[c].keys[k].value == c)
    && (forall k, n :: k in rows && n in rows[k] ==>
          n.value in clients && k in clients[n.value].keys && clients[n.value].keys[k] == n)
  }

  /** No node is twice in a list or in two lists, and no list is empty. */
  ghost predicate Separate(rows: Rows) {
    && (forall k :: k in rows ==> rows[k] != [] && Distinct(rows[k]))
    && (forall j, k, n :: j in rows && k in rows && j != k && n in rows[j] ==> n !in rows[k])
  }

  /** The clients that wait for a key, in the order of being served. */
  ghost function Queue(rows: Rows, k: Key): seq<ClientId> {
    if k in rows then Values(rows[k]) else []
  }

  ghost function Without(s: seq<ClientId>, c: ClientId): seq<ClientId> {
    if s == [] then [] else Without(s[..|s| - 1], c) + if s[|s| - 1] == c then [] else [s[|s| - 1]]
  }

  // -------------------------------------------------------------------------
  // The index as a value
  // -------------------------------------------------------------------------

  function WithKey(clients: Clients, c: ClientId, k: Key, node: Node): Clients
    requires c in clients
  {
    clients[c := clients[c].(keys := clients[c].keys[k := node])]
  }

  function WithoutKey(clients: Clients, c: ClientId, k: Key): Clients
    requires c in clients
  {
    clients[c := clients[c].(keys := clients[c].keys - {k})]
  }

  ghost function Cut(row: seq<Node>, i: nat): seq<Node>
    requires i < |row|
  {
    row[..i] + row[i + 1..]
  }

  ghost function Rotated(row: seq<Node>): seq<Node>
    requires row != []
  {
    row[1..] + [row[0]]
  }

  ghost function Row(rows: Rows, k: Key): seq<Node> {
    if k in rows then rows[k] else []
  }

  lemma {:induction false} WithoutAbsent(s: seq<ClientId>, c: ClientId)
    requires c !in s
    ensures Without(s, c) == s
  {
    if s != [] {
      WithoutAbsent(s[..|s| - 1], c);
      assert s == s[..|s| - 1] + [s[|s| - 1]];
    }
  }

  lemma {:induction false} WithoutOne(s: seq<ClientId>, i: nat, c: ClientId)
    requires i < |s| && s[i] == c && forall j :: 0 <= j < |s| && j != i ==> s[j] != c
    ensures Without(s, c) == s[..i] + s[i + 1..]
  {
    var n := |s| - 1;
    if i == n {
      WithoutAbsent(s[..n], c);
    } else {
      WithoutOne(s[..n], i, c);
      assert s[..n][i + 1..] + [s[n]] == s[i + 1..];
    }
  }

  lemma ValuesOfCut(rows: Rows, clients: Clients, k: Key, i: nat)
    requires Paired(rows, clients) && Separate(rows) && k in rows && i < |rows[k]|
    ensures Values(Cut(rows[k], i)) == Without(Values(rows[k]), rows[k][i].value)
  {
    var s := Values(rows[k]);
    forall j | 0 <= j < |s| && j != i ensures s[j] != s[i] { OneNodeEach(rows, clients, k, i, j); }
    WithoutOne(s, i, s[i]);
    assert Values(Cut(rows[k], i)) == s[..i] + s[i + 1..];
  }

  /** Exactly the clients that wait for a key are in its queue. */
  lemma QueueMembers(rows: Rows, clients: Clients, k: Key, c: ClientId)
    requires Paired(rows, clients)
    ensures c in Queue(rows, k) <==> c in clients && k in clients[c].keys
  {
    if c in Queue(rows, k) {
      var i :| 0 <= i < |rows[k]| && rows[k][i].value == c;
      assert rows[k][i] in rows[k];
    }
    if c in clients && k in clients[c].keys {
      var i :| 0 <= i < |rows[k]| && rows[k][i] == clients[c].keys[k];
      assert Values(rows[k])[i] == c;
    }
  }

  /** From `r` to `r'` client `c` has joined the queues of the keys in `s`. */
  ghost predicate Joined(r: Rows, r': Rows, c: ClientId, s: set<Key>) {
    forall k :: Queue(r', k) == Queue(r, k) + if k in s then [c] else []
  }

  /** From `r` to `r'` client `c` has left the queues of the keys in `s`. */
  ghost predicate Departed(r: Rows, r': Rows, c: ClientId, s: set<Key>) {
    forall k :: Queue(r', k) == if k in s then Without(Queue(r, k), c) else Queue(r, k)
  }

  lemma JoinNone(r: Rows, c: ClientId)
    ensures Joined(r, r, c, {}) && Departed(r, r, c, {})
  {
  }

  lemma JoinMore(r: Rows, r': Rows, r'': Rows, c: ClientId, s: set<Key>, k: Key)
    requires Joined(r, r', c, s) && k !in s && Joined(r', r'', c, {k})
    ensures Joined(r, r'', c, s + {k})
  {
    hide Queue;
  }

  lemma DepartMore(r: Rows, r': Rows, r'': Rows, c: ClientId, s: set<Key>, k: Key)
    requires Departed(r, r', c, s) && k !in s && Departed(r', r'', c, {k})
    ensures Departed(r, r'', c, s + {k})
  {
    hide Queue;
  }

  lemma DepartAll(rows: Rows, clients: Clients, c: ClientId, r': Rows)
    requires Paired(rows, clients) && c in clients && Departed(rows, r', c, clients[c].keys.Keys)
    ensures forall k :: Queue(r', k) == Without(Queue(rows, k), c)
  {
    hide Queue;
    forall k ensures Queue(r', k) == Without(Queue(rows, k), c) {
      QueueMembers(rows, clients, k, c);
      if k !in clients[c].keys { WithoutAbsent(Queue(rows, k), c); }
    }
  }

  lemma AppendJoins(rows: Rows, k: Key, node: Node)
    ensures Joined(rows, rows[k := Row(rows, k) + [node]], node.value, {k})
  {
    assert Values(Row(rows, k) + [node]) == Values(Row(rows, k)) + [node.value];
  }

  lemma CutDeparts(rows: Rows, clients: Clients, k: Key, i: nat)
    requires Paired(rows, clients) && Separate(rows) && k in rows && i < |rows[k]|
    ensures var row := Cut(rows[k], i);
            Departed(rows, if row == [] then rows - {k} else rows[k := row], rows[k][i].value, {k})
  {
    hide Paired, Separate, Cut;
    ValuesOfCut(rows, clients, k, i);
  }

  function KeySet(keys: seq<Key>): set<Key> {
    set k | k in keys
  }

  lemma KeySetNext(keys: seq<Key>, i: nat)
    requires i < |keys|
    ensures KeySet(keys[..i + 1]) == KeySet(keys[..i]) + {keys[i]}
  {
    assert keys[..i + 1] == keys[..i] + [keys[i]];
  }

  /** The two tables differ in client `c` only, who waits for the keys in `s` now. */
  ghost predicate Only(clients: Clients, clients': Clients, c: ClientId, s: set<Key>) {
    c in clients' && clients'[c].keys.Keys == s && clients' == clients[c := clients'[c]]
  }

  lemma OnlyStep(clients: Clients, clients': Clients, c: ClientId, s: set<Key>, k: Key)
    requires Only(clients, clients', c, s) && k in s
    ensures c in clients' && k in clients'[c].keys && Only(clients, WithoutKey(clients', c, k), c, s - {k})
  {
  }

  lemma OnlyForget(clients: Clients, clients': Clients, c: ClientId, s: set<Key>)
    requires Only(clients, clients', c, s)
    ensures c in clients' && clients' - {c} == clients - {c} && (s == {} ==> clients'[c].keys == map[])
  {
  }

  lemma KeySetNone(keys: seq<Key>)
    ensures KeySet(keys[..0]) == {}
  {
  }

  /** Client `c` has been added as `w`, and waits for the keys in `s`. */
  ghost predicate Waited(clients: Clients, clients': Clients, c: ClientId, w: Waiter, s: set<Key>) {
    && c in clients' && clients' == clients[c := clients'[c]]
    && clients'[c] == w.(keys := clients'[c].keys) && clients'[c].keys.Keys == s
  }

  lemma WaitsStart(clients: Clients, c: ClientId, w: Waiter)
    requires w.keys == map[]
    ensures Waited(clients, clients[c := w], c, w, {})
  {
  }

  lemma NewPaired(rows: Rows, clients: Clients, c: ClientId, w: Waiter)
    requires Paired(rows, clients) && c !in clients && w.keys == map[]
    ensures Paired(rows, clients[c := w])
  {
  }

  lemma ForgetPaired(rows: Rows, clients: Clients, c: ClientId)
    requires Paired(rows, clients) && c in clients && clients[c].keys == map[]
    ensures Paired(rows, clients - {c})
  {
  }

  lemma AddPaired(rows: Rows, clients: Clients, c: ClientId, k: Key, node: Node)
    requires Paired(rows, clients) && Separate(rows) && c in clients && k !in clients[c].keys && node.value == c
    requires forall j :: j in rows ==> node !in rows[j]
    ensures var rows' := rows[k := Row(rows, k) + [node]];
            Paired(rows', WithKey(clients, c, k, node)) && Separate(rows')
  {
  }

  /** Within one row every client has one node. */
  lemma OneNodeEach(rows: Rows, clients: Clients, k: Key, i: nat, j: nat)
    requires Paired(rows, clients) && Separate(rows) && k in rows && i < |rows[k]| && j < |rows[k]| && i != j
    ensures rows[k][i].value != rows[k][j].value
  {
    assert rows[k][i] in rows[k] && rows[k][j] in rows[k];
    assert rows[k][i] != rows[k][j];
  }

  lemma CutMembers(row: seq<Node>, i: nat)
    requires Distinct(row) && i < |row|
    ensures Distinct(Cut(row, i)) && forall n :: n in Cut(row, i) <==> n in row && n != row[i]
  {
    forall n | n in row && n != row[i] ensures n in Cut(row, i) {
      var j :| 0 <= j < |row| && row[j] == n;
      if j < i { assert Cut(row, i)[j] == n; } else { assert Cut(row, i)[j - 1] == n; }
    }
  }

  ghost function RowsCut(rows: Rows, k: Key, i: nat): Rows
    requires k in rows && i < |rows[k]|
  {
    var row := Cut(rows[k], i);
    if row == [] then rows - {k} else rows[k := row]
  }

  lemma CutSeparate(rows: Rows, k: Key, i: nat)
    requires Separate(rows) && k in rows && i < |rows[k]|
    ensures Separate(RowsCut(rows, k, i))
  {
    CutMembers(rows[k], i);
    hide Cut, Distinct;
  }

  lemma CutPairs(rows: Rows, clients: Clients, c: ClientId, k: Key, i: nat)
    requires Paired(rows, clients) && Separate(rows) && k in rows && i < |rows[k]| && c in clients
    requires k in clients[c].keys
    requires rows[k][i] == clients[c].keys[k]
    ensures Paired(RowsCut(rows, k, i), WithoutKey(clients, c, k))
  {
    CutMembers(rows[k], i);
    hide Cut, Distinct, Separate;
  }

  lemma CutPaired(rows: Rows, clients: Clients, c: ClientId, k: Key, i: nat)
    requires Paired(rows, clients) && Separate(rows) && k in rows && i < |rows[k]| && c in clients
    requires k in clients[c].keys
    requires rows[k][i] == clients[c].keys[k]
    ensures var row := Cut(rows[k], i);
            var rows' := if row == [] then rows - {k} else rows[k := row];
            Paired(rows', WithoutKey(clients, c, k)) && Separate(rows')
  {
    hide Paired, Separate, Cut;
    CutSeparate(rows, k, i);
    CutPairs(rows, clients, c, k, i);
  }

  lemma RotatedMembers(row: seq<Node>)
    requires Distinct(row) && row != []
    ensures Rotated(row) != [] && Distinct(Rotated(row)) && forall n :: n in Rotated(row) <==> n in row
  {
    forall n ensures n in row <==> n in Rotated(row) {
      if n in row {
        var j :| 0 <= j < |row| && row[j] == n;
        if j > 0 { assert Rotated(row)[j - 1] == n; } else { assert Rotated(row)[|row| - 1] == n; }
      }
    }
  }

  /** A row with the same nodes in another order. */
  lemma ReorderedPaired(rows: Rows, clients: Clients, k: Key, row: seq<Node>)
    requires Paired(rows, clients) && Separate(rows) && k in rows && row != [] && Distinct(row)
    requires (forall n :: n in row ==> n in rows[k]) && forall n :: n in rows[k] ==> n in row
    ensures Paired(rows[k := row], clients) && Separate(rows[k := row])
  {
    hide Distinct;
    var rows' := rows[k := row];
    forall j, n | j in rows' && n in rows'[j]
      ensures n in rows[j] && n.value in clients && j in clients[n.value].keys && clients[n.value].keys[j] == n
    {
      assert n in rows[j];
    }
    forall c, j | c in clients && j in clients[c].keys
      ensures j in rows' && clients[c].keys[j] in rows'[j] && clients[c].keys[j].value == c
    {
      assert clients[c].keys[j] in rows[j];
    }
  }

  lemma RotatePaired(rows: Rows, clients: Clients, k: Key)
    requires Paired(rows, clients) && Separate(rows) && k in rows
    ensures var rows' := rows[k := Rotated(rows[k])]; Paired(rows', clients) && Separate(rows')
  {
    RotatedMembers(rows[k]);
    ReorderedPaired(rows, clients, k, Rotated(rows[k]));
  }

  lemma RowNotEmpty(rows: Rows, k: Key)
    requires Separate(rows) && k in rows
    ensures rows[k] != []
  {
    hide Distinct;
  }

  lemma IsRotated(row: seq<Node>, s: seq<Node>)
    requires row != [] && s == if |row| <= 1 then row else row[1..] + [row[0]]
    ensures s == Rotated(row)
  {
  }

  lemma RotatedQueues(rows: Rows, k: Key)
    requires k in rows && rows[k] != []
    ensures var q := Queue(rows, k);
            q != [] && forall j :: Queue(rows[k := Rotated(rows[k])], j) == if j == k then q[1..] + [q[0]]
                else Queue(rows, j)
  {
    var row := rows[k];
    assert Values(Rotated(row)) == Values(row)[1..] + [Values(row)[0]];
  }

  /** The lists that are left are the ones that were there. */
  ghost predicate Kept(before: map<Key, List<ClientId>>, after: map<Key, List<ClientId>>) {
    forall k :: k in after ==> k in before && after[k] == before[k]
  }

  type Lists = map<Key, List<ClientId>>

  /** Client `c` still waits for the keys `left` and has left the queues of its other keys. */
  ghost predicate Leaving(clients: Clients, clients': Clients, r: Rows, r': Rows, b: Lists, b': Lists, c: ClientId,
                          left: set<Key>)
  {
    && c in clients && left <= clients[c].keys.Keys && Only(clients, clients', c, left)
    && Departed(r, r', c, clients[c].keys.Keys - left) && Kept(b, b')
  }

  lemma LeavingStarts(clients: Clients, r: Rows, b: Lists, c: ClientId)
    requires c in clients
    ensures Leaving(clients, clients, r, r, b, b, c, clients[c].keys.Keys)
  {
    hide Departed;
    JoinNone(r, c);
    assert clients[c].keys.Keys - clients[c].keys.Keys == {};
  }

  lemma StillWaits(clients: Clients, clients': Clients, r: Rows, r': Rows, b: Lists, b': Lists, c: ClientId,
                   left: set<Key>, k: Key)
    requires Leaving(clients, clients', r, r', b, b', c, left) && k in left
    ensures c in clients' && k in clients'[c].keys
  {
    hide Departed;
  }

  lemma LeavingGoesOn(clients: Clients, clients': Clients, r: Rows, r': Rows, r'': Rows, b: Lists, b': Lists,
                      b'': Lists,
                      c: ClientId, left: set<Key>, k: Key)
    requires Leaving(clients, clients', r, r', b, b', c, left) && k in left
    requires c in clients' && k in clients'[c].keys && Departed(r', r'', c, {k}) && Kept(b', b'')
    ensures Leaving(clients, WithoutKey(clients', c, k), r, r'', b, b'', c, left - {k})
  {
    hide Departed, WithoutKey, Only;
    OnlyStep(clients, clients', c, left, k);
    DepartMore(r, r', r'', c, clients[c].keys.Keys - left, k);
    assert clients[c].keys.Keys - left + {k} == clients[c].keys.Keys - (left - {k});
  }

  lemma LeavingEnds(clients: Clients, clients': Clients, r: Rows, r': Rows, b: Lists, b': Lists, c: ClientId)
    requires Leaving(clients, clients', r, r', b, b', c, {})
    ensures Only(clients, clients', c, {}) && Departed(r, r', c, clients[c].keys.Keys) && Kept(b, b')
  {
    hide Departed;
    assert clients[c].keys.Keys - {} == clients[c].keys.Keys;
  }

  /** The index of blocked clients: client->bpop.keys on one side, db->blocking_keys on the
      other. */
  class Index {
    var blocking: map<Key, List<ClientId>>
    var clients: Clients
    ghost var rows: Rows
    ghost var repr: set<object>

    /** The lists in the dictionary hold the rows, and none of them is released. */
    ghost predicate Linked()
      reads this`blocking, this`rows, this`repr, repr
    {
      && this !in repr && rows.Keys == blocking.Keys
      && (forall k :: k in blocking ==> blocking[k] in repr)
      && (forall k, n :: k in rows && n in rows[k] ==> n in repr)
      && (forall k :: k in blocking ==> blocking[k].nodes == rows[k] && blocking[k].Valid())
      && (forall j, k :: j in blocking && k in blocking && j != k ==> blocking[j] != blocking[k])
    }

    ghost predicate Valid()
      reads this, repr
    {
      Linked() && Separate(rows) && Paired(rows, clients)
    }

    constructor ()
      ensures Valid() && fresh(repr) && blocking == map[] && clients == map[] && rows == map[]
    {
      blocking, clients, rows, repr := map[], map[], map[], {};
    }

    /** What happens to one list does not reach the others. */
    twostate lemma OthersStay(k: Key)
      requires old(Linked()) && Separate(old(rows)) && k in old(blocking) && blocking == old(blocking)
      requires forall o :: o in old(repr) && o != old(blocking[k]) && o !in old(rows[k]) ==> unchanged(o)
      ensures forall j :: j in blocking && j != k ==> blocking[j].nodes == old(rows)[j] && blocking[j].Valid()
    {
      forall j | j in blocking && j != k ensures blocking[j].nodes == old(rows)[j] && blocking[j].Valid() {
        assert unchanged(blocking[j]);
        var row := old(rows)[j];
        forall i | 0 <= i < |row| ensures unchanged(row[i]) { assert row[i] in row; }
      }
    }

    /** Linked again after a change of one row. */
    twostate lemma Relinked(k: Key)
      requires old(Linked()) && k in old(blocking) && blocking == old(blocking) && k in rows
      requires rows == old(rows)[k := rows[k]]
      requires old(repr) <= repr && this !in repr && forall n :: n in rows[k] ==> n in repr
      requires blocking[k].nodes == rows[k] && blocking[k].Valid()
      requires forall j :: j in blocking && j != k ==> blocking[j].nodes == old(rows)[j] && blocking[j].Valid()
      ensures Linked()
    {
      hide List.Valid;
    }

    /** A new list for a key nobody waits for. */
    method AppendFirst(k: Key, c: ClientId) returns (node: Node)
      requires Linked() && Separate(rows) && k !in blocking
      modifies this`blocking, this`rows, this`repr
      ensures Linked() && fresh(node) && node.value == c && fresh(repr - old(repr))
      ensures rows == old(rows)[k := [node]]
    {
      hide List.Valid, Linked;
      NotMine();
      var l := new List<ClientId>();
      node := l.AddNodeTail(c);
      assert l.nodes == [node];
      blocking := blocking[k := l];
      rows := rows[k := [node]];
      repr := repr + {l, node};
      StillValid();
      NewlyLinked(k, l);
    }

    lemma NotMine()
      requires Linked()
      ensures this !in repr
    {
    }

    twostate lemma StillValid()
      requires old(Linked()) && (forall o :: o in old(repr) ==> unchanged(o))
      ensures forall j :: j in old(blocking) ==> old(blocking)[j].nodes == old(rows)[j] && old(blocking)[j].Valid()
    {
      forall j | j in old(blocking) ensures old(blocking)[j].nodes == old(rows)[j] && old(blocking)[j].Valid() {
        assert unchanged(old(blocking)[j]);
        var row := old(rows)[j];
        forall i | 0 <= i < |row| ensures unchanged(row[i]) { assert row[i] in row; assert row[i] in old(repr); }
      }
    }

    twostate lemma NewlyLinked(k: Key, new l: List<ClientId>)
      requires old(Linked()) && k !in old(blocking) && blocking == old(blocking)[k := l]
      requires rows == old(rows)[k := l.nodes] && l.Valid() && l !in old(repr)
      requires this !in repr && old(repr) + {l} <= repr && forall n :: n in l.nodes ==> n in repr
      requires forall j :: j in old(blocking) ==> old(blocking)[j].nodes == old(rows)[j] && old(blocking)[j].Valid()
      ensures Linked()
    {
      hide List.Valid;
    }

    method AppendNext(k: Key, c: ClientId) returns (node: Node)
      requires Linked() && Separate(rows) && k in blocking
      modifies this`rows, this`repr, repr
      ensures Linked() && fresh(node) && node.value == c && fresh(repr - old(repr))
      ensures rows == old(rows)[k := old(rows)[k] + [node]]
    {
      hide List.Valid, Linked;
      LinkedAt(k);
      node := blocking[k].AddNodeTail(c);
      OthersStay(k);
      rows := rows[k := rows[k] + [node]];
      repr := repr + {node};
      Relinked(k);
    }

    lemma Footprint()
      requires Linked()
      ensures rows.Keys == blocking.Keys && this !in repr && forall k, n :: k in rows && n in rows[k] ==> n in repr
    {
    }

    lemma LinkedAt(k: Key)
      requires Linked() && k in blocking
      ensures k in rows && blocking[k].nodes == rows[k] && blocking[k].Valid() && this !in repr
      ensures blocking[k] in repr && forall n :: n in rows[k] ==> n in repr
    {
      hide List.Valid;
    }

    /** The node at the end of the list of key `k`, which is created if needed. */
    method Append(k: Key, c: ClientId) returns (node: Node)
      requires Linked() && Separate(rows)
      modifies this`blocking, this`rows, this`repr, repr
      ensures Linked() && node.value == c && fresh(repr - old(repr))
      ensures rows == old(rows)[k := Row(old(rows), k) + [node]]
      ensures forall j :: j in old(rows) ==> node !in old(rows)[j]
    {
      hide Linked, Separate;
      Footprint();
      if k in blocking {
        node := AppendNext(k, c);
      } else {
        node := AppendFirst(k, c);
        assert [] + [node] == [node];
      }
    }

    /** Client `c` starts to wait for key `k`. */
    method AddWaiter(c: ClientId, k: Key)
      requires Valid() && c in clients && k !in clients[c].keys
      modifies this, repr
      ensures Valid() && fresh(repr - old(repr))
      ensures c in clients && k in clients[c].keys && clients[c].keys[k].value == c
      ensures clients == WithKey(old(clients), c, k, clients[c].keys[k])
      ensures rows == old(rows)[k := Row(old(rows), k) + [clients[c].keys[k]]]
    {
      hide Linked, Paired, Separate, Row;
      Footprint();
      var node := Append(k, c);
      AddPaired(old(rows), clients, c, k, node);
      clients := WithKey(clients, c, k, node);
    }

    /** Take a node out of the list of key `k`; an empty list is released and forgotten. */
    method Drop(k: Key, node: Node, ghost i: nat)
      requires Linked() && Separate(rows) && k in rows && i < |rows[k]| && rows[k][i] == node
      modifies this`blocking, this`rows, repr
      ensures Linked()
      ensures rows == var row := Cut(old(rows)[k], i); if row == [] then old(rows) - {k} else old(rows)[k := row]
      ensures Kept(old(blocking), blocking)
    {
      hide Linked, List.Valid, Separate;
      Footprint();
      LinkedAt(k);
      var l := blocking[k];
      l.DelNode(node, i);
      OthersStay(k);
      if l.len == 0 {
        LenIs(l);
        l.Release();
        OthersStay(k);
        blocking := blocking - {k};
        rows := rows - {k};
        Unlinked(k);
      } else {
        LenIs(l);
        rows := rows[k := l.nodes];
        Relinked(k);
      }
    }

    lemma LenIs(l: List<ClientId>)
      requires l.Valid()
      ensures l.len == |l.nodes|
    {
    }

    twostate lemma Unlinked(k: Key)
      requires old(Linked()) && k in old(blocking) && blocking == old(blocking) - {k} && rows == old(rows) - {k}
      requires repr == old(repr)
      requires forall j :: j in blocking && j != k ==> blocking[j].nodes == old(rows)[j] && blocking[j].Valid()
      ensures Linked()
    {
      hide List.Valid;
    }

    /** Client `c` waits for key `k` no more. */
    method RemoveWaiter(c: ClientId, k: Key)
      requires Valid() && c in clients && k in clients[c].keys
      modifies this`blocking, this`rows, this`clients, repr
      ensures Valid()
      ensures clients == WithoutKey(old(clients), c, k)
      ensures Departed(old(rows), rows, c, {k}) && Kept(old(blocking), blocking)
    {
      hide Linked, Paired, Separate, Cut, Departed;
      Footprint();
      ghost var i := NodeIndex(c, k);
      CutDeparts(rows, clients, k, i);
      CutPaired(rows, clients, c, k, i);
      Drop(k, clients[c].keys[k], i);
      clients := WithoutKey(clients, c, k);
    }

    lemma NodeIndex(c: ClientId, k: Key) returns (i: nat)
      requires Valid() && c in clients && k in clients[c].keys
      ensures k in rows && i < |rows[k]| && rows[k][i] == clients[c].keys[k] && rows[k][i].value == c
    {
      i :| 0 <= i < |rows[k]| && rows[k][i] == clients[c].keys[k];
    }

    /** The loop of unblockClientWaitingData. */
    method LeaveAll(c: ClientId)
      requires Valid() && c in clients && this !in repr
      modifies this`blocking, this`rows, this`clients, repr
      ensures Valid() && this !in repr
      ensures Only(old(clients), clients, c, {})
      ensures Departed(old(rows), rows, c, old(clients)[c].keys.Keys) && Kept(old(blocking), blocking)
    {
      hide Valid, Leaving;
      var left := clients[c].keys.Keys;
      LeavingStarts(clients, rows, blocking, c);
      while left != {}
        invariant Valid() && repr == old(repr)
        invariant Leaving(old(clients), clients, old(rows), rows, old(blocking), blocking, c, left)
        decreases |left|
      {
        var k :| k in left;
        ghost var before, queues, lists := clients, rows, blocking;
        StillWaits(old(clients), clients, old(rows), rows, old(blocking), blocking, c, left, k);
        RemoveWaiter(c, k);
        LeavingGoesOn(old(clients), before, old(rows), queues, rows, old(blocking), lists, blocking, c, left, k);
        left := left - {k};
      }
      LeavingEnds(old(clients), clients, old(rows), rows, old(blocking), blocking, c);
    }

    /** unblockClientWaitingData, and client `c` is blocked no more. */
    method UnblockClient(c: ClientId)
      requires Valid() && c in clients
      modifies this`blocking, this`rows, this`clients, repr
      ensures Valid() && clients == old(clients) - {c} && Kept(old(blocking), blocking)
      ensures forall j :: Queue(rows, j) == Without(Queue(old(rows), j), c)
    {
      hide Linked, Paired, Separate, Queue, Departed, Only;
      Footprint();
      LeaveAll(c);
      DepartAll(old(rows), old(clients), c, rows);
      OnlyForget(old(clients), clients, c, {});
      ForgetPaired(rows, clients, c);
      clients := clients - {c};
    }

    /** blockForKeys: client `c` is queued last for every one of the keys, once. */
    method BlockForKeys(c: ClientId, btype: BlockType, keys: seq<Key>, target: Option<Key>, popHead: bool)
      requires Valid() && c !in clients
      modifies this, repr
      ensures Valid() && fresh(repr - old(repr))
      ensures Waited(old(clients), clients, c, Waiter(btype, target, popHead, map[]), KeySet(keys))
      ensures Joined(old(rows), rows, c, KeySet(keys))
    {
      hide Linked, Paired, Separate, Joined, Waited, KeySet;
      Footprint();
      JoinNone(rows, c);
      var w := Waiter(btype, target, popHead, map[]);
      NewPaired(rows, clients, c, w);
      WaitsStart(clients, c, w);
      clients := clients[c := w];
      KeySetNone(keys);
      for i := 0 to |keys|
        invariant Valid() && this !in repr && fresh(repr - old(repr))
        invariant Waited(old(clients), clients, c, w, KeySet(keys[..i]))
        invariant Joined(old(rows), rows, c, KeySet(keys[..i]))
      {
        KeySetNext(keys, i);
        EnqueueOnce(c, keys[i], old(rows), old(clients), w, KeySet(keys[..i]));
      }
      assert keys[..|keys|] == keys;
    }

    /** One turn of the loop: a key that was given before is ignored. */
    method EnqueueOnce(c: ClientId, k: Key, ghost rows0: Rows, ghost clients0: Clients, ghost w: Waiter,
                       ghost s: set<Key>)
      requires Valid() && this !in repr && Waited(clients0, clients, c, w, s) && Joined(rows0, rows, c, s)
      modifies this, repr
      ensures Valid() && this !in repr && fresh(repr - old(repr))
      ensures Waited(clients0, clients, c, w, s + {k}) && Joined(rows0, rows, c, s + {k})
    {
      hide Linked, Paired, Separate, Joined;
      if k !in clients[c].keys {
        Enqueue(c, k);
        JoinMore(rows0, old(rows), rows, c, s, k);
      } else {
        assert s + {k} == s;
      }
    }

    method Enqueue(c: ClientId, k: Key)
      requires Valid() && c in clients && k !in clients[c].keys && this !in repr
      modifies this, repr
      ensures Valid() && this !in repr && fresh(repr - old(repr))
      ensures c in clients && clients == old(clients)[c := clients[c]]
      ensures clients[c] == old(clients)[c].(keys := clients[c].keys)
      ensures clients[c].keys.Keys == old(clients)[c].keys.Keys + {k}
      ensures Joined(old(rows), rows, c, {k})
    {
      hide Linked, Paired, Separate, Joined;
      AddWaiter(c, k);
      Footprint();
      AppendJoins(old(rows), k, clients[c].keys[k]);
    }

    /** Move the first client that waits for key `k` to the end of its queue. */
    method Rotate(k: Key)
      requires Valid() && k in blocking
      modifies this`rows, repr
      ensures Valid() && Queue(old(rows), k) != []
      ensures var q := Queue(old(rows), k);
              forall j :: Queue(rows, j) == if j == k then q[1..] + [q[0]] else Queue(old(rows), j)
    {
      hide Linked, List.Valid, Paired, Separate, Queue, Rotated;
      Footprint();
      LinkedAt(k);
      RowNotEmpty(rows, k);
      RotatePaired(rows, clients, k);
      RotatedQueues(rows, k);
      blocking[k].RotateHeadToTail();
      OthersStay(k);
      IsRotated(rows[k], blocking[k].nodes);
      rows := rows[k := blocking[k].nodes];
      Relinked(k);
    }
  }
}