/** The slot table of cluster.c as it is kept in memory: a table of pointers to nodes, and in
    every node a bitmap of its slots with their number. Every operation keeps the two in step
    and does to the server's view what ClusterModel says. */
module ClusterState {
  import opened ClusterBitmap
  import opened ClusterModel
  import opened Common

  /** The part of a set of slots that a loop has passed. */
  ghost function UpTo(s: set<Slot>, j: nat): set<Slot> {
    set k | k in s && k < j
  }

  lemma UpToNext(s: set<Slot>, j: Slot)
    ensures UpTo(s, j + 1) == UpTo(s, j) + if j in s then {j} else {}
    ensures |UpTo(s, j + 1)| == |UpTo(s, j)| + if j in s then 1 else 0
  {
    assert UpTo(s, j + 1) == UpTo(s, j) + if j in s then {j} else {};
  }

  lemma UpToEnds(s: set<Slot>)
    ensures UpTo(s, 0) == {} && UpTo(s, SLOTS) == s
  {
  }

  /** The slots that table `t` gives to `p`. */
  ghost function Given(t: map<Slot, NodeId>, p: NodeId): set<Slot> {
    set j | j in t && t[j] == p
  }

  /** Whether a slot is taken depends on its own entry only. */
  lemma TakenLocal(n: Node, n': Node, sender: NodeId, epoch: nat, claimed: set<Slot>, j: Slot)
    requires n.WellFormed() && n'.WellFormed() && n'.peers == n.peers && n'.importing == n.importing
    requires n'.Owner(j) == n.Owner(j)
    ensures j in Taken(n, sender, epoch, claimed) <==> j in Taken(n', sender, epoch, claimed)
  {
  }

  /** Table `t` with the slots in `s` given to `p`. */
  ghost function Rebound(t: map<Slot, NodeId>, p: NodeId, s: set<Slot>): map<Slot, NodeId> {
    t + map j | j in s :: p
  }

  ghost predicate Loses(n: Node, s: set<Slot>, p: NodeId) {
    exists j :: j in s && n.Owner(j) == Some(p)
  }

  lemma TakeStarts(n: Node, taken: set<Slot>, p: NodeId, c: NodeId)
    ensures Rebound(n.slots, p, UpTo(taken, 0)) == n.slots && !Loses(n, UpTo(taken, 0), c)
  {
  }

  lemma ReboundNext(n: Node, p: NodeId, taken: set<Slot>, j: Slot)
    ensures var t := Rebound(n.slots, p, UpTo(taken, j));
            && (j in t <==> j in n.slots) && (j in t ==> t[j] == n.slots[j])
            && Rebound(n.slots, p, UpTo(taken, j + 1)) == if j in taken then (t - {j})[j := p] else t
  {
    UpToNext(taken, j);
    assert j !in UpTo(taken, j);
    hide UpTo;
  }

  lemma LosesNext(n: Node, taken: set<Slot>, j: Slot, c: NodeId)
    ensures Loses(n, UpTo(taken, j + 1), c) <==> Loses(n, UpTo(taken, j), c) || (j in taken && n.Owner(j) == Some(c))
  {
    UpToNext(taken, j);
    hide UpTo;
    if j in taken { assert j in UpTo(taken, j + 1); }
  }

  /** Whoever is not the new owner owns nothing it did not own before. */
  lemma NothingGained(n: Node, p: NodeId, s: set<Slot>, q: NodeId)
    ensures p != q ==> Rebind(n, p, s).Bitmap(q) <= n.Bitmap(q)
  {
  }

  lemma ReboundIs(n: Node, p: NodeId, s: set<Slot>)
    ensures Rebind(n, p, s).slots == Rebound(n.slots, p, s)
  {
  }

  lemma GivenAt(t: map<Slot, NodeId>, p: NodeId, j: Slot)
    ensures j in Given(t, p) <==> j in t && t[j] == p
  {
  }

  /** The table when the replicas of `p` follow nobody. */
  ghost function Orphaned(peers: map<NodeId, Peer>, p: NodeId): map<NodeId, Peer> {
    map q | q in peers :: if peers[q].slaveof == Some(p) then peers[q].(slaveof := None) else peers[q]
  }

  lemma RemoveIs(n: Node, p: NodeId)
    ensures var r := Remove(n, p);
            && r == n.(peers := Orphaned(n.peers, p) - {p}, slots := n.slots - Given(n.slots, p),
                       importing := map j | j in n.importing && n.importing[j] != p :: n.importing[j])
  {
    assert Remove(n, p).peers == Orphaned(n.peers, p) - {p};
    assert n.Bitmap(p) == Given(n.slots, p);
  }

  lemma RebindOne(n: Node, p: NodeId, j: Slot)
    ensures Rebind(n, p, {j}) == n.(slots := (n.slots - {j})[j := p])
  {
  }

  /** Map `m` without what a loop has passed of `s`. */
  ghost function Left<T>(m: map<Slot, T>, s: set<Slot>, j: nat): map<Slot, T> {
    m - UpTo(s, j)
  }

  lemma LeftNext<T>(m: map<Slot, T>, s: set<Slot>, j: Slot)
    ensures Left(m, s, j + 1) == if j in s then Left(m, s, j) - {j} else Left(m, s, j)
    ensures j in Left(m, s, j) <==> j in m
    ensures j in m ==> Left(m, s, j)[j] == m[j]
  {
  }

  lemma LeftEnds<T>(m: map<Slot, T>, s: set<Slot>)
    ensures Left(m, s, 0) == m && Left(m, s, SLOTS) == m - s
  {
  }

  class ClusterNode {
    const name: NodeId
    var configEpoch: nat
    var master: bool
    var slaveof: ClusterNode?
    var failed: bool
    var bitmap: Bitmap
    var numslots: int

    constructor (name: NodeId, configEpoch: nat, master: bool)
      ensures this.name == name && this.configEpoch == configEpoch && this.master == master
      ensures slaveof == null && !failed && SlotsOf(bitmap) == {} && numslots == 0
    {
      this.name, this.configEpoch, this.master := name, configEpoch, master;
      slaveof, failed, bitmap, numslots := null, false, Zero(), 0;
      ZeroIsEmpty();
    }

    /** clusterNodeSetSlotBit */
    method SetSlotBit(j: Slot) returns (was: bool)
      modifies this`bitmap, this`numslots
      ensures was == (j in SlotsOf(old(bitmap))) && SlotsOf(bitmap) == SlotsOf(old(bitmap)) + {j}
      ensures numslots == old(numslots) + if was then 0 else 1
    {
      hide BitOf;
      SetBitAdds(bitmap, j);
      was := TestBit(bitmap, j);
      bitmap := SetBit(bitmap, j);
      if !was { numslots := numslots + 1; }
    }

    /** clusterNodeClearSlotBit */
    method ClearSlotBit(j: Slot) returns (was: bool)
      modifies this`bitmap, this`numslots
      ensures was == (j in SlotsOf(old(bitmap))) && SlotsOf(bitmap) == SlotsOf(old(bitmap)) - {j}
      ensures numslots == old(numslots) - if was then 1 else 0
    {
      hide BitOf;
      ClearBitRemoves(bitmap, j);
      was := TestBit(bitmap, j);
      bitmap := ClearBit(bitmap, j);
      if was { numslots := numslots - 1; }
    }

    /** clusterNodeGetSlotBit */
    method GetSlotBit(j: Slot) returns (on: bool)
      ensures on == (j in SlotsOf(bitmap))
    {
      hide BitOf;
      on := TestBit(bitmap, j);
    }
  }

  class ClusterState {
    const myself: ClusterNode
    var nodes: map<NodeId, ClusterNode>
    const slots: array<ClusterNode?>
    var importing: map<Slot, ClusterNode>
    var currentEpoch: nat
    var lastVoteEpoch: nat
    var authEpoch: nat
    var authCount: nat
    var authSent: bool
    var size: nat

    /** A pointer that leads to a node of the dictionary. */
    ghost predicate Known(p: ClusterNode?)
      reads this`nodes
    {
      p != null && p.name in nodes && nodes[p.name] == p
    }

    /** The dictionary and the replication pointers. */
    ghost predicate Linked()
      reads this`nodes, nodes.Values`slaveof, nodes.Values`master
    {
      && (forall k :: k in nodes ==> nodes[k].name == k)
      && (forall k :: k in nodes && nodes[k].slaveof != null ==> Known(nodes[k].slaveof))
      && (forall k :: k in nodes && nodes[k].master ==> nodes[k].slaveof == null)
      && Known(myself) && (myself.master || myself.slaveof != null)
    }

    /** slots[j] is n exactly when n's bit j is set, and numslots counts the bits. */
    ghost predicate Indexed()
      reads this`nodes, slots, nodes.Values`bitmap, nodes.Values`numslots
    {
      && slots.Length == SLOTS
      && (forall j: Slot :: slots[j] != null ==> Known(slots[j]) && j in SlotsOf(slots[j].bitmap))
      && (forall k, j :: k in nodes && j in SlotsOf(nodes[k].bitmap) ==> slots[j] == nodes[k])
      && (forall k :: k in nodes ==> nodes[k].numslots == |SlotsOf(nodes[k].bitmap)|)
    }

    ghost predicate Imports()
      reads this`nodes, this`importing
    {
      forall j :: j in importing ==> Known(importing[j])
    }

    ghost predicate Valid()
      reads this`nodes, this`importing, slots, nodes.Values
    {
      Linked() && Indexed() && Imports()
    }

    ghost function Owners(): map<Slot, NodeId>
      reads slots
    {
      map j: Slot | j < slots.Length && slots[j] != null :: slots[j].name
    }

    ghost function Peers(): map<NodeId, Peer>
      reads this`nodes, nodes.Values`configEpoch, nodes.Values`master, nodes.Values`slaveof, nodes.Values`failed
    {
      map k | k in nodes ::
        Peer(nodes[k].configEpoch, nodes[k].master,
             if nodes[k].slaveof == null then None else Some(nodes[k].slaveof.name), nodes[k].failed)
    }

    ghost function Sources(): map<Slot, NodeId>
      reads this`importing
    {
      map j | j in importing :: importing[j].name
    }

    /** This server's view as a value. */
    ghost function View(): Node
      reads this, slots
      reads nodes.Values`configEpoch, nodes.Values`master, nodes.Values`slaveof, nodes.Values`failed
    {
      Node(myself.name, currentEpoch, lastVoteEpoch, Peers(), Owners(), Sources(),
           authEpoch, authCount, authSent, size)
    }

    /** A server that has just started, alone and a master. */
    constructor (name: NodeId, epoch: nat)
      ensures Valid() && fresh(nodes.Values) && fresh(slots)
      ensures View() == Node(name, 0, 0, map[name := Peer(epoch, true, None, false)], map[], map[], 0, 0, false, 0)
    {
      myself := new ClusterNode(name, epoch, true);
      nodes := map[name := myself];
      slots := new ClusterNode?[SLOTS](_ => null);
      importing := map[];
      currentEpoch, lastVoteEpoch, authEpoch, authCount, authSent, size := 0, 0, 0, 0, false, 0;
      new;
      hide Valid, Peers, Owners, SlotsOf;
      Alone();
      NoSlots();
    }

    lemma Alone()
      requires nodes == map[myself.name := myself] && myself.master && myself.slaveof == null && importing == map[]
      requires SlotsOf(myself.bitmap) == {} && myself.numslots == 0 && slots.Length == SLOTS
      requires forall j :: 0 <= j < SLOTS ==> slots[j] == null
      ensures Valid()
      ensures Peers() == map[myself.name := Peer(myself.configEpoch, true, None, myself.failed)]
    {
    }

    lemma NoSlots()
      requires forall j :: 0 <= j < slots.Length ==> slots[j] == null
      ensures Owners() == map[]
    {
    }

    lemma ViewWellFormed()
      requires Valid()
      ensures View().WellFormed()
    {
    }

    /** A node's bitmap and counter say what the table says. */
    lemma BitsAgree(n: ClusterNode)
      requires Valid() && Known(n)
      ensures SlotsOf(n.bitmap) == Given(Owners(), n.name) && n.numslots == |SlotsOf(n.bitmap)|
    {
      forall j | j in Given(Owners(), n.name) ensures j in SlotsOf(n.bitmap) { assert slots[j] == n; }
      forall j | j in SlotsOf(n.bitmap) ensures j in Given(Owners(), n.name) { assert slots[j] == n; }
    }

    /** clusterAddSlot */
    method AddSlot(n: ClusterNode, j: Slot) returns (ok: bool)
      requires Valid() && Known(n)
      modifies slots, n`bitmap, n`numslots
      ensures Valid()
      ensures ok == (j !in old(Owners()))
      ensures Owners() == if ok then old(Owners())[j := n.name] else old(Owners())
    {
      hide Linked, Imports, Peers, View, SlotsOf;
      if slots[j] != null { return false; }
      var _ := n.SetSlotBit(j);
      slots[j] := n;
      return true;
    }

    /** clusterDelSlot: the assertion in the middle cannot fail. */
    method DelSlot(j: Slot) returns (ok: bool)
      requires Valid()
      modifies slots, nodes.Values`bitmap, nodes.Values`numslots
      ensures Valid()
      ensures ok == (j in old(Owners()))
      ensures Owners() == old(Owners()) - {j}
    {
      hide Linked, Imports, Peers, View, SlotsOf;
      var n := slots[j];
      if n == null { return false; }
      var was := n.ClearSlotBit(j);
      assert was;
      slots[j] := null;
      return true;
    }

    /** clusterDelNodeSlots */
    method DelNodeSlots(n: ClusterNode) returns (deleted: nat)
      requires Valid() && Known(n)
      modifies slots, nodes.Values`bitmap, nodes.Values`numslots
      ensures Valid()
      ensures Owners() == old(Owners()) - Given(old(Owners()), n.name)
      ensures deleted == |Given(old(Owners()), n.name)|
    {
      hide Valid, Owners, Left, SlotsOf;
      ghost var mine := Given(Owners(), n.name);
      deleted := 0;
      UpToEnds(mine);
      LeftEnds(Owners(), mine);
      for j := 0 to SLOTS
        invariant Valid()
        invariant Owners() == Left(old(Owners()), mine, j)
        invariant deleted == |UpTo(mine, j)|
      {
        UpToNext(mine, j);
        LeftNext(old(Owners()), mine, j);
        BitsAgree(n);
        var on := n.GetSlotBit(j);
        if on {
          var _ := DelSlot(j);
          deleted := deleted + 1;
        }
      }
    }

    lemma SlotAgrees(j: Slot)
      requires Valid()
      ensures slots.Length == SLOTS
      ensures slots[j] == null <==> j !in Owners()
      ensures slots[j] != null ==> Known(slots[j]) && Owners()[j] == slots[j].name
    {
    }

    lemma Names(p: ClusterNode, q: ClusterNode)
      requires Known(p) && Known(q)
      ensures p == q <==> p.name == q.name
    {
    }

    method SetRole(n: ClusterNode, master: bool, slaveof: ClusterNode?)
      requires Linked() && Known(n) && (slaveof != null ==> Known(slaveof)) && (master <==> slaveof == null)
      modifies n`master, n`slaveof
      ensures Linked()
      ensures Peers() == old(Peers())[n.name := old(Peers())[n.name].(master := master,
                                                slaveof := if slaveof == null then None else Some(slaveof.name))]
    {
      hide Linked, SlotsOf;
      NamesAgree();
      n.master := master;
      n.slaveof := slaveof;
      StillLinked(n);
    }

    lemma NamesAgree()
      requires Linked()
      ensures forall k :: k in nodes ==> nodes[k].name == k
    {
    }

    twostate lemma StillLinked(n: ClusterNode)
      requires old(Linked()) && nodes == old(nodes) && Known(n)
      requires n.slaveof != null ==> Known(n.slaveof)
      requires n.master <==> n.slaveof == null
      requires forall k :: k in nodes && nodes[k] != n ==>
               nodes[k].master == old(nodes[k].master) && nodes[k].slaveof == old(nodes[k].slaveof)
      ensures Linked()
    {
    }

    /** clusterSetNodeAsMaster */
    method SetNodeAsMaster(n: ClusterNode)
      requires Valid() && Known(n)
      modifies n`master, n`slaveof
      ensures Valid()
      ensures View() == ClusterModel.SetNodeAsMaster(old(View()), n.name)
    {
      hide Linked, Indexed, Imports, Owners, SlotsOf;
      if n.master { return; }
      SetRole(n, true, null);
    }

    /** clusterSetMaster, with what it asserts on entry */
    method SetMaster(n: ClusterNode)
      requires Valid() && Known(n) && n != myself && myself.numslots == 0
      modifies this`importing, myself`master, myself`slaveof
      ensures Valid()
      ensures View() == ClusterModel.SetMaster(old(View()), n.name)
    {
      hide Linked, Indexed, Owners, SlotsOf;
      MyselfKnown();
      if myself.master { importing := map[]; }
      SetRole(myself, false, n);
    }

    lemma MyselfKnown()
      requires Valid()
      ensures Known(myself) && (myself.slaveof != null ==> Known(myself.slaveof))
      ensures myself.master || myself.slaveof != null
    {
    }

    /** The loop of clusterUpdateSlotsConfigWith: rebind what is claimed under a newer epoch,
        and report whether a slot of `curmaster` was among it. */
    method TakeSlots(sender: ClusterNode, epoch: nat, claimed: set<Slot>, curmaster: ClusterNode) returns (lost: bool)
      requires Valid() && View().WellFormed() && Known(sender) && Known(curmaster)
      modifies slots, nodes.Values`bitmap, nodes.Values`numslots
      ensures Valid()
      ensures Owners() == Rebound(old(Owners()), sender.name, Taken(old(View()), sender.name, epoch, claimed))
      ensures lost <==> Loses(old(View()), Taken(old(View()), sender.name, epoch, claimed), curmaster.name)
    {
      hide Valid, Owners, Peers, Node.WellFormed, Taken, UpTo, Rebound, Loses, SlotsOf;
      ghost var taken := Taken(View(), sender.name, epoch, claimed);
      TakeStarts(View(), taken, sender.name, curmaster.name);
      lost := false;
      for j := 0 to SLOTS
        invariant Valid()
        invariant Owners() == Rebound(old(Owners()), sender.name, UpTo(taken, j))
        invariant lost <==> Loses(old(View()), UpTo(taken, j), curmaster.name)
      {
        ReboundNext(old(View()), sender.name, taken, j);
        LosesNext(old(View()), taken, j, curmaster.name);
        var was := TakeSlot(old(View()), sender, epoch, claimed, curmaster, j);
        lost := lost || was;
      }
      UpToEnds(taken);
    }

    /** One slot of that loop; `before` is the view when the loop began. */
    method TakeSlot(ghost before: Node, sender: ClusterNode, epoch: nat, claimed: set<Slot>, curmaster: ClusterNode,
                    j: Slot)
      returns (lost: bool)
      requires Valid() && before.WellFormed() && Known(sender) && Known(curmaster)
      requires View().peers == before.peers && View().importing == before.importing
      requires View().Owner(j) == before.Owner(j)
      modifies slots, nodes.Values`bitmap, nodes.Values`numslots
      ensures Valid()
      ensures var taken := j in Taken(before, sender.name, epoch, claimed);
              && Owners() == (if taken then (old(Owners()) - {j})[j := sender.name] else old(Owners()))
              && (lost <==> taken && before.Owner(j) == Some(curmaster.name))
    {
      hide Valid, Owners, Peers, Node.WellFormed, Taken, SlotsOf;
      SlotAgrees(j);
      GuardAgrees(before, sender, epoch, claimed, j);
      lost := false;
      if j in claimed && slots[j] != sender && j !in importing && (slots[j] == null || slots[j].configEpoch < epoch) {
        lost := slots[j] == curmaster;
        if slots[j] != null { Names(slots[j], curmaster); }
        var _ := DelSlot(j);
        var _ := AddSlot(sender, j);
      }
    }

    /** The guards of the loop decide whether the slot is taken. */
    lemma GuardAgrees(before: Node, sender: ClusterNode, epoch: nat, claimed: set<Slot>, j: Slot)
      requires Valid() && Known(sender) && before.WellFormed()
      requires View().peers == before.peers && View().importing == before.importing
      requires View().Owner(j) == before.Owner(j)
      ensures slots.Length == SLOTS && (slots[j] != null ==> Known(slots[j]))
      ensures j in Taken(before, sender.name, epoch, claimed) <==>
                j in claimed && slots[j] != sender && j !in importing
                    && (slots[j] == null || slots[j].configEpoch < epoch)
    {
      ViewWellFormed();
      TakenLocal(View(), before, sender.name, epoch, claimed, j);
    }

    /** clusterUpdateSlotsConfigWith. If it ends in following the sender, the server must own
        nothing any more, which clusterSetMaster asserts; a master in this case does not. */
    method UpdateSlotsConfigWith(sender: ClusterNode, epoch: nat, claimed: set<Slot>)
      requires Valid() && View().WellFormed() && Known(sender)
      requires var taken := Taken(View(), sender.name, epoch, claimed);
               sender != myself && !myself.master && Follows(View(), sender.name, taken) ==>
                 Rebind(View(), sender.name, taken).Bitmap(myself.name) == {}
      modifies slots, nodes.Values`bitmap, nodes.Values`numslots, this`importing, myself`master, myself`slaveof
      ensures Valid()
      ensures View() == UpdateSlots(old(View()), sender.name, epoch, claimed)
    {
      hide Valid, Owners, Peers, Node.WellFormed, Taken, SlotsOf;
      MyselfKnown();
      ghost var before := View();
      assert before.CurrentMaster() == (if myself.master then myself else myself.slaveof).name by { MyRole(); }
      var curmaster := if myself.master then myself else myself.slaveof;
      Names(sender, myself);
      if sender == myself { return; }
      BitsAgree(myself);
      var lost := TakeSlots(sender, epoch, claimed, curmaster);
      ghost var taken := Taken(before, sender.name, epoch, claimed);
      assert View() == Rebind(before, sender.name, taken);
      BitsAgree(curmaster);
      BitsAgree(myself);
      assert View().Bitmap(curmaster.name) == SlotsOf(curmaster.bitmap);
      NothingGained(before, sender.name, taken, myself.name);
      if lost && curmaster.numslots == 0 {
        SetMaster(sender);
      }
    }

    lemma MyRole()
      requires Valid()
      ensures myself.name in Peers() && Peers()[myself.name].master == myself.master
      ensures myself.slaveof != null ==> Peers()[myself.name].slaveof == Some(myself.slaveof.name)
    {
    }

    /** clusterFailoverReplaceYourMaster */
    method ReplaceYourMaster()
      requires Valid() && View().WellFormed()
      modifies slots, nodes.Values`bitmap, nodes.Values`numslots, myself`master, myself`slaveof
      ensures Valid()
      ensures View() == ReplaceMaster(old(View()))
    {
      hide Valid, Owners, Peers, Node.WellFormed, UpTo, Rebound, SlotsOf;
      MyselfKnown();
      MyRole();
      var oldmaster := myself.slaveof;
      if myself.master || oldmaster == null { return; }
      ghost var before := View();
      ghost var theirs := before.Bitmap(oldmaster.name);
      SetNodeAsMaster(myself);
      TakeStarts(before, theirs, myself.name, myself.name);
      for j := 0 to SLOTS
        invariant Valid()
        invariant Owners() == Rebound(before.slots, myself.name, UpTo(theirs, j))
        invariant Peers() == ClusterModel.SetNodeAsMaster(before, myself.name).peers
      {
        ReboundNext(before, myself.name, theirs, j);
        BitsAgree(oldmaster);
        var on := oldmaster.GetSlotBit(j);
        if on {
          var _ := DelSlot(j);
          var _ := AddSlot(myself, j);
        }
      }
      UpToEnds(theirs);
      ReboundIs(ClusterModel.SetNodeAsMaster(before, myself.name), myself.name, theirs);
    }

    /** clusterGetMaxEpoch */
    method GetMaxEpoch() returns (max: nat)
      requires Valid()
      ensures IsMaxEpoch(View(), max)
    {
      hide Valid, SlotsOf;
      max := 0;
      var left := nodes.Keys;
      while left != {}
        invariant left <= nodes.Keys
        invariant forall k :: k in nodes && k !in left ==> nodes[k].configEpoch <= max
        invariant max == 0 || exists k :: k in nodes && nodes[k].configEpoch == max
        decreases |left|
      {
        var k :| k in left;
        left := left - {k};
        if nodes[k].configEpoch > max { max := nodes[k].configEpoch; }
      }
      if max < currentEpoch { max := currentEpoch; }
      ghost var v := View();
      assert forall k :: k in v.peers ==> v.ConfigEpoch(k) == nodes[k].configEpoch;
    }

    /** currentEpoch++ and take it */
    method TakeNewEpoch()
      requires Valid()
      modifies this`currentEpoch, myself`configEpoch
      ensures Valid()
      ensures View() == NewEpoch(old(View()))
    {
      hide Linked, Indexed, Imports, Owners, Peers, SlotsOf;
      NamesAgree();
      MyselfKnown();
      currentEpoch := currentEpoch + 1;
      myself.configEpoch := currentEpoch;
      MyEpochMoved();
    }

    twostate lemma MyEpochMoved()
      requires nodes == old(nodes) && Known(myself) && (forall k :: k in nodes ==> nodes[k].name == k)
      requires forall k :: k in nodes ==>
                 && nodes[k].master == old(nodes[k].master) && nodes[k].slaveof == old(nodes[k].slaveof)
                 && nodes[k].failed == old(nodes[k].failed)
                 && (nodes[k] != myself ==> nodes[k].configEpoch == old(nodes[k].configEpoch))
      ensures myself.name in old(Peers())
      ensures Peers() == old(Peers())[myself.name := old(Peers())[myself.name].(configEpoch := myself.configEpoch)]
    {
    }

    /** clusterBumpConfigEpochWithoutConsensus */
    method BumpConfigEpochWithoutConsensus() returns (ok: bool)
      requires Valid()
      modifies this`currentEpoch, myself`configEpoch
      ensures Valid()
      ensures myself.name in old(View()).peers && ok == NeedsBump(old(View())) && View() == Bump(old(View()))
    {
      hide Valid, SlotsOf;
      MyEpoch();
      var max := GetMaxEpoch();
      ok := myself.configEpoch == 0 || myself.configEpoch != max;
      if ok { TakeNewEpoch(); }
    }

    lemma MyEpoch()
      requires Valid()
      ensures myself.name in Peers() && Peers()[myself.name].configEpoch == myself.configEpoch
    {
    }

    /** clusterHandleConfigEpochCollision */
    method HandleConfigEpochCollision(sender: ClusterNode)
      requires Valid() && Known(sender)
      modifies this`currentEpoch, myself`configEpoch
      ensures Valid()
      ensures {sender.name, myself.name} <= old(View()).peers.Keys && View() == Collide(old(View()), sender.name)
    {
      hide Valid, SlotsOf;
      MyEpoch();
      MyRole();
      if sender.configEpoch != myself.configEpoch || !sender.master || !myself.master { return; }
      if sender.name <= myself.name { return; }
      TakeNewEpoch();
    }

    /** CLUSTER ADDSLOTS and DELSLOTS after their checks: no single change can fail. */
    method ChangeSlots(del: bool, s: set<Slot>)
      requires Valid() && (if del then s <= Owners().Keys else s !! Owners().Keys)
      modifies slots, nodes.Values`bitmap, nodes.Values`numslots, this`importing
      ensures Valid()
      ensures var v := if del then Release(old(View()), s) else Rebind(old(View()), myself.name, s);
              View() == v.(importing := old(View()).importing - s)
    {
      hide Valid, Owners, Peers, UpTo, Rebound, Left, SlotsOf;
      MyselfKnown();
      UpToEnds(s);
      LeftEnds(Owners(), s);
      LeftEnds(importing, s);
      TakeStarts(View(), s, myself.name, myself.name);
      for j := 0 to SLOTS
        invariant Valid()
        invariant Owners() == if del then Left(old(Owners()), s, j) else Rebound(old(Owners()), myself.name, UpTo(s, j))
        invariant importing == Left(old(importing), s, j)
      {
        LeftNext(old(Owners()), s, j);
        LeftNext(old(importing), s, j);
        ReboundNext(old(View()), myself.name, s, j);
        if j in s { ChangeSlot(del, j); }
      }
      ReboundIs(old(View()), myself.name, s);
    }

    method ChangeSlot(del: bool, j: Slot)
      requires Valid() && (del <==> j in Owners())
      modifies slots, nodes.Values`bitmap, nodes.Values`numslots, this`importing
      ensures Valid() && importing == old(importing) - {j}
      ensures Owners() == if del then old(Owners()) - {j} else old(Owners())[j := myself.name]
    {
      hide Valid, Owners, SlotsOf;
      MyselfKnown();
      DropImport(j);
      var ok;
      if del { ok := DelSlot(j); } else { ok := AddSlot(myself, j); }
      assert ok;
    }

    method DropImport(j: Slot)
      requires Valid()
      modifies this`importing
      ensures Valid() && importing == old(importing) - {j}
    {
      hide Linked, Indexed, SlotsOf;
      importing := importing - {j};
    }

    /** CLUSTER SETSLOT NODE */
    method SetSlotNode(j: Slot, n: ClusterNode)
      requires Valid() && Known(n)
      modifies slots, nodes.Values`bitmap, nodes.Values`numslots, this`importing, this`currentEpoch, myself`configEpoch
      ensures Valid()
      ensures myself.name in old(View()).peers && View() == SetSlot(old(View()), j, n.name)
    {
      hide Valid, Owners, Peers, Bump, Rebind, SlotsOf;
      MyselfKnown();
      MyEpoch();
      Names(n, myself);
      if n == myself && j in importing { CloseImport(j); }
      ghost var v := View();
      var _ := DelSlot(j);
      var _ := AddSlot(n, j);
      RebindOne(v, n.name, j);
    }

    method CloseImport(j: Slot)
      requires Valid()
      modifies this`importing, this`currentEpoch, myself`configEpoch
      ensures Valid()
      ensures var v := old(View()); myself.name in v.peers && View() == Bump(v).(importing := v.importing - {j})
    {
      hide Valid, Owners, Peers, NeedsBump, SlotsOf;
      var _ := BumpConfigEpochWithoutConsensus();
      DropImport(j);
    }

    /** clusterAddNode, after a handshake */
    method AddNode(name: NodeId, master: bool)
      requires Valid() && name !in nodes
      modifies this`nodes
      ensures Valid()
      ensures View() == old(View()).(peers := old(View()).peers[name := Peer(0, master, None, false)])
    {
      hide Linked, Indexed, Imports, Peers, Owners, SlotsOf;
      var n := new ClusterNode(name, 0, master);
      nodes := nodes[name := n];
      GrewIndex(n);
      GrewLinked(n);
      GrewPeers(n);
    }

    twostate lemma GrewIndex(new n: ClusterNode)
      requires old(Indexed()) && old(Imports()) && n.name !in old(nodes) && nodes == old(nodes)[n.name := n]
      requires importing == old(importing) && SlotsOf(n.bitmap) == {} && n.numslots == 0 && unchanged(slots)
      requires forall k :: k in old(nodes) ==>
                 nodes[k].bitmap == old(nodes[k].bitmap) && nodes[k].numslots == old(nodes[k].numslots)
      ensures Indexed() && Imports()
    {
      hide Linked, SlotsOf;
    }

    twostate predicate SameEntries()
      reads this`nodes, nodes.Values
    {
      forall k :: k in old(nodes) && k in nodes && old(nodes[k]) == nodes[k] ==>
        && nodes[k].configEpoch == old(nodes[k].configEpoch) && nodes[k].master == old(nodes[k].master)
        && nodes[k].slaveof == old(nodes[k].slaveof) && nodes[k].failed == old(nodes[k].failed)
    }

    twostate lemma GrewLinked(new n: ClusterNode)
      requires old(Linked()) && n.name !in old(nodes) && nodes == old(nodes)[n.name := n] && n.slaveof == null
      requires SameEntries()
      ensures Linked()
    {
    }

    twostate lemma GrewPeers(new n: ClusterNode)
      requires n.name !in old(nodes) && nodes == old(nodes)[n.name := n] && n.slaveof == null
      requires SameEntries()
      ensures Peers() == old(Peers())[n.name := Peer(n.configEpoch, n.master, None, n.failed)]
    {
      var p, q := Peers(), old(Peers())[n.name := Peer(n.configEpoch, n.master, None, n.failed)];
      assert p.Keys == q.Keys;
      forall k | k in p ensures p[k] == q[k] { if k != n.name { assert nodes[k] == old(nodes[k]); } }
    }

    /** clusterDelNode of a node that is neither this server nor its master: nothing points to
        it any more. */
    method DelNode(del: ClusterNode)
      requires Valid() && Known(del) && del != myself && myself.slaveof != del
      modifies this`nodes, this`importing, slots, nodes.Values`bitmap, nodes.Values`numslots, nodes.Values`slaveof
      ensures Valid() && !Known(del) && nodes == old(nodes) - {del.name}
      ensures View() == Remove(old(View()), del.name)
    {
      hide Valid, Owners, Peers, Sources, Orphaned, Remove, SlotsOf;
      ghost var before := View();
      ImportsKnown();
      ClearSlots(del);
      SourcesCleared(del);
      ClearReplicas(del);
      Unlink(del);
      RemoveIs(before, del.name);
    }

    lemma ImportsKnown()
      requires Valid()
      ensures forall j :: j in importing ==> Known(importing[j])
    {
    }

    twostate lemma SourcesCleared(del: ClusterNode)
      requires nodes == old(nodes) && Known(del) && (forall j :: j in old(importing) ==> Known(old(importing)[j]))
      requires importing == map j | j in old(importing) && old(importing)[j] != del :: old(importing)[j]
      ensures Sources() == map j | j in old(Sources()) && old(Sources())[j] != del.name :: old(Sources())[j]
    {
    }

    /** Step 1: slots and imports. */
    method ClearSlots(del: ClusterNode)
      requires Valid() && Known(del)
      modifies this`importing, slots, nodes.Values`bitmap, nodes.Values`numslots
      ensures Valid()
      ensures Owners() == old(Owners()) - Given(old(Owners()), del.name)
      ensures importing == map j | j in old(importing) && old(importing)[j] != del :: old(importing)[j]
    {
      hide Valid, Owners, Left, Given, SlotsOf;
      ghost var mine := Given(Owners(), del.name);
      ghost var theirs := set j | j in importing && importing[j] == del;
      LeftEnds(Owners(), mine);
      LeftEnds(importing, theirs);
      for j := 0 to SLOTS
        invariant Valid()
        invariant Owners() == Left(old(Owners()), mine, j)
        invariant importing == Left(old(importing), theirs, j)
      {
        LeftNext(old(Owners()), mine, j);
        LeftNext(old(importing), theirs, j);
        if j in importing && importing[j] == del { DropImport(j); }
        GivenAt(old(Owners()), del.name, j);
        ClearSlot(del, j);
      }
    }

    method ClearSlot(del: ClusterNode, j: Slot)
      requires Valid() && Known(del)
      modifies slots, nodes.Values`bitmap, nodes.Values`numslots
      ensures Valid()
      ensures Owners() == if j in old(Owners()) && old(Owners())[j] == del.name then old(Owners()) - {j}
              else old(Owners())
    {
      hide Valid, Owners, SlotsOf;
      SlotAgrees(j);
      if slots[j] != null { Names(slots[j], del); }
      if slots[j] == del { var _ := DelSlot(j); }
    }

    /** Step 2, in freeClusterNode: its replicas follow nobody. */
    method ClearReplicas(del: ClusterNode)
      requires Valid() && Known(del) && myself.slaveof != del
      modifies nodes.Values`slaveof
      ensures Valid()
      ensures Peers() == Orphaned(old(Peers()), del.name)
      ensures forall k :: k in nodes ==> nodes[k].slaveof != del
    {
      hide Linked, Indexed, Imports, Peers, Orphaned, SlotsOf;
      var left := set k | k in nodes && nodes[k].slaveof == del;
      NamesFit();
      while left != {}
        invariant left <= nodes.Keys
        invariant forall k :: k in left ==> nodes[k].slaveof == del == old(nodes[k].slaveof)
        invariant forall k :: k in nodes && k !in left ==>
                    nodes[k].slaveof == if old(nodes[k].slaveof) == del then null else old(nodes[k].slaveof)
        decreases |left|
      {
        var k :| k in left;
        left := left - {k};
        nodes[k].slaveof := null;
      }
      PeersOrphaned(del);
      LinkedOrphaned(del);
    }

    /** Different keys lead to different nodes. */
    lemma NamesFit()
      requires Linked()
      ensures forall k :: k in nodes ==> nodes[k].name == k
    {
    }

    twostate lemma LinkedOrphaned(del: ClusterNode)
      requires old(Linked()) && nodes == old(nodes) && Known(del) && old(myself.slaveof) != del
      requires forall k :: k in nodes ==>
                 && nodes[k].slaveof == (if old(nodes[k].slaveof) == del then null else old(nodes[k].slaveof))
                 && nodes[k].master == old(nodes[k].master)
      ensures Linked()
    {
    }

    twostate lemma PeersOrphaned(del: ClusterNode)
      requires old(Linked()) && nodes == old(nodes) && Known(del)
      requires forall k :: k in nodes ==>
                 && nodes[k].slaveof == (if old(nodes[k].slaveof) == del then null else old(nodes[k].slaveof))
                 && nodes[k].configEpoch == old(nodes[k].configEpoch) && nodes[k].master == old(nodes[k].master)
                 && nodes[k].failed == old(nodes[k].failed)
      ensures Peers() == Orphaned(old(Peers()), del.name)
    {
    }

    /** Step 3: out of the dictionary. */
    method Unlink(del: ClusterNode)
      requires Valid() && Known(del) && del != myself
      requires Given(Owners(), del.name) == {} && (forall j :: j in importing ==> importing[j] != del)
      requires forall k :: k in nodes ==> nodes[k].slaveof != del
      modifies this`nodes
      ensures Valid() && nodes == old(nodes) - {del.name} && Peers() == old(Peers()) - {del.name}
    {
      hide Linked, SlotsOf;
      BitsAgree(del);
      nodes := nodes - {del.name};
      Unlinked(del);
    }

    twostate lemma Unlinked(del: ClusterNode)
      requires old(Linked()) && del != myself && old(Known(del)) && nodes == old(nodes) - {del.name}
      requires forall k :: k in nodes ==>
                 nodes[k].slaveof == old(nodes[k].slaveof) != del && nodes[k].master == old(nodes[k].master)
      ensures Linked()
    {
    }
  }
}
