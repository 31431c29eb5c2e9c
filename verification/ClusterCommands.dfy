/** What the commands of the administrator do to a server's view: which of them undo each other,
    and that an import which is closed, or a node which is forgotten, leaves nothing behind. */
module ClusterCommands {
  import opened ClusterFailover
  import opened ClusterModel
  import opened ClusterNet
  import opened Common

  /** ADDSLOTS takes exactly the given slots, and DELSLOTS gives them back. Both end imports. */
  lemma AddedSlotsAreDeleted(n: Node, s: set<Slot>)
    requires n.WellFormed() && Allowed(n, AddSlots(s))
    ensures var r := Apply(n, AddSlots(s));
            && r.peers == n.peers && r.importing == n.importing - s
            && (forall j :: r.Owner(j) == if j in s then Some(n.me) else n.Owner(j))
            && Allowed(r, DelSlots(s)) && Apply(r, DelSlots(s)) == n.(importing := n.importing - s)
  {
    var r := Apply(n, AddSlots(s));
    assert r.slots - s == n.slots;
    assert n.importing - s - s == n.importing - s;
  }

  /** DELSLOTS of slots of whichever owners. */
  lemma DeletedSlots(n: Node, s: set<Slot>)
    requires n.WellFormed() && Allowed(n, DelSlots(s))
    ensures var r := Apply(n, DelSlots(s));
            && r.peers == n.peers && r.importing == n.importing - s && Allowed(r, AddSlots(s))
            && (forall j :: r.Owner(j) == if j in s then None else n.Owner(j))
  {
  }

  /** SETSLOT IMPORTING is noted and changes nothing else; SETSLOT STABLE undoes it. */
  lemma ImportIsUndone(n: Node, j: Slot, p: NodeId)
    requires n.WellFormed() && Allowed(n, SetImporting(j, p))
    ensures var r := Apply(n, SetImporting(j, p));
            && j in r.importing && r.importing[j] == p && Allowed(r, SetStable(j))
            && Apply(r, SetStable(j)) == n.(importing := n.importing - {j})
  {
    assert n.importing[j := p] - {j} == n.importing - {j};
  }

  /** Who imports a slot and then declares itself the owner has it, imports it no longer, and
      claims it under an epoch that nobody it knows exceeds. */
  lemma ImportIsClosed(n: Node, j: Slot)
    requires n.WellFormed() && Allowed(n, SetSlotNode(j, n.me)) && j in n.importing
    ensures var r := Apply(n, SetSlotNode(j, n.me));
            && r.importing == n.importing - {j} && r.peers.Keys == n.peers.Keys && r.IsMaster(n.me)
            && (forall k :: r.Owner(k) == if k == j then Some(n.me) else n.Owner(k))
            && (EpochsBounded(n) ==> forall p :: p in r.peers ==> r.ConfigEpoch(p) <= r.ConfigEpoch(n.me))
            && r.ConfigEpoch(n.me) > 0
  {
    hide Bump;
    BumpIsGreatest(n);
  }

  /** Any other SETSLOT NODE only moves the slot. */
  lemma SlotIsMoved(n: Node, j: Slot, p: NodeId)
    requires n.WellFormed() && Allowed(n, SetSlotNode(j, p)) && (p != n.me || j !in n.importing)
    ensures var r := Apply(n, SetSlotNode(j, p));
            && r == n.(slots := r.slots)
            && (forall k :: r.Owner(k) == if k == j then Some(p) else n.Owner(k))
  {
  }

  /** Nothing in the view refers to the node. */
  ghost predicate Unmentioned(n: Node, p: NodeId) {
    && p !in n.peers && (forall j :: j in n.slots ==> n.slots[j] != p)
    && (forall j :: j in n.importing ==> n.importing[j] != p)
    && (forall q :: q in n.peers ==> n.peers[q].slaveof != Some(p))
  }

  /** FORGET leaves nothing that refers to the node and touches nothing else; its slots become
      unassigned. */
  lemma ForgottenCompletely(n: Node, p: NodeId)
    requires n.WellFormed() && Allowed(n, Forget(p))
    ensures var r := Apply(n, Forget(p));
            && Unmentioned(r, p) && r.peers.Keys == n.peers.Keys - {p}
            && (forall q :: q in r.peers && n.peers[q].slaveof != Some(p) ==> r.peers[q] == n.peers[q])
            && (forall q :: q in r.peers ==> r.peers[q].(slaveof := None) == n.peers[q].(slaveof := None))
            && (forall j :: r.Owner(j) == if n.Owner(j) == Some(p) then None else n.Owner(j))
            && r.importing == map j | j in n.importing && n.importing[j] != p :: n.importing[j]
  {
  }

  /** Forgetting a node that was just met restores the view. */
  lemma MetAndForgotten(n: Node, p: NodeId, master: bool)
    requires n.WellFormed() && Allowed(n, Meet(p, master)) && Unmentioned(n, p)
    ensures var r := Apply(n, Meet(p, master));
            && r.peers[p] == Peer(0, master, None, false) && Allowed(r, Forget(p)) && Apply(r, Forget(p)) == n
  {
    var r := Apply(n, Meet(p, master));
    var b := Apply(r, Forget(p));
    assert b.peers == n.peers;
    assert r.Bitmap(p) == {};
    assert b.slots == n.slots;
    assert b.importing == n.importing;
  }

  /** REPLICATE makes the server a replica without slots; as a former master it imports nothing. */
  lemma Replicates(n: Node, p: NodeId)
    requires n.WellFormed() && Allowed(n, Replicate(p))
    ensures var r := Apply(n, Replicate(p));
            && !r.IsMaster(n.me) && r.peers[n.me].slaveof == Some(p) && r.CurrentMaster() == p
            && r.slots == n.slots && (n.IsMaster(n.me) ==> r.Bitmap(n.me) == {} && r.importing == map[])
            && (forall q :: q in n.peers && q != n.me ==> r.peers[q] == n.peers[q])
            && r.ConfigEpoch(n.me) == n.ConfigEpoch(n.me)
  {
    assert Apply(n, Replicate(p)).Bitmap(n.me) == n.Bitmap(n.me);
  }

  /** SET-CONFIG-EPOCH gives a lonely server its epoch, and only once. */
  lemma EpochIsSetOnce(n: Node, e: nat, e': nat)
    requires n.WellFormed() && Allowed(n, SetConfigEpoch(e)) && e > 0
    ensures var r := Apply(n, SetConfigEpoch(e));
            && r.ConfigEpoch(n.me) == e && r.currentEpoch >= e && r.currentEpoch >= n.currentEpoch
            && !Allowed(r, SetConfigEpoch(e'))
  {
  }

  /** The failure flag is what was last said. */
  lemma FailureIsFlagged(n: Node, p: NodeId, f: bool)
    requires n.WellFormed() && Allowed(n, MarkFailed(p, f))
    ensures var r := Apply(n, MarkFailed(p, f));
            && r.peers[p].failed == f && Apply(r, MarkFailed(p, n.peers[p].failed)) == n
  {
    var r := Apply(n, MarkFailed(p, f));
    assert Apply(r, MarkFailed(p, n.peers[p].failed)).peers == n.peers;
  }
}
