/** What a failover does to the cluster: the winner owns exactly what its master owned, and who
    hears of it hands these slots over; the old master and its other replicas, left without
    slots, follow the winner. Outdated claims are answered and corrected. */
module ClusterFailover {
  import opened ClusterModel
  import opened ClusterNet
  import opened Common

  // -------------------------------------------------------------------------
  // The winner
  // -------------------------------------------------------------------------

  /** `r` is the view `n` after this server has replaced its master. */
  ghost predicate Replaced(n: Node, r: Node)
    requires n.WellFormed() && !n.IsMaster(n.me)
  {
    var m := n.CurrentMaster();
    && r.me == n.me && r.peers.Keys == n.peers.Keys && r.peers[n.me].master && r.peers[n.me].slaveof.None?
    && (forall p :: p in n.peers && p != n.me ==> r.peers[p] == n.peers[p])
    && r.slots.Keys == n.slots.Keys
    && (forall j :: j in n.slots ==> r.slots[j] == if n.slots[j] == m then n.me else n.slots[j])
  }

  /** The winner of an election becomes a master, takes every slot of its master and no other,
      and carries the epoch of the election. */
  lemma WinnerReplaces(n: Node, t: Timing)
    requires n.WellFormed() && ElectionMove(n, t).Won?
    ensures !n.IsMaster(n.me) && Replaced(n, SlaveFailover(n, t))
    ensures var r := SlaveFailover(n, t);
            r.ConfigEpoch(n.me) == Max(n.ConfigEpoch(n.me), n.authEpoch) && r.currentEpoch == n.currentEpoch
  {
  }

  /** So does CLUSTER FAILOVER TAKEOVER, under an epoch that nobody it knows exceeds. */
  lemma TakeoverReplaces(n: Node)
    requires n.WellFormed() && Allowed(n, Takeover)
    ensures Replaced(n, Apply(n, Takeover))
    ensures var r := Apply(n, Takeover);
            && r.ConfigEpoch(n.me) > 0 && r.currentEpoch >= n.currentEpoch
            && (EpochsBounded(n) ==> forall p :: p in r.peers ==> r.ConfigEpoch(p) <= r.ConfigEpoch(n.me))
  {
    hide Node.Bitmap;
    BumpIsGreatest(n);
    TakesSlots(Bump(n));
  }

  lemma BumpIsGreatest(n: Node)
    requires n.WellFormed()
    ensures var r := Bump(n);
            && r.ConfigEpoch(n.me) > 0 && r.slots == n.slots && r.me == n.me && r.peers.Keys == n.peers.Keys
            && r.currentEpoch >= n.currentEpoch && r.peers[n.me] == n.peers[n.me].(configEpoch := r.ConfigEpoch(n.me))
            && (forall p :: p in n.peers && p != n.me ==> r.peers[p] == n.peers[p])
            && (EpochsBounded(n) ==> forall p :: p in r.peers ==> r.ConfigEpoch(p) <= r.ConfigEpoch(n.me))
  {
  }

  lemma TakesSlots(n: Node)
    requires n.WellFormed() && !n.IsMaster(n.me)
    ensures Replaced(n, ReplaceMaster(n))
  {
  }

  // -------------------------------------------------------------------------
  // Who hears of it
  // -------------------------------------------------------------------------

  /** Slot `j` is handed over to `p`, who claims it under `epoch`. */
  ghost predicate HandsOver(n: Node, p: NodeId, epoch: nat, claimed: set<Slot>, j: Slot)
    requires n.WellFormed()
  {
    j in claimed && j !in n.importing && (j in n.slots ==> n.slots[j] == p || n.ConfigEpoch(n.slots[j]) < epoch)
  }

  /** The claim of `p` was heard: which slots changed hands, and whether the server follows. A
      master that becomes a replica imports nothing any more. */
  ghost predicate Heard(n: Node, p: NodeId, epoch: nat, claimed: set<Slot>, r: Node)
    requires n.WellFormed()
  {
    var m := n.CurrentMaster();
    && r.me == n.me && r.peers.Keys == n.peers.Keys
    && (forall j :: r.Owner(j) == if HandsOver(n, p, epoch, claimed, j) then Some(p) else n.Owner(j))
    && (if n.Bitmap(m) != {} && r.Bitmap(m) == {}
        then
          && !r.peers[n.me].master && r.peers[n.me].slaveof == Some(p)
          && r.importing == if n.peers[n.me].master then map[] else n.importing
        else
          && r.peers[n.me].master == n.peers[n.me].master && r.peers[n.me].slaveof == n.peers[n.me].slaveof
          && r.importing == n.importing)
  }

  /** clusterUpdateSlotsConfigWith: the server follows the sender if and only if its master (or
      it itself) had slots and has none left. */
  lemma UpdateIsHeard(n: Node, p: NodeId, epoch: nat, claimed: set<Slot>)
    requires n.WellFormed() && p in n.peers && p != n.me
    ensures Heard(n, p, epoch, claimed, UpdateSlots(n, p, epoch, claimed))
  {
    hide HandsOver;
    var m, taken := n.CurrentMaster(), Taken(n, p, epoch, claimed);
    var n', r := Rebind(n, p, taken), UpdateSlots(n, p, epoch, claimed);
    assert r.slots == n'.slots;
    forall j ensures r.Owner(j) == if HandsOver(n, p, epoch, claimed, j) then Some(p) else n.Owner(j) {
      OneSlot(n, p, epoch, claimed, j);
    }
    assert n'.Bitmap(m) == r.Bitmap(m);
    FollowsIfEmptied(n, p, taken, epoch, claimed);
  }

  lemma OneSlot(n: Node, p: NodeId, epoch: nat, claimed: set<Slot>, j: Slot)
    requires n.WellFormed()
    ensures Rebind(n, p, Taken(n, p, epoch, claimed)).Owner(j)
         == if HandsOver(n, p, epoch, claimed, j) then Some(p) else n.Owner(j)
  {
  }

  lemma FollowsIfEmptied(n: Node, p: NodeId, taken: set<Slot>, epoch: nat, claimed: set<Slot>)
    requires n.WellFormed() && taken == Taken(n, p, epoch, claimed)
    ensures var m := n.CurrentMaster();
            Follows(n, p, taken) <==> n.Bitmap(m) != {} && Rebind(n, p, taken).Bitmap(m) == {}
  {
    hide Taken;
    var m := n.CurrentMaster();
    var r := Rebind(n, p, taken);
    if Follows(n, p, taken) {
      var j :| j in taken && n.Owner(j) == Some(m);
      assert j in n.Bitmap(m);
    }
    if n.Bitmap(m) != {} && r.Bitmap(m) == {} {
      var j :| j in n.Bitmap(m);
      assert j !in r.Bitmap(m);
      assert j in taken && n.Owner(j) == Some(m);
    }
  }

  /** The views agree on slots, on this server's role and on all epochs except perhaps that of `p`. */
  ghost predicate AlikeBut(n: Node, r: Node, p: NodeId) {
    && r.me == n.me && r.slots == n.slots && r.importing == n.importing && r.peers.Keys == n.peers.Keys
    && (n.me in n.peers ==>
          r.peers[n.me].master == n.peers[n.me].master && r.peers[n.me].slaveof == n.peers[n.me].slaveof)
    && (forall q :: q in n.peers && q != p ==> r.peers[q].configEpoch == n.peers[q].configEpoch)
  }

  lemma HeardFrom(n: Node, n': Node, p: NodeId, epoch: nat, claimed: set<Slot>, r: Node)
    requires n.WellFormed() && n'.WellFormed() && AlikeBut(n, n', p) && Heard(n', p, epoch, claimed, r)
    ensures Heard(n, p, epoch, claimed, r)
  {
    assert forall j :: HandsOver(n, p, epoch, claimed, j) <==> HandsOver(n', p, epoch, claimed, j);
    assert forall q :: n.Bitmap(q) == n'.Bitmap(q);
  }

  lemma HeardThen(n: Node, p: NodeId, epoch: nat, claimed: set<Slot>, r: Node, r': Node)
    requires n.WellFormed() && Heard(n, p, epoch, claimed, r) && AlikeBut(r, r', n.me)
    ensures Heard(n, p, epoch, claimed, r')
  {
    hide HandsOver;
    assert forall q :: r.Bitmap(q) == r'.Bitmap(q);
  }

  /** A claim that is already known changes nothing. */
  lemma HeardAlready(n: Node, p: NodeId, epoch: nat, claimed: set<Slot>)
    requires n.WellFormed() && n.Bitmap(p) == claimed
    ensures Heard(n, p, epoch, claimed, n)
  {
    forall j | HandsOver(n, p, epoch, claimed, j) ensures n.Owner(j) == Some(p) { assert j in n.Bitmap(p); }
  }

  lemma MasterSeen(n: Node, h: Header)
    requires n.WellFormed() && h.sender in n.peers && h.sender != n.me && h.slaveof.None?
    ensures var r := SeeRole(SeeEpochs(n, h), h);
            && AlikeBut(n, r, h.sender) && r.IsMaster(h.sender)
            && r.ConfigEpoch(h.sender) == Max(n.ConfigEpoch(h.sender), h.configEpoch)
  {
  }

  lemma CollisionSeen(n: Node, h: Header)
    requires n.WellFormed() && h.sender in n.peers && h.sender != n.me
    ensures var r := SeeCollision(n, h); AlikeBut(n, r, n.me) && r.peers[h.sender] == n.peers[h.sender]
  {
  }

  /** A PING, PONG or MEET of a master: exactly the slots that it claims under a greater epoch
      than their owners have, and that are not being imported here, are handed over to it. */
  lemma PingIsHeard(n: Node, h: Header, w: bool)
    requires n.WellFormed() && h.sender in n.peers && h.sender != n.me && h.slaveof.None?
    ensures var r := ProcessPing(n, h, w).node;
            && Heard(n, h.sender, h.configEpoch, h.slots, r) && r.IsMaster(h.sender)
            && r.ConfigEpoch(h.sender) == Max(n.ConfigEpoch(h.sender), h.configEpoch)
  {
    hide SeeEpochs, SeeRole, SeeCollision, UpdateSlots, OutdatedReply, Node.WellFormed, AlikeBut, Heard, Node.Bitmap;
    var n2 := SeeRole(SeeEpochs(n, h), h);
    MasterSeen(n, h);
    var n3 := SeeSlots(n2, h);
    if DirtySlots(n2, h) {
      UpdateIsHeard(n2, h.sender, h.configEpoch, h.slots);
      SenderStays(n2, h.sender, h.configEpoch, h.slots);
    } else {
      HeardAlready(n2, h.sender, h.configEpoch, h.slots);
    }
    CollisionSeen(n3, h);
    HeardThen(n2, h.sender, h.configEpoch, h.slots, n3, SeeCollision(n3, h));
    HeardFrom(n, n2, h.sender, h.configEpoch, h.slots, SeeCollision(n3, h));
  }

  lemma SenderStays(n: Node, p: NodeId, epoch: nat, claimed: set<Slot>)
    requires n.WellFormed() && p in n.peers && p != n.me
    ensures var r := UpdateSlots(n, p, epoch, claimed); r.me == n.me && r.peers[p] == n.peers[p]
  {
    hide Follows, Taken;
  }

  /** A PING, PONG or MEET of a replica: if it was taken for a master its slots become unassigned;
      otherwise the table stays. Whose replica it is is noted if that node is known. */
  lemma ReplicaIsSeen(n: Node, h: Header, w: bool)
    requires n.WellFormed() && h.sender in n.peers && h.sender != n.me && h.slaveof.Some?
    ensures var r := ProcessPing(n, h, w).node;
            && r.me == n.me && r.peers.Keys == n.peers.Keys && r.importing == n.importing
            && (forall p :: p in n.peers && p != h.sender ==> r.peers[p] == n.peers[p])
            && !r.IsMaster(h.sender) && r.ConfigEpoch(h.sender) == Max(n.ConfigEpoch(h.sender), h.configEpoch)
            && r.peers[h.sender].slaveof
               == (if h.slaveof.value in n.peers then h.slaveof else n.peers[h.sender].slaveof)
            && (forall j ::
                  r.Owner(j) == if n.IsMaster(h.sender) && n.Owner(j) == Some(h.sender) then None else n.Owner(j))
  {
    hide OutdatedReply, DirtySlots, Node.WellFormed;
    var n1 := SeeEpochs(n, h);
    var n2 := SeeRole(n1, h);
    assert SeeSlots(n2, h) == n2 && SeeCollision(n2, h) == n2;
  }

  /** The view once `p` is known to be a master with `epoch`. */
  ghost function Promote(n: Node, p: NodeId, epoch: nat): (r: Node)
    requires n.WellFormed() && p in n.peers
    ensures r.WellFormed()
  {
    var n2 := SetNodeAsMaster(n, p);
    n2.(peers := n2.peers[p := n2.peers[p].(configEpoch := epoch)])
  }

  lemma Promoted(n: Node, p: NodeId, epoch: nat)
    requires n.WellFormed() && p in n.peers
    ensures var r := Promote(n, p, epoch);
            && r.me == n.me && r.slots == n.slots && r.peers.Keys == n.peers.Keys
            && r.IsMaster(p) && r.ConfigEpoch(p) == epoch && (p != n.me ==> AlikeBut(n, r, p))
  {
    hide Node.WellFormed;
  }

  lemma PromotedIsHeard(n: Node, p: NodeId, epoch: nat, claimed: set<Slot>)
    requires n.WellFormed() && p in n.peers && p != n.me
    ensures var r := UpdateSlots(Promote(n, p, epoch), p, epoch, claimed);
            r.peers.Keys == n.peers.Keys && Heard(n, p, epoch, claimed, r) && r.IsMaster(p) && r.ConfigEpoch(p) == epoch
  {
    hide UpdateSlots, Heard, AlikeBut, Promote, Node.WellFormed;
    var n' := Promote(n, p, epoch);
    Promoted(n, p, epoch);
    UpdateIsHeard(n', p, epoch, claimed);
    SenderStays(n', p, epoch, claimed);
    HeardFrom(n, n', p, epoch, claimed, UpdateSlots(n', p, epoch, claimed));
  }

  /** An UPDATE about a node whose epoch is greater than the one known here: the node becomes a
      master with that epoch, and its claim is heard. Any other UPDATE only shows the epochs of
      its sender. */
  lemma UpdateMessageIsHeard(n: Node, h: Header, about: NodeId, epoch: nat, claimed: set<Slot>)
    requires n.WellFormed() && h.sender in n.peers && h.sender != n.me
    ensures var seen, r := SeeEpochs(n, h), ProcessUpdate(n, h, about, epoch, claimed).node;
            if about !in n.peers || seen.ConfigEpoch(about) >= epoch then r == seen
            else
              && about in r.peers && r.ConfigEpoch(about) == epoch && r.IsMaster(about)
              && (if about == n.me then r.slots == n.slots else Heard(seen, about, epoch, claimed, r))
  {
    hide SeeEpochs, UpdateSlots, Heard, AlikeBut, SetNodeAsMaster, Node.WellFormed;
    var seen := SeeEpochs(n, h);
    if about in n.peers && seen.ConfigEpoch(about) < epoch {
      SeenSlots(n, h);
      Promoted(seen, about, epoch);
      if about == n.me {
        AboutMyself(Promote(seen, about, epoch), epoch, claimed);
      } else {
        PromotedIsHeard(seen, about, epoch, claimed);
      }
    }
  }

  lemma SeenSlots(n: Node, h: Header)
    requires h.sender in n.peers
    ensures SeeEpochs(n, h).slots == n.slots
  {
  }

  lemma AboutMyself(n: Node, epoch: nat, claimed: set<Slot>)
    requires n.WellFormed()
    ensures UpdateSlots(n, n.me, epoch, claimed) == n
  {
  }

  // -------------------------------------------------------------------------
  // The network
  // -------------------------------------------------------------------------

  /** What the winner of an election tells the others. */
  ghost function News(n: Node, t: Timing): Header
    requires n.WellFormed()
  {
    BuildHeader(SlaveFailover(n, t), false)
  }

  lemma NewsIs(n: Node, t: Timing)
    requires n.WellFormed() && ElectionMove(n, t).Won?
    ensures var m, h := n.CurrentMaster(), News(n, t);
            && h.sender == n.me && h.slaveof.None? && h.configEpoch == Max(n.ConfigEpoch(n.me), n.authEpoch)
            && h.slots == n.Bitmap(m) + n.Bitmap(n.me)
  {
    hide SlaveFailover, ElectionMove;
    WinnerReplaces(n, t);
    var r := SlaveFailover(n, t);
    assert r.Bitmap(n.me) == n.Bitmap(n.CurrentMaster()) + n.Bitmap(n.me);
  }

  /** The old master `m`, or a server that replicates it, knows nothing newer about the slots that
      the winner claims, and none of them is being imported. */
  ghost predicate Unaware(n: Node, m: NodeId, h: Header)
    requires n.WellFormed()
  {
    && n.CurrentMaster() == m && m in n.peers && n.ConfigEpoch(m) < h.configEpoch
    && n.Bitmap(m) != {} && n.Bitmap(m) <= h.slots && h.slots !! n.importing.Keys
  }

  lemma AllHandedOver(n: Node, m: NodeId, h: Header, r: Node)
    requires n.WellFormed() && m != h.sender && Unaware(n, m, h) && Heard(n, h.sender, h.configEpoch, h.slots, r)
    ensures r.Bitmap(m) == {} && n.Bitmap(m) <= r.Bitmap(h.sender)
    ensures !r.peers[n.me].master && r.peers[n.me].slaveof == Some(h.sender)
  {
    forall j: Slot ensures j !in r.Bitmap(m) && (j in n.Bitmap(m) ==> j in r.Bitmap(h.sender)) {
      if n.Owner(j) == Some(m) {
        assert j in n.Bitmap(m) && HandsOver(n, h.sender, h.configEpoch, h.slots, j);
        assert r.Owner(j) == Some(h.sender);
      } else {
        assert r.Owner(j) == Some(h.sender) || r.Owner(j) == n.Owner(j);
      }
    }
  }

  /** Server `v` after the header `h` has arrived. */
  ghost function Told(s: Net, v: NodeId, h: Header, w: bool, timeOk: bool): Node
    requires Sound(s) && v in s.nodes && Packet(v, Ping(h, w)) in s.flight
  {
    Next(s, Deliver(Packet(v, Ping(h, w)), timeOk)).nodes[v]
  }

  lemma ToldIs(s: Net, v: NodeId, h: Header, w: bool, timeOk: bool)
    requires Sound(s) && v in s.nodes && Packet(v, Ping(h, w)) in s.flight && h.sender in s.nodes[v].peers
    ensures h.sender != v && Told(s, v, h, w, timeOk) == ProcessPing(s.nodes[v], h, w).node
  {
    hide ProcessPing, Posted, Node.WellFormed;
    var p := Packet(v, Ping(h, w));
    assert p.msg.h.sender != p.to;
  }

  /** In the network: `c` wins in state `s`. In any state `s'` in which what it tells arrives at
      `v`, slots change hands as they should, and if `v` is the old master or one of its
      replicas, and unaware, then nothing is left to the old master and `v` follows `c`. */
  lemma WinnerIsFollowed(s: Net, c: NodeId, t: Timing, h: Header, s': Net, v: NodeId, w: bool, timeOk: bool)
    requires Sound(s) && c in s.nodes && ElectionMove(s.nodes[c], t).Won? && h == News(s.nodes[c], t)
    requires Sound(s') && v in s'.nodes && c in s'.nodes[v].peers && Packet(v, Ping(h, w)) in s'.flight
    ensures var r, m := Told(s', v, h, w, timeOk), s.nodes[c].CurrentMaster();
            && Heard(s'.nodes[v], c, h.configEpoch, h.slots, r) && r.IsMaster(c)
            && (m != c && Unaware(s'.nodes[v], m, h) ==>
                  && r.Bitmap(m) == {} && s'.nodes[v].Bitmap(m) <= r.Bitmap(c)
                  && !r.IsMaster(v) && r.peers[v].slaveof == Some(c))
  {
    hide ProcessPing, News, Told, Heard, Unaware, Node.Bitmap, ElectionMove;
    var n, u := s.nodes[c], s'.nodes[v];
    NewsIs(n, t);
    ToldIs(s', v, h, w, timeOk);
    PingIsHeard(u, h, w);
    if n.CurrentMaster() != c && Unaware(u, n.CurrentMaster(), h) {
      AllHandedOver(u, n.CurrentMaster(), h, Told(s', v, h, w, timeOk));
    }
  }

  // -------------------------------------------------------------------------
  // Outdated claims
  // -------------------------------------------------------------------------

  /** A claim that differs from the table and of which some slot is served under a greater epoch
      is answered with one UPDATE, about the owner of the first such slot. */
  lemma OutdatedIsAnswered(n: Node, dirty: bool, h: Header)
    requires n.WellFormed()
    ensures var u := OutdatedReply(n, dirty, h);
            if !dirty || forall j: Slot :: !Outdated(n, h, j) then u == []
            else
              && |u| == 1 && u[0].Update? && u[0].about in n.peers && u[0].about != h.sender
              && u[0].epoch == n.ConfigEpoch(u[0].about) > h.configEpoch && u[0].claimed == n.Bitmap(u[0].about)
              && exists j: Slot :: Outdated(n, h, j) && n.slots[j] == u[0].about
                                   && (forall k: Slot :: k < j ==> !Outdated(n, h, k))
  {
    hide FirstOutdated, BuildHeader;
    if dirty {
      FirstOutdatedIsFirst(n, h, 0);
      var j := FirstOutdated(n, h, 0);
      if j.Some? { assert Outdated(n, h, j.value); }
    }
  }

  /** A packet of a known node is answered with an UPDATE if and only if a slot that it claims is
      served here under a greater epoch and its claim is not what the table has for it; a replica
      claims the slots of its master. */
  lemma PingIsAnswered(n: Node, h: Header)
    requires n.WellFormed() && h.sender in n.peers && h.sender != n.me
    ensures var n2 := SeeRole(SeeEpochs(n, h), h);
            var n3, p := SeeSlots(n2, h), n2.peers[h.sender];
            var served := if p.master then n2.Bitmap(h.sender)
                          else if p.slaveof.Some? then n2.Bitmap(p.slaveof.value) else h.slots;
            (exists m :: m in ProcessPing(n, h, false).replies && m.Update?) <==>
            h.slots != served && exists j: Slot :: Outdated(n3, h, j)
  {
    hide SeeEpochs, SeeRole, SeeSlots, SeeCollision, OutdatedReply, Outdated, Node.Bitmap, BuildHeader;
    var n2 := SeeRole(SeeEpochs(n, h), h);
    var n3 := SeeSlots(n2, h);
    OutdatedIsAnswered(n3, DirtySlots(n2, h), h);
    var u := OutdatedReply(n3, DirtySlots(n2, h), h);
    assert ProcessPing(n, h, false).replies == [] + u && [] + u == u;
    if u != [] { assert u[0] in u; }
  }

  /** PING and MEET are answered with a PONG, which asks for nothing and carries the epochs as they
      are after the packet was seen; it tells the table as it was before. */
  lemma PingGetsPong(n: Node, h: Header, w: bool)
    requires n.WellFormed() && h.sender in n.peers && h.sender != n.me
    ensures var rs := ProcessPing(n, h, w).replies;
            && (forall m :: m in rs ==> m.h.sender == n.me && (m.Ping? || m.Update?))
            && ((exists m :: m in rs && m.Ping?) <==> w)
            && (forall m :: m in rs && m.Ping? ==>
                  && !m.wantsReply && m.h.currentEpoch == Max(n.currentEpoch, h.currentEpoch)
                  && m.h.slots == n.Bitmap(n.CurrentMaster()) && m.h.slaveof == n.peers[n.me].slaveof)
  {
    hide SeeEpochs, SeeRole, SeeSlots, SeeCollision, OutdatedReply, DirtySlots, Pong, Node.Bitmap, Node.WellFormed;
    var n1 := SeeEpochs(n, h);
    var n2 := SeeRole(n1, h);
    var u := OutdatedReply(SeeSlots(n2, h), DirtySlots(n2, h), h);
    PongIs(n, h);
    OnlyUpdates(SeeSlots(n2, h), DirtySlots(n2, h), h);
    var pong := if w then [Pong(n1)] else [];
    assert ProcessPing(n, h, w).replies == pong + u;
    if w { assert (pong + u)[0] == Pong(n1); }
  }

  lemma PongIs(n: Node, h: Header)
    requires n.WellFormed() && h.sender in n.peers && h.sender != n.me
    ensures var m := Pong(SeeEpochs(n, h));
            && m.Ping? && !m.wantsReply && m.h.sender == n.me && m.h.currentEpoch == Max(n.currentEpoch, h.currentEpoch)
            && m.h.slots == n.Bitmap(n.CurrentMaster()) && m.h.slaveof == n.peers[n.me].slaveof
  {
    var n1 := SeeEpochs(n, h);
    assert n1.Bitmap(n1.CurrentMaster()) == n.Bitmap(n.CurrentMaster());
  }

  lemma OnlyUpdates(n: Node, dirty: bool, h: Header)
    requires n.WellFormed()
    ensures forall m :: m in OutdatedReply(n, dirty, h) ==> m.Update? && m.h.sender == n.me
  {
    hide FirstOutdated;
  }

  /** The master that made the outdated claim gives the slot up when the answer arrives, unless it
      imports it or has heard of a still greater epoch. */
  lemma OutdatedIsCorrected(n: Node, h: Header, j: Slot, u: Node, g: Header)
    requires n.WellFormed() && Outdated(n, h, j) && n.slots[j] != u.me
    requires u.WellFormed() && g.sender in u.peers && g.sender != u.me && n.slots[j] in u.peers
    requires j in u.slots ==> SeeEpochs(u, g).ConfigEpoch(u.slots[j]) < n.ConfigEpoch(n.slots[j])
    requires SeeEpochs(u, g).ConfigEpoch(n.slots[j]) < n.ConfigEpoch(n.slots[j]) && j !in u.importing
    ensures var p := n.slots[j];
            ProcessUpdate(u, g, p, n.ConfigEpoch(p), n.Bitmap(p)).node.Owner(j) == Some(p)
  {
    hide ProcessUpdate;
    var p := n.slots[j];
    UpdateMessageIsHeard(u, g, p, n.ConfigEpoch(p), n.Bitmap(p));
    assert HandsOver(SeeEpochs(u, g), p, n.ConfigEpoch(p), n.Bitmap(p), j);
  }
}
