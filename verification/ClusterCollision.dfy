/** Colliding configEpochs. When two masters advertise the same epoch, the one with the
    smaller name moves on. With a fixed set of masters and no other source of new epochs the
    moving stops, and when every pair has heard from each other all epochs differ. */
module ClusterCollision {
  import opened ClusterModel
  import opened Common
  import opened ClusterNet

  /** The configEpoch a server has for itself. */
  ghost function Cfg(s: Net, m: NodeId): nat {
    if m in s.nodes && m in s.nodes[m].peers then s.nodes[m].peers[m].configEpoch else 0
  }

  /** Exactly the servers in `masters` regard themselves as masters. */
  ghost predicate Fixed(s: Net, masters: set<NodeId>) {
    && masters <= s.nodes.Keys
    && (forall m :: m in s.nodes ==> m in s.nodes[m].peers && (s.nodes[m].IsMaster(m) <==> m in masters))
  }

  /** Steps other than a collision that give a server a new configEpoch. */
  ghost predicate RaisesEpoch(step: Step) {
    step.Command? && (step.op.BumpEpoch? || step.op.Takeover? || step.op.SetConfigEpoch? || step.op.SetSlotNode?)
  }

  // -------------------------------------------------------------------------
  // Nobody overstates a master's epoch
  // -------------------------------------------------------------------------

  ghost predicate TrueTable(s: Net, masters: set<NodeId>, n: Node)
    requires Fixed(s, masters)
  {
    forall q :: q in masters && q in n.peers ==> n.peers[q].configEpoch <= Cfg(s, q)
  }

  ghost predicate TrueHeader(s: Net, masters: set<NodeId>, h: Header)
    requires Fixed(s, masters)
  {
    && h.sender in s.nodes && (h.slaveof.None? <==> h.sender in masters)
    && (h.sender in masters ==> h.configEpoch <= Cfg(s, h.sender))
  }

  ghost predicate TrueMsg(s: Net, masters: set<NodeId>, m: Msg)
    requires Fixed(s, masters)
  {
    TrueHeader(s, masters, m.h) && (m.Update? && m.about in masters ==> m.epoch <= Cfg(s, m.about))
  }

  ghost predicate Truthful(s: Net, masters: set<NodeId>) {
    && Fixed(s, masters)
    && (forall i :: i in s.nodes ==> TrueTable(s, masters, s.nodes[i]))
    && (forall p :: p in s.flight ==> TrueMsg(s, masters, p.msg))
  }

  /** A master gives up its epoch only for that of a master with a greater name. */
  ghost predicate Yields(n: Node, m: Msg) {
    && m.Ping? && m.h.slaveof.None? && m.h.sender > n.me
    && n.me in n.peers && m.h.configEpoch == n.peers[n.me].configEpoch
  }

  // -------------------------------------------------------------------------
  // One packet
  // -------------------------------------------------------------------------

  /** The table after a packet: an entry grows at most to what the packet says. */
  ghost predicate Learned(n: Node, m: Msg, r: Node) {
    && r.me == n.me && r.peers.Keys == n.peers.Keys
    && (forall q :: q in n.peers && q != n.me ==>
          || r.peers[q].configEpoch == n.peers[q].configEpoch
          || (q == m.h.sender && r.peers[q].configEpoch == m.h.configEpoch)
          || (m.Update? && q == m.about && r.peers[q].configEpoch == m.epoch))
  }

  /** What a reply says: the server's own header, and perhaps a table entry. */
  ghost predicate Faithful(n: Node, r: Msg) {
    && n.me in n.peers && r.h.sender == n.me
    && (r.h.slaveof.None? <==> n.peers[n.me].master)
    && (n.peers[n.me].master ==> r.h.configEpoch == n.peers[n.me].configEpoch)
    && (r.Update? ==> r.about in n.peers && r.epoch == n.peers[r.about].configEpoch)
  }

  lemma HeaderFaithful(n: Node, force: bool)
    requires n.WellFormed()
    ensures var h := BuildHeader(n, force);
            && h.sender == n.me && (h.slaveof.None? <==> n.peers[n.me].master)
            && (n.peers[n.me].master ==> h.configEpoch == n.peers[n.me].configEpoch)
  {
  }

  /** The views in which ProcessPing builds its replies. */
  ghost function PongView(n: Node, h: Header): Node
    requires n.WellFormed() && h.sender in n.peers && h.sender != n.me
  {
    SeeEpochs(n, h)
  }

  ghost function UpdateView(n: Node, h: Header): Node
    requires n.WellFormed() && h.sender in n.peers && h.sender != n.me
  {
    SeeSlots(SeeRole(SeeEpochs(n, h), h), h)
  }

  lemma ViewsLearn(n: Node, h: Header, w: bool)
    requires n.WellFormed() && h.sender in n.peers && h.sender != n.me
    ensures var n1, n3 := PongView(n, h), UpdateView(n, h);
            && n1.WellFormed() && n3.WellFormed()
            && Learned(n, Ping(h, w), n1) && Learned(n, Ping(h, w), n3)
            && n1.peers[n.me] == n.peers[n.me] && n3.peers[n.me].configEpoch == n.peers[n.me].configEpoch
            && n3.currentEpoch >= n.currentEpoch
  {
    hide SeeRole, SeeSlots, Node.WellFormed;
    PeersKnown(n);
  }

  lemma RoleSeen(n: Node, h: Header)
    requires h.sender in n.peers && h.sender != n.me
    ensures SeeRole(n, h).peers[h.sender].master <==> h.slaveof.None?
  {
    hide Node.WellFormed;
  }

  lemma SlotsKeepRoles(n: Node, h: Header)
    requires n.WellFormed() && h.sender in n.peers && h.sender != n.me
    ensures SeeSlots(n, h).peers[h.sender] == n.peers[h.sender]
  {
    hide Taken, DirtySlots, Node.WellFormed, Node.Bitmap;
    if n.IsMaster(h.sender) && DirtySlots(n, h) { PeersKnown(n); }
  }

  lemma SenderRole(n: Node, h: Header)
    requires n.WellFormed() && h.sender in n.peers && h.sender != n.me
    ensures UpdateView(n, h).peers[h.sender].master <==> h.slaveof.None?
  {
    hide Node.WellFormed, SeeEpochs, SeeRole, SeeSlots;
    RoleSeen(SeeEpochs(n, h), h);
    SlotsKeepRoles(SeeRole(SeeEpochs(n, h), h), h);
  }

  lemma PingReplies(n: Node, h: Header, w: bool)
    requires n.WellFormed() && h.sender in n.peers && h.sender != n.me
    ensures var o := ProcessPing(n, h, w);
            && o.node == SeeCollision(UpdateView(n, h), h)
            && forall r :: r in o.replies ==> Faithful(PongView(n, h), r) || Faithful(UpdateView(n, h), r)
  {
    hide SeeEpochs, SeeRole, SeeSlots, SeeCollision, DirtySlots, FirstOutdated, Node.WellFormed, BuildHeader;
    HeaderFaithful(PongView(n, h), false);
    HeaderFaithful(UpdateView(n, h), false);
    PeersKnown(PongView(n, h));
    PeersKnown(UpdateView(n, h));
  }

  lemma PeersKnown(n: Node)
    requires n.WellFormed()
    ensures n.me in n.peers && forall j :: j in n.slots ==> n.slots[j] in n.peers
  {
  }

  /** After a ping a server has its old epoch, or a new one above all it knew, and the latter
      only if the sender is a greater master that advertised the same epoch. */
  lemma CollisionOutcome(n: Node, h: Header)
    requires n.WellFormed() && h.sender in n.peers && h.sender != n.me
    ensures var n3 := UpdateView(n, h);
            var r := SeeCollision(n3, h);
            && r.me == n.me && r.peers.Keys == n3.peers.Keys
            && (forall q :: q in n3.peers && q != n.me ==> r.peers[q] == n3.peers[q])
            && r.peers[n.me].master == n3.peers[n.me].master
            && (r.peers[n.me].configEpoch == n.peers[n.me].configEpoch
                || (Yields(n, Ping(h, false)) && r.peers[n.me].configEpoch > n.currentEpoch))
  {
    hide UpdateView, Node.WellFormed;
    ViewsLearn(n, h, false);
    SenderRole(n, h);
  }

  /** The effect of any packet on the epochs a server holds. */
  ghost predicate Effect(n: Node, m: Msg, r: Node) {
    && Learned(n, m, r) && n.me in n.peers
    && (|| r.peers[n.me].configEpoch == n.peers[n.me].configEpoch
        || (Yields(n, m) && r.peers[n.me].configEpoch > n.currentEpoch)
        || (m.Update? && m.about == n.me && m.epoch > n.peers[n.me].configEpoch))
  }

  lemma PingEffect(n: Node, h: Header, w: bool)
    requires n.WellFormed() && h.sender in n.peers && h.sender != n.me
    ensures Effect(n, Ping(h, w), ProcessPing(n, h, w).node)
  {
    hide UpdateView, PongView, ProcessPing, SeeCollision, Node.WellFormed;
    PingReplies(n, h, w);
    ViewsLearn(n, h, w);
    CollisionOutcome(n, h);
    PeersKnown(n);
  }

  lemma UpdateEffect(n: Node, h: Header, about: NodeId, epoch: nat, claimed: set<Slot>)
    requires n.WellFormed() && h.sender in n.peers && h.sender != n.me
    ensures Effect(n, Update(h, about, epoch, claimed), ProcessUpdate(n, h, about, epoch, claimed).node)
  {
    hide UpdateSlots, SetNodeAsMaster, Node.WellFormed;
    PeersKnown(n);
  }

  lemma ProcessEffect(n: Node, m: Msg, timeOk: bool)
    requires n.WellFormed() && m.h.sender != n.me
    ensures Effect(n, m, Process(n, m, timeOk).node)
  {
    hide ProcessPing, ProcessUpdate, GrantsVote, CountsAck, Node.WellFormed;
    PeersKnown(n);
    if m.h.sender in n.peers {
      match m
      case Ping(h, w) => PingEffect(n, h, w);
      case Update(h, about, epoch, claimed) => UpdateEffect(n, h, about, epoch, claimed);
      case _ =>
    }
  }

  /** What a server says in answer to packet `m`, which takes it from `n` to `after`. */
  ghost predicate Candid(n: Node, m: Msg, after: Node, r: Msg) {
    && n.me in n.peers && n.me in after.peers && r.h.sender == n.me
    && ((r.h.slaveof.None? <==> n.peers[n.me].master) || (r.h.slaveof.None? <==> after.peers[n.me].master))
    && (r.h.slaveof.None? ==> r.h.configEpoch == n.peers[n.me].configEpoch)
    && (r.Update? ==> r.about in n.peers
                      && (|| r.epoch == n.peers[r.about].configEpoch
                          || (r.about == m.h.sender && r.epoch == m.h.configEpoch)))
  }

  lemma PingCandid(n: Node, h: Header, w: bool)
    requires n.WellFormed() && h.sender in n.peers && h.sender != n.me
    ensures var o := ProcessPing(n, h, w); forall r :: r in o.replies ==> Candid(n, Ping(h, w), o.node, r)
  {
    hide UpdateView, PongView, ProcessPing, SeeCollision, Node.WellFormed;
    PingReplies(n, h, w);
    ViewsLearn(n, h, w);
    CollisionOutcome(n, h);
    PeersKnown(n);
  }

  lemma AuthCandid(n: Node, h: Header, timeOk: bool)
    requires n.WellFormed() && h.sender in n.peers && h.sender != n.me
    ensures var o := ProcessAuthRequest(n, h, timeOk); forall r :: r in o.replies ==>
            Candid(n, AuthRequest(h), o.node, r)
  {
    hide GrantsVote, BuildHeader;
    var n1 := SeeEpochs(n, h);
    if GrantsVote(n1, h, timeOk) { HeaderFaithful(n1.(lastVoteEpoch := n1.currentEpoch), false); }
  }

  lemma ProcessCandid(n: Node, m: Msg, timeOk: bool)
    requires n.WellFormed() && m.h.sender != n.me
    ensures var o := Process(n, m, timeOk); forall r :: r in o.replies ==> Candid(n, m, o.node, r)
  {
    hide ProcessPing, ProcessAuthRequest, Candid, Node.WellFormed;
    if m.h.sender in n.peers {
      match m
      case Ping(h, w) => PingCandid(n, h, w);
      case AuthRequest(h) => AuthCandid(n, h, timeOk);
      case _ =>
    }
  }

  lemma CommandEffect(n: Node, op: Op)
    requires n.WellFormed() && Allowed(n, op) && !RaisesEpoch(Command(n.me, op))
    ensures var r := Apply(n, op);
            && n.me in n.peers && n.me in r.peers && r.peers[n.me].configEpoch == n.peers[n.me].configEpoch
            && (forall q :: q in r.peers ==>
                  r.peers[q].configEpoch == 0 || (q in n.peers && r.peers[q].configEpoch == n.peers[q].configEpoch))
  {
    hide ReplaceMaster, Bump, SetSlot, Node.Bitmap;
  }

  lemma FailoverEffect(n: Node, t: Timing)
    requires n.WellFormed()
    ensures var r := SlaveFailover(n, t);
            && n.me in n.peers && n.me in r.peers
            && (forall q :: q in r.peers && q != n.me ==>
                  q in n.peers && r.peers[q].configEpoch == n.peers[q].configEpoch)
            && (n.peers[n.me].master ==> r == n)
            && (ElectionMove(n, t).Opened? ==> !r.peers[n.me].master)
  {
    hide ReplaceMaster;
  }

  // -------------------------------------------------------------------------
  // One step of the network
  // -------------------------------------------------------------------------

  /** A packet in flight makes master `q` give up its epoch. */
  ghost predicate Beaten(s: Net, masters: set<NodeId>, q: NodeId, p: Packet)
    requires Fixed(s, masters) && q in masters
  {
    p in s.flight && p.msg.h.sender in masters && p.msg.h.sender > q && p.msg.h.configEpoch == Cfg(s, q)
  }

  /** How the epochs of the masters move in one step. */
  ghost predicate Moves(s: Net, masters: set<NodeId>, s': Net)
    requires Fixed(s, masters) && Fixed(s', masters)
  {
    && s'.nodes.Keys == s.nodes.Keys
    && (forall q :: q in masters ==>
          || Cfg(s', q) == Cfg(s, q)
          || (Cfg(s', q) > Cfg(s, q) && exists p :: Beaten(s, masters, q, p)))
    && (forall p :: p in s'.flight ==>
          || p in s.flight
          || (p.msg.h.sender in masters ==> p.msg.h.configEpoch == Cfg(s, p.msg.h.sender)))
  }

  lemma OwnBounded(n: Node)
    requires n.WellFormed() && EpochsBounded(n)
    ensures n.me in n.peers && n.peers[n.me].configEpoch <= n.currentEpoch
  {
  }

  /** A delivery changes the receiver only, and adds only what the receiver says. */
  ghost predicate Delivered(s: Net, p: Packet, s': Net) {
    && p in s.flight && p.to in s.nodes && s.nodes[p.to].me == p.to && p.msg.h.sender != p.to
    && p.to in s'.nodes && s'.nodes == s.nodes[p.to := s'.nodes[p.to]]
    && Effect(s.nodes[p.to], p.msg, s'.nodes[p.to])
    && s.nodes[p.to].peers[p.to].configEpoch <= s.nodes[p.to].currentEpoch
    && (forall r :: r in s'.flight ==> r in s.flight || Candid(s.nodes[p.to], p.msg, s'.nodes[p.to], r.msg))
  }

  lemma DeliveryDelivers(s: Net, p: Packet, timeOk: bool)
    requires EpochInvariant(s) && Enabled(s, Deliver(p, timeOk))
    ensures Delivered(s, p, Next(s, Deliver(p, timeOk)))
  {
    hide Process, Posted, EpochsBounded, MsgBounded, Node.WellFormed, Effect, Candid;
    var n := s.nodes[p.to];
    var o := Process(n, p.msg, timeOk);
    ProcessEffect(n, p.msg, timeOk);
    ProcessCandid(n, p.msg, timeOk);
    OwnBounded(n);
    forall r | r in Posted(p.msg.h.sender, o.replies) ensures r.msg in o.replies {
      PostedTo(p.msg.h.sender, o.replies, r);
    }
  }

  /** The receiver's own epoch after a delivery. */
  lemma DeliveredEpoch(s: Net, masters: set<NodeId>, p: Packet, s': Net)
    requires Truthful(s, masters) && Fixed(s', masters) && Delivered(s, p, s') && p.to in masters
    ensures Cfg(s', p.to) == Cfg(s, p.to) || (Cfg(s', p.to) > Cfg(s, p.to) && Beaten(s, masters, p.to, p))
  {
    hide Candid, Learned;
    assert TrueMsg(s, masters, p.msg);
  }

  lemma DeliveredMoves(s: Net, masters: set<NodeId>, p: Packet, s': Net)
    requires Truthful(s, masters) && Fixed(s', masters) && Delivered(s, p, s')
    ensures Moves(s, masters, s')
  {
    hide Effect, TrueTable, TrueMsg;
    if p.to in masters { DeliveredEpoch(s, masters, p, s'); }
  }

  lemma DeliveredTable(s: Net, masters: set<NodeId>, p: Packet, s': Net)
    requires Truthful(s, masters) && Fixed(s', masters) && Delivered(s, p, s') && Moves(s, masters, s')
    ensures TrueTable(s', masters, s'.nodes[p.to])
  {
    hide Candid, Yields, Beaten;
    assert TrueMsg(s, masters, p.msg) && TrueTable(s, masters, s.nodes[p.to]);
  }

  lemma DeliveredReply(s: Net, masters: set<NodeId>, p: Packet, s': Net, r: Msg)
    requires Truthful(s, masters) && Fixed(s', masters) && Delivered(s, p, s') && Moves(s, masters, s')
    requires Candid(s.nodes[p.to], p.msg, s'.nodes[p.to], r)
    ensures TrueMsg(s', masters, r)
  {
    hide Effect, Beaten;
    assert TrueMsg(s, masters, p.msg) && TrueTable(s, masters, s.nodes[p.to]);
  }

  /** When the epochs of the masters only grow, what was true of them stays true. */
  lemma StaysTrue(s: Net, masters: set<NodeId>, s': Net)
    requires Truthful(s, masters) && Fixed(s', masters) && Moves(s, masters, s')
    ensures forall i :: i in s.nodes ==> TrueTable(s', masters, s.nodes[i])
    ensures forall p :: p in s.flight ==> TrueMsg(s', masters, p.msg)
  {
    hide Beaten;
    forall p | p in s.flight ensures TrueMsg(s', masters, p.msg) { assert TrueMsg(s, masters, p.msg); }
    forall i | i in s.nodes ensures TrueTable(s', masters, s.nodes[i]) { assert TrueTable(s, masters, s.nodes[i]); }
  }

  lemma DeliveredTruthful(s: Net, masters: set<NodeId>, p: Packet, s': Net)
    requires Truthful(s, masters) && Fixed(s', masters) && Delivered(s, p, s')
    ensures Moves(s, masters, s') && Truthful(s', masters)
  {
    hide Fixed, Effect, Candid, TrueTable, TrueMsg, Moves;
    DeliveredMoves(s, masters, p, s');
    StaysTrue(s, masters, s');
    DeliveredTable(s, masters, p, s');
    forall r | r in s'.flight ensures TrueMsg(s', masters, r.msg) {
      if r !in s.flight { DeliveredReply(s, masters, p, s', r.msg); }
    }
    assert s'.nodes.Keys == s.nodes.Keys;
  }

  /** A step of one server that is not a delivery: table entries stay, or start at zero, and
      new packets carry the server's own header. */
  ghost predicate Acted(s: Net, at: NodeId, s': Net) {
    && at in s.nodes && at in s'.nodes && s'.nodes == s.nodes[at := s'.nodes[at]]
    && at in s.nodes[at].peers && at in s'.nodes[at].peers
    && (s.nodes[at].peers[at].master ==> s'.nodes[at].peers[at].configEpoch == s.nodes[at].peers[at].configEpoch)
    && (forall q :: q in s'.nodes[at].peers && q != at ==>
          || s'.nodes[at].peers[q].configEpoch == 0
          || (q in s.nodes[at].peers && s'.nodes[at].peers[q].configEpoch == s.nodes[at].peers[q].configEpoch))
    && (forall r :: r in s'.flight ==>
          || r in s.flight
          || (!r.msg.Update? && r.msg.h.sender == at && (r.msg.h.slaveof.None? <==> s'.nodes[at].peers[at].master)
              && (s.nodes[at].peers[at].master ==> r.msg.h.configEpoch == s.nodes[at].peers[at].configEpoch)))
  }

  lemma SendActs(s: Net, step: Step)
    requires EpochInvariant(s) && Enabled(s, step) && step.Send?
    ensures Acted(s, step.from, Next(s, step))
  {
    hide BuildHeader, Node.WellFormed, EpochsBounded, MsgBounded;
    HeaderFaithful(s.nodes[step.from], false);
    PeersKnown(s.nodes[step.from]);
  }

  lemma FailoverActs(s: Net, step: Step)
    requires EpochInvariant(s) && Enabled(s, step) && step.Failover?
    ensures Acted(s, step.at, Next(s, step))
  {
    hide BuildHeader, Node.WellFormed, EpochsBounded, MsgBounded, SlaveFailover, ElectionMove;
    FailoverEffect(s.nodes[step.at], step.timing);
    HeaderFaithful(SlaveFailover(s.nodes[step.at], step.timing), step.force);
  }

  lemma CommandActs(s: Net, step: Step)
    requires EpochInvariant(s) && Enabled(s, step) && step.Command? && !RaisesEpoch(step)
    ensures Acted(s, step.at, Next(s, step))
  {
    hide Node.WellFormed, EpochsBounded, MsgBounded, Apply, Allowed;
    CommandEffect(s.nodes[step.at], step.op);
  }

  lemma ActedTruthful(s: Net, masters: set<NodeId>, at: NodeId, s': Net)
    requires Truthful(s, masters) && Fixed(s', masters) && Acted(s, at, s')
    ensures Moves(s, masters, s') && Truthful(s', masters)
  {
    hide TrueTable, TrueMsg;
    assert Moves(s, masters, s');
    StaysTrue(s, masters, s');
    ActedTable(s, masters, at, s');
    forall r | r in s'.flight ensures TrueMsg(s', masters, r.msg) {
      if r !in s.flight { ActedPacket(s, masters, at, s', r); }
    }
  }

  lemma ActedTable(s: Net, masters: set<NodeId>, at: NodeId, s': Net)
    requires Truthful(s, masters) && Fixed(s', masters) && Acted(s, at, s') && Moves(s, masters, s')
    ensures TrueTable(s', masters, s'.nodes[at])
  {
    hide Beaten, TrueMsg;
    assert TrueTable(s, masters, s.nodes[at]);
  }

  lemma ActedPacket(s: Net, masters: set<NodeId>, at: NodeId, s': Net, r: Packet)
    requires Truthful(s, masters) && Fixed(s', masters) && Acted(s, at, s') && Moves(s, masters, s')
    requires r in s'.flight && r !in s.flight
    ensures TrueMsg(s', masters, r.msg)
  {
    hide Beaten, TrueTable;
  }

  /** One step with a fixed set of masters and no other source of epochs: nobody overstates a
      master's epoch, and an epoch changes only upwards, beaten by a greater master. */
  lemma StepMoves(s: Net, masters: set<NodeId>, step: Step)
    requires EpochInvariant(s) && Truthful(s, masters) && Enabled(s, step) && !RaisesEpoch(step)
    requires Fixed(Next(s, step), masters)
    ensures Moves(s, masters, Next(s, step)) && Truthful(Next(s, step), masters)
  {
    hide EpochsBounded, MsgBounded, Node.WellFormed, Fixed, Truthful, Acted, Delivered, Moves, Apply, Allowed,
        Process, SlaveFailover, ElectionMove, BuildHeader;
    match step
    case Send(from, _, _, _) => SendActs(s, step); ActedTruthful(s, masters, from, Next(s, step));
    case Deliver(p, timeOk) => DeliveryDelivers(s, p, timeOk); DeliveredTruthful(s, masters, p, Next(s, step));
    case Failover(at, _, _, _) => FailoverActs(s, step); ActedTruthful(s, masters, at, Next(s, step));
    case Command(at, _) => CommandActs(s, step); ActedTruthful(s, masters, at, Next(s, step));
    case Lose(p) => LossTruthful(s, masters, p);
  }

  lemma LossTruthful(s: Net, masters: set<NodeId>, p: Packet)
    requires Truthful(s, masters)
    ensures var s' := s.(flight := s.flight - multiset{p}); Moves(s, masters, s') && Truthful(s', masters)
  {
    hide Beaten, TrueTable, TrueMsg;
    var s' := s.(flight := s.flight - multiset{p});
    assert Moves(s, masters, s');
    StaysTrue(s, masters, s');
  }

  // -------------------------------------------------------------------------
  // Runs
  // -------------------------------------------------------------------------

  /** A run in which the masters stay the same and only collisions make new epochs. */
  ghost predicate QuietRun(states: seq<Net>, steps: seq<Step>, masters: set<NodeId>) {
    && IsRun(states, steps) && EpochInvariant(states[0]) && Truthful(states[0], masters)
    && (forall i :: 0 <= i < |states| ==> Fixed(states[i], masters))
    && (forall i :: 0 <= i < |steps| ==> !RaisesEpoch(steps[i]))
  }

  lemma {:induction false} RunTruthful(states: seq<Net>, steps: seq<Step>, masters: set<NodeId>, n: nat)
    requires QuietRun(states, steps, masters) && n < |states|
    ensures EpochInvariant(states[n]) && Truthful(states[n], masters)
    ensures n > 0 ==> Fixed(states[n - 1], masters) && Moves(states[n - 1], masters, states[n])
  {
    hide EpochInvariant, Fixed, Truthful, Next, Enabled, Sound, RaisesEpoch, Moves;
    if n > 0 {
      RunTruthful(states, steps, masters, n - 1);
      StepKeepsEpochs(states[n - 1], steps[n - 1]);
      assert states[n] == Next(states[n - 1], steps[n - 1]);
      StepMoves(states[n - 1], masters, steps[n - 1]);
    }
  }

  /** The epochs that master `q` has had up to state `n`. */
  ghost function Past(states: seq<Net>, masters: set<NodeId>, n: nat, q: NodeId): set<nat>
    requires n < |states| && q in masters && forall i :: 0 <= i < |states| ==> Fixed(states[i], masters)
  {
    (if n == 0 then {} else Past(states, masters, n - 1, q)) + {Cfg(states[n], q)}
  }

  /** How often master `q` has taken a new epoch up to state `n`. */
  ghost function Bumps(states: seq<Net>, masters: set<NodeId>, n: nat, q: NodeId): nat
    requires n < |states| && q in masters && forall i :: 0 <= i < |states| ==> Fixed(states[i], masters)
  {
    if n == 0 then 0
    else Bumps(states, masters, n - 1, q) + if Cfg(states[n], q) != Cfg(states[n - 1], q) then 1 else 0
  }

  ghost function Above(masters: set<NodeId>, q: NodeId): set<NodeId> {
    set p | p in masters && p > q
  }

  /** Epochs that packets of masters in `group` carry although their senders have others now. */
  ghost function StaleFrom(s: Net, masters: set<NodeId>, group: set<NodeId>): set<nat>
    requires Fixed(s, masters) && group <= masters
  {
    set p | p in s.flight && p.msg.h.sender in group && p.msg.h.configEpoch != Cfg(s, p.msg.h.sender)
      :: p.msg.h.configEpoch
  }

  lemma StaleFromMore(s: Net, masters: set<NodeId>, group: set<NodeId>, more: set<NodeId>)
    requires Fixed(s, masters) && group <= more <= masters
    ensures StaleFrom(s, masters, group) <= StaleFrom(s, masters, more)
  {
    hide Fixed;
  }

  /** Every epoch only grows, so each bump is a new one. */
  lemma {:induction false} BumpsCountPast(states: seq<Net>, steps: seq<Step>, masters: set<NodeId>, n: nat, q: NodeId)
    requires QuietRun(states, steps, masters) && n < |states| && q in masters
    ensures |Past(states, masters, n, q)| == Bumps(states, masters, n, q) + 1
    ensures forall v :: v in Past(states, masters, n, q) ==> v <= Cfg(states[n], q)
  {
    hide EpochInvariant, Fixed, Truthful, IsRun, RaisesEpoch, Beaten;
    if n > 0 {
      BumpsCountPast(states, steps, masters, n - 1, q);
      RunTruthful(states, steps, masters, n);
      var old' := Past(states, masters, n - 1, q);
      if Cfg(states[n], q) == Cfg(states[n - 1], q) {
        assert old' + {Cfg(states[n], q)} == old';
      } else {
        assert Cfg(states[n], q) !in old';
      }
    }
  }

  /** Packets of a master carry epochs it has had, beside its own old ones at the start. */
  ghost predicate FlightFromPast(states: seq<Net>, masters: set<NodeId>, n: nat)
    requires n < |states| && forall i :: 0 <= i < |states| ==> Fixed(states[i], masters)
  {
    forall p :: p in states[n].flight && p.msg.h.sender in masters ==>
      p.msg.h.configEpoch in Past(states, masters, n, p.msg.h.sender) + StaleFrom(states[0], masters, {p.msg.h.sender})
  }

  /** An epoch that a master gave up has been had by a greater one, or was in an old packet of
      a greater one at the start. */
  ghost predicate PastFromAbove(states: seq<Net>, masters: set<NodeId>, n: nat)
    requires n < |states| && forall i :: 0 <= i < |states| ==> Fixed(states[i], masters)
  {
    forall q, v :: q in masters && v in Past(states, masters, n, q) ==>
      v == Cfg(states[n], q) || v in StaleFrom(states[0], masters, Above(masters, q))
          || HadAbove(states, masters, n, q, v)
  }

  ghost predicate HadAbove(states: seq<Net>, masters: set<NodeId>, n: nat, q: NodeId, v: nat)
    requires n < |states| && forall i :: 0 <= i < |states| ==> Fixed(states[i], masters)
  {
    exists p :: p in masters && p > q && v in Past(states, masters, n, p)
  }

  lemma {:induction false} FlightKept(states: seq<Net>, steps: seq<Step>, masters: set<NodeId>, n: nat)
    requires QuietRun(states, steps, masters) && n < |states|
    ensures FlightFromPast(states, masters, n)
  {
    hide EpochInvariant, Fixed, Truthful, IsRun, RaisesEpoch, Beaten;
    if n > 0 {
      FlightKept(states, steps, masters, n - 1);
      RunTruthful(states, steps, masters, n);
      NowInPast(states, masters, n - 1);
    }
  }

  lemma NowInPast(states: seq<Net>, masters: set<NodeId>, n: nat)
    requires n < |states| && forall i :: 0 <= i < |states| ==> Fixed(states[i], masters)
    ensures forall q :: q in masters ==> Cfg(states[n], q) in Past(states, masters, n, q)
  {
  }

  lemma {:induction false} PastKept(states: seq<Net>, steps: seq<Step>, masters: set<NodeId>, n: nat)
    requires QuietRun(states, steps, masters) && n < |states|
    ensures PastFromAbove(states, masters, n)
  {
    hide EpochInvariant, Fixed, Truthful, IsRun, RaisesEpoch;
    if n > 0 {
      PastKept(states, steps, masters, n - 1);
      forall q, v | q in masters && v in Past(states, masters, n, q)
        ensures v == Cfg(states[n], q) || v in StaleFrom(states[0], masters, Above(masters, q))
                || HadAbove(states, masters, n, q, v)
      {
        if v != Cfg(states[n], q) { GivenUp(states, steps, masters, n, q, v); }
      }
    }
  }

  /** An epoch of the past that is not the current one any more. */
  lemma GivenUp(states: seq<Net>, steps: seq<Step>, masters: set<NodeId>, n: nat, q: NodeId, v: nat)
    requires QuietRun(states, steps, masters) && 0 < n < |states| && PastFromAbove(states, masters, n - 1)
    requires q in masters && v in Past(states, masters, n - 1, q) && v != Cfg(states[n], q)
    ensures v in StaleFrom(states[0], masters, Above(masters, q)) || HadAbove(states, masters, n, q, v)
  {
    hide EpochInvariant, Fixed, Truthful, IsRun, RaisesEpoch;
    if v == Cfg(states[n - 1], q) {
      RunTruthful(states, steps, masters, n);
      var p :| Beaten(states[n - 1], masters, q, p);
      FlightKept(states, steps, masters, n - 1);
      assert v in Past(states, masters, n - 1, p.msg.h.sender) + StaleFrom(states[0], masters, {p.msg.h.sender});
      StaleFromMore(states[0], masters, {p.msg.h.sender}, Above(masters, q));
    } else if v !in StaleFrom(states[0], masters, Above(masters, q)) {
      var p :| p in masters && p > q && v in Past(states, masters, n - 1, p);
      assert v in Past(states, masters, n, p);
    }
  }

  // -------------------------------------------------------------------------
  // Collisions stop
  // -------------------------------------------------------------------------

  /** All epochs that the masters of `group` have had, and those in `stale`. */
  ghost function Seen(states: seq<Net>, masters: set<NodeId>, n: nat, group: set<NodeId>, stale: set<nat>): set<nat>
    requires n < |states| && group <= masters && forall i :: 0 <= i < |states| ==> Fixed(states[i], masters)
  {
    stale + set q, v | q in group && v in Past(states, masters, n, q) :: v
  }

  lemma {:induction false} Least(group: set<NodeId>) returns (m: NodeId)
    requires group != {}
    ensures m in group && forall q :: q in group ==> m <= q
    decreases |group|
  {
    m :| m in group;
    var rest := group - {m};
    if rest != {} {
      var b := Least(rest);
      assert forall q :: q in group ==> q == m || q in rest;
      if b < m { m := b; }
    }
  }

  /** Giving up epochs adds nothing new: a group closed upwards has had no more epochs than it
      has members, beside those in old packets of its members' betters at the start. */
  lemma {:induction false} SeenBound(states: seq<Net>, steps: seq<Step>, masters: set<NodeId>, n: nat,
                                     group: set<NodeId>, stale: set<nat>)
    requires QuietRun(states, steps, masters) && n < |states| && group <= masters
    requires forall q :: q in group ==>
               Above(masters, q) <= group && StaleFrom(states[0], masters, Above(masters, q)) <= stale
    ensures |Seen(states, masters, n, group, stale)| <= |group| + |stale|
    decreases |group|
  {
    hide Fixed, IsRun, EpochInvariant, Truthful, RaisesEpoch, Past, StaleFrom;
    if group == {} {
      assert Seen(states, masters, n, group, stale) == stale;
    } else {
      var m := Least(group);
      var rest := group - {m};
      SeenBound(states, steps, masters, n, rest, stale);
      PastKept(states, steps, masters, n);
      forall v | v in Past(states, masters, n, m)
        ensures v == Cfg(states[n], m) || v in Seen(states, masters, n, rest, stale)
      {
        if HadAbove(states, masters, n, m, v) {
          var p :| p in masters && p > m && v in Past(states, masters, n, p);
          assert p in Above(masters, m);
          assert p in rest;
        }
      }
      var most := Seen(states, masters, n, rest, stale) + {Cfg(states[n], m)};
      assert Seen(states, masters, n, group, stale) <= most;
      SubsetSize(Seen(states, masters, n, group, stale), most);
    }
  }

  /** In a run with a fixed set of masters and no other source of epochs, a master takes at
      most one new epoch for every master with a greater name, and one for every old epoch of
      these that was in flight at the start: collisions stop. */
  lemma CollisionsStop(states: seq<Net>, steps: seq<Step>, masters: set<NodeId>, n: nat, q: NodeId)
    requires QuietRun(states, steps, masters) && n < |states| && q in masters
    ensures Bumps(states, masters, n, q) <=
            |Above(masters, q)| + |StaleFrom(states[0], masters, Above(masters, q))|
  {
    hide Fixed, IsRun, EpochInvariant, Truthful, RaisesEpoch, Past, Bumps, StaleFrom;
    var group := Above(masters, q) + {q};
    var stale := StaleFrom(states[0], masters, Above(masters, q));
    forall p | p in group ensures StaleFrom(states[0], masters, Above(masters, p)) <= stale {
      StaleFromMore(states[0], masters, Above(masters, p), Above(masters, q));
    }
    SeenBound(states, steps, masters, n, group, stale);
    assert Past(states, masters, n, q) <= Seen(states, masters, n, group, stale);
    SubsetSize(Past(states, masters, n, q), Seen(states, masters, n, group, stale));
    BumpsCountPast(states, steps, masters, n, q);
  }

  /** The master with the greatest name never moves. */
  lemma GreatestStays(states: seq<Net>, steps: seq<Step>, masters: set<NodeId>, n: nat, q: NodeId)
    requires QuietRun(states, steps, masters) && n < |states| && q in masters
    requires forall p :: p in masters ==> p <= q
    ensures Cfg(states[n], q) == Cfg(states[0], q)
  {
    hide Fixed, IsRun, EpochInvariant, Truthful, RaisesEpoch;
    CollisionsStop(states, steps, masters, n, q);
    assert Above(masters, q) == {};
    NoBumps(states, masters, n, q);
  }

  lemma {:induction false} NoBumps(states: seq<Net>, masters: set<NodeId>, n: nat, q: NodeId)
    requires n < |states| && q in masters && forall i :: 0 <= i < |states| ==> Fixed(states[i], masters)
    requires Bumps(states, masters, n, q) == 0
    ensures Cfg(states[n], q) == Cfg(states[0], q)
  {
    hide Fixed;
    if n > 0 { NoBumps(states, masters, n - 1, q); }
  }

  // -------------------------------------------------------------------------
  // All epochs end up different
  // -------------------------------------------------------------------------

  /** At step `i` the smaller master `p` receives the current header of the greater one `q`. */
  ghost predicate Hears(states: seq<Net>, steps: seq<Step>, i: nat, p: NodeId, q: NodeId)
    requires |states| == |steps| + 1
  {
    && i < |steps| && steps[i].Deliver? && steps[i].packet.to == p && p in states[i].nodes
          && q in states[i].nodes[p].peers
    && steps[i].packet.msg.Ping? && steps[i].packet.msg.h.sender == q
    && steps[i].packet.msg.h.configEpoch == Cfg(states[i], q)
  }

  /** A master that stays one and hears of its own epoch from a greater master gives it up. */
  lemma MustYield(n: Node, h: Header, w: bool)
    requires n.WellFormed() && EpochsBounded(n) && h.sender in n.peers && h.sender > n.me && h.slaveof.None?
    requires n.peers[n.me].configEpoch == h.configEpoch && n.peers[h.sender].configEpoch <= h.configEpoch
    requires ProcessPing(n, h, w).node.peers[n.me].master
    ensures ProcessPing(n, h, w).node.peers[n.me].configEpoch > n.peers[n.me].configEpoch
  {
    hide UpdateView, ProcessPing, SeeCollision, EpochsBounded, Node.WellFormed;
    PingReplies(n, h, w);
    SenderRole(n, h);
    ViewsLearn(n, h, w);
    SenderEpoch(n, h);
    CollisionOutcome(n, h);
    OwnBounded(n);
    CollideMoves(UpdateView(n, h), h);
  }

  lemma SenderEpoch(n: Node, h: Header)
    requires n.WellFormed() && h.sender in n.peers && h.sender != n.me && n.peers[h.sender].configEpoch <= h.configEpoch
    ensures UpdateView(n, h).peers[h.sender].configEpoch == h.configEpoch
  {
    hide SeeRole, SeeSlots, Node.WellFormed;
  }

  lemma CollideMoves(n: Node, h: Header)
    requires n.WellFormed() && h.sender in n.peers && h.sender > n.me && n.me in n.peers
    requires n.peers[n.me].master && n.peers[h.sender].master
    requires n.peers[n.me].configEpoch == h.configEpoch == n.peers[h.sender].configEpoch
    ensures SeeCollision(n, h).peers[n.me].configEpoch == n.currentEpoch + 1
  {
  }

  /** Once the moving has stopped and the smaller of two masters has heard from the greater
      one, their epochs differ. */
  lemma HeardMeansDifferent(states: seq<Net>, steps: seq<Step>, masters: set<NodeId>, i: nat, p: NodeId, q: NodeId)
    requires QuietRun(states, steps, masters) && p in masters && q in masters && p < q
    requires Hears(states, steps, i, p, q) && Cfg(states[i + 1], p) == Cfg(states[i], p)
    ensures Cfg(states[i], p) != Cfg(states[i], q)
  {
    hide EpochsBounded, MsgBounded, Node.WellFormed, Posted, Process, RaisesEpoch, Truthful;
    RunTruthful(states, steps, masters, i);
    var s := states[i];
    var m := steps[i].packet.msg;
    TruthfulAt(s, masters, p, steps[i].packet);
    if Cfg(s, p) == Cfg(s, q) {
      ProcessIsPing(s.nodes[p], m, steps[i].timeOk);
      MustYield(s.nodes[p], m.h, m.wantsReply);
    }
  }

  lemma ProcessIsPing(n: Node, m: Msg, timeOk: bool)
    requires n.WellFormed() && m.Ping? && m.h.sender in n.peers && m.h.sender != n.me
    ensures Process(n, m, timeOk) == ProcessPing(n, m.h, m.wantsReply)
  {
    hide Node.WellFormed;
  }

  lemma TruthfulAt(s: Net, masters: set<NodeId>, p: NodeId, k: Packet)
    requires Truthful(s, masters) && p in s.nodes && k in s.flight
    ensures TrueMsg(s, masters, k.msg) && TrueTable(s, masters, s.nodes[p])
  {
  }

  /** A stretch of a run in which no master moves and every pair of masters gets through to
      each other ends with pairwise different epochs. */
  lemma DistinctEpochs(states: seq<Net>, steps: seq<Step>, masters: set<NodeId>)
    requires QuietRun(states, steps, masters)
    requires forall i, q :: 0 <= i < |steps| && q in masters ==> Cfg(states[i], q) == Cfg(states[|steps|], q)
    requires forall p, q :: p in masters && q in masters && p < q ==> exists i: nat :: Hears(states, steps, i, p, q)
    ensures forall p, q :: p in masters && q in masters && p != q ==> Cfg(states[|steps|], p) != Cfg(states[|steps|], q)
  {
    hide Next, Enabled, Sound, EpochInvariant, Truthful, Fixed, RaisesEpoch;
    forall p, q | p in masters && q in masters && p < q ensures Cfg(states[|steps|], p) != Cfg(states[|steps|], q) {
      var i: nat :| Hears(states, steps, i, p, q);
      assert i + 1 < |steps| || i + 1 == |steps|;
      HeardMeansDifferent(states, steps, masters, i, p, q);
    }
  }
}
