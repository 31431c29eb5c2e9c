/** Servers exchanging packets. Packets may be reordered, delayed and lost, but a packet is
    delivered at most once. Every run keeps the epochs in order. */
module ClusterNet {
  import opened ClusterModel
  import opened Common

  datatype Packet = Packet(to: NodeId, msg: Msg)

  datatype Net = Net(nodes: map<NodeId, Node>, flight: multiset<Packet>)

  datatype Step =
    | Send(from: NodeId, to: NodeId, ping: bool, wantsReply: bool)
    | Deliver(packet: Packet, timeOk: bool)
    | Lose(packet: Packet)
    | Failover(at: NodeId, timing: Timing, voters: set<NodeId>, force: bool)
    | Command(at: NodeId, op: Op)

  /** The packets that take `replies` to one destination. */
  function Posted(to: NodeId, replies: seq<Msg>): multiset<Packet> {
    if replies == [] then multiset{} else multiset{Packet(to, replies[0])} + Posted(to, replies[1..])
  }

  /** One copy of `m` for every destination. */
  function Broadcast(to: set<NodeId>, m: Msg): multiset<Packet> {
    multiset(set d | d in to :: Packet(d, m))
  }

  ghost predicate Sound(s: Net) {
    && (forall i :: i in s.nodes ==> s.nodes[i].me == i && s.nodes[i].WellFormed())
    && (forall p :: p in s.flight ==> p.msg.h.sender != p.to)
  }

  ghost predicate Enabled(s: Net, step: Step)
    requires Sound(s)
  {
    match step
    case Send(from, to, _, _) => from in s.nodes && to != from
    case Deliver(p, _) => p in s.flight && p.to in s.nodes
    case Lose(p) => p in s.flight
    case Failover(at, _, voters, _) => at in s.nodes && at !in voters
    case Command(at, op) => at in s.nodes && Allowed(s.nodes[at], op)
  }

  ghost function Next(s: Net, step: Step): Net
    requires Sound(s) && Enabled(s, step)
  {
    match step
    case Send(from, to, ping, wantsReply) =>
      var h := BuildHeader(s.nodes[from], false);
      s.(flight := s.flight + multiset{Packet(to, if ping then Ping(h, wantsReply) else Other(h))})
    case Deliver(p, timeOk) =>
      var o := Process(s.nodes[p.to], p.msg, timeOk);
      Net(s.nodes[p.to := o.node], s.flight - multiset{p} + Posted(p.msg.h.sender, o.replies))
    case Lose(p) => s.(flight := s.flight - multiset{p})
    case Failover(at, t, voters, force) =>
      var n := SlaveFailover(s.nodes[at], t);
      var s' := s.(nodes := s.nodes[at := n]);
      if ElectionMove(s.nodes[at], t).Opened?
      then s'.(flight := s.flight + Broadcast(voters, AuthRequest(BuildHeader(n, force))))
      else s'
    case Command(at, op) => s.(nodes := s.nodes[at := Apply(s.nodes[at], op)])
  }

  lemma {:induction false} PostedTo(to: NodeId, replies: seq<Msg>, p: Packet)
    requires p in Posted(to, replies)
    ensures p.to == to && p.msg in replies
  {
    if p != Packet(to, replies[0]) { PostedTo(to, replies[1..], p); }
  }

  // -------------------------------------------------------------------------
  // Epochs
  // -------------------------------------------------------------------------

  /** currentEpoch bounds every epoch the server holds. */
  ghost predicate EpochsBounded(n: Node) {
    && (forall p :: p in n.peers ==> n.peers[p].configEpoch <= n.currentEpoch)
    && n.lastVoteEpoch <= n.currentEpoch && n.authEpoch <= n.currentEpoch
  }

  ghost predicate MsgBounded(m: Msg) {
    && m.h.configEpoch <= m.h.currentEpoch
    && (m.Update? ==> m.epoch <= m.h.currentEpoch)
  }

  /** Every reachable state of the network satisfies this. */
  ghost predicate EpochInvariant(s: Net) {
    && Sound(s)
    && (forall i :: i in s.nodes ==> EpochsBounded(s.nodes[i]))
    && (forall p :: p in s.flight ==> MsgBounded(p.msg))
  }

  lemma HeaderBounded(n: Node, force: bool)
    requires n.WellFormed() && EpochsBounded(n)
    ensures var h := BuildHeader(n, force); h.configEpoch <= h.currentEpoch == n.currentEpoch && h.sender == n.me
  {
  }

  lemma SeeEpochsBounded(n: Node, h: Header)
    requires n.WellFormed() && EpochsBounded(n) && h.configEpoch <= h.currentEpoch && h.sender in n.peers
    ensures var r := SeeEpochs(n, h);
            EpochsBounded(r) && r.currentEpoch >= n.currentEpoch && r.currentEpoch >= h.currentEpoch
  {
  }

  lemma SameEpochsBounded(n: Node, r: Node)
    requires EpochsBounded(n) && SameEpochs(n, r)
    ensures EpochsBounded(r)
  {
  }

  lemma PingBounded(n: Node, h: Header, wantsReply: bool)
    requires n.WellFormed() && EpochsBounded(n) && h.configEpoch <= h.currentEpoch && h.sender in n.peers
    requires h.sender != n.me
    ensures var o := ProcessPing(n, h, wantsReply);
            && EpochsBounded(o.node) && o.node.currentEpoch >= n.currentEpoch
            && (forall r :: r in o.replies ==> MsgBounded(r) && r.h.sender == n.me)
  {
    hide SeeEpochs, SeeRole, SeeSlots, SeeCollision, OutdatedReply, DirtySlots, BuildHeader, EpochsBounded,
        Node.WellFormed;
    var n1 := SeeEpochs(n, h);
    SeeEpochsBounded(n, h);
    HeaderBounded(n1, false);
    var n2 := SeeRole(n1, h);
    SameEpochsBounded(n1, n2);
    var n3 := SeeSlots(n2, h);
    SameEpochsBounded(n2, n3);
    CollisionBounded(n3, h);
    OutdatedBounded(n3, DirtySlots(n2, h), h);
  }

  lemma CollisionBounded(n: Node, h: Header)
    requires n.WellFormed() && EpochsBounded(n) && h.sender in n.peers
    ensures var r := SeeCollision(n, h); EpochsBounded(r) && r.currentEpoch >= n.currentEpoch
  {
  }

  lemma OutdatedBounded(n: Node, dirty: bool, h: Header)
    requires n.WellFormed() && EpochsBounded(n)
    ensures forall r :: r in OutdatedReply(n, dirty, h) ==> MsgBounded(r) && r.h.sender == n.me
  {
    hide FirstOutdated, BuildHeader;
    HeaderBounded(n, false);
  }

  lemma AuthRequestBounded(n: Node, h: Header, timeOk: bool)
    requires n.WellFormed() && EpochsBounded(n) && h.configEpoch <= h.currentEpoch && h.sender in n.peers
    requires h.sender != n.me
    ensures var o := ProcessAuthRequest(n, h, timeOk);
            && EpochsBounded(o.node) && o.node.currentEpoch >= n.currentEpoch
            && (forall r :: r in o.replies ==> MsgBounded(r) && r.h.sender == n.me)
  {
    hide SeeEpochs, GrantsVote;
    SeeEpochsBounded(n, h);
  }

  lemma AuthAckBounded(n: Node, h: Header)
    requires n.WellFormed() && EpochsBounded(n) && h.configEpoch <= h.currentEpoch && h.sender in n.peers
    requires h.sender != n.me
    ensures var o := ProcessAuthAck(n, h);
            EpochsBounded(o.node) && o.node.currentEpoch >= n.currentEpoch && o.replies == []
  {
    hide SeeEpochs, CountsAck;
    SeeEpochsBounded(n, h);
  }

  lemma UpdateBounded(n: Node, h: Header, about: NodeId, epoch: nat, claimed: set<Slot>)
    requires n.WellFormed() && EpochsBounded(n) && h.configEpoch <= h.currentEpoch && h.sender in n.peers
    requires h.sender != n.me
    requires epoch <= h.currentEpoch
    ensures var o := ProcessUpdate(n, h, about, epoch, claimed);
            EpochsBounded(o.node) && o.node.currentEpoch >= n.currentEpoch && o.replies == []
  {
    hide SeeEpochs, UpdateSlots, SetNodeAsMaster;
    SeeEpochsBounded(n, h);
  }

  /** Processing a packet only raises currentEpoch, and what it sends is bounded again. */
  lemma ProcessBounded(n: Node, m: Msg, timeOk: bool)
    requires n.WellFormed() && EpochsBounded(n) && MsgBounded(m) && m.h.sender != n.me
    ensures var o := Process(n, m, timeOk);
            && EpochsBounded(o.node) && o.node.currentEpoch >= n.currentEpoch
            && (forall r :: r in o.replies ==> MsgBounded(r) && r.h.sender == n.me)
  {
    hide EpochsBounded, ProcessPing, ProcessAuthRequest, ProcessAuthAck, ProcessUpdate, SeeEpochs;
    if m.h.sender in n.peers {
      match m
      case Ping(h, w) => PingBounded(n, h, w);
      case AuthRequest(h) => AuthRequestBounded(n, h, timeOk);
      case AuthAck(h) => AuthAckBounded(n, h);
      case Update(h, about, epoch, claimed) => UpdateBounded(n, h, about, epoch, claimed);
      case Other(h) => SeeEpochsBounded(n, h);
    }
  }

  lemma FailoverBounded(n: Node, t: Timing)
    requires n.WellFormed() && EpochsBounded(n)
    ensures var r := SlaveFailover(n, t); EpochsBounded(r) && r.currentEpoch >= n.currentEpoch
  {
    hide ReplaceMaster, ElectionMove;
  }

  lemma BumpBounded(n: Node)
    requires n.WellFormed() && EpochsBounded(n)
    ensures EpochsBounded(Bump(n)) && Bump(n).currentEpoch >= n.currentEpoch
  {
    hide NeedsBump, Node.WellFormed;
  }

  lemma RemoveBounded(n: Node, p: NodeId)
    requires EpochsBounded(n)
    ensures EpochsBounded(Remove(n, p)) && Remove(n, p).currentEpoch == n.currentEpoch
  {
    hide Node.Bitmap;
  }

  lemma SetMasterBounded(n: Node, p: NodeId)
    requires n.WellFormed() && EpochsBounded(n)
    ensures EpochsBounded(SetMaster(n, p)) && SetMaster(n, p).currentEpoch == n.currentEpoch
  {
  }

  lemma SetSlotBounded(n: Node, j: Slot, p: NodeId)
    requires n.WellFormed() && EpochsBounded(n)
    ensures EpochsBounded(SetSlot(n, j, p)) && SetSlot(n, j, p).currentEpoch >= n.currentEpoch
  {
    hide Bump, Node.WellFormed;
    BumpBounded(n);
  }

  lemma ApplyBounded(n: Node, op: Op)
    requires n.WellFormed() && EpochsBounded(n) && Allowed(n, op)
    ensures var r := Apply(n, op); EpochsBounded(r) && r.currentEpoch >= n.currentEpoch
  {
    hide Bump, ReplaceMaster, Remove, SetMaster, SetSlot, Node.WellFormed, Node.Bitmap, Allowed;
    match op
    case BumpEpoch => BumpBounded(n);
    case Takeover => BumpBounded(n);
    case SetSlotNode(j, p) => SetSlotBounded(n, j, p);
    case Replicate(p) => SetMasterBounded(n, p);
    case Forget(p) => RemoveBounded(n, p);
    case MarkFailed(p, f) => FlagBounded(n, op);
    case _ =>
  }

  lemma FlagBounded(n: Node, op: Op)
    requires n.WellFormed() && EpochsBounded(n) && Allowed(n, op) && op.MarkFailed?
    ensures var r := Apply(n, op); EpochsBounded(r) && r.currentEpoch == n.currentEpoch
  {
    hide Node.WellFormed;
  }

  lemma DeliverKeepsEpochs(s: Net, p: Packet, timeOk: bool)
    requires EpochInvariant(s) && Enabled(s, Deliver(p, timeOk))
    ensures var s' := Next(s, Deliver(p, timeOk));
            EpochInvariant(s') && s'.nodes.Keys == s.nodes.Keys
                && s'.nodes[p.to].currentEpoch >= s.nodes[p.to].currentEpoch
  {
    hide EpochsBounded, Process, Posted, MsgBounded, Node.WellFormed;
    var o := Process(s.nodes[p.to], p.msg, timeOk);
    ProcessBounded(s.nodes[p.to], p.msg, timeOk);
    forall q | q in Posted(p.msg.h.sender, o.replies) ensures q.msg.h.sender != q.to && MsgBounded(q.msg) {
      PostedTo(p.msg.h.sender, o.replies, q);
    }
  }

  lemma FailoverKeepsEpochs(s: Net, step: Step)
    requires EpochInvariant(s) && step.Failover? && Enabled(s, step)
    ensures var s' := Next(s, step);
            EpochInvariant(s') && s'.nodes.Keys == s.nodes.Keys
                && s'.nodes[step.at].currentEpoch >= s.nodes[step.at].currentEpoch
  {
    hide EpochsBounded, SlaveFailover, ElectionMove, BuildHeader, Node.WellFormed;
    FailoverBounded(s.nodes[step.at], step.timing);
    HeaderBounded(SlaveFailover(s.nodes[step.at], step.timing), step.force);
  }

  lemma LocalKeepsEpochs(s: Net, step: Step)
    requires EpochInvariant(s) && (step.Send? || step.Lose? || step.Command?) && Enabled(s, step)
    ensures EpochInvariant(Next(s, step)) && Next(s, step).nodes.Keys == s.nodes.Keys
    ensures step.Command? ==> Next(s, step).nodes[step.at].currentEpoch >= s.nodes[step.at].currentEpoch
  {
    hide EpochInvariant, Next, Allowed;
    match step
    case Send(from, to, _, _) => SendKeepsEpochs(s, step);
    case Command(at, op) => CommandKeepsEpochs(s, step);
    case Lose(_) => LossKeepsEpochs(s, step);
  }

  lemma SendKeepsEpochs(s: Net, step: Step)
    requires EpochInvariant(s) && step.Send? && Enabled(s, step)
    ensures EpochInvariant(Next(s, step)) && Next(s, step).nodes == s.nodes
  {
    hide EpochsBounded, BuildHeader, Node.WellFormed;
    HeaderBounded(s.nodes[step.from], false);
  }

  lemma LossKeepsEpochs(s: Net, step: Step)
    requires EpochInvariant(s) && step.Lose? && Enabled(s, step)
    ensures EpochInvariant(Next(s, step)) && Next(s, step).nodes == s.nodes
  {
    hide EpochsBounded, MsgBounded, Node.WellFormed;
  }

  lemma CommandKeepsEpochs(s: Net, step: Step)
    requires EpochInvariant(s) && step.Command? && Enabled(s, step)
    ensures EpochInvariant(Next(s, step)) && Next(s, step).nodes.Keys == s.nodes.Keys
    ensures Next(s, step).nodes[step.at].currentEpoch >= s.nodes[step.at].currentEpoch
  {
    hide EpochsBounded, MsgBounded, Apply, Allowed, Node.WellFormed;
    ApplyBounded(s.nodes[step.at], step.op);
  }

  /** One step of the network keeps the invariant, and no server's currentEpoch decreases. */
  lemma StepKeepsEpochs(s: Net, step: Step)
    requires EpochInvariant(s) && Enabled(s, step)
    ensures Sound(Next(s, step)) && EpochInvariant(Next(s, step))
    ensures var s' := Next(s, step);
            s'.nodes.Keys == s.nodes.Keys
            && (forall i :: i in s.nodes ==> s'.nodes[i].currentEpoch >= s.nodes[i].currentEpoch)
  {
    hide EpochsBounded, MsgBounded, Node.WellFormed, Process, SlaveFailover, ElectionMove, Apply, Allowed, BuildHeader;
    match step
    case Deliver(p, timeOk) => DeliverKeepsEpochs(s, p, timeOk);
    case Failover(_, _, _, _) => FailoverKeepsEpochs(s, step);
    case _ => LocalKeepsEpochs(s, step);
  }

  // -------------------------------------------------------------------------
  // Runs
  // -------------------------------------------------------------------------

  /** `states` is a run that takes the given steps. */
  ghost predicate IsRun(states: seq<Net>, steps: seq<Step>) {
    && |states| == |steps| + 1
    && (forall i :: 0 <= i < |steps| ==> Sound(states[i]) && Enabled(states[i], steps[i]))
    && (forall i :: 0 <= i < |steps| ==> states[i + 1] == Next(states[i], steps[i]))
  }

  /** In every state of every run the epochs are in order, and no server's currentEpoch is
      ever smaller than it was. */
  lemma {:induction false} RunKeepsEpochs(states: seq<Net>, steps: seq<Step>, i: nat, j: nat)
    requires IsRun(states, steps) && EpochInvariant(states[0])
    requires i <= j < |states|
    ensures EpochInvariant(states[j])
    ensures states[j].nodes.Keys == states[i].nodes.Keys
    ensures forall n :: n in states[i].nodes ==> states[j].nodes[n].currentEpoch >= states[i].nodes[n].currentEpoch
    decreases j
  {
    hide EpochInvariant, Next, Enabled, Sound;
    if i < j {
      RunKeepsEpochs(states, steps, i, j - 1);
      StepKeepsEpochs(states[j - 1], steps[j - 1]);
    } else if j > 0 {
      RunKeepsEpochs(states, steps, 0, j - 1);
      StepKeepsEpochs(states[j - 1], steps[j - 1]);
    }
  }

  /** An election always opens at an epoch above every configEpoch its candidate knows, and
      above every epoch it voted or stood in before. */
  lemma ElectionOpensAbove(s: Net, at: NodeId, t: Timing)
    requires EpochInvariant(s) && at in s.nodes && ElectionMove(s.nodes[at], t).Opened?
    ensures var e := SlaveFailover(s.nodes[at], t).authEpoch;
            && e == SlaveFailover(s.nodes[at], t).currentEpoch
            && e > s.nodes[at].authEpoch && e > s.nodes[at].lastVoteEpoch
            && (forall p :: p in s.nodes[at].peers ==> e > s.nodes[at].peers[p].configEpoch)
  {
    assert EpochsBounded(s.nodes[at]);
  }
}
