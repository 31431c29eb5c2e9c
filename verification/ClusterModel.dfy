/** The cluster bus of cluster.c, one server's view and its handlers as functions on values.

    A server keeps a table of the nodes it knows (`peers`), a table giving the owner of each
    hash slot, its epochs and its election fields. Timers, links and failure detection are
    outcomes chosen by the environment. */
module ClusterModel {
  import opened Common

  const SLOTS: nat := 16384

  /** Node names are 40 bytes compared with memcmp; a number keeps exactly their order. */
  type NodeId = nat

  type Slot = j: nat | j < SLOTS

  /** What a server knows about a node: clusterNode. */
  datatype Peer = Peer(configEpoch: nat, master: bool, slaveof: Option<NodeId>, failed: bool)

  /** One server's clusterState. An absent key of `slots` is an unassigned slot. */
  datatype Node = Node(
    me: NodeId,
    currentEpoch: nat,
    lastVoteEpoch: nat,
    peers: map<NodeId, Peer>,
    slots: map<Slot, NodeId>,
    importing: map<Slot, NodeId>,
    authEpoch: nat,
    authCount: nat,
    authSent: bool,
    size: nat)
  {
    /** Pointers lead to known nodes, masters follow nobody, and this server, if a replica,
        knows its master. */
    ghost predicate WellFormed() {
      && me in peers
      && (forall j :: j in slots ==> slots[j] in peers)
      && (forall p :: p in peers && peers[p].slaveof.Some? ==> peers[p].slaveof.value in peers)
      && (forall p :: p in peers && peers[p].master ==> peers[p].slaveof.None?)
      && (peers[me].master || peers[me].slaveof.Some?)
    }

    predicate IsMaster(p: NodeId)
      requires p in peers
    {
      peers[p].master
    }

    /** The bitmap clusterNode.slots of node `p`. */
    function Bitmap(p: NodeId): set<Slot> {
      set j | j in slots && slots[j] == p
    }

    function Owner(j: Slot): Option<NodeId> {
      if j in slots then Some(slots[j]) else None
    }

    function ConfigEpoch(p: NodeId): nat
      requires p in peers
    {
      peers[p].configEpoch
    }

    /** myself, or the master this replica replicates. */
    function CurrentMaster(): NodeId
      requires me in peers && (peers[me].master || peers[me].slaveof.Some?)
    {
      if peers[me].master then me else peers[me].slaveof.value
    }
  }

  function Max(a: nat, b: nat): nat { if a < b then b else a }

  lemma {:induction false} SubsetSize<T>(a: set<T>, b: set<T>)
    requires a <= b
    ensures |a| <= |b|
  {
    if a != {} {
      var x :| x in a;
      SubsetSize(a - {x}, b - {x});
    }
  }

  /** The two views agree on every epoch and on the election fields. */
  ghost predicate SameEpochs(n: Node, r: Node) {
    && r.me == n.me && r.currentEpoch == n.currentEpoch && r.lastVoteEpoch == n.lastVoteEpoch
    && r.authEpoch == n.authEpoch && r.authCount == n.authCount && r.authSent == n.authSent && r.size == n.size
    && r.peers.Keys == n.peers.Keys
    && (forall p :: p in n.peers ==> r.peers[p].configEpoch == n.peers[p].configEpoch)
  }

  // -------------------------------------------------------------------------
  // Messages
  // -------------------------------------------------------------------------

  datatype Header = Header(
    sender: NodeId,
    currentEpoch: nat,
    configEpoch: nat,
    slots: set<Slot>,
    slaveof: Option<NodeId>,
    forceAck: bool)

  datatype Msg =
    | Ping(h: Header, wantsReply: bool)
    | AuthRequest(h: Header)
    | AuthAck(h: Header)
    | Update(h: Header, about: NodeId, epoch: nat, claimed: set<Slot>)
    | Other(h: Header)

  /** clusterBuildMessageHdr: a replica advertises its master's epoch and slots. */
  function BuildHeader(n: Node, forceAck: bool): Header
    requires n.WellFormed()
  {
    var p := if !n.peers[n.me].master && n.peers[n.me].slaveof.Some? then n.peers[n.me].slaveof.value else n.me;
    Header(n.me, n.currentEpoch, n.ConfigEpoch(p), n.Bitmap(p), n.peers[n.me].slaveof, forceAck)
  }

  /** clusterSendUpdate about node `p`. */
  function BuildUpdate(n: Node, p: NodeId): Msg
    requires n.WellFormed() && p in n.peers
  {
    Update(BuildHeader(n, false), p, n.ConfigEpoch(p), n.Bitmap(p))
  }

  // -------------------------------------------------------------------------
  // Slots
  // -------------------------------------------------------------------------

  function Rebind(n: Node, p: NodeId, s: set<Slot>): (r: Node)
    ensures n.WellFormed() && p in n.peers ==> r.WellFormed()
  {
    n.(slots := n.slots + (map j | j in s :: p))
  }

  function Release(n: Node, s: set<Slot>): (r: Node)
    ensures n.WellFormed() ==> r.WellFormed()
  {
    n.(slots := n.slots - s)
  }

  /** The slots that clusterUpdateSlotsConfigWith binds to `sender`. */
  function Taken(n: Node, sender: NodeId, epoch: nat, claimed: set<Slot>): set<Slot>
    requires n.WellFormed()
  {
    set j | j in claimed && n.Owner(j) != Some(sender) && j !in n.importing
            && (j in n.slots ==> n.ConfigEpoch(n.slots[j]) < epoch)
  }

  /** clusterSetMaster */
  function SetMaster(n: Node, p: NodeId): (r: Node)
    requires n.me in n.peers
    ensures n.WellFormed() && p in n.peers ==> r.WellFormed()
  {
    var n' := n.(peers := n.peers[n.me := n.peers[n.me].(master := false, slaveof := Some(p))]);
    if n.peers[n.me].master then n'.(importing := map[]) else n'
  }

  /** Does the server (or its master) lose its last slots to the sender, so that it follows it? */
  predicate Follows(n: Node, sender: NodeId, taken: set<Slot>)
    requires n.WellFormed()
  {
    && (exists j :: j in taken && n.Owner(j) == Some(n.CurrentMaster()))
    && Rebind(n, sender, taken).Bitmap(n.CurrentMaster()) == {}
  }

  /** clusterUpdateSlotsConfigWith: rebind what is claimed with a newer epoch; a server whose
      master (or which itself) is left without slots follows the new owner. */
  function UpdateSlots(n: Node, sender: NodeId, epoch: nat, claimed: set<Slot>): (r: Node)
    requires n.WellFormed() && sender in n.peers
    ensures r.WellFormed() && SameEpochs(n, r)
  {
    if sender == n.me then n
    else
      var taken := Taken(n, sender, epoch, claimed);
      var n' := Rebind(n, sender, taken);
      if Follows(n, sender, taken) then SetMaster(n', sender) else n'
  }

  // -------------------------------------------------------------------------
  // Packets
  // -------------------------------------------------------------------------

  /** The epoch part of clusterProcessPacket, run for every packet of a known sender. */
  function SeeEpochs(n: Node, h: Header): (r: Node)
    requires h.sender in n.peers
    ensures n.WellFormed() ==> r.WellFormed()
    ensures r.me == n.me && r.peers.Keys == n.peers.Keys
  {
    var p := n.peers[h.sender];
    n.(currentEpoch := Max(n.currentEpoch, h.currentEpoch),
       peers := n.peers[h.sender := p.(configEpoch := Max(p.configEpoch, h.configEpoch))])
  }

  /** clusterSetNodeAsMaster */
  function SetNodeAsMaster(n: Node, p: NodeId): (r: Node)
    requires p in n.peers
    ensures n.WellFormed() ==> r.WellFormed()
    ensures SameEpochs(n, r)
  {
    if n.peers[p].master then n else n.(peers := n.peers[p := n.peers[p].(master := true, slaveof := None)])
  }

  /** The sender says whose replica it is: role switch. */
  function SeeRole(n: Node, h: Header): (r: Node)
    requires h.sender in n.peers && h.sender != n.me
    ensures n.WellFormed() ==> r.WellFormed()
    ensures SameEpochs(n, r)
  {
    if h.slaveof.None? then SetNodeAsMaster(n, h.sender)
    else
      var n1 := if n.peers[h.sender].master
                then Release(n, n.Bitmap(h.sender)).(peers := n.peers[h.sender := n.peers[h.sender].(master := false)])
                else n;
      if h.slaveof.value in n1.peers
      then n1.(peers := n1.peers[h.sender := n1.peers[h.sender].(slaveof := h.slaveof)])
      else n1
  }

  /** Does the sender claim other slots than we have for it (or for its master)? */
  predicate DirtySlots(n: Node, h: Header)
    requires h.sender in n.peers
  {
    var p := n.peers[h.sender];
    if p.master then n.Bitmap(h.sender) != h.slots
    else p.slaveof.Some? && n.Bitmap(p.slaveof.value) != h.slots
  }

  /** A claimed slot that we know to be served under a greater epoch. */
  predicate Outdated(n: Node, h: Header, j: Slot)
    requires n.WellFormed()
  {
    j in h.slots && j in n.slots && n.slots[j] != h.sender && n.ConfigEpoch(n.slots[j]) > h.configEpoch
  }

  /** The first outdated slot at or after `from`. */
  function FirstOutdated(n: Node, h: Header, from: nat): (r: Option<Slot>)
    requires n.WellFormed()
    ensures r.Some? ==> Outdated(n, h, r.value)
    decreases SLOTS - from
  {
    if from >= SLOTS then None
    else if Outdated(n, h, from) then Some(from)
    else FirstOutdated(n, h, from + 1)
  }

  /** The scan misses nothing. */
  lemma {:induction false} FirstOutdatedIsFirst(n: Node, h: Header, from: nat)
    requires n.WellFormed()
    ensures var r := FirstOutdated(n, h, from);
            && (r.Some? ==> from <= r.value && Outdated(n, h, r.value))
            && (forall j: Slot :: from <= j && (r.Some? ==> j < r.value) ==> !Outdated(n, h, j))
    decreases SLOTS - from
  {
    hide Node.WellFormed, Outdated;
    if from < SLOTS && !Outdated(n, h, from) { FirstOutdatedIsFirst(n, h, from + 1); }
  }

  /** clusterHandleConfigEpochCollision: the smaller name takes a new epoch. */
  function Collide(n: Node, sender: NodeId): (r: Node)
    requires sender in n.peers && n.me in n.peers
    ensures n.WellFormed() ==> r.WellFormed()
  {
    if n.ConfigEpoch(sender) != n.ConfigEpoch(n.me) || !n.IsMaster(sender) || !n.IsMaster(n.me) then n
    else if sender <= n.me then n
    else NewEpoch(n)
  }

  /** currentEpoch++; myself->configEpoch = currentEpoch */
  function NewEpoch(n: Node): (r: Node)
    requires n.me in n.peers
    ensures n.WellFormed() ==> r.WellFormed()
  {
    n.(currentEpoch := n.currentEpoch + 1,
       peers := n.peers[n.me := n.peers[n.me].(configEpoch := n.currentEpoch + 1)])
  }

  datatype Outcome = Outcome(node: Node, replies: seq<Msg>)

  function Pong(n: Node): Msg
    requires n.WellFormed()
  {
    Ping(BuildHeader(n, false), false)
  }

  /** A master whose claim differs from our table updates it. */
  function SeeSlots(n: Node, h: Header): (r: Node)
    requires n.WellFormed() && h.sender in n.peers
    ensures r.WellFormed() && SameEpochs(n, r)
  {
    if n.IsMaster(h.sender) && DirtySlots(n, h) then UpdateSlots(n, h.sender, h.configEpoch, h.slots) else n
  }

  /** If the sender's claim was dirty and part of it is outdated, tell it about the owner of
      the first such slot. */
  function OutdatedReply(n: Node, dirty: bool, h: Header): seq<Msg>
    requires n.WellFormed()
  {
    var j := if dirty then FirstOutdated(n, h, 0) else None;
    if j.Some? then [BuildUpdate(n, n.slots[j.value])] else []
  }

  function SeeCollision(n: Node, h: Header): (r: Node)
    requires n.WellFormed() && h.sender in n.peers
    ensures r.WellFormed() && r.me == n.me && r.peers.Keys == n.peers.Keys
  {
    if n.IsMaster(n.me) && n.IsMaster(h.sender) && h.configEpoch == n.ConfigEpoch(n.me)
    then Collide(n, h.sender) else n
  }

  /** PING, PONG and MEET from a known node: epochs, role, slots, outdated claims, collision. */
  function ProcessPing(n: Node, h: Header, wantsReply: bool): (r: Outcome)
    requires n.WellFormed() && h.sender in n.peers && h.sender != n.me
    ensures r.node.WellFormed() && r.node.me == n.me
  {
    var n1 := SeeEpochs(n, h);
    var n2 := SeeRole(n1, h);
    var n3 := SeeSlots(n2, h);
    var pong := if wantsReply then [Pong(n1)] else [];
    Outcome(SeeCollision(n3, h), pong + OutdatedReply(n3, DirtySlots(n2, h), h))
  }

  /** Why a master may vote for a candidate: clusterSendFailoverAuthIfNeeded. `timeOk` says
      that the node timeout since the last vote about the same master has passed. */
  predicate GrantsVote(n: Node, h: Header, timeOk: bool)
    requires n.WellFormed() && h.sender in n.peers
  {
    && n.IsMaster(n.me) && n.Bitmap(n.me) != {}
    && h.currentEpoch >= n.currentEpoch
    && n.lastVoteEpoch != n.currentEpoch
    && !n.IsMaster(h.sender) && n.peers[h.sender].slaveof.Some?
    && (n.peers[n.peers[h.sender].slaveof.value].failed || h.forceAck)
    && timeOk
    && (forall j :: j in h.slots && j in n.slots ==> n.ConfigEpoch(n.slots[j]) <= h.configEpoch)
  }

  function ProcessAuthRequest(n: Node, h: Header, timeOk: bool): (r: Outcome)
    requires n.WellFormed() && h.sender in n.peers && h.sender != n.me
    ensures r.node.WellFormed() && r.node.me == n.me
  {
    var n1 := SeeEpochs(n, h);
    if GrantsVote(n1, h, timeOk) then
      var n2 := n1.(lastVoteEpoch := n1.currentEpoch);
      Outcome(n2, [AuthAck(BuildHeader(n2, false))])
    else Outcome(n1, [])
  }

  /** Is an acknowledgement counted? */
  predicate CountsAck(n: Node, h: Header)
    requires h.sender in n.peers
  {
    n.IsMaster(h.sender) && n.Bitmap(h.sender) != {} && h.currentEpoch >= n.authEpoch
  }

  function ProcessAuthAck(n: Node, h: Header): (r: Outcome)
    requires n.WellFormed() && h.sender in n.peers && h.sender != n.me
    ensures r.node.WellFormed() && r.node.me == n.me
  {
    var n1 := SeeEpochs(n, h);
    if CountsAck(n1, h) then Outcome(n1.(authCount := n1.authCount + 1), []) else Outcome(n1, [])
  }

  function ProcessUpdate(n: Node, h: Header, about: NodeId, epoch: nat, claimed: set<Slot>): (r: Outcome)
    requires n.WellFormed() && h.sender in n.peers && h.sender != n.me
    ensures r.node.WellFormed() && r.node.me == n.me
  {
    var n1 := SeeEpochs(n, h);
    if about !in n1.peers || n1.ConfigEpoch(about) >= epoch then Outcome(n1, [])
    else
      var n2 := SetNodeAsMaster(n1, about);
      var n3 := n2.(peers := n2.peers[about := n2.peers[about].(configEpoch := epoch)]);
      Outcome(UpdateSlots(n3, about, epoch, claimed), [])
  }

  /** clusterProcessPacket. A packet of an unknown sender changes nothing. */
  function Process(n: Node, m: Msg, timeOk: bool): (r: Outcome)
    requires n.WellFormed() && m.h.sender != n.me
    ensures r.node.WellFormed() && r.node.me == n.me
  {
    if m.h.sender !in n.peers then Outcome(n, [])
    else match m
      case Ping(h, wantsReply) => ProcessPing(n, h, wantsReply)
      case AuthRequest(h) => ProcessAuthRequest(n, h, timeOk)
      case AuthAck(h) => ProcessAuthAck(n, h)
      case Update(h, about, epoch, claimed) => ProcessUpdate(n, h, about, epoch, claimed)
      case Other(h) => Outcome(SeeEpochs(n, h), [])
  }

  // -------------------------------------------------------------------------
  // Local actions
  // -------------------------------------------------------------------------

  /** clusterGetMaxEpoch */
  ghost predicate IsMaxEpoch(n: Node, e: nat) {
    && e >= n.currentEpoch
    && (forall p :: p in n.peers ==> e >= n.ConfigEpoch(p))
    && (e == n.currentEpoch || exists p :: p in n.peers && e == n.ConfigEpoch(p))
  }

  /** clusterBumpConfigEpochWithoutConsensus: a new epoch unless ours is the greatest known. */
  predicate NeedsBump(n: Node)
    requires n.me in n.peers
  {
    || n.ConfigEpoch(n.me) == 0
    || n.ConfigEpoch(n.me) < n.currentEpoch
    || exists p :: p in n.peers && n.ConfigEpoch(p) > n.ConfigEpoch(n.me)
  }

  function Bump(n: Node): (r: Node)
    requires n.me in n.peers
    ensures n.WellFormed() ==> r.WellFormed()
  {
    if NeedsBump(n) then NewEpoch(n) else n
  }

  /** clusterFailoverReplaceYourMaster: become master and claim the old master's slots. */
  function ReplaceMaster(n: Node): (r: Node)
    requires n.WellFormed()
    ensures r.WellFormed() && SameEpochs(n, r)
  {
    if n.IsMaster(n.me) || n.peers[n.me].slaveof.None? then n
    else Rebind(SetNodeAsMaster(n, n.me), n.me, n.Bitmap(n.peers[n.me].slaveof.value))
  }

  /** Clock readings and flags that steer clusterHandleSlaveFailover. */
  datatype Timing = Timing(
    manual: bool,       // a manual failover may start
    noFailover: bool,   // cluster-replica-no-failover
    dataTooOld: bool,   // the replication link has been down for too long
    retry: bool,        // the previous attempt is over: schedule a new election
    early: bool,        // the scheduled start is still ahead
    expired: bool)      // the election is too old

  datatype Election = Quiet | Scheduled | Opened | Won

  /** What one call of clusterHandleSlaveFailover does. */
  function ElectionMove(n: Node, t: Timing): Election
    requires n.WellFormed()
  {
    if n.IsMaster(n.me) || n.peers[n.me].slaveof.None? then Quiet
    else
      var m := n.peers[n.me].slaveof.value;
      if !n.peers[m].failed && !t.manual then Quiet
      else if t.noFailover && !t.manual then Quiet
      else if n.Bitmap(m) == {} then Quiet
      else if t.dataTooOld && !t.manual then Quiet
      else if t.retry then Scheduled
      else if t.early || t.expired then Quiet
      else if !n.authSent then Opened
      else if n.authCount >= n.size / 2 + 1 then Won
      else Quiet
  }

  function SlaveFailover(n: Node, t: Timing): (r: Node)
    requires n.WellFormed()
    ensures r.WellFormed() && r.me == n.me
  {
    match ElectionMove(n, t)
    case Quiet => n
    case Scheduled => n.(authCount := 0, authSent := false)
    case Opened => n.(currentEpoch := n.currentEpoch + 1, authEpoch := n.currentEpoch + 1, authSent := true)
    case Won =>
      var n1 := n.(peers := n.peers[n.me := n.peers[n.me].(configEpoch := Max(n.ConfigEpoch(n.me), n.authEpoch))]);
      ReplaceMaster(n1)
  }

  /** Commands of the administrator and outcomes of failure detection and handshakes. */
  datatype Op =
    | BumpEpoch
    | Takeover
    | SetConfigEpoch(epoch: nat)
    | AddSlots(slots: set<Slot>)
    | DelSlots(slots: set<Slot>)
    | SetSlotNode(slot: Slot, owner: NodeId)
    | SetImporting(slot: Slot, source: NodeId)
    | SetStable(slot: Slot)
    | Replicate(of: NodeId)
    | Meet(peer: NodeId, isMaster: bool)
    | Forget(peer: NodeId)
    | MarkFailed(peer: NodeId, failed: bool)

  /** The checks that make the command reply with an error. */
  predicate Allowed(n: Node, op: Op)
    requires n.WellFormed()
  {
    match op
    case BumpEpoch => true
    case Takeover => !n.IsMaster(n.me) && n.peers[n.me].slaveof.Some?
    case SetConfigEpoch(e) => n.peers.Keys == {n.me} && n.ConfigEpoch(n.me) == 0
    case AddSlots(s) => s !! n.slots.Keys
    case DelSlots(s) => s <= n.slots.Keys
    case SetSlotNode(j, p) => n.IsMaster(n.me) && p in n.peers
    case SetImporting(j, p) => n.IsMaster(n.me) && n.Owner(j) != Some(n.me) && p in n.peers
    case SetStable(j) => n.IsMaster(n.me)
    case Replicate(p) => p in n.peers && p != n.me && n.IsMaster(p) && (n.IsMaster(n.me) ==> n.Bitmap(n.me) == {})
    case Meet(p, m) => p !in n.peers
    case Forget(p) => p in n.peers && p != n.me && (!n.IsMaster(n.me) ==> n.peers[n.me].slaveof != Some(p))
    case MarkFailed(p, f) => p in n.peers && p != n.me
  }

  /** clusterDelNode: its slots become unassigned, imports from it end, and its replicas lose
      their master. */
  function Remove(n: Node, p: NodeId): (r: Node)
    ensures n.WellFormed() && p != n.me && n.peers[n.me].slaveof != Some(p) ==> r.WellFormed()
  {
    var left := map q | q in n.peers && q != p ::
                  if n.peers[q].slaveof == Some(p) then n.peers[q].(slaveof := None) else n.peers[q];
    var importing := map j | j in n.importing && n.importing[j] != p :: n.importing[j];
    Release(n, n.Bitmap(p)).(peers := left, importing := importing)
  }

  /** CLUSTER SETSLOT NODE: closing an import here takes a new epoch. */
  function SetSlot(n: Node, j: Slot, p: NodeId): (r: Node)
    requires n.me in n.peers
    ensures n.WellFormed() && p in n.peers ==> r.WellFormed()
  {
    if p == n.me && j in n.importing then Rebind(Bump(n).(importing := n.importing - {j}), p, {j})
    else Rebind(n, p, {j})
  }

  function Apply(n: Node, op: Op): (r: Node)
    requires n.WellFormed() && Allowed(n, op)
    ensures r.WellFormed() && r.me == n.me
  {
    match op
    case BumpEpoch => Bump(n)
    case Takeover => ReplaceMaster(Bump(n))
    case SetConfigEpoch(e) =>
      n.(peers := n.peers[n.me := n.peers[n.me].(configEpoch := e)], currentEpoch := Max(n.currentEpoch, e))
    case AddSlots(s) => Rebind(n, n.me, s).(importing := n.importing - s)
    case DelSlots(s) => Release(n, s).(importing := n.importing - s)
    case SetSlotNode(j, p) => SetSlot(n, j, p)
    case SetImporting(j, p) => n.(importing := n.importing[j := p])
    case SetStable(j) => n.(importing := n.importing - {j})
    case Replicate(p) => SetMaster(n, p)
    case Meet(p, m) => n.(peers := n.peers[p := Peer(0, m, None, false)])
    case Forget(p) => Remove(n, p)
    case MarkFailed(p, f) => n.(peers := n.peers[p := n.peers[p].(failed := f)])
  }
}
