/** Slot tables converge: a master that serves nothing and starts with an empty table ends up
    with the same table whatever the order and number of the headers it receives. */
module ClusterSlots {
  import opened ClusterModel
  import opened Common

  /** What one master claims, and under which epoch. */
  datatype Claim = Claim(epoch: nat, slots: set<Slot>)

  type Claims = map<NodeId, Claim>

  ghost predicate DistinctClaims(c: Claims) {
    forall a, b :: a in c && b in c && a != b ==> c[a].epoch != c[b].epoch
  }

  /** A header that states its sender's claim. */
  ghost predicate States(c: Claims, h: Header) {
    h.sender in c && h.slaveof.None? && h.configEpoch == c[h.sender].epoch && h.slots == c[h.sender].slots
  }

  /** `p` is the claimant of `j` with the greatest epoch among those in `heard`. */
  ghost predicate Winner(c: Claims, heard: set<NodeId>, j: Slot, p: NodeId) {
    && p in heard && p in c && j in c[p].slots
    && (forall q :: q in heard && q in c && j in c[q].slots ==> c[q].epoch <= c[p].epoch)
  }

  /** The table is decided by the claims heard so far. */
  ghost predicate Decided(c: Claims, heard: set<NodeId>, n: Node) {
    && (forall j :: j in n.slots ==> Winner(c, heard, j, n.slots[j]))
    && (forall q, j :: q in heard && q in c && j in c[q].slots ==> j in n.slots)
  }

  /** A master that claims nothing itself, and whose table overstates nobody. */
  ghost predicate Listening(c: Claims, heard: set<NodeId>, n: Node) {
    && n.WellFormed() && n.peers[n.me].master && n.importing == map[] && n.me !in c
    && heard <= c.Keys <= n.peers.Keys
    && (forall q :: q in c ==> n.peers[q].configEpoch <= c[q].epoch)
    && (forall q :: q in heard ==> n.peers[q].configEpoch == c[q].epoch)
  }

  /** The view after the epoch and role parts of a packet. */
  ghost function Introduced(n: Node, h: Header): Node
    requires n.WellFormed() && h.sender in n.peers && h.sender != n.me
  {
    SeeRole(SeeEpochs(n, h), h)
  }

  lemma EpochListens(c: Claims, heard: set<NodeId>, n: Node, h: Header)
    requires States(c, h) && Listening(c, heard, n)
    ensures var r := SeeEpochs(n, h); Listening(c, heard + {h.sender}, r) && r.slots == n.slots && r.me == n.me
  {
    hide Node.WellFormed;
    assert n.me in n.peers by { MeKnown(n); }
  }

  lemma MeKnown(n: Node)
    requires n.WellFormed()
    ensures n.me in n.peers
  {
  }

  lemma RoleListens(c: Claims, heard: set<NodeId>, n: Node, h: Header)
    requires States(c, h) && Listening(c, heard, n)
    ensures var r := SeeRole(n, h); Listening(c, heard, r) && r.slots == n.slots && r.me == n.me && r.IsMaster(h.sender)
  {
    hide Node.WellFormed;
    assert n.me in n.peers by { MeKnown(n); }
  }

  lemma IntroducedListens(c: Claims, heard: set<NodeId>, n: Node, h: Header)
    requires States(c, h) && Listening(c, heard, n)
    ensures var r := Introduced(n, h);
            && Listening(c, heard + {h.sender}, r) && r.slots == n.slots && r.me == n.me && r.IsMaster(h.sender)
  {
    hide SeeEpochs, SeeRole, Node.WellFormed;
    EpochListens(c, heard, n, h);
    RoleListens(c, heard + {h.sender}, SeeEpochs(n, h), h);
  }

  lemma NotDirty(c: Claims, heard: set<NodeId>, n: Node, h: Header)
    requires DistinctClaims(c) && States(c, h) && Listening(c, heard + {h.sender}, n) && Decided(c, heard, n)
    requires n.Bitmap(h.sender) == h.slots
    ensures Decided(c, heard + {h.sender}, n)
  {
    hide Listening;
    forall j | j in h.slots ensures j in n.slots && n.slots[j] == h.sender { assert j in n.Bitmap(h.sender); }
  }

  /** What is taken is exactly what the sender wins. */
  lemma TakenIsWon(c: Claims, heard: set<NodeId>, n: Node, h: Header, j: Slot)
    requires DistinctClaims(c) && States(c, h) && Listening(c, heard + {h.sender}, n) && Decided(c, heard, n)
    requires j in h.slots
    ensures var owned := n.Owner(j) == Some(h.sender) || j in Taken(n, h.sender, h.configEpoch, h.slots);
            && (owned ==> Winner(c, heard + {h.sender}, j, h.sender))
            && (!owned ==> j in n.slots && Winner(c, heard + {h.sender}, j, n.slots[j]))
  {
    hide Node.WellFormed;
    if j in n.slots { assert Winner(c, heard, j, n.slots[j]); }
  }

  lemma OthersStay(c: Claims, heard: set<NodeId>, n: Node, h: Header, j: Slot)
    requires States(c, h) && Decided(c, heard, n) && j in n.slots && j !in h.slots
    ensures Winner(c, heard + {h.sender}, j, n.slots[j])
  {
    assert Winner(c, heard, j, n.slots[j]);
  }

  lemma ReboundDecided(c: Claims, heard: set<NodeId>, n: Node, h: Header)
    requires DistinctClaims(c) && States(c, h) && Listening(c, heard + {h.sender}, n) && Decided(c, heard, n)
    ensures Decided(c, heard + {h.sender}, Rebind(n, h.sender, Taken(n, h.sender, h.configEpoch, h.slots)))
  {
    hide Winner, Taken, Node.WellFormed, DistinctClaims;
    var taken := Taken(n, h.sender, h.configEpoch, h.slots);
    var r := Rebind(n, h.sender, taken);
    assert taken <= h.slots by { TakenClaimed(n, h); }
    forall j | j in r.slots ensures Winner(c, heard + {h.sender}, j, r.slots[j]) {
      if j in h.slots { TakenIsWon(c, heard, n, h, j); } else { OthersStay(c, heard, n, h, j); }
    }
    forall j | j in h.slots ensures j in r.slots { TakenIsWon(c, heard, n, h, j); }
  }

  lemma TakenClaimed(n: Node, h: Header)
    requires n.WellFormed()
    ensures Taken(n, h.sender, h.configEpoch, h.slots) <= h.slots
  {
  }

  /** The receiver owns nothing, so it is never demoted. */
  lemma NeverDemoted(c: Claims, heard: set<NodeId>, n: Node, h: Header)
    requires States(c, h) && Listening(c, heard + {h.sender}, n) && Decided(c, heard, n)
    ensures UpdateSlots(n, h.sender, h.configEpoch, h.slots) ==
            Rebind(n, h.sender, Taken(n, h.sender, h.configEpoch, h.slots))
  {
    hide Taken;
    forall j ensures n.Owner(j) != Some(n.me) {
      if j in n.slots { assert Winner(c, heard, j, n.slots[j]); }
    }
  }

  lemma SlotsDecided(c: Claims, heard: set<NodeId>, n: Node, h: Header)
    requires DistinctClaims(c) && States(c, h) && Listening(c, heard + {h.sender}, n) && Decided(c, heard, n)
    requires n.IsMaster(h.sender)
    ensures var r := SeeSlots(n, h);
            Listening(c, heard + {h.sender}, r) && Decided(c, heard + {h.sender}, r) && r.me == n.me
  {
    hide Decided, UpdateSlots, Taken, DistinctClaims;
    if DirtySlots(n, h) {
      NeverDemoted(c, heard, n, h);
      ReboundDecided(c, heard, n, h);
    } else {
      NotDirty(c, heard, n, h);
    }
  }

  lemma CollisionListens(c: Claims, heard: set<NodeId>, n: Node, h: Header)
    requires Listening(c, heard, n) && h.sender in n.peers
    ensures var r := SeeCollision(n, h); Listening(c, heard, r) && r.slots == n.slots && r.me == n.me
  {
  }

  /** One header. */
  lemma PingDecides(c: Claims, heard: set<NodeId>, n: Node, h: Header, w: bool)
    requires DistinctClaims(c) && States(c, h) && Listening(c, heard, n) && Decided(c, heard, n)
    ensures n.WellFormed() && h.sender in n.peers && h.sender != n.me
    ensures var r := ProcessPing(n, h, w).node;
            Listening(c, heard + {h.sender}, r) && Decided(c, heard + {h.sender}, r) && r.me == n.me
  {
    hide SeeEpochs, SeeRole, SeeSlots, SeeCollision, OutdatedReply, DistinctClaims, Node.WellFormed, Winner;
    IntroducedListens(c, heard, n, h);
    var n2 := Introduced(n, h);
    SlotsDecided(c, heard, n2, h);
    CollisionListens(c, heard + {h.sender}, SeeSlots(n2, h), h);
  }

  /** Receive a sequence of headers, each perhaps asking for a reply. */
  ghost function Receive(n: Node, hs: seq<(Header, bool)>): (r: Node)
    requires n.WellFormed() && forall i :: 0 <= i < |hs| ==> hs[i].0.sender != n.me
    ensures r.WellFormed() && r.me == n.me
  {
    if hs == [] then n
    else
      var m := Receive(n, hs[..|hs| - 1]);
      Process(m, Ping(hs[|hs| - 1].0, hs[|hs| - 1].1), true).node
  }

  ghost function Senders(hs: seq<(Header, bool)>): set<NodeId> {
    set i | 0 <= i < |hs| :: hs[i].0.sender
  }

  /** The headers of a sequence state the claims of others. */
  ghost predicate AllState(c: Claims, me: NodeId, hs: seq<(Header, bool)>) {
    forall i :: 0 <= i < |hs| ==> States(c, hs[i].0) && hs[i].0.sender != me
  }

  lemma {:induction false} ReceiveDecides(c: Claims, n: Node, hs: seq<(Header, bool)>)
    requires DistinctClaims(c) && Listening(c, {}, n) && n.slots == map[]
    requires AllState(c, n.me, hs)
    ensures Listening(c, Senders(hs), Receive(n, hs)) && Decided(c, Senders(hs), Receive(n, hs))
  {
    hide Decided, DistinctClaims, ProcessPing, Node.WellFormed, Winner;
    if hs == [] {
      assert Senders(hs) == {};
      Empty(c, n);
    } else {
      var last := hs[|hs| - 1];
      var front := hs[..|hs| - 1];
      ReceiveDecides(c, n, front);
      SendersGrow(hs);
      PingDecides(c, Senders(front), Receive(n, front), last.0, last.1);
    }
  }

  lemma Empty(c: Claims, n: Node)
    requires n.slots == map[]
    ensures Decided(c, {}, n)
  {
  }

  lemma SendersGrow(hs: seq<(Header, bool)>)
    requires hs != []
    ensures Senders(hs) == Senders(hs[..|hs| - 1]) + {hs[|hs| - 1].0.sender}
  {
    var front := hs[..|hs| - 1];
    forall p | p in Senders(hs) ensures p in Senders(front) + {hs[|hs| - 1].0.sender} {
      var i :| 0 <= i < |hs| && hs[i].0.sender == p;
      if i < |hs| - 1 { assert front[i] == hs[i]; }
    }
    forall p | p in Senders(front) ensures p in Senders(hs) {
      var i :| 0 <= i < |front| && front[i].0.sender == p;
      assert hs[i] == front[i];
    }
  }

  /** Once every claimant has been heard, in whatever order and however often, a claimed slot
      is bound to its claimant with the greatest epoch and every other slot is unbound. */
  lemma Converges(c: Claims, n: Node, hs: seq<(Header, bool)>, j: Slot)
    requires DistinctClaims(c) && Listening(c, {}, n) && n.slots == map[]
    requires AllState(c, n.me, hs)
    requires Senders(hs) == c.Keys
    ensures var r := Receive(n, hs);
            && (j in r.slots <==> exists q :: q in c && j in c[q].slots)
            && (j in r.slots ==> Winner(c, c.Keys, j, r.slots[j]))
  {
    hide Receive, Node.WellFormed, DistinctClaims;
    ReceiveDecides(c, n, hs);
  }

  /** Two receivers of the same claims agree, whatever each of them heard in which order. */
  lemma SameTable(c: Claims, n: Node, hs: seq<(Header, bool)>, n': Node, hs': seq<(Header, bool)>)
    requires DistinctClaims(c)
    requires Listening(c, {}, n) && n.slots == map[] && AllState(c, n.me, hs)
    requires Listening(c, {}, n') && n'.slots == map[] && AllState(c, n'.me, hs')
    requires Senders(hs) == c.Keys == Senders(hs')
    ensures Receive(n, hs).slots == Receive(n', hs').slots
  {
    hide Receive, Node.WellFormed;
    var r, r' := Receive(n, hs).slots, Receive(n', hs').slots;
    forall j: Slot ensures j in r <==> j in r' {
      Converges(c, n, hs, j);
      Converges(c, n', hs', j);
    }
    forall j | j in r ensures r[j] == r'[j] {
      Converges(c, n, hs, j);
      Converges(c, n', hs', j);
    }
  }
}
