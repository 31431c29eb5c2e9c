/** Elections: who granted a vote to whom, which acknowledgements were counted, who won.

    The history is bookkeeping beside the network: no handler reads it. */
module ClusterElection {
  import opened ClusterModel
  import opened Common
  import opened ClusterNet

  datatype Grant = Grant(voter: NodeId, epoch: nat, candidate: NodeId)

  /** A won election; `stale` counts the acknowledgements that were already in the vote count
      when the election opened. */
  datatype Win = Win(candidate: NodeId, epoch: nat, stale: nat, size: nat)

  datatype History = History(
    grants: set<Grant>,
    delivered: set<(NodeId, nat)>,        // (voter, epoch) of the acknowledgements received
    counted: map<NodeId, set<NodeId>>,    // voters counted in a candidate's open election
    stale: map<NodeId, nat>,
    wins: set<Win>)

  /** The voters who granted `c` their vote in epoch `e`. */
  ghost function Voters(grants: set<Grant>, e: nat, c: NodeId): set<NodeId> {
    set g | g in grants && g.epoch == e && g.candidate == c :: g.voter
  }

  ghost predicate Grants(n: Node, m: Msg, timeOk: bool)
    requires n.WellFormed() && m.AuthRequest?
  {
    m.h.sender in n.peers && GrantsVote(SeeEpochs(n, m.h), m.h, timeOk)
  }

  ghost predicate Counts(n: Node, m: Msg)
    requires n.WellFormed() && m.AuthAck?
  {
    m.h.sender in n.peers && CountsAck(SeeEpochs(n, m.h), m.h)
  }

  ghost predicate Tracks(s: Net, h: History) {
    h.counted.Keys == s.nodes.Keys && h.stale.Keys == s.nodes.Keys
  }

  ghost function RecordDelivery(s: Net, h: History, p: Packet, timeOk: bool): History
    requires Sound(s) && p.to in s.nodes && Tracks(s, h)
  {
    var n := s.nodes[p.to];
    match p.msg
    case AuthRequest(hd) =>
      if Grants(n, p.msg, timeOk)
      then h.(grants := h.grants + {Grant(p.to, SeeEpochs(n, hd).currentEpoch, hd.sender)})
      else h
    case AuthAck(hd) =>
      var h1 := h.(delivered := h.delivered + {(hd.sender, hd.currentEpoch)});
      if !Counts(n, p.msg) then h1
      else if n.authSent then h1.(counted := h.counted[p.to := h.counted[p.to] + {hd.sender}])
      else h1.(stale := h.stale[p.to := h.stale[p.to] + 1])
    case _ => h
  }

  ghost function RecordElection(s: Net, h: History, at: NodeId, t: Timing): History
    requires Sound(s) && at in s.nodes && Tracks(s, h)
  {
    var n := s.nodes[at];
    match ElectionMove(n, t)
    case Scheduled => h.(counted := h.counted[at := {}], stale := h.stale[at := 0])
    case Won => h.(wins := h.wins + {Win(at, n.authEpoch, h.stale[at], n.size)})
    case _ => h
  }

  /** The history after a step. */
  ghost function Record(s: Net, h: History, step: Step): History
    requires Sound(s) && Enabled(s, step) && Tracks(s, h)
  {
    match step
    case Deliver(p, timeOk) => RecordDelivery(s, h, p, timeOk)
    case Failover(at, t, _, _) => RecordElection(s, h, at, t)
    case _ => h
  }

  // -------------------------------------------------------------------------
  // The invariant
  // -------------------------------------------------------------------------

  /** A voter grants at most one vote per epoch, and none beyond its lastVoteEpoch. */
  ghost predicate VotesOnce(s: Net, h: History) {
    && (forall g :: g in h.grants ==> g.voter in s.nodes && g.epoch <= s.nodes[g.voter].lastVoteEpoch)
    && (forall g, g' :: g in h.grants && g' in h.grants && g.voter == g'.voter && g.epoch == g'.epoch ==> g == g')
  }

  /** Votes are only asked and granted for epochs in which the candidate stood. */
  ghost predicate CandidatesStood(s: Net, h: History) {
    && (forall p :: p in s.flight ==> p.msg.h.sender in s.nodes)
    && (forall p :: p in s.flight && p.msg.AuthRequest? ==> p.msg.h.currentEpoch <= s.nodes[p.msg.h.sender].authEpoch)
    && (forall g :: g in h.grants ==> g.candidate in s.nodes && g.epoch <= s.nodes[g.candidate].authEpoch)
  }

  ghost predicate AckFor(p: Packet, v: NodeId, e: nat) {
    p.msg.AuthAck? && p.msg.h.sender == v && p.msg.h.currentEpoch == e
  }

  /** One acknowledgement per grant: in flight, delivered or lost. */
  ghost predicate AcksOnce(s: Net, h: History) {
    && (forall p :: p in s.flight && p.msg.AuthAck? ==>
          && s.flight[p] == 1
          && Grant(p.msg.h.sender, p.msg.h.currentEpoch, p.to) in h.grants
          && (p.msg.h.sender, p.msg.h.currentEpoch) !in h.delivered)
    && (forall p, q :: p in s.flight && q in s.flight && p.msg.AuthAck? ==>
          AckFor(q, p.msg.h.sender, p.msg.h.currentEpoch) ==> p == q)
    && (forall d :: d in h.delivered ==> exists g :: g in h.grants && g.voter == d.0 && g.epoch == d.1)
  }

  /** The vote count is the number of voters counted in this election plus the stale part. */
  ghost predicate CountsVoters(n: Node, c: NodeId, h: History)
    requires c in h.counted && c in h.stale
  {
    && n.authCount == |h.counted[c]| + h.stale[c]
    && (!n.authSent ==> h.counted[c] == {})
    && (forall v :: v in h.counted[c] ==> Grant(v, n.authEpoch, c) in h.grants && (v, n.authEpoch) in h.delivered)
  }

  /** A won election had its quorum of grants, short of the stale acknowledgements. */
  ghost predicate WinsBacked(h: History) {
    forall w :: w in h.wins ==> |Voters(h.grants, w.epoch, w.candidate)| + w.stale >= w.size / 2 + 1
  }

  ghost predicate ElectionInvariant(s: Net, h: History) {
    && Sound(s) && EpochInvariant(s) && Tracks(s, h)
    && VotesOnce(s, h) && CandidatesStood(s, h) && AcksOnce(s, h) && WinsBacked(h)
    && (forall c :: c in s.nodes ==> CountsVoters(s.nodes[c], c, h))
  }

  // -------------------------------------------------------------------------
  // What the invariant says
  // -------------------------------------------------------------------------

  /** Every epoch has at most one candidate granted votes by a majority. `electorate` is any
      set of masters containing all who voted in that epoch. */
  lemma MajorityIsUnique(s: Net, h: History, e: nat, electorate: set<NodeId>, c: NodeId, d: NodeId)
    requires ElectionInvariant(s, h)
    requires forall g :: g in h.grants && g.epoch == e ==> g.voter in electorate
    requires 2 * |Voters(h.grants, e, c)| > |electorate|
    requires 2 * |Voters(h.grants, e, d)| > |electorate|
    ensures c == d
  {
    hide EpochInvariant, CandidatesStood, AcksOnce, WinsBacked, CountsVoters;
    var v := QuorumsMeet(Voters(h.grants, e, c), Voters(h.grants, e, d), electorate);
    assert Grant(v, e, c) in h.grants && Grant(v, e, d) in h.grants;
  }

  /** Two majorities of a set have a member in common. */
  lemma QuorumsMeet<T>(a: set<T>, b: set<T>, u: set<T>) returns (v: T)
    requires a <= u && b <= u && 2 * |a| > |u| && 2 * |b| > |u|
    ensures v in a && v in b
  {
    SubsetSize(a + b, u);
    assert |a + b| == |a| + |b| - |a * b|;
    v :| v in a * b;
  }

  /** Two different replicas cannot win the same epoch, unless one of them had counted an
      acknowledgement between the reset of its count and the opening of its election. */
  lemma WinnerIsUnique(s: Net, h: History, electorate: set<NodeId>, w: Win, w': Win)
    requires ElectionInvariant(s, h) && w in h.wins && w' in h.wins && w.epoch == w'.epoch
    requires forall g :: g in h.grants && g.epoch == w.epoch ==> g.voter in electorate
    requires w.size >= |electorate| && w'.size >= |electorate|
    requires w.stale == 0 && w'.stale == 0
    ensures w.candidate == w'.candidate
  {
    MajorityIsUnique(s, h, w.epoch, electorate, w.candidate, w'.candidate);
  }

  // -------------------------------------------------------------------------
  // Every step keeps it
  // -------------------------------------------------------------------------

  /** The election fields of a server. */
  ghost predicate SameElection(n: Node, r: Node) {
    && r.lastVoteEpoch == n.lastVoteEpoch && r.authEpoch == n.authEpoch
    && r.authCount == n.authCount && r.authSent == n.authSent && r.size == n.size
  }

  lemma ProcessKeepsElection(n: Node, m: Msg, timeOk: bool)
    requires n.WellFormed() && m.h.sender != n.me && (m.Ping? || m.Update? || m.Other?)
    ensures var o := Process(n, m, timeOk);
            SameElection(n, o.node) && forall r :: r in o.replies ==>
                r.h.sender == n.me && !r.AuthRequest? && !r.AuthAck?
  {
    hide SeeRole, SeeSlots, UpdateSlots, FirstOutdated, DirtySlots, Node.WellFormed;
  }

  lemma CommandKeepsElection(n: Node, op: Op)
    requires n.WellFormed() && Allowed(n, op)
    ensures SameElection(n, Apply(n, op))
  {
    hide NeedsBump, Node.WellFormed;
  }

  // Each part of the invariant survives under its own mild conditions.

  lemma WinsBackedKept(h: History, h': History)
    requires WinsBacked(h) && h.grants <= h'.grants && h'.wins == h.wins
    ensures WinsBacked(h')
  {
    forall w | w in h'.wins ensures |Voters(h'.grants, w.epoch, w.candidate)| + w.stale >= w.size / 2 + 1 {
      SubsetSize(Voters(h.grants, w.epoch, w.candidate), Voters(h'.grants, w.epoch, w.candidate));
    }
  }

  lemma CountsVotersKept(n: Node, n': Node, c: NodeId, h: History, h': History)
    requires c in h.counted && c in h.stale && c in h'.counted && c in h'.stale
    requires CountsVoters(n, c, h) && h.grants <= h'.grants && h.delivered <= h'.delivered
    requires h'.counted[c] == h.counted[c] && h'.stale[c] == h.stale[c]
    requires n'.authEpoch == n.authEpoch && n'.authCount == n.authCount && n'.authSent == n.authSent
    ensures CountsVoters(n', c, h')
  {
  }

  /** Epochs only grow, and a request in flight is for an epoch its sender has stood in. */
  ghost predicate Forward(s: Net, s': Net) {
    && s'.nodes.Keys == s.nodes.Keys
    && (forall i :: i in s.nodes ==> s.nodes[i].lastVoteEpoch <= s'.nodes[i].lastVoteEpoch)
    && (forall i :: i in s.nodes ==> s.nodes[i].authEpoch <= s'.nodes[i].authEpoch)
    && (forall p :: p in s'.flight ==> p.msg.h.sender in s.nodes)
    && (forall p :: p in s'.flight && p.msg.AuthRequest? ==>
          p in s.flight || p.msg.h.currentEpoch <= s'.nodes[p.msg.h.sender].authEpoch)
  }

  lemma ForwardKeeps(s: Net, h: History, s': Net, h': History)
    requires VotesOnce(s, h) && CandidatesStood(s, h) && Forward(s, s') && h'.grants == h.grants
    ensures VotesOnce(s', h') && CandidatesStood(s', h')
  {
  }

  /** No acknowledgement was added to the flight. */
  ghost predicate NoNewAcks(s: Net, s': Net) {
    forall p :: p in s'.flight && p.msg.AuthAck? ==> p in s.flight && s'.flight[p] <= s.flight[p]
  }

  lemma NoNewAcksKeeps(s: Net, h: History, s': Net, h': History)
    requires AcksOnce(s, h) && NoNewAcks(s, s') && h'.grants == h.grants && h'.delivered == h.delivered
    ensures AcksOnce(s', h')
  {
  }

  /** What is left to show when a step grants no vote and delivers no acknowledgement. */
  lemma Combine(s: Net, h: History, s': Net, h': History)
    requires ElectionInvariant(s, h) && Sound(s') && EpochInvariant(s') && Tracks(s', h')
    requires Forward(s, s') && NoNewAcks(s, s') && h'.grants == h.grants && h'.delivered == h.delivered
    requires WinsBacked(h') && forall c :: c in s'.nodes ==> CountsVoters(s'.nodes[c], c, h')
    ensures ElectionInvariant(s', h')
  {
    hide Sound, EpochInvariant, VotesOnce, CandidatesStood, AcksOnce, Forward, NoNewAcks, WinsBacked, CountsVoters;
    ForwardKeeps(s, h, s', h');
    NoNewAcksKeeps(s, h, s', h');
  }

  /** Nothing happened to elections: the fields are the same and no vote message was added. */
  ghost predicate Calm(s: Net, s': Net) {
    && s'.nodes.Keys == s.nodes.Keys
    && (forall i :: i in s.nodes ==> SameElection(s.nodes[i], s'.nodes[i]))
    && (forall p :: p in s'.flight ==> p.msg.h.sender in s.nodes)
    && (forall p :: p in s'.flight && (p.msg.AuthRequest? || p.msg.AuthAck?) ==>
          p in s.flight && s'.flight[p] <= s.flight[p])
  }

  lemma CalmCounts(s: Net, s': Net, h: History)
    requires ElectionInvariant(s, h) && Calm(s, s')
    ensures Tracks(s', h) && forall c :: c in s'.nodes ==> CountsVoters(s'.nodes[c], c, h)
  {
    hide Sound, EpochInvariant, VotesOnce, CandidatesStood, AcksOnce, WinsBacked, CountsVoters;
    forall c | c in s'.nodes ensures CountsVoters(s'.nodes[c], c, h) {
      CountsVotersKept(s.nodes[c], s'.nodes[c], c, h, h);
    }
  }

  lemma CalmForward(s: Net, s': Net)
    requires Calm(s, s')
    ensures Forward(s, s') && NoNewAcks(s, s')
  {
  }

  lemma CalmKeeps(s: Net, s': Net, h: History)
    requires ElectionInvariant(s, h) && Sound(s') && EpochInvariant(s') && Calm(s, s')
    ensures ElectionInvariant(s', h)
  {
    hide *;
    CalmCounts(s, s', h);
    CalmForward(s, s');
    InvariantParts(s, h);
    Combine(s, h, s', h);
  }

  lemma InvariantParts(s: Net, h: History)
    requires ElectionInvariant(s, h)
    ensures Sound(s) && Tracks(s, h) && WinsBacked(h)
    ensures VotesOnce(s, h) && CandidatesStood(s, h) && AcksOnce(s, h)
    ensures forall c :: c in s.nodes ==> CountsVoters(s.nodes[c], c, h)
  {
    hide Sound, EpochInvariant, VotesOnce, CandidatesStood, AcksOnce, WinsBacked, CountsVoters;
  }

  // A step that changes nothing of the elections

  ghost predicate Involved(s: Net, step: Step)
    requires Sound(s) && Enabled(s, step)
  {
    match step
    case Deliver(p, timeOk) =>
      p.msg.AuthAck? || (p.msg.AuthRequest? && Grants(s.nodes[p.to], p.msg, timeOk))
    case Failover(at, t, _, _) => !ElectionMove(s.nodes[at], t).Quiet?
    case _ => false
  }

  lemma UninvolvedIsCalm(s: Net, step: Step)
    requires EpochInvariant(s) && Sound(s) && Enabled(s, step) && !Involved(s, step)
    requires forall p :: p in s.flight ==> p.msg.h.sender in s.nodes
    ensures Calm(s, Next(s, step))
  {
    hide EpochInvariant, Calm, Next, Allowed, ElectionMove, Node.WellFormed, Grants;
    match step
    case Deliver(p, timeOk) => UngrantedDeliveryIsCalm(s, p, timeOk);
    case Command(_, _) => CommandIsCalm(s, step);
    case Failover(_, _, _, _) => QuietFailoverIsCalm(s, step);
    case _ => TrafficIsCalm(s, step);
  }

  lemma CommandIsCalm(s: Net, step: Step)
    requires Sound(s) && step.Command? && Enabled(s, step)
    requires forall p :: p in s.flight ==> p.msg.h.sender in s.nodes
    ensures Calm(s, Next(s, step))
  {
    hide Apply, Allowed, Node.WellFormed;
    CommandKeepsElection(s.nodes[step.at], step.op);
  }

  lemma QuietFailoverIsCalm(s: Net, step: Step)
    requires Sound(s) && step.Failover? && Enabled(s, step) && ElectionMove(s.nodes[step.at], step.timing).Quiet?
    requires forall p :: p in s.flight ==> p.msg.h.sender in s.nodes
    ensures Calm(s, Next(s, step))
  {
    hide ElectionMove, Node.WellFormed;
  }

  lemma TrafficIsCalm(s: Net, step: Step)
    requires Sound(s) && (step.Send? || step.Lose?) && Enabled(s, step)
    requires forall p :: p in s.flight ==> p.msg.h.sender in s.nodes
    ensures Calm(s, Next(s, step))
  {
    hide Node.WellFormed;
  }

  lemma UngrantedDeliveryIsCalm(s: Net, p: Packet, timeOk: bool)
    requires EpochInvariant(s) && Enabled(s, Deliver(p, timeOk)) && !Involved(s, Deliver(p, timeOk))
    requires forall p :: p in s.flight ==> p.msg.h.sender in s.nodes
    ensures Calm(s, Next(s, Deliver(p, timeOk)))
  {
    hide EpochsBounded, MsgBounded, Process, Node.WellFormed, Posted, GrantsVote, SeeEpochs;
    var o := Process(s.nodes[p.to], p.msg, timeOk);
    UngrantedIsCalm(s.nodes[p.to], p.msg, timeOk);
    forall q | q in Posted(p.msg.h.sender, o.replies)
      ensures q.msg.h.sender == p.to && !q.msg.AuthRequest? && !q.msg.AuthAck?
    {
      PostedTo(p.msg.h.sender, o.replies, q);
    }
  }

  lemma UngrantedIsCalm(n: Node, m: Msg, timeOk: bool)
    requires n.WellFormed() && m.h.sender != n.me && !m.AuthAck? && !(m.AuthRequest? && Grants(n, m, timeOk))
    ensures var o := Process(n, m, timeOk);
            SameElection(n, o.node) && forall r :: r in o.replies ==>
                r.h.sender == n.me && !r.AuthRequest? && !r.AuthAck?
  {
    hide GrantsVote, Node.WellFormed, ProcessPing, ProcessUpdate;
    if !m.AuthRequest? { ProcessKeepsElection(n, m, timeOk); }
  }

  // A vote is granted

  lemma GrantFacts(n: Node, m: Msg, timeOk: bool)
    requires n.WellFormed() && EpochsBounded(n) && m.h.sender != n.me && m.AuthRequest? && Grants(n, m, timeOk)
    ensures var o := Process(n, m, timeOk);
            var e := SeeEpochs(n, m.h).currentEpoch;
            && e == m.h.currentEpoch && n.lastVoteEpoch < e == o.node.lastVoteEpoch
            && SameElection(n.(lastVoteEpoch := e), o.node)
            && |o.replies| == 1 && o.replies[0].AuthAck?
            && o.replies[0].h.sender == n.me && o.replies[0].h.currentEpoch == e
  {
    hide Node.WellFormed, Node.Bitmap;
  }

  lemma GrantVotesOnce(s: Net, h: History, s': Net, h': History, g: Grant)
    requires VotesOnce(s, h) && h'.grants == h.grants + {g} && s'.nodes.Keys == s.nodes.Keys
    requires g.voter in s.nodes && s.nodes[g.voter].lastVoteEpoch < g.epoch <= s'.nodes[g.voter].lastVoteEpoch
    requires forall i :: i in s.nodes ==> s.nodes[i].lastVoteEpoch <= s'.nodes[i].lastVoteEpoch
    ensures VotesOnce(s', h')
  {
  }

  lemma GrantCandidatesStood(s: Net, h: History, s': Net, h': History, g: Grant)
    requires CandidatesStood(s, h) && h'.grants == h.grants + {g} && s'.nodes.Keys == s.nodes.Keys
    requires g.candidate in s.nodes && g.epoch <= s.nodes[g.candidate].authEpoch
    requires forall i :: i in s.nodes ==> s.nodes[i].authEpoch <= s'.nodes[i].authEpoch
    requires forall p :: p in s'.flight ==> p.msg.h.sender in s.nodes
    requires forall p :: p in s'.flight && p.msg.AuthRequest? ==> p in s.flight
    ensures CandidatesStood(s', h')
  {
  }

  lemma GrantAcksOnce(s: Net, h: History, s': Net, h': History, g: Grant, p: Packet, q: Packet)
    requires AcksOnce(s, h) && h' == h.(grants := h.grants + {g})
    requires forall g' :: g' in h.grants ==> !(g'.voter == g.voter && g'.epoch == g.epoch)
    requires s'.flight == s.flight - multiset{p} + multiset{q} && q.to == g.candidate && AckFor(q, g.voter, g.epoch)
    ensures AcksOnce(s', h')
  {
    forall r | r in s.flight && r.msg.AuthAck? ensures !AckFor(r, g.voter, g.epoch) {
      assert Grant(r.msg.h.sender, r.msg.h.currentEpoch, r.to) in h.grants;
    }
    assert q !in s.flight;
  }

  /** What a granted vote does to the network and the history. */
  lemma GrantShape(s: Net, h: History, p: Packet, timeOk: bool) returns (n': Node, q: Packet, g: Grant)
    requires ElectionInvariant(s, h) && Enabled(s, Deliver(p, timeOk))
    requires p.msg.AuthRequest? && Grants(s.nodes[p.to], p.msg, timeOk)
    ensures Next(s, Deliver(p, timeOk)) == Net(s.nodes[p.to := n'], s.flight - multiset{p} + multiset{q})
    ensures Record(s, h, Deliver(p, timeOk)) == h.(grants := h.grants + {g})
    ensures g.voter == p.to && q.to == g.candidate && AckFor(q, g.voter, g.epoch)
    ensures g.candidate in s.nodes && g.epoch <= s.nodes[g.candidate].authEpoch
    ensures s.nodes[p.to].lastVoteEpoch < g.epoch && SameElection(s.nodes[p.to].(lastVoteEpoch := g.epoch), n')
    ensures forall g' :: g' in h.grants ==> !(g'.voter == g.voter && g'.epoch == g.epoch)
    ensures forall r :: r in s.flight ==> r.msg.h.sender in s.nodes
  {
    hide EpochsBounded, AcksOnce, WinsBacked, CountsVoters, Process, Node.WellFormed, GrantsVote;
    var o := Process(s.nodes[p.to], p.msg, timeOk);
    GrantFacts(s.nodes[p.to], p.msg, timeOk);
    n' := o.node;
    q := Packet(p.msg.h.sender, o.replies[0]);
    g := Grant(p.to, p.msg.h.currentEpoch, p.msg.h.sender);
    assert o.replies[1..] == [];
    assert Posted(p.msg.h.sender, o.replies) == multiset{q};
  }

  lemma GrantKeepsCounts(s: Net, h: History, p: Packet, timeOk: bool)
    requires ElectionInvariant(s, h) && Enabled(s, Deliver(p, timeOk))
    requires p.msg.AuthRequest? && Grants(s.nodes[p.to], p.msg, timeOk)
    ensures var s', h' := Next(s, Deliver(p, timeOk)), Record(s, h, Deliver(p, timeOk));
            Tracks(s', h') && WinsBacked(h') && forall c :: c in s'.nodes ==> CountsVoters(s'.nodes[c], c, h')
  {
    hide Sound, EpochInvariant, VotesOnce, CandidatesStood, AcksOnce, WinsBacked, CountsVoters, Next, Record, Grants;
    var s', h' := Next(s, Deliver(p, timeOk)), Record(s, h, Deliver(p, timeOk));
    var n', q, g := GrantShape(s, h, p, timeOk);
    WinsBackedKept(h, h');
    forall c | c in s'.nodes ensures CountsVoters(s'.nodes[c], c, h') {
      CountsVotersKept(s.nodes[c], s'.nodes[c], c, h, h');
    }
  }

  lemma GrantKeepsVotes(s: Net, h: History, p: Packet, timeOk: bool)
    requires ElectionInvariant(s, h) && Enabled(s, Deliver(p, timeOk))
    requires p.msg.AuthRequest? && Grants(s.nodes[p.to], p.msg, timeOk)
    ensures var s', h' := Next(s, Deliver(p, timeOk)), Record(s, h, Deliver(p, timeOk));
            VotesOnce(s', h') && CandidatesStood(s', h') && AcksOnce(s', h')
  {
    hide Sound, EpochInvariant, VotesOnce, CandidatesStood, AcksOnce, WinsBacked, CountsVoters, Next, Record, Grants;
    var s', h' := Next(s, Deliver(p, timeOk)), Record(s, h, Deliver(p, timeOk));
    var n', q, g := GrantShape(s, h, p, timeOk);
    GrantVotesOnce(s, h, s', h', g);
    GrantCandidatesStood(s, h, s', h', g);
    GrantAcksOnce(s, h, s', h', g, p, q);
  }

  /** A vote is granted: the voter had none in this epoch. */
  lemma GrantKeeps(s: Net, h: History, p: Packet, timeOk: bool)
    requires ElectionInvariant(s, h) && Sound(s) && Enabled(s, Deliver(p, timeOk)) && EpochInvariant(s)
    requires p.msg.AuthRequest? && Grants(s.nodes[p.to], p.msg, timeOk)
    ensures ElectionInvariant(Next(s, Deliver(p, timeOk)), Record(s, h, Deliver(p, timeOk)))
  {
    hide Sound, EpochInvariant, VotesOnce, CandidatesStood, AcksOnce, WinsBacked, CountsVoters, Next, Record, Grants;
    StepKeepsEpochs(s, Deliver(p, timeOk));
    GrantKeepsVotes(s, h, p, timeOk);
    GrantKeepsCounts(s, h, p, timeOk);
  }

  // An acknowledgement arrives

  lemma AckFacts(n: Node, m: Msg, timeOk: bool)
    requires n.WellFormed() && m.h.sender != n.me && m.AuthAck?
    ensures var o := Process(n, m, timeOk);
            && o.replies == []
            && SameElection(if Counts(n, m) then n.(authCount := n.authCount + 1) else n, o.node)
            && (Counts(n, m) ==> m.h.currentEpoch >= n.authEpoch)
  {
    hide Node.WellFormed, Node.Bitmap;
  }

  /** What a delivered acknowledgement does to the network. */
  lemma AckShape(s: Net, h: History, p: Packet, timeOk: bool) returns (n': Node)
    requires ElectionInvariant(s, h) && Enabled(s, Deliver(p, timeOk)) && p.msg.AuthAck?
    ensures Next(s, Deliver(p, timeOk)) == Net(s.nodes[p.to := n'], s.flight - multiset{p})
    ensures var n := s.nodes[p.to];
            && SameElection(if Counts(n, p.msg) then n.(authCount := n.authCount + 1) else n, n')
            && (Counts(n, p.msg) ==> p.msg.h.currentEpoch == n.authEpoch)
    ensures Grant(p.msg.h.sender, p.msg.h.currentEpoch, p.to) in h.grants
    ensures (p.msg.h.sender, p.msg.h.currentEpoch) !in h.delivered
    ensures forall r :: r in s.flight ==> r.msg.h.sender in s.nodes
  {
    hide EpochsBounded, MsgBounded, WinsBacked, CountsVoters, Process, Node.WellFormed, Counts;
    n' := Process(s.nodes[p.to], p.msg, timeOk).node;
    AckFacts(s.nodes[p.to], p.msg, timeOk);
  }

  lemma AckDelivered(s: Net, h: History, s': Net, h': History, p: Packet)
    requires AcksOnce(s, h) && p in s.flight && p.msg.AuthAck? && s'.flight == s.flight - multiset{p}
    requires h'.grants == h.grants && h'.delivered == h.delivered + {(p.msg.h.sender, p.msg.h.currentEpoch)}
    ensures AcksOnce(s', h')
  {
    assert Grant(p.msg.h.sender, p.msg.h.currentEpoch, p.to) in h.grants;
    forall q | q in s'.flight && q.msg.AuthAck? ensures (q.msg.h.sender, q.msg.h.currentEpoch) !in h'.delivered {
      assert q in s.flight && q != p;
      assert !AckFor(q, p.msg.h.sender, p.msg.h.currentEpoch);
    }
  }

  /** A counted acknowledgement adds one voter, or one stale vote. */
  lemma AckCounted(n: Node, n': Node, h: History, h': History, c: NodeId, v: NodeId)
    requires c in h.counted && c in h.stale && CountsVoters(n, c, h) && c in h'.counted && c in h'.stale
    requires SameElection(n.(authCount := n.authCount + 1), n')
    requires Grant(v, n.authEpoch, c) in h.grants && (v, n.authEpoch) !in h.delivered
    requires h'.grants == h.grants && h'.delivered == h.delivered + {(v, n.authEpoch)}
    requires if n.authSent then h'.counted[c] == h.counted[c] + {v} && h'.stale[c] == h.stale[c]
             else h'.counted[c] == h.counted[c] && h'.stale[c] == h.stale[c] + 1
    ensures CountsVoters(n', c, h')
  {
    assert v !in h.counted[c];
  }

  lemma AckRecord(s: Net, h: History, p: Packet, timeOk: bool)
    requires Sound(s) && Enabled(s, Deliver(p, timeOk)) && Tracks(s, h) && p.msg.AuthAck?
    ensures var h' := Record(s, h, Deliver(p, timeOk));
            && h'.grants == h.grants && h'.wins == h.wins && Tracks(s, h')
            && h'.delivered == h.delivered + {(p.msg.h.sender, p.msg.h.currentEpoch)}
            && (forall c :: c in s.nodes && (c != p.to || !Counts(s.nodes[c], p.msg)) ==>
                  h'.counted[c] == h.counted[c] && h'.stale[c] == h.stale[c])
            && (Counts(s.nodes[p.to], p.msg) ==>
                  if s.nodes[p.to].authSent
                  then h'.counted[p.to] == h.counted[p.to] + {p.msg.h.sender} && h'.stale[p.to] == h.stale[p.to]
                  else h'.counted[p.to] == h.counted[p.to] && h'.stale[p.to] == h.stale[p.to] + 1)
  {
    hide Counts, Node.WellFormed;
  }

  lemma AckKeepsCounts(s: Net, h: History, p: Packet, timeOk: bool)
    requires ElectionInvariant(s, h) && Enabled(s, Deliver(p, timeOk)) && p.msg.AuthAck?
    ensures var s', h' := Next(s, Deliver(p, timeOk)), Record(s, h, Deliver(p, timeOk));
            Tracks(s', h') && WinsBacked(h') && forall c :: c in s'.nodes ==> CountsVoters(s'.nodes[c], c, h')
  {
    hide Node.WellFormed, EpochInvariant, VotesOnce, CandidatesStood, AcksOnce, WinsBacked, CountsVoters, Next,
        Record, Counts;
    var s', h' := Next(s, Deliver(p, timeOk)), Record(s, h, Deliver(p, timeOk));
    var n' := AckShape(s, h, p, timeOk);
    AckRecord(s, h, p, timeOk);
    WinsBackedKept(h, h');
    forall c | c in s'.nodes ensures CountsVoters(s'.nodes[c], c, h') {
      if c == p.to && Counts(s.nodes[c], p.msg) {
        AckCounted(s.nodes[c], s'.nodes[c], h, h', c, p.msg.h.sender);
      } else {
        CountsVotersKept(s.nodes[c], s'.nodes[c], c, h, h');
      }
    }
  }

  lemma AckKeepsVotes(s: Net, h: History, p: Packet, timeOk: bool)
    requires ElectionInvariant(s, h) && Enabled(s, Deliver(p, timeOk)) && p.msg.AuthAck?
    ensures var s', h' := Next(s, Deliver(p, timeOk)), Record(s, h, Deliver(p, timeOk));
            VotesOnce(s', h') && CandidatesStood(s', h') && AcksOnce(s', h')
  {
    hide Sound, EpochInvariant, VotesOnce, CandidatesStood, AcksOnce, WinsBacked, CountsVoters, Next, Record, Counts;
    var s', h' := Next(s, Deliver(p, timeOk)), Record(s, h, Deliver(p, timeOk));
    var n' := AckShape(s, h, p, timeOk);
    AckRecord(s, h, p, timeOk);
    ForwardKeeps(s, h, s', h');
    AckDelivered(s, h, s', h', p);
  }

  lemma AckKeeps(s: Net, h: History, p: Packet, timeOk: bool)
    requires ElectionInvariant(s, h) && Sound(s) && Enabled(s, Deliver(p, timeOk)) && EpochInvariant(s)
    requires p.msg.AuthAck?
    ensures ElectionInvariant(Next(s, Deliver(p, timeOk)), Record(s, h, Deliver(p, timeOk)))
  {
    hide Sound, EpochInvariant, VotesOnce, CandidatesStood, AcksOnce, WinsBacked, CountsVoters, Next, Record;
    StepKeepsEpochs(s, Deliver(p, timeOk));
    AckKeepsVotes(s, h, p, timeOk);
    AckKeepsCounts(s, h, p, timeOk);
  }

  // A replica schedules, opens or wins an election

  lemma ElectionFacts(n: Node, t: Timing)
    requires n.WellFormed()
    ensures var n' := SlaveFailover(n, t);
            match ElectionMove(n, t)
            case Quiet => n' == n
            case Scheduled => SameElection(n.(authCount := 0, authSent := false), n')
            case Opened => !n.authSent && SameElection(n.(authEpoch := n.currentEpoch + 1, authSent := true), n')
                && n'.currentEpoch == n'.authEpoch
            case Won => n.authSent && n.authCount >= n.size / 2 + 1 && SameElection(n, n')
  {
    hide Node.WellFormed, Node.Bitmap;
  }

  lemma WinBacked(h: History, h': History, n: Node, c: NodeId)
    requires c in h.counted && c in h.stale && CountsVoters(n, c, h) && WinsBacked(h)
    requires n.authCount >= n.size / 2 + 1
    requires h' == h.(wins := h.wins + {Win(c, n.authEpoch, h.stale[c], n.size)})
    ensures WinsBacked(h')
  {
    assert h.counted[c] <= Voters(h.grants, n.authEpoch, c) by {
      forall v | v in h.counted[c] ensures v in Voters(h.grants, n.authEpoch, c) {
        assert Grant(v, n.authEpoch, c) in h.grants;
      }
    }
    SubsetSize(h.counted[c], Voters(h.grants, n.authEpoch, c));
  }

  lemma SendersKnown(s: Net, h: History)
    requires CandidatesStood(s, h)
    ensures forall r :: r in s.flight ==> r.msg.h.sender in s.nodes
  {
  }

  lemma BoundedAuth(n: Node, s: Net, at: NodeId)
    requires EpochInvariant(s) && at in s.nodes && n == s.nodes[at]
    ensures n.authEpoch <= n.currentEpoch
  {
    assert EpochsBounded(n);
  }

  lemma OpenedShape(s: Net, h: History, step: Step)
    requires ElectionInvariant(s, h) && EpochInvariant(s) && step.Failover? && Enabled(s, step)
    requires ElectionMove(s.nodes[step.at], step.timing).Opened?
    ensures Forward(s, Next(s, step)) && NoNewAcks(s, Next(s, step))
  {
    hide EpochsBounded, MsgBounded, Node.WellFormed, VotesOnce, CandidatesStood, AcksOnce, WinsBacked, CountsVoters,
        SlaveFailover, ElectionMove;
    ElectionFacts(s.nodes[step.at], step.timing);
    BoundedAuth(s.nodes[step.at], s, step.at);
    SendersKnown(s, h);
    var n := SlaveFailover(s.nodes[step.at], step.timing);
    var m := AuthRequest(BuildHeader(n, step.force));
    assert m.h.sender == step.at && m.h.currentEpoch == n.authEpoch;
    hide EpochInvariant, BuildHeader, Broadcast, Forward, NoNewAcks;
    RequestsSent(s, step.at, n, step.voters, m);
  }

  lemma RequestsSent(s: Net, at: NodeId, n: Node, voters: set<NodeId>, m: Msg)
    requires at in s.nodes && s.nodes[at].lastVoteEpoch <= n.lastVoteEpoch && s.nodes[at].authEpoch <= n.authEpoch
    requires m.AuthRequest? && m.h.sender == at && m.h.currentEpoch == n.authEpoch
    requires forall p :: p in s.flight ==> p.msg.h.sender in s.nodes
    ensures var s' := Net(s.nodes[at := n], s.flight + Broadcast(voters, m)); Forward(s, s') && NoNewAcks(s, s')
  {
  }

  lemma ScheduledOrWonShape(s: Net, h: History, step: Step)
    requires ElectionInvariant(s, h) && step.Failover? && Enabled(s, step)
    requires var m := ElectionMove(s.nodes[step.at], step.timing); m.Scheduled? || m.Won?
    ensures Forward(s, Next(s, step)) && NoNewAcks(s, Next(s, step))
  {
    hide EpochsBounded, MsgBounded, Node.WellFormed, VotesOnce, CandidatesStood, AcksOnce, WinsBacked, CountsVoters,
        SlaveFailover, ElectionMove;
    ElectionFacts(s.nodes[step.at], step.timing);
    SendersKnown(s, h);
  }

  lemma MoveCounts(s: Net, h: History, step: Step)
    requires ElectionInvariant(s, h) && step.Failover? && Enabled(s, step)
    requires !ElectionMove(s.nodes[step.at], step.timing).Quiet?
    ensures var s', h' := Next(s, step), Record(s, h, step);
            && Tracks(s', h') && h'.grants == h.grants && h'.delivered == h.delivered
            && forall c :: c in s'.nodes ==> CountsVoters(s'.nodes[c], c, h')
  {
    hide EpochInvariant, EpochsBounded, MsgBounded, Node.WellFormed, VotesOnce, CandidatesStood, AcksOnce, WinsBacked,
        CountsVoters,
      SlaveFailover, ElectionMove, BuildHeader, Broadcast;
    var s', h' := Next(s, step), Record(s, h, step);
    assert Tracks(s', h');
    forall c | c in s'.nodes ensures CountsVoters(s'.nodes[c], c, h') {
      if c == step.at {
        MoverCounts(s.nodes[c], c, step.timing, h, h');
      } else {
        CountsVotersKept(s.nodes[c], s'.nodes[c], c, h, h');
      }
    }
  }

  lemma MoverCounts(n: Node, c: NodeId, t: Timing, h: History, h': History)
    requires n.WellFormed() && c in h.counted && c in h.stale && CountsVoters(n, c, h) && c in h'.counted
    requires c in h'.stale
    requires h'.grants == h.grants && h'.delivered == h.delivered
    requires if ElectionMove(n, t).Scheduled? then h'.counted[c] == {} && h'.stale[c] == 0
             else h'.counted[c] == h.counted[c] && h'.stale[c] == h.stale[c]
    ensures CountsVoters(SlaveFailover(n, t), c, h')
  {
    hide Node.WellFormed, SlaveFailover, ElectionMove;
    ElectionFacts(n, t);
  }

  lemma MoveWins(s: Net, h: History, step: Step)
    requires ElectionInvariant(s, h) && step.Failover? && Enabled(s, step)
    requires !ElectionMove(s.nodes[step.at], step.timing).Quiet?
    ensures WinsBacked(Record(s, h, step))
  {
    hide EpochsBounded, MsgBounded, Node.WellFormed, VotesOnce, CandidatesStood, AcksOnce, WinsBacked, CountsVoters,
        SlaveFailover, ElectionMove;
    var h' := Record(s, h, step);
    ElectionFacts(s.nodes[step.at], step.timing);
    if ElectionMove(s.nodes[step.at], step.timing).Won? {
      WinBacked(h, h', s.nodes[step.at], step.at);
    } else {
      WinsBackedKept(h, h');
    }
  }

  lemma MoveKeeps(s: Net, h: History, step: Step)
    requires ElectionInvariant(s, h) && Tracks(s, h) && Sound(s) && EpochInvariant(s) && step.Failover?
    requires Enabled(s, step)
    requires !ElectionMove(s.nodes[step.at], step.timing).Quiet?
    ensures ElectionInvariant(Next(s, step), Record(s, h, step))
  {
    hide ElectionInvariant, Node.WellFormed, EpochInvariant, Forward, NoNewAcks, WinsBacked, CountsVoters, Next,
        Record, ElectionMove;
    InvariantParts(s, h);
    StepKeepsEpochs(s, step);
    if ElectionMove(s.nodes[step.at], step.timing).Opened? {
      OpenedShape(s, h, step);
    } else {
      ScheduledOrWonShape(s, h, step);
    }
    MoveCounts(s, h, step);
    MoveWins(s, h, step);
    Combine(s, h, Next(s, step), Record(s, h, step));
  }

  /** Every step keeps the election invariant. */
  lemma StepKeepsElections(s: Net, h: History, step: Step)
    requires ElectionInvariant(s, h) && Sound(s) && EpochInvariant(s) && Enabled(s, step)
    ensures Tracks(s, h) && ElectionInvariant(Next(s, step), Record(s, h, step))
  {
    hide ElectionInvariant, Sound, EpochInvariant, CandidatesStood, Next, Calm, Grants, Counts, ElectionMove, Allowed;
    InvariantParts(s, h);
    if Involved(s, step) {
      match step
      case Deliver(p, timeOk) =>
        if p.msg.AuthAck? { AckKeeps(s, h, p, timeOk); } else { GrantKeeps(s, h, p, timeOk); }
      case Failover(at, t, _, _) => MoveKeeps(s, h, step);
    } else {
      SendersKnown(s, h);
      UninvolvedIsCalm(s, step);
      StepKeepsEpochs(s, step);
      CalmKeeps(s, Next(s, step), h);
    }
  }

  // -------------------------------------------------------------------------
  // Runs
  // -------------------------------------------------------------------------

  /** A run together with its history. */
  ghost predicate IsRecordedRun(states: seq<Net>, history: seq<History>, steps: seq<Step>) {
    && IsRun(states, steps) && |history| == |states|
    && (forall i :: 0 <= i < |steps| ==> Tracks(states[i], history[i]))
    && (forall i :: 0 <= i < |steps| ==> history[i + 1] == Record(states[i], history[i], steps[i]))
  }

  /** Before the first election. */
  ghost predicate NoElections(s: Net, h: History) {
    && h.grants == {} && h.delivered == {} && h.wins == {} && Tracks(s, h)
    && (forall c :: c in s.nodes ==> h.counted[c] == {} && h.stale[c] == 0)
    && (forall c :: c in s.nodes ==> s.nodes[c].authCount == 0 && !s.nodes[c].authSent)
    && (forall p :: p in s.flight ==> p.msg.h.sender in s.nodes && !p.msg.AuthRequest? && !p.msg.AuthAck?)
  }

  lemma NoElectionsYet(s: Net, h: History)
    requires Sound(s) && EpochInvariant(s) && NoElections(s, h)
    ensures ElectionInvariant(s, h)
  {
    hide Sound, EpochInvariant;
  }

  lemma {:induction false} RunKeepsElections(states: seq<Net>, history: seq<History>, steps: seq<Step>, i: nat)
    requires IsRecordedRun(states, history, steps) && i < |states|
    requires EpochInvariant(states[0]) && NoElections(states[0], history[0])
    ensures ElectionInvariant(states[i], history[i])
  {
    hide Sound, EpochInvariant, ElectionInvariant, NoElections, Next, Record, Enabled;
    RunKeepsEpochs(states, steps, 0, i);
    if i == 0 {
      InitiallySound(states[0]);
      NoElectionsYet(states[0], history[0]);
    } else {
      RunKeepsElections(states, history, steps, i - 1);
      RunKeepsEpochs(states, steps, 0, i - 1);
      StepKeepsElections(states[i - 1], history[i - 1], steps[i - 1]);
    }
  }

  lemma InitiallySound(s: Net)
    requires EpochInvariant(s)
    ensures Sound(s)
  {
  }

  /** The step delivers an acknowledgement that is counted between the reset of a vote count
      and the opening of the next election. */
  ghost predicate EarlyAck(s: Net, step: Step)
    requires Sound(s) && Enabled(s, step)
  {
    && step.Deliver? && step.packet.msg.AuthAck?
    && !s.nodes[step.packet.to].authSent && Counts(s.nodes[step.packet.to], step.packet.msg)
  }

  ghost predicate NoEarlyAcks(states: seq<Net>, steps: seq<Step>)
    requires IsRun(states, steps)
  {
    forall i :: 0 <= i < |steps| ==> !EarlyAck(states[i], steps[i])
  }

  ghost predicate NothingStale(h: History) {
    && (forall c :: c in h.stale ==> h.stale[c] == 0)
    && (forall w :: w in h.wins ==> w.stale == 0)
  }

  lemma {:induction false} RunWithoutStaleVotes(states: seq<Net>, history: seq<History>, steps: seq<Step>, i: nat)
    requires IsRecordedRun(states, history, steps) && NoEarlyAcks(states, steps) && i < |states|
    requires NoElections(states[0], history[0])
    ensures NothingStale(history[i])
  {
    hide Sound, Next, Enabled, Record, EarlyAck, NothingStale;
    if i == 0 {
      NothingStaleYet(states[0], history[0]);
    } else {
      RunWithoutStaleVotes(states, history, steps, i - 1);
      assert !EarlyAck(states[i - 1], steps[i - 1]);
      OnlyEarlyAcksAreStale(states[i - 1], history[i - 1], steps[i - 1]);
      assert history[i] == Record(states[i - 1], history[i - 1], steps[i - 1]);
    }
  }

  lemma NothingStaleYet(s: Net, h: History)
    requires NoElections(s, h)
    ensures NothingStale(h)
  {
  }

  lemma OnlyEarlyAcksAreStale(s: Net, h: History, step: Step)
    requires Sound(s) && Enabled(s, step) && Tracks(s, h) && NothingStale(h) && !EarlyAck(s, step)
    ensures NothingStale(Record(s, h, step))
  {
    hide Sound, Grants, Counts, ElectionMove, Node.WellFormed;
  }

  lemma EarlyAckIsStale(s: Net, h: History, step: Step)
    requires Sound(s) && Enabled(s, step) && Tracks(s, h) && EarlyAck(s, step)
    ensures !NothingStale(Record(s, h, step))
  {
    hide Sound, Grants, Counts, Node.WellFormed;
    assert Record(s, h, step).stale[step.packet.to] > 0;
  }

  /** The same through what the history records. */
  lemma StaleExactlyIfEarly(states: seq<Net>, history: seq<History>, steps: seq<Step>)
    requires IsRecordedRun(states, history, steps) && NoElections(states[0], history[0])
    ensures NoEarlyAcks(states, steps) <==> forall i :: 0 <= i < |states| ==> NothingStale(history[i])
  {
    hide Sound, Next, Record, Enabled, EarlyAck, NothingStale, NoElections;
    if NoEarlyAcks(states, steps) {
      forall i | 0 <= i < |states| ensures NothingStale(history[i]) { RunWithoutStaleVotes(states, history, steps, i); }
    } else {
      var i :| 0 <= i < |steps| && EarlyAck(states[i], steps[i]);
      EarlyAckIsStale(states[i], history[i], steps[i]);
      assert history[i + 1] == Record(states[i], history[i], steps[i]);
    }
  }

  /** Every replica's vote count is the number of masters counted in its present election. */
  ghost predicate CountsExact(s: Net, h: History) {
    Tracks(s, h) && forall c :: c in s.nodes ==> s.nodes[c].authCount == |h.counted[c]|
  }

  /** The exact condition: each vote count that a server stores is in each state the number of
      masters that granted and sent a vote for the election that is open, and zero if none is,
      if and only if no step delivers a counted acknowledgement to a replica whose election is
      not open. */
  lemma CountsExactlyIfNoneEarly(states: seq<Net>, history: seq<History>, steps: seq<Step>)
    requires IsRecordedRun(states, history, steps)
    requires EpochInvariant(states[0]) && NoElections(states[0], history[0])
    ensures forall i :: 0 <= i < |states| ==> ElectionInvariant(states[i], history[i])
    ensures NoEarlyAcks(states, steps) <==> forall i :: 0 <= i < |states| ==> CountsExact(states[i], history[i])
  {
    hide EpochInvariant, Next, Record, Enabled, EarlyAck, NoElections, VotesOnce, CandidatesStood, AcksOnce, WinsBacked;
    forall i | 0 <= i < |states| ensures ElectionInvariant(states[i], history[i]) {
      RunKeepsElections(states, history, steps, i);
    }
    if NoEarlyAcks(states, steps) {
      StaleExactlyIfEarly(states, history, steps);
      forall i | 0 <= i < |states| ensures CountsExact(states[i], history[i]) {
        NothingStaleIsExact(states[i], history[i]);
      }
    } else {
      var i :| 0 <= i < |steps| && EarlyAck(states[i], steps[i]);
      assert ElectionInvariant(states[i + 1], history[i + 1]);
      assert history[i + 1] == Record(states[i], history[i], steps[i]);
      EarlyAckIsInexact(states[i], history[i], steps[i], states[i + 1]);
    }
  }

  lemma NothingStaleIsExact(s: Net, h: History)
    requires ElectionInvariant(s, h) && NothingStale(h)
    ensures CountsExact(s, h)
  {
    hide Sound, EpochInvariant, VotesOnce, CandidatesStood, AcksOnce, WinsBacked;
  }

  lemma EarlyAckIsInexact(s: Net, h: History, step: Step, s': Net)
    requires Sound(s) && Enabled(s, step) && Tracks(s, h) && EarlyAck(s, step)
    requires ElectionInvariant(s', Record(s, h, step))
    ensures !CountsExact(s', Record(s, h, step))
  {
    hide Sound, Grants, Counts, Node.WellFormed, EpochInvariant, VotesOnce, CandidatesStood, AcksOnce, WinsBacked;
    var c := step.packet.to;
    assert Record(s, h, step).stale[c] > 0;
    assert CountsVoters(s'.nodes[c], c, Record(s, h, step));
  }

  /** Where the vote counts are exact, whoever wins has no vote of an earlier election. */
  lemma {:induction false} ExactCountsWin(states: seq<Net>, history: seq<History>, steps: seq<Step>, i: nat)
    requires IsRecordedRun(states, history, steps) && NoElections(states[0], history[0]) && i < |states|
    requires forall k :: 0 <= k < |states| ==> ElectionInvariant(states[k], history[k])
    requires forall k :: 0 <= k < |states| ==> CountsExact(states[k], history[k])
    ensures forall w :: w in history[i].wins ==> w.stale == 0
  {
    hide Sound, Next, Enabled, Record, ElectionInvariant, CountsExact;
    if i > 0 {
      ExactCountsWin(states, history, steps, i - 1);
      ExactWin(states[i - 1], history[i - 1], steps[i - 1]);
      assert history[i] == Record(states[i - 1], history[i - 1], steps[i - 1]);
    }
  }

  lemma ExactWin(s: Net, h: History, step: Step)
    requires Sound(s) && Enabled(s, step) && ElectionInvariant(s, h) && CountsExact(s, h)
    requires forall w :: w in h.wins ==> w.stale == 0
    ensures forall w :: w in Record(s, h, step).wins ==> w.stale == 0
  {
    hide Sound, Grants, Counts, ElectionMove, Node.WellFormed, EpochInvariant, VotesOnce, CandidatesStood, AcksOnce,
      WinsBacked;
    assert step.Failover? ==> CountsVoters(s.nodes[step.at], step.at, h);
  }

  /** In every run from a state without elections, no two different replicas ever win the
      same epoch, provided no acknowledgement is counted early and every winner counts at least
      the masters that voted in that epoch. */
  lemma OneWinnerPerEpoch(states: seq<Net>, history: seq<History>, steps: seq<Step>, i: nat,
                          electorate: set<NodeId>, w: Win, w': Win)
    requires IsRecordedRun(states, history, steps) && NoEarlyAcks(states, steps) && i < |states|
    requires EpochInvariant(states[0]) && NoElections(states[0], history[0])
    requires w in history[i].wins && w' in history[i].wins && w.epoch == w'.epoch
    requires forall g :: g in history[i].grants && g.epoch == w.epoch ==> g.voter in electorate
    requires w.size >= |electorate| && w'.size >= |electorate|
    ensures w.candidate == w'.candidate
  {
    hide ElectionInvariant, EpochInvariant, NoElections, NoEarlyAcks, IsRun, CountsExact;
    CountsExactlyIfNoneEarly(states, history, steps);
    ExactCountsWin(states, history, steps, i);
    WinnerIsUnique(states[i], history[i], electorate, w, w');
  }
}
