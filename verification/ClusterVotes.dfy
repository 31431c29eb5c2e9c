/** What a vote means: a master votes once per epoch, for a replica of a failed master, and only
    if it knows no claimed slot under a greater epoch than the claim. In every run a claim that
    half of the masters know to be outdated does not win. */
module ClusterVotes {
  import opened ClusterElection
  import opened ClusterModel
  import opened ClusterNet
  import opened Common

  /** The server holds slot `j` to be served under an epoch greater than `e`. */
  ghost predicate HoldsAbove(n: Node, j: Slot, e: nat) {
    j in n.slots && n.slots[j] in n.peers && n.peers[n.slots[j]].configEpoch > e
  }

  ghost predicate ServesSlots(n: Node) {
    n.me in n.peers && n.peers[n.me].master && exists j :: j in n.slots && n.slots[j] == n.me
  }

  /** A replica whose master is known and failed, or which failed over manually. */
  ghost predicate MayReplace(n: Node, h: Header)
    requires n.WellFormed() && h.sender in n.peers
  {
    var p := n.peers[h.sender];
    !p.master && p.slaveof.Some? && (n.peers[p.slaveof.value].failed || h.forceAck)
  }

  // -------------------------------------------------------------------------
  // One request
  // -------------------------------------------------------------------------

  /** A vote is granted if and only if the server may vote and has not voted in the epoch of the
      request, which is not behind its own, the candidate may replace its master, and no claimed
      slot is held above the claim. */
  lemma VoteExactlyIf(n: Node, h: Header, timeOk: bool)
    requires n.WellFormed() && h.sender in n.peers && h.sender != n.me
    ensures var o := ProcessAuthRequest(n, h, timeOk);
            o.replies != [] <==>
              && ServesSlots(n) && n.currentEpoch <= h.currentEpoch && n.lastVoteEpoch != h.currentEpoch
              && MayReplace(n, h) && timeOk && forall j :: j in h.slots ==> !HoldsAbove(o.node, j, h.configEpoch)
  {
    hide BuildHeader;
    var n1 := SeeEpochs(n, h);
    assert ServesSlots(n) <==> n1.IsMaster(n.me) && n1.Bitmap(n.me) != {} by { Serves(n1); Serves(n); }
  }

  lemma Serves(n: Node)
    requires n.me in n.peers
    ensures ServesSlots(n) <==> n.IsMaster(n.me) && n.Bitmap(n.me) != {}
  {
    if ServesSlots(n) {
      var j :| j in n.slots && n.slots[j] == n.me;
      assert j in n.Bitmap(n.me);
    }
  }

  /** A granted vote is one acknowledgement for the epoch of the request, which the voter then
      has voted in; a refused one leaves the last vote. Neither moves a slot or changes a role. */
  lemma VoteChanges(n: Node, h: Header, timeOk: bool)
    requires n.WellFormed() && h.sender in n.peers && h.sender != n.me
    ensures var o := ProcessAuthRequest(n, h, timeOk);
            var r := o.node;
            && r.currentEpoch == Max(n.currentEpoch, h.currentEpoch)
            && r.slots == n.slots && r.importing == n.importing && r.peers.Keys == n.peers.Keys
            && (forall p :: p in n.peers && p != h.sender ==> r.peers[p] == n.peers[p])
            && (o.replies == [] ==> r.lastVoteEpoch == n.lastVoteEpoch)
            && (o.replies != [] ==>
                  && |o.replies| == 1 && o.replies[0].AuthAck? && o.replies[0].h.sender == n.me
                  && o.replies[0].h.currentEpoch == h.currentEpoch == r.lastVoteEpoch == r.currentEpoch)
  {
    hide GrantsVote;
    var n1 := SeeEpochs(n, h);
    if GrantsVote(n1, h, timeOk) { GrantedInEpoch(n, h, timeOk); }
  }

  lemma GrantedInEpoch(n: Node, h: Header, timeOk: bool)
    requires n.WellFormed() && h.sender in n.peers && GrantsVote(SeeEpochs(n, h), h, timeOk)
    ensures SeeEpochs(n, h).currentEpoch == h.currentEpoch
  {
  }

  /** An acknowledgement is counted if and only if it comes from a master that serves slots and is
      not from before the election. Nothing else in it matters to the election. */
  lemma AckExactlyIf(n: Node, h: Header)
    requires n.WellFormed() && h.sender in n.peers && h.sender != n.me
    ensures var o := ProcessAuthAck(n, h);
            var good := n.peers[h.sender].master && (exists j :: j in n.slots && n.slots[j] == h.sender)
                        && h.currentEpoch >= n.authEpoch;
            && o.node.authCount == n.authCount + (if good then 1 else 0) && o.replies == []
            && o.node.authEpoch == n.authEpoch && o.node.authSent == n.authSent && o.node.slots == n.slots
            && o.node.lastVoteEpoch == n.lastVoteEpoch
  {
    if j :| j in n.slots && n.slots[j] == h.sender { assert j in SeeEpochs(n, h).Bitmap(h.sender); }
  }

  /** A replica of a master that serves slots and is failed, with failover enabled and data that is
      recent enough; or an administrator asked for it. */
  ghost predicate MayFailover(n: Node, t: Timing)
    requires n.WellFormed()
  {
    var p := n.peers[n.me];
    && !p.master && p.slaveof.Some? && (exists j :: j in n.slots && n.slots[j] == p.slaveof.value)
    && (t.manual || (n.peers[p.slaveof.value].failed && !t.noFailover && !t.dataTooOld))
  }

  /** When an election is scheduled, opened and won: a majority wins. */
  lemma MovesExactlyIf(n: Node, t: Timing)
    requires n.WellFormed()
    ensures var move, due := ElectionMove(n, t), MayFailover(n, t) && !t.retry && !t.early && !t.expired;
            && (move.Scheduled? <==> MayFailover(n, t) && t.retry)
            && (move.Opened? <==> due && !n.authSent)
            && (move.Won? <==> due && n.authSent && 2 * n.authCount > n.size)
  {
    var p := n.peers[n.me];
    if p.slaveof.Some? {
      if j :| j in n.slots && n.slots[j] == p.slaveof.value { assert j in n.Bitmap(p.slaveof.value); }
    }
  }

  // -------------------------------------------------------------------------
  // Where votes come from
  // -------------------------------------------------------------------------

  /** The step opens the election of `c` in epoch `e`. */
  ghost predicate OpensAt(s: Net, step: Step, c: NodeId, e: nat)
    requires Sound(s) && Enabled(s, step)
  {
    step.Failover? && step.at == c && ElectionMove(s.nodes[c], step.timing).Opened? && s.nodes[c].currentEpoch + 1 == e
  }

  /** The header of the requests that it sends: the claim. */
  ghost function ClaimOf(s: Net, step: Step): Header
    requires Sound(s) && Enabled(s, step) && step.Failover?
  {
    BuildHeader(SlaveFailover(s.nodes[step.at], step.timing), step.force)
  }

  /** The candidate claims the slots of its master under its master's epoch, which is less than
      that of the election. */
  lemma ClaimIsMasters(s: Net, step: Step, c: NodeId, e: nat)
    requires EpochInvariant(s) && Enabled(s, step) && OpensAt(s, step, c, e)
    ensures var m, h := s.nodes[c].CurrentMaster(), ClaimOf(s, step);
            && m in s.nodes[c].peers && h.sender == c && h.currentEpoch == e && h.forceAck == step.force
            && h.configEpoch == s.nodes[c].ConfigEpoch(m) < e && h.slots == s.nodes[c].Bitmap(m)
  {
    assert EpochsBounded(s.nodes[c]);
  }

  ghost predicate AskedAt(states: seq<Net>, steps: seq<Step>, a: nat, m: Msg)
    requires IsRun(states, steps) && a < |steps|
  {
    && m.AuthRequest? && OpensAt(states[a], steps[a], m.h.sender, m.h.currentEpoch)
    && m.h == ClaimOf(states[a], steps[a])
  }

  lemma RequestAppears(s: Net, step: Step, p: Packet)
    requires EpochInvariant(s) && Enabled(s, step) && p in Next(s, step).flight && p.msg.AuthRequest? && p !in s.flight
    ensures OpensAt(s, step, p.msg.h.sender, p.msg.h.currentEpoch) && p.msg.h == ClaimOf(s, step)
  {
    hide Process, SlaveFailover, ElectionMove, BuildHeader, Node.WellFormed, Apply, Allowed, EpochsBounded, MsgBounded;
    match step
    case Deliver(q, timeOk) => RepliesAskNothing(s, q, timeOk, p);
    case Failover(at, t, voters, force) =>
      assert ElectionMove(s.nodes[at], t).Opened?;
      var e := s.nodes[at].currentEpoch + 1;
      assert OpensAt(s, step, at, e);
      ClaimIsMasters(s, step, at, e);
    case _ =>
  }

  lemma RepliesAskNothing(s: Net, q: Packet, timeOk: bool, p: Packet)
    requires Sound(s) && Enabled(s, Deliver(q, timeOk)) && p !in s.flight && p.msg.AuthRequest?
    ensures p !in Next(s, Deliver(q, timeOk)).flight
  {
    hide ProcessPing, Posted, ProcessUpdate, BuildHeader, SeeEpochs, GrantsVote, Node.WellFormed;
    var n := s.nodes[q.to];
    var o := Process(n, q.msg, timeOk);
    if !q.msg.AuthRequest? && !q.msg.AuthAck? { ProcessKeepsElection(n, q.msg, timeOk); }
    if p in Posted(q.msg.h.sender, o.replies) { PostedTo(q.msg.h.sender, o.replies, p); }
  }

  /** Every request in flight was sent when its sender opened the election. */
  lemma {:induction false} RequestWasAsked(states: seq<Net>, steps: seq<Step>, k: nat, p: Packet) returns (a: nat)
    requires IsRun(states, steps) && EpochInvariant(states[0]) && k < |states|
    requires forall q :: q in states[0].flight ==> !q.msg.AuthRequest?
    requires p in states[k].flight && p.msg.AuthRequest?
    ensures a < k && AskedAt(states, steps, a, p.msg)
  {
    hide EpochInvariant, Next, Enabled, Sound, OpensAt, ClaimOf;
    a := k - 1;
    if p in states[k - 1].flight {
      a := RequestWasAsked(states, steps, k - 1, p);
    } else {
      RunKeepsEpochs(states, steps, 0, k - 1);
      assert states[k] == Next(states[k - 1], steps[k - 1]);
      RequestAppears(states[k - 1], steps[k - 1], p);
    }
  }

  /** Step `b` delivers the request for which the vote `g` is granted. */
  ghost predicate VotedAt(s: Net, step: Step, g: Grant)
    requires Sound(s) && Enabled(s, step)
  {
    && step.Deliver? && step.packet.to == g.voter && step.packet.msg.AuthRequest?
    && step.packet.msg.h.sender == g.candidate && step.packet.msg.h.currentEpoch == g.epoch
    && Grants(s.nodes[g.voter], step.packet.msg, step.timeOk)
  }

  lemma GrantAppears(s: Net, h: History, step: Step, g: Grant)
    requires Sound(s) && Enabled(s, step) && Tracks(s, h) && g in Record(s, h, step).grants && g !in h.grants
    ensures VotedAt(s, step, g)
  {
    hide Counts, ElectionMove, Node.WellFormed, SeeEpochs, GrantsVote;
    assert step.Deliver?;
    GrantedInEpoch(s.nodes[step.packet.to], step.packet.msg.h, step.timeOk);
  }

  lemma {:induction false} GrantWasVoted(states: seq<Net>, history: seq<History>, steps: seq<Step>, i: nat, g: Grant)
    returns (b: nat)
    requires IsRecordedRun(states, history, steps) && i < |states| && history[0].grants == {}
    requires g in history[i].grants
    ensures b < i && VotedAt(states[b], steps[b], g)
  {
    hide Next, Enabled, Sound, Record, VotedAt;
    b := i - 1;
    if g in history[i - 1].grants {
      b := GrantWasVoted(states, history, steps, i - 1, g);
    } else {
      assert history[i] == Record(states[i - 1], history[i - 1], steps[i - 1]);
      GrantAppears(states[i - 1], history[i - 1], steps[i - 1], g);
    }
  }

  /** After a vote the voter holds no claimed slot above the claim. */
  lemma VoterHoldsNothingAbove(s: Net, step: Step, g: Grant, j: Slot)
    requires Sound(s) && Enabled(s, step) && VotedAt(s, step, g) && j in step.packet.msg.h.slots
    ensures g.voter in Next(s, step).nodes
    ensures !HoldsAbove(Next(s, step).nodes[g.voter], j, step.packet.msg.h.configEpoch)
  {
    hide BuildHeader, Posted;
  }

  lemma VoterMayVote(s: Net, step: Step, g: Grant)
    requires Sound(s) && Enabled(s, step) && VotedAt(s, step, g)
    ensures g.candidate in s.nodes[g.voter].peers
    ensures ServesSlots(s.nodes[g.voter]) && MayReplace(s.nodes[g.voter], step.packet.msg.h)
  {
    var n := s.nodes[g.voter];
    Serves(n);
    assert n.Bitmap(n.me) == SeeEpochs(n, step.packet.msg.h).Bitmap(n.me);
  }

  /** In step `b` the server `v`, a master that serves slots, grants its vote to the claim of step
      `a`: it knows the candidate as a replica of a failed master (or the claim is forced), and
      every claimed slot under at most the epoch of the claim. */
  ghost predicate VotedFor(states: seq<Net>, steps: seq<Step>, a: nat, b: nat, v: NodeId)
    requires IsRun(states, steps) && a < |steps| && b < |steps| && steps[a].Failover?
  {
    var claim := ClaimOf(states[a], steps[a]);
    && steps[b].Deliver? && steps[b].packet == Packet(v, AuthRequest(claim))
    && v in states[b].nodes && v in states[b + 1].nodes && claim.sender in states[b].nodes[v].peers
    && ServesSlots(states[b].nodes[v]) && states[b].nodes[v].WellFormed() && MayReplace(states[b].nodes[v], claim)
    && forall j :: j in claim.slots ==> !HoldsAbove(states[b + 1].nodes[v], j, claim.configEpoch)
  }

  /** Every vote was granted to the claim with which the candidate opened its election in that
      epoch, which carries a smaller epoch. */
  lemma VoteWasForClaim(states: seq<Net>, history: seq<History>, steps: seq<Step>, i: nat, g: Grant)
    returns (a: nat, b: nat)
    requires IsRecordedRun(states, history, steps) && i < |states| && g in history[i].grants
    requires EpochInvariant(states[0]) && NoElections(states[0], history[0])
    ensures a < b < i && OpensAt(states[a], steps[a], g.candidate, g.epoch)
    ensures ClaimOf(states[a], steps[a]).configEpoch < g.epoch && VotedFor(states, steps, a, b, g.voter)
  {
    hide EpochInvariant, Next, Record, ElectionMove, ClaimOf, HoldsAbove, MayReplace, ServesSlots, Node.WellFormed,
      Grants;
    b := GrantWasVoted(states, history, steps, i, g);
    a := RequestWasAsked(states, steps, b, steps[b].packet);
    var claim := ClaimOf(states[a], steps[a]);
    RunKeepsEpochs(states, steps, 0, a);
    ClaimIsMasters(states[a], steps[a], g.candidate, g.epoch);
    assert states[b + 1] == Next(states[b], steps[b]);
    VoterStays(states[b], steps[b], g);
    VoterMayVote(states[b], steps[b], g);
    forall j | j in claim.slots ensures !HoldsAbove(states[b + 1].nodes[g.voter], j, claim.configEpoch) {
      VoterHoldsNothingAbove(states[b], steps[b], g, j);
    }
  }

  lemma VoterStays(s: Net, step: Step, g: Grant)
    requires Sound(s) && Enabled(s, step) && VotedAt(s, step, g)
    ensures g.voter in Next(s, step).nodes
  {
    hide Process;
  }

  /** A candidate opens an election in an epoch at most once. */
  lemma OpensOnce(states: seq<Net>, steps: seq<Step>, a: nat, b: nat, c: NodeId, e: nat)
    requires IsRun(states, steps) && EpochInvariant(states[0]) && a <= b < |steps|
    requires OpensAt(states[a], steps[a], c, e) && OpensAt(states[b], steps[b], c, e)
    ensures a == b
  {
    hide EpochInvariant, Sound, ElectionMove, BuildHeader, Broadcast;
    if a < b {
      assert states[a + 1] == Next(states[a], steps[a]);
      RunKeepsEpochs(states, steps, a + 1, b);
    }
  }

  // -------------------------------------------------------------------------
  // Outdated claims
  // -------------------------------------------------------------------------

  lemma Meet<T>(a: set<T>, b: set<T>, u: set<T>) returns (v: T)
    requires a <= u && b <= u && 2 * |a| > |u| && 2 * |b| >= |u|
    ensures v in a && v in b
  {
    SubsetSize(a + b, u);
    assert |a + b| == |a| + |b| - |a * b|;
    v :| v in a * b;
  }

  /** Every holder holds `j` above `e` in every state from `first` to `last`. */
  ghost predicate HeldThroughout(states: seq<Net>, first: nat, last: nat, holders: set<NodeId>, j: Slot, e: nat)
    requires first <= last < |states|
  {
    forall k, v :: first <= k <= last && v in holders && v in states[k].nodes ==> HoldsAbove(states[k].nodes[v], j, e)
  }

  /** In every run without early acknowledgements: while half of the masters hold a slot under an
      epoch greater than that under which a candidate claims it, the candidate does not win. */
  lemma OutdatedClaimLoses(states: seq<Net>, history: seq<History>, steps: seq<Step>, a: nat, i: nat,
                           electorate: set<NodeId>, holders: set<NodeId>, w: Win, j: Slot)
    requires IsRecordedRun(states, history, steps) && NoEarlyAcks(states, steps) && a < i < |states|
    requires EpochInvariant(states[0]) && NoElections(states[0], history[0])
    requires OpensAt(states[a], steps[a], w.candidate, w.epoch) && j in ClaimOf(states[a], steps[a]).slots
    requires forall g :: g in history[i].grants && g.epoch == w.epoch ==> g.voter in electorate
    requires w.size >= |electorate| && holders <= electorate && 2 * |holders| >= |electorate|
    requires HeldThroughout(states, a + 1, i, holders, j, ClaimOf(states[a], steps[a]).configEpoch)
    ensures w !in history[i].wins
  {
    hide ElectionInvariant, EpochInvariant, NoElections, NoEarlyAcks, Sound, Next, Enabled, Record, CountsExact,
      ElectionMove, ClaimOf, HoldsAbove;
    if w in history[i].wins {
      CountsExactlyIfNoneEarly(states, history, steps);
      ExactCountsWin(states, history, steps, i);
      WinIsBacked(states[i], history[i], w);
      var v := Meet(Voters(history[i].grants, w.epoch, w.candidate), holders, electorate);
      var a', b := VoteWasForClaim(states, history, steps, i, Grant(v, w.epoch, w.candidate));
      if a <= a' {
        OpensOnce(states, steps, a, a', w.candidate, w.epoch);
      } else {
        OpensOnce(states, steps, a', a, w.candidate, w.epoch);
      }
    }
  }

  /** In every run without early acknowledgements: a winner was voted for, in its epoch and with
      the claim of its election, by more than half of the masters it counts. */
  lemma WinnerWasWanted(states: seq<Net>, history: seq<History>, steps: seq<Step>, i: nat, w: Win) returns (a: nat)
    requires IsRecordedRun(states, history, steps) && NoEarlyAcks(states, steps) && i < |states|
    requires EpochInvariant(states[0]) && NoElections(states[0], history[0]) && w in history[i].wins
    ensures a < i && OpensAt(states[a], steps[a], w.candidate, w.epoch)
    ensures 2 * |Voters(history[i].grants, w.epoch, w.candidate)| > w.size
    ensures forall v :: v in Voters(history[i].grants, w.epoch, w.candidate) ==>
              exists b :: a < b < i && VotedFor(states, steps, a, b, v)
  {
    hide ElectionInvariant, EpochInvariant, NoElections, NoEarlyAcks, Sound, Next, Enabled, Record, CountsExact,
      ElectionMove, ClaimOf, VotedFor;
    CountsExactlyIfNoneEarly(states, history, steps);
    ExactCountsWin(states, history, steps, i);
    WinIsBacked(states[i], history[i], w);
    var voters := Voters(history[i].grants, w.epoch, w.candidate);
    var u :| u in voters;
    var first, _ := VoteWasForClaim(states, history, steps, i, Grant(u, w.epoch, w.candidate));
    a := first;
    forall v | v in voters ensures exists b :: a < b < i && VotedFor(states, steps, a, b, v) {
      var a', b := VoteWasForClaim(states, history, steps, i, Grant(v, w.epoch, w.candidate));
      if a <= a' {
        OpensOnce(states, steps, a, a', w.candidate, w.epoch);
      } else {
        OpensOnce(states, steps, a', a, w.candidate, w.epoch);
      }
    }
  }

  lemma WinIsBacked(s: Net, h: History, w: Win)
    requires ElectionInvariant(s, h) && w in h.wins
    ensures |Voters(h.grants, w.epoch, w.candidate)| + w.stale >= w.size / 2 + 1
  {
    hide EpochInvariant, VotesOnce, CandidatesStood, AcksOnce, CountsVoters;
  }

  // -------------------------------------------------------------------------
  // What a server holds it keeps
  // -------------------------------------------------------------------------

  /** The administrator takes the slot away, its owner says that it has become a replica, or the
      server itself wins an election. */
  ghost predicate MayDrop(s: Net, step: Step, v: NodeId, j: Slot)
    requires Sound(s) && Enabled(s, step) && v in s.nodes && j in s.nodes[v].slots
  {
    var n := s.nodes[v];
    match step
    case Command(at, op) =>
      at == v && match op {
        case DelSlots(js) => j in js
        case SetSlotNode(k, _) => k == j
        case Forget(p) => p == n.slots[j]
        case _ => false
      }
    case Deliver(p, _) => p.to == v && p.msg.Ping? && p.msg.h.sender == n.slots[j] && p.msg.h.slaveof.Some?
    case Failover(at, t, _, _) => at == v && ElectionMove(n, t).Won?
    case _ => false
  }

  lemma UpdateKeepsHold(n: Node, sender: NodeId, epoch: nat, claimed: set<Slot>, j: Slot, e: nat)
    requires n.WellFormed() && sender in n.peers && HoldsAbove(n, j, e) && epoch <= n.ConfigEpoch(sender)
    ensures HoldsAbove(UpdateSlots(n, sender, epoch, claimed), j, e)
  {
    hide Follows, Node.WellFormed;
  }

  lemma PingKeepsHold(n: Node, h: Header, w: bool, j: Slot, e: nat)
    requires n.WellFormed() && h.sender in n.peers && h.sender != n.me && HoldsAbove(n, j, e)
    requires n.ConfigEpoch(n.me) <= n.currentEpoch && (h.sender == n.slots[j] ==> h.slaveof.None?)
    ensures HoldsAbove(ProcessPing(n, h, w).node, j, e)
  {
    hide SeeEpochs, SeeRole, UpdateSlots, DirtySlots, SeeCollision, OutdatedReply, HoldsAbove;
    EpochsKeepHold(n, h, j, e);
    RoleKeepsHold(SeeEpochs(n, h), h, j, e);
    var n2 := SeeRole(SeeEpochs(n, h), h);
    UpdateKeepsHold(n2, h.sender, h.configEpoch, h.slots, j, e);
    CollisionKeepsHold(SeeSlots(n2, h), h, j, e);
  }

  lemma EpochsKeepHold(n: Node, h: Header, j: Slot, e: nat)
    requires n.WellFormed() && h.sender in n.peers && HoldsAbove(n, j, e)
    ensures var r := SeeEpochs(n, h);
            && HoldsAbove(r, j, e) && r.slots[j] == n.slots[j] && r.ConfigEpoch(h.sender) >= h.configEpoch
            && (h.sender != n.me && n.ConfigEpoch(n.me) <= n.currentEpoch ==> r.ConfigEpoch(n.me) <= r.currentEpoch)
  {
  }

  lemma RoleKeepsHold(n: Node, h: Header, j: Slot, e: nat)
    requires n.WellFormed() && h.sender in n.peers && h.sender != n.me && HoldsAbove(n, j, e)
    requires h.sender == n.slots[j] ==> h.slaveof.None?
    ensures HoldsAbove(SeeRole(n, h), j, e)
  {
    hide Node.WellFormed;
  }

  lemma CollisionKeepsHold(n: Node, h: Header, j: Slot, e: nat)
    requires n.WellFormed() && h.sender in n.peers && HoldsAbove(n, j, e) && n.ConfigEpoch(n.me) <= n.currentEpoch
    ensures HoldsAbove(SeeCollision(n, h), j, e)
  {
  }

  lemma ProcessKeepsHold(n: Node, m: Msg, timeOk: bool, j: Slot, e: nat)
    requires n.WellFormed() && m.h.sender != n.me && HoldsAbove(n, j, e) && n.ConfigEpoch(n.me) <= n.currentEpoch
    requires m.Ping? && m.h.sender == n.slots[j] ==> m.h.slaveof.None?
    ensures HoldsAbove(Process(n, m, timeOk).node, j, e)
  {
    hide ProcessPing, SeeEpochs, GrantsVote, CountsAck, HoldsAbove, UpdateSlots, SetNodeAsMaster,
      BuildHeader, Node.WellFormed;
    if m.h.sender in n.peers {
      var n1 := SeeEpochs(n, m.h);
      EpochsKeepHold(n, m.h, j, e);
      match m
      case Ping(h, w) => PingKeepsHold(n, h, w, j, e);
      case Update(h, about, epoch, claimed) =>
        if about in n1.peers && n1.ConfigEpoch(about) < epoch { NewsKeepHold(n1, about, epoch, claimed, j, e); }
      case _ => SameTableHolds(n1, Process(n, m, timeOk).node, j, e);
    }
  }

  lemma SameTableHolds(n: Node, r: Node, j: Slot, e: nat)
    requires HoldsAbove(n, j, e) && r.peers == n.peers && r.slots == n.slots
    ensures HoldsAbove(r, j, e)
  {
  }

  lemma NewsKeepHold(n: Node, about: NodeId, epoch: nat, claimed: set<Slot>, j: Slot, e: nat)
    requires n.WellFormed() && about in n.peers && n.ConfigEpoch(about) < epoch && HoldsAbove(n, j, e)
    ensures var n2 := SetNodeAsMaster(n, about);
            var n3 := n2.(peers := n2.peers[about := n2.peers[about].(configEpoch := epoch)]);
            n3.WellFormed() && HoldsAbove(UpdateSlots(n3, about, epoch, claimed), j, e)
  {
    hide UpdateSlots;
    var n2 := SetNodeAsMaster(n, about);
    var n3 := n2.(peers := n2.peers[about := n2.peers[about].(configEpoch := epoch)]);
    UpdateKeepsHold(n3, about, epoch, claimed, j, e);
  }

  lemma BumpKeepsHold(n: Node, j: Slot, e: nat)
    requires n.WellFormed() && EpochsBounded(n) && HoldsAbove(n, j, e)
    ensures HoldsAbove(Bump(n), j, e) && Bump(n).slots == n.slots && Bump(n).ConfigEpoch(n.me) > e
  {
  }

  lemma CommandKeepsHold(n: Node, op: Op, j: Slot, e: nat)
    requires n.WellFormed() && EpochsBounded(n) && Allowed(n, op) && HoldsAbove(n, j, e)
    requires match op
             case DelSlots(js) => j !in js
             case SetSlotNode(k, _) => k != j
             case Forget(p) => p != n.slots[j]
             case _ => true
    ensures HoldsAbove(Apply(n, op), j, e)
  {
    hide NeedsBump, Bump, Node.WellFormed, EpochsBounded;
    BumpKeepsHold(n, j, e);
  }

  /** Unless one of these happens a server goes on holding the slot under an epoch above `e`,
      perhaps for another owner. */
  lemma HoldKept(s: Net, step: Step, v: NodeId, j: Slot, e: nat)
    requires EpochInvariant(s) && Enabled(s, step) && v in s.nodes && HoldsAbove(s.nodes[v], j, e)
    requires !MayDrop(s, step, v, j)
    ensures v in Next(s, step).nodes && HoldsAbove(Next(s, step).nodes[v], j, e)
  {
    hide Process, Apply, Allowed, HoldsAbove, BuildHeader, ElectionMove, Node.WellFormed;
    var n := s.nodes[v];
    HeldSlot(n, j, e);
    OwnEpoch(n);
    match step
    case Deliver(p, timeOk) => if p.to == v { ProcessKeepsHold(n, p.msg, timeOk, j, e); }
    case Command(at, op) => if at == v { CommandKeepsHold(n, op, j, e); }
    case Failover(at, t, _, _) => if at == v { SameTableHolds(n, SlaveFailover(n, t), j, e); }
    case _ =>
  }

  lemma OwnEpoch(n: Node)
    requires n.WellFormed() && EpochsBounded(n)
    ensures n.me in n.peers && n.ConfigEpoch(n.me) <= n.currentEpoch
  {
  }

  lemma HeldSlot(n: Node, j: Slot, e: nat)
    requires HoldsAbove(n, j, e)
    ensures j in n.slots
  {
  }

  /** No step between the two states lets a holder drop the slot. */
  ghost predicate NoDrops(states: seq<Net>, steps: seq<Step>, first: nat, last: nat, holders: set<NodeId>, j: Slot)
    requires IsRun(states, steps) && first <= last < |states|
  {
    forall k, v :: first <= k < last && v in holders && v in states[k].nodes && j in states[k].nodes[v].slots ==>
      !MayDrop(states[k], steps[k], v, j)
  }

  lemma {:induction false} HoldersKeepHolding(states: seq<Net>, steps: seq<Step>, first: nat, last: nat,
                                              holders: set<NodeId>, j: Slot, e: nat)
    requires IsRun(states, steps) && EpochInvariant(states[0]) && first <= last < |states|
    requires NoDrops(states, steps, first, last, holders, j) && HeldThroughout(states, first, first, holders, j, e)
    ensures HeldThroughout(states, first, last, holders, j, e)
    decreases last
  {
    hide EpochInvariant, Next, Enabled, Sound, MayDrop, HoldsAbove;
    if first < last {
      HoldersKeepHolding(states, steps, first, last - 1, holders, j, e);
      RunKeepsEpochs(states, steps, 0, last - 1);
      RunKeepsEpochs(states, steps, last - 1, last);
      assert states[last] == Next(states[last - 1], steps[last - 1]);
      forall v | v in holders && v in states[last].nodes ensures HoldsAbove(states[last].nodes[v], j, e) {
        HeldSlot(states[last - 1].nodes[v], j, e);
        HoldKept(states[last - 1], steps[last - 1], v, j, e);
      }
    }
  }

  /** So it is enough that half of the masters hold the slot above the claim when the election
      opens and that nobody makes them drop it. */
  lemma HeldClaimLoses(states: seq<Net>, history: seq<History>, steps: seq<Step>, a: nat, i: nat,
                       electorate: set<NodeId>, holders: set<NodeId>, w: Win, j: Slot)
    requires IsRecordedRun(states, history, steps) && NoEarlyAcks(states, steps) && a < i < |states|
    requires EpochInvariant(states[0]) && NoElections(states[0], history[0])
    requires OpensAt(states[a], steps[a], w.candidate, w.epoch) && j in ClaimOf(states[a], steps[a]).slots
    requires forall g :: g in history[i].grants && g.epoch == w.epoch ==> g.voter in electorate
    requires w.size >= |electorate| && holders <= electorate && 2 * |holders| >= |electorate|
    requires HeldThroughout(states, a, a, holders, j, ClaimOf(states[a], steps[a]).configEpoch)
    requires NoDrops(states, steps, a, i, holders, j)
    ensures w !in history[i].wins
  {
    hide EpochInvariant, NoElections, NoEarlyAcks, Sound, Next, Enabled, Record, ElectionMove, ClaimOf, HoldsAbove,
      MayDrop;
    HoldersKeepHolding(states, steps, a, i, holders, j, ClaimOf(states[a], steps[a]).configEpoch);
    OutdatedClaimLoses(states, history, steps, a, i, electorate, holders, w, j);
  }
}
