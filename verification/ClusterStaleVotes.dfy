/** Why acknowledgements must not arrive early. A replica's vote count is reset when it
    schedules an election, but its election epoch moves only when the election opens; what
    arrives in between is counted for the later epoch. Here two replicas win the same epoch. */
module ClusterStaleVotes {
  import opened ClusterModel
  import opened Common
  import opened ClusterNet
  import opened ClusterElection

  // Masters 1, 2 and 5 serve one slot each. 1 has failed; 3 and 4 replicate it, and the failover
  // is an automatic one.

  function Table(): map<NodeId, Peer> {
    map[1 := Peer(0, true, None, true), 2 := Peer(0, true, None, false), 5 := Peer(0, true, None, false),
        3 := Peer(0, false, Some(1), false), 4 := Peer(0, false, Some(1), false)]
  }

  function Owners(): map<Slot, NodeId> { map[0 := 1, 1 := 2, 2 := 5] }

  /** A server of this cluster, with its epochs and its election. */
  function Member(me: NodeId, epoch: nat, vote: nat, authEpoch: nat, authCount: nat, authSent: bool): Node {
    Node(me, epoch, vote, Table(), Owners(), map[], authEpoch, authCount, authSent, 3)
  }

  predicate IsMember(me: NodeId) { 2 <= me <= 5 }

  lemma MemberWellFormed(n: Node)
    requires n == Member(n.me, n.currentEpoch, n.lastVoteEpoch, n.authEpoch, n.authCount, n.authSent) && IsMember(n.me)
    ensures n.WellFormed()
  {
  }

  lemma Bitmaps(n: Node)
    requires n.slots == Owners()
    ensures n.Bitmap(1) == {0} && n.Bitmap(2) == {1} && n.Bitmap(5) == {2}
  {
  }

  const GO: Timing := Timing(false, false, false, false, false, false)
  const RETRY: Timing := Timing(false, false, false, true, false, false)

  predicate IsReplica(n: Node) {
    n == Member(n.me, n.currentEpoch, n.lastVoteEpoch, n.authEpoch, n.authCount, n.authSent) && (n.me == 3 || n.me == 4)
  }

  lemma Opens(n: Node)
    requires IsReplica(n) && !n.authSent
    ensures n.WellFormed() && ElectionMove(n, GO) == Opened
    ensures SlaveFailover(n, GO) ==
            n.(currentEpoch := n.currentEpoch + 1, authEpoch := n.currentEpoch + 1, authSent := true)
  {
    MemberWellFormed(n);
    Bitmaps(n);
  }

  lemma Schedules(n: Node)
    requires IsReplica(n)
    ensures n.WellFormed() && ElectionMove(n, RETRY) == Scheduled
    ensures SlaveFailover(n, RETRY) == n.(authCount := 0, authSent := false)
  {
    MemberWellFormed(n);
    Bitmaps(n);
  }

  lemma Wins(n: Node)
    requires IsReplica(n) && n.authSent && n.authCount >= 2
    ensures n.WellFormed() && ElectionMove(n, GO) == Won
  {
    MemberWellFormed(n);
    Bitmaps(n);
  }

  /** What a replica asks, and what a master answers. */
  function Ask(me: NodeId, epoch: nat): Msg {
    AuthRequest(Header(me, epoch, 0, {0}, Some(1), false))
  }

  function Answer(me: NodeId, epoch: nat): Msg {
    AuthAck(Header(me, epoch, 0, if me == 2 then {1} else {2}, None, false))
  }

  lemma Asks(n: Node)
    requires IsReplica(n)
    ensures n.WellFormed() && AuthRequest(BuildHeader(n, false)) == Ask(n.me, n.currentEpoch)
  {
    MemberWellFormed(n);
    Bitmaps(n);
  }

  lemma EpochsSeen(n: Node, h: Header)
    requires n.peers == Table() && IsMember(h.sender) && h.configEpoch == 0
    ensures SeeEpochs(n, h) == n.(currentEpoch := Max(n.currentEpoch, h.currentEpoch))
  {
    assert Table()[h.sender := Table()[h.sender].(configEpoch := 0)] == Table();
  }

  /** A master that has not voted in the epoch grants its vote. */
  lemma Votes(n: Node, from: NodeId, epoch: nat)
    requires n == Member(n.me, n.currentEpoch, n.lastVoteEpoch, n.authEpoch, n.authCount, n.authSent)
    requires (n.me == 2 || n.me == 5)
    requires (from == 3 || from == 4) && epoch >= n.currentEpoch && epoch > n.lastVoteEpoch
    ensures n.WellFormed() && Grants(n, Ask(from, epoch), true)
    ensures Process(n, Ask(from, epoch), true) == Outcome(n.(currentEpoch := epoch, lastVoteEpoch := epoch),
            [Answer(n.me, epoch)])
  {
    MemberWellFormed(n);
    var h := Ask(from, epoch).h;
    EpochsSeen(n, h);
    var n1 := n.(currentEpoch := epoch);
    MemberWellFormed(n1);
    GrantsAsked(n1, from);
    var n2 := n1.(lastVoteEpoch := epoch);
    MemberWellFormed(n2);
    Answers(n2);
    hide BuildHeader, GrantsVote, Table, Owners, Node.WellFormed, Node.Bitmap;
  }

  lemma GrantsAsked(n: Node, from: NodeId)
    requires n == Member(n.me, n.currentEpoch, n.lastVoteEpoch, n.authEpoch, n.authCount, n.authSent)
    requires (n.me == 2 || n.me == 5)
    requires (from == 3 || from == 4) && n.currentEpoch > n.lastVoteEpoch
    ensures n.WellFormed() && GrantsVote(n, Ask(from, n.currentEpoch).h, true)
  {
    MemberWellFormed(n);
    Bitmaps(n);
  }

  lemma Answers(n: Node)
    requires n == Member(n.me, n.currentEpoch, n.lastVoteEpoch, n.authEpoch, n.authCount, n.authSent)
    requires (n.me == 2 || n.me == 5)
    ensures n.WellFormed() && AuthAck(BuildHeader(n, false)) == Answer(n.me, n.currentEpoch)
  {
    MemberWellFormed(n);
    Bitmaps(n);
  }

  lemma Overhears(n: Node, from: NodeId, epoch: nat)
    requires IsReplica(n) && n.me != from && (from == 3 || from == 4) && epoch >= n.currentEpoch
    ensures n.WellFormed() && !Grants(n, Ask(from, epoch), true)
    ensures Process(n, Ask(from, epoch), true) == Outcome(n.(currentEpoch := epoch), [])
  {
    MemberWellFormed(n);
    EpochsSeen(n, Ask(from, epoch).h);
  }

  lemma Receives(n: Node, from: NodeId, epoch: nat)
    requires IsReplica(n) && (from == 2 || from == 5) && n.authEpoch <= epoch == n.currentEpoch
    ensures n.WellFormed() && Counts(n, Answer(from, epoch))
    ensures Process(n, Answer(from, epoch), true) == Outcome(n.(authCount := n.authCount + 1), [])
  {
    MemberWellFormed(n);
    EpochsSeen(n, Answer(from, epoch).h);
    Bitmaps(n);
    assert 1 in n.Bitmap(2) && 2 in n.Bitmap(5);
  }

  // -------------------------------------------------------------------------
  // Steps of the network
  // -------------------------------------------------------------------------

  ghost predicate Cluster(s: Net) {
    && s.nodes.Keys == {2, 3, 4, 5}
    && (forall i :: i in s.nodes ==> s.nodes[i].me == i && s.nodes[i].WellFormed())
    && (forall p :: p in s.flight ==> p.msg.h.sender != p.to)
  }

  ghost predicate Tracked(h: History) { h.counted.Keys == {2, 3, 4, 5} && h.stale.Keys == {2, 3, 4, 5} }

  lemma OpenStep(s: Net, h: History, at: NodeId, voters: set<NodeId>)
    requires Cluster(s) && Tracked(h) && at in s.nodes && IsReplica(s.nodes[at]) && !s.nodes[at].authSent
    requires at !in voters
    ensures Sound(s) && Tracks(s, h) && Enabled(s, Failover(at, GO, voters, false))
    ensures var n := s.nodes[at].(currentEpoch := s.nodes[at].currentEpoch + 1,
                                  authEpoch := s.nodes[at].currentEpoch + 1, authSent := true);
            Next(s, Failover(at, GO, voters, false)) ==
                Net(s.nodes[at := n], s.flight + Broadcast(voters, Ask(at, n.currentEpoch)))
    ensures Record(s, h, Failover(at, GO, voters, false)) == h
  {
    hide Node.WellFormed, SlaveFailover, ElectionMove, BuildHeader, Broadcast, Ask;
    Opens(s.nodes[at]);
    Asks(SlaveFailover(s.nodes[at], GO));
  }

  lemma ScheduleStep(s: Net, h: History, at: NodeId)
    requires Cluster(s) && Tracked(h) && at in s.nodes && IsReplica(s.nodes[at])
    ensures Sound(s) && Tracks(s, h) && Enabled(s, Failover(at, RETRY, {}, false))
    ensures Next(s, Failover(at, RETRY, {}, false)) ==
            Net(s.nodes[at := s.nodes[at].(authCount := 0, authSent := false)], s.flight)
    ensures Record(s, h, Failover(at, RETRY, {}, false)) ==
            h.(counted := h.counted[at := {}], stale := h.stale[at := 0])
  {
    hide Node.WellFormed, SlaveFailover, ElectionMove, BuildHeader;
    Schedules(s.nodes[at]);
  }

  lemma WinStep(s: Net, h: History, at: NodeId)
    requires Cluster(s) && Tracked(h) && at in s.nodes && IsReplica(s.nodes[at]) && s.nodes[at].authSent
    requires s.nodes[at].authCount >= 2
    ensures Sound(s) && Tracks(s, h) && Enabled(s, Failover(at, GO, {}, false))
    ensures var s' := Next(s, Failover(at, GO, {}, false));
            && Cluster(s') && s'.flight == s.flight && forall i :: i in s.nodes && i != at ==> s'.nodes[i] == s.nodes[i]
    ensures Record(s, h, Failover(at, GO, {}, false))
         == h.(wins := h.wins + {Win(at, s.nodes[at].authEpoch, h.stale[at], 3)})
  {
    hide Node.WellFormed, SlaveFailover, ElectionMove, BuildHeader;
    Wins(s.nodes[at]);
  }

  lemma VoteStep(s: Net, h: History, voter: NodeId, from: NodeId, epoch: nat)
    requires Cluster(s) && Tracked(h) && (voter == 2 || voter == 5) && (from == 3 || from == 4)
    requires var n := s.nodes[voter];
             && n == Member(n.me, n.currentEpoch, n.lastVoteEpoch, n.authEpoch, n.authCount, n.authSent)
             && epoch >= n.currentEpoch && epoch > n.lastVoteEpoch
    requires Packet(voter, Ask(from, epoch)) in s.flight
    ensures var step := Deliver(Packet(voter, Ask(from, epoch)), true);
            && Sound(s) && Tracks(s, h) && Enabled(s, step)
            && Next(s, step) == Net(s.nodes[voter := s.nodes[voter].(currentEpoch := epoch, lastVoteEpoch := epoch)],
                                    s.flight - multiset{Packet(voter, Ask(from, epoch))}
                                        + multiset{Packet(from, Answer(voter, epoch))})
            && Record(s, h, step) == h.(grants := h.grants + {Grant(voter, epoch, from)})
  {
    hide Node.WellFormed, Process, Grants, Answer;
    Votes(s.nodes[voter], from, epoch);
    PostedOne(from, Answer(voter, epoch));
    EpochsSeen(s.nodes[voter], Ask(from, epoch).h);
  }

  lemma PostedOne(to: NodeId, m: Msg)
    ensures Posted(to, [m]) == multiset{Packet(to, m)}
  {
    assert [m][1..] == [];
  }

  lemma OverhearStep(s: Net, h: History, at: NodeId, from: NodeId, epoch: nat)
    requires Cluster(s) && Tracked(h) && at in s.nodes && IsReplica(s.nodes[at]) && at != from
    requires (from == 3 || from == 4)
    requires epoch >= s.nodes[at].currentEpoch && Packet(at, Ask(from, epoch)) in s.flight
    ensures var step := Deliver(Packet(at, Ask(from, epoch)), true);
            && Sound(s) && Tracks(s, h) && Enabled(s, step)
            && Next(s, step) == Net(s.nodes[at := s.nodes[at].(currentEpoch := epoch)],
                  s.flight - multiset{Packet(at, Ask(from, epoch))})
            && Record(s, h, step) == h
  {
    hide Node.WellFormed, Process, Grants, Posted, Table, Owners;
    Overhears(s.nodes[at], from, epoch);
    NothingPosted(s.flight, Packet(at, Ask(from, epoch)), from);
  }

  function Heard(h: History, at: NodeId, from: NodeId, epoch: nat, sent: bool): History
    requires at in h.counted && at in h.stale
  {
    var h1 := h.(delivered := h.delivered + {(from, epoch)});
    if sent then h1.(counted := h.counted[at := h.counted[at] + {from}])
        else h1.(stale := h.stale[at := h.stale[at] + 1])
  }

  lemma ReceiveStep(s: Net, h: History, at: NodeId, from: NodeId, epoch: nat)
    requires Cluster(s) && Tracked(h) && at in s.nodes && IsReplica(s.nodes[at]) && (from == 2 || from == 5)
    requires s.nodes[at].authEpoch <= epoch == s.nodes[at].currentEpoch && Packet(at, Answer(from, epoch)) in s.flight
    ensures var step := Deliver(Packet(at, Answer(from, epoch)), true);
            && Sound(s) && Tracks(s, h) && Enabled(s, step)
            && Next(s, step) == Net(s.nodes[at := s.nodes[at].(authCount := s.nodes[at].authCount + 1)],
                                    s.flight - multiset{Packet(at, Answer(from, epoch))})
            && Record(s, h, step) == Heard(h, at, from, epoch, s.nodes[at].authSent)
  {
    hide Node.WellFormed, Process, Counts, Posted, Table, Owners;
    Receives(s.nodes[at], from, epoch);
    NothingPosted(s.flight, Packet(at, Answer(from, epoch)), from);
  }

  lemma NothingPosted(flight: multiset<Packet>, p: Packet, to: NodeId)
    ensures flight - multiset{p} + Posted(to, []) == flight - multiset{p}
  {
  }

  // -------------------------------------------------------------------------
  // The run
  // -------------------------------------------------------------------------

  /** No failover is a manual one, which would open its election before a packet can arrive. */
  ghost predicate Automatic(steps: seq<Step>) {
    forall i :: 0 <= i < |steps| && steps[i].Failover? ==> !steps[i].timing.manual
  }

  datatype Run = Run(states: seq<Net>, history: seq<History>, steps: seq<Step>)
  {
    ghost predicate Valid() { IsRecordedRun(states, history, steps) && Automatic(steps) }
    ghost function Last(): Net requires |states| > 0 { states[|states| - 1] }
    ghost function Past(): History requires |history| > 0 { history[|history| - 1] }
  }

  lemma Extend(r: Run, step: Step) returns (r': Run)
    requires r.Valid() && Sound(r.Last()) && Enabled(r.Last(), step) && Tracks(r.Last(), r.Past())
    requires step.Failover? ==> !step.timing.manual
    ensures r'.Valid() && r'.states[0] == r.states[0] && r'.history[0] == r.history[0]
    ensures r'.Last() == Next(r.Last(), step) && r'.Past() == Record(r.Last(), r.Past(), step)
  {
    hide Sound, Enabled, Next, Record, Tracks;
    r' := Run(r.states + [Next(r.Last(), step)], r.history + [Record(r.Last(), r.Past(), step)], r.steps + [step]);
  }

  /** The four servers. */
  datatype Four = Four(a: Node, b: Node, c: Node, d: Node)
  {
    function Of(i: NodeId): Node { match i case 2 => a case 5 => b case 3 => c case _ => d }

    function With(i: NodeId, n: Node): Four {
      match i case 2 => this.(a := n) case 5 => this.(b := n) case 3 => this.(c := n) case _ => this.(d := n)
    }

    ghost predicate Members() {
      && a == Member(2, a.currentEpoch, a.lastVoteEpoch, a.authEpoch, a.authCount, a.authSent)
      && b == Member(5, b.currentEpoch, b.lastVoteEpoch, b.authEpoch, b.authCount, b.authSent)
      && c == Member(3, c.currentEpoch, c.lastVoteEpoch, c.authEpoch, c.authCount, c.authSent)
      && d == Member(4, d.currentEpoch, d.lastVoteEpoch, d.authEpoch, d.authCount, d.authSent)
    }
  }

  ghost function World(w: Four, flight: multiset<Packet>): Net {
    Net(map[2 := w.a, 5 := w.b, 3 := w.c, 4 := w.d], flight)
  }

  ghost predicate Addressed(flight: multiset<Packet>) { forall p :: p in flight ==> p.msg.h.sender != p.to }

  lemma WorldIsCluster(w: Four, flight: multiset<Packet>)
    requires w.Members() && Addressed(flight)
    ensures Cluster(World(w, flight))
  {
    hide Node.WellFormed, Table, Owners;
    MemberWellFormed(w.a);
    MemberWellFormed(w.b);
    MemberWellFormed(w.c);
    MemberWellFormed(w.d);
  }

  lemma WorldNode(w: Four, flight: multiset<Packet>, i: NodeId, n: Node, flight': multiset<Packet>)
    requires IsMember(i)
    ensures World(w, flight).flight == flight && World(w, flight).nodes.Keys == {2, 3, 4, 5}
    ensures World(w, flight).nodes[i] == w.Of(i)
    ensures Net(World(w, flight).nodes[i := n], flight') == World(w.With(i, n), flight')
  {
  }

  /** Where a run has got to. */
  ghost predicate Reached(r: Run, r0: Run, w: Four, flight: multiset<Packet>, h: History) {
    && r.Valid() && r0.Valid() && r.states[0] == r0.states[0] && r.history[0] == r0.history[0]
    && r.Last() == World(w, flight) && r.Past() == h && Tracked(h) && w.Members() && Addressed(flight)
  }

  lemma Advance(r: Run, r0: Run, w: Four, flight: multiset<Packet>, h: History, step: Step, w': Four,
                flight': multiset<Packet>, h': History)
    returns (r': Run)
    requires Reached(r, r0, w, flight, h) && w'.Members() && Addressed(flight') && Tracked(h')
    requires var s := World(w, flight); Sound(s) && Tracks(s, h) && Enabled(s, step)
    requires Next(World(w, flight), step) == World(w', flight') && Record(World(w, flight), h, step) == h'
    requires step.Failover? ==> !step.timing.manual
    ensures Reached(r', r0, w', flight', h')
  {
    hide Sound, Enabled, Next, Record, Tracks, World, Tracked, Addressed, Four.Members;
    assert |r.states| > 0 && |r.history| > 0 by { NotEmpty(r); }
    r' := Extend(r, step);
  }

  lemma NotEmpty(r: Run)
    requires r.Valid()
    ensures |r.states| > 0 && |r.history| > 0
  {
  }

  lemma DoOpen(r: Run, r0: Run, w: Four, flight: multiset<Packet>, h: History, at: NodeId, voters: set<NodeId>,
               flight': multiset<Packet>)
    returns (r': Run)
    requires Reached(r, r0, w, flight, h) && (at == 3 || at == 4) && !w.Of(at).authSent && at !in voters
    requires flight' == flight + Broadcast(voters, Ask(at, w.Of(at).currentEpoch + 1)) && Addressed(flight')
    ensures var n := w.Of(at);
            var e := n.currentEpoch + 1;
            Reached(r', r0, w.With(at, n.(currentEpoch := e, authEpoch := e, authSent := true)), flight', h)
  {
    hide Sound, Enabled, Next, Record, Tracks, World, Broadcast, Addressed, Cluster, Ask;
    var n := w.Of(at);
    var n' := n.(currentEpoch := n.currentEpoch + 1, authEpoch := n.currentEpoch + 1, authSent := true);
    WorldIsCluster(w, flight);
    WorldNode(w, flight, at, n', flight');
    OpenStep(World(w, flight), h, at, voters);
    r' := Advance(r, r0, w, flight, h, Failover(at, GO, voters, false), w.With(at, n'), flight', h);
  }

  lemma DoSchedule(r: Run, r0: Run, w: Four, flight: multiset<Packet>, h: History, at: NodeId) returns (r': Run)
    requires Reached(r, r0, w, flight, h) && (at == 3 || at == 4)
    ensures Reached(r', r0, w.With(at, w.Of(at).(authCount := 0, authSent := false)), flight,
                    h.(counted := h.counted[at := {}], stale := h.stale[at := 0]))
  {
    hide Sound, Enabled, Next, Record, Tracks, World, Addressed, Cluster;
    var n' := w.Of(at).(authCount := 0, authSent := false);
    WorldIsCluster(w, flight);
    WorldNode(w, flight, at, n', flight);
    ScheduleStep(World(w, flight), h, at);
    r' := Advance(r, r0, w, flight, h, Failover(at, RETRY, {}, false), w.With(at, n'), flight,
                  h.(counted := h.counted[at := {}], stale := h.stale[at := 0]));
  }

  lemma DoVote(r: Run, r0: Run, w: Four, flight: multiset<Packet>, h: History, voter: NodeId, from: NodeId,
               epoch: nat) returns (r': Run)
    requires Reached(r, r0, w, flight + multiset{Packet(voter, Ask(from, epoch))}, h)
    requires (voter == 2 || voter == 5) && (from == 3 || from == 4) && epoch >= w.Of(voter).currentEpoch
    requires epoch > w.Of(voter).lastVoteEpoch
    ensures Reached(r', r0, w.With(voter, w.Of(voter).(currentEpoch := epoch, lastVoteEpoch := epoch)),
                    flight + multiset{Packet(from, Answer(voter, epoch))},
                        h.(grants := h.grants + {Grant(voter, epoch, from)}))
  {
    hide Sound, Enabled, Next, Record, Tracks, World, Cluster;
    var q := Packet(voter, Ask(from, epoch));
    var f, f' := flight + multiset{q}, flight + multiset{Packet(from, Answer(voter, epoch))};
    var n' := w.Of(voter).(currentEpoch := epoch, lastVoteEpoch := epoch);
    WorldIsCluster(w, f);
    WorldNode(w, f, voter, n', f');
    VoteStep(World(w, f), h, voter, from, epoch);
    assert f - multiset{q} == flight;
    r' := Advance(r, r0, w, f, h, Deliver(q, true), w.With(voter, n'), f',
        h.(grants := h.grants + {Grant(voter, epoch, from)}));
  }

  lemma DoOverhear(r: Run, r0: Run, w: Four, flight: multiset<Packet>, h: History, at: NodeId, from: NodeId,
                   epoch: nat) returns (r': Run)
    requires Reached(r, r0, w, flight + multiset{Packet(at, Ask(from, epoch))}, h)
    requires (at == 3 || at == 4) && (from == 3 || from == 4) && at != from && epoch >= w.Of(at).currentEpoch
    ensures Reached(r', r0, w.With(at, w.Of(at).(currentEpoch := epoch)), flight, h)
  {
    hide Sound, Enabled, Next, Record, Tracks, World, Cluster;
    var q := Packet(at, Ask(from, epoch));
    var f := flight + multiset{q};
    var n' := w.Of(at).(currentEpoch := epoch);
    WorldIsCluster(w, f);
    WorldNode(w, f, at, n', flight);
    OverhearStep(World(w, f), h, at, from, epoch);
    assert f - multiset{q} == flight;
    r' := Advance(r, r0, w, f, h, Deliver(q, true), w.With(at, n'), flight, h);
  }

  lemma HeardTracked(h: History, at: NodeId, from: NodeId, epoch: nat, sent: bool)
    requires Tracked(h) && IsMember(at)
    ensures Tracked(Heard(h, at, from, epoch, sent))
  {
  }

  lemma MembersAt(w: Four, at: NodeId)
    requires w.Members() && (at == 3 || at == 4)
    ensures IsReplica(w.Of(at)) && w.Of(at).me == at
  {
    hide Table, Owners;
  }

  lemma MembersWith(w: Four, at: NodeId, n: Node)
    requires w.Members() && (at == 3 || at == 4) && IsReplica(n) && n.me == at
    ensures w.With(at, n).Members()
  {
    hide Table, Owners;
  }

  lemma AddressedLess(flight: multiset<Packet>, q: Packet)
    requires Addressed(flight + multiset{q})
    ensures Addressed(flight)
  {
  }

  lemma DoReceive(r: Run, r0: Run, w: Four, flight: multiset<Packet>, h: History, at: NodeId, from: NodeId,
                  epoch: nat) returns (r': Run)
    requires Reached(r, r0, w, flight + multiset{Packet(at, Answer(from, epoch))}, h)
    requires (at == 3 || at == 4) && (from == 2 || from == 5) && w.Of(at).authEpoch <= epoch == w.Of(at).currentEpoch
    ensures Reached(r', r0, w.With(at, w.Of(at).(authCount := w.Of(at).authCount + 1)), flight,
            Heard(h, at, from, epoch, w.Of(at).authSent))
  {
    hide Sound, Enabled, Next, Record, Tracks, World, Cluster, Table, Owners, Heard, Answer, Four.Members, Four.Of,
        Four.With;
    var q := Packet(at, Answer(from, epoch));
    var f := flight + multiset{q};
    var n' := w.Of(at).(authCount := w.Of(at).authCount + 1);
    MembersAt(w, at);
    MembersWith(w, at, n');
    AddressedLess(flight, q);
    HeardTracked(h, at, from, epoch, w.Of(at).authSent);
    WorldIsCluster(w, f);
    WorldNode(w, f, at, n', flight);
    ReceiveStep(World(w, f), h, at, from, epoch);
    assert f - multiset{q} == flight;
    r' := Advance(r, r0, w, f, h, Deliver(q, true), w.With(at, n'), flight,
        Heard(h, at, from, epoch, w.Of(at).authSent));
  }

  // -------------------------------------------------------------------------
  // Two winners
  // -------------------------------------------------------------------------

  function Quiet(me: NodeId): Node { Member(me, 0, 0, 0, 0, false) }

  function AllQuiet(): Four { Four(Quiet(2), Quiet(5), Quiet(3), Quiet(4)) }

  function Nothing(): History {
    History({}, {}, map[2 := {}, 3 := {}, 4 := {}, 5 := {}], map[2 := 0, 3 := 0, 4 := 0, 5 := 0], {})
  }

  lemma BroadcastThree(m: Msg)
    ensures Broadcast({2, 4, 5}, m) == multiset{Packet(4, m)} + multiset{Packet(5, m)} + multiset{Packet(2, m)}
  {
    assert (set d | d in {2, 4, 5} :: Packet(d, m)) == {Packet(2, m), Packet(5, m), Packet(4, m)};
  }

  lemma BroadcastTwo(m: Msg)
    ensures Broadcast({2, 5}, m) == multiset{Packet(5, m)} + multiset{Packet(2, m)} && Broadcast({}, m) == multiset{}
  {
    assert (set d | d in {2, 5} :: Packet(d, m)) == {Packet(2, m), Packet(5, m)};
  }

  lemma AskAddressed(from: NodeId, epoch: nat, voters: set<NodeId>)
    requires from !in voters && (from == 3 || from == 4)
    ensures Addressed(Broadcast(voters, Ask(from, epoch)))
  {
  }

  /** Replica 3 asks for votes in epoch 1; both masters vote, and replica 4 learns the epoch. */
  lemma FirstElection(r0: Run) returns (r: Run, h: History)
    requires Reached(r0, r0, AllQuiet(), multiset{}, Nothing())
    ensures Reached(r, r0, Four(Member(2, 1, 1, 0, 0, false), Member(5, 1, 1, 0, 0, false),
            Member(3, 1, 0, 1, 0, true), Member(4, 1, 0, 0, 0, false)),
                    multiset{Packet(3, Answer(5, 1))} + multiset{Packet(3, Answer(2, 1))}, h)
    ensures h.grants == {Grant(2, 1, 3), Grant(5, 1, 3)} && h.wins == {}
  {
    hide Reached, Broadcast, Table, Owners, Addressed, Ask, Answer;
    var q := Ask(3, 1);
    BroadcastThree(q);
    AskAddressed(3, 1, {2, 4, 5});
    var p2, p5, p4 := multiset{Packet(2, q)}, multiset{Packet(5, q)}, multiset{Packet(4, q)};
    var a2, a5 := multiset{Packet(3, Answer(2, 1))}, multiset{Packet(3, Answer(5, 1))};
    h := Nothing();
    r := DoSchedule(r0, r0, AllQuiet(), multiset{}, h, 3);
    h := h.(counted := h.counted[3 := {}], stale := h.stale[3 := 0]);
    assert multiset{} + Broadcast({2, 4, 5}, q) == p4 + p5 + p2;
    r := DoOpen(r, r0, AllQuiet(), multiset{}, h, 3, {2, 4, 5}, p4 + p5 + p2);
    r := DoVote(r, r0, Four(Quiet(2), Quiet(5), Member(3, 1, 0, 1, 0, true), Quiet(4)), p4 + p5, h, 2, 3, 1);
    h := h.(grants := h.grants + {Grant(2, 1, 3)});
    assert p4 + p5 + a2 == p4 + a2 + p5;
    r := DoVote(r, r0, Four(Member(2, 1, 1, 0, 0, false), Quiet(5), Member(3, 1, 0, 1, 0, true), Quiet(4)),
                p4 + a2, h, 5, 3, 1);
    h := h.(grants := h.grants + {Grant(5, 1, 3)});
    assert p4 + a2 + a5 == a5 + a2 + p4;
    r := DoOverhear(r, r0, Four(Member(2, 1, 1, 0, 0, false), Member(5, 1, 1, 0, 0, false),
        Member(3, 1, 0, 1, 0, true), Quiet(4)),
                    a5 + a2, h, 4, 3, 1);
  }

  /** Replica 3 tries again: its count is reset, then the votes of epoch 1 arrive, and then the
      election for epoch 2 opens. */
  lemma SecondTry(r0: Run, r1: Run, h1: History) returns (r: Run, h: History)
    requires Reached(r1, r0, Four(Member(2, 1, 1, 0, 0, false), Member(5, 1, 1, 0, 0, false),
             Member(3, 1, 0, 1, 0, true), Member(4, 1, 0, 0, 0, false)),
                     multiset{Packet(3, Answer(5, 1))} + multiset{Packet(3, Answer(2, 1))}, h1)
    ensures Reached(r, r0, Four(Member(2, 1, 1, 0, 0, false), Member(5, 1, 1, 0, 0, false),
            Member(3, 2, 0, 2, 2, true), Member(4, 1, 0, 0, 0, false)),
                    multiset{}, h)
    ensures h.grants == h1.grants && h.wins == h1.wins
  {
    hide Broadcast, Table, Owners, Addressed, Ask, Answer, Run.Valid, World, Four.Members;
    var a2, a5 := multiset{Packet(3, Answer(2, 1))}, multiset{Packet(3, Answer(5, 1))};
    var w := Four(Member(2, 1, 1, 0, 0, false), Member(5, 1, 1, 0, 0, false), Member(3, 1, 0, 1, 0, true),
        Member(4, 1, 0, 0, 0, false));
    r := DoSchedule(r1, r0, w, a5 + a2, h1, 3);
    h := h1.(counted := h1.counted[3 := {}], stale := h1.stale[3 := 0]);
    r := DoReceive(r, r0, w.(c := Member(3, 1, 0, 1, 0, false)), a5, h, 3, 2, 1);
    h := Heard(h, 3, 2, 1, false);
    assert multiset{} + a5 == a5;
    r := DoReceive(r, r0, w.(c := Member(3, 1, 0, 1, 1, false)), multiset{}, h, 3, 5, 1);
    h := Heard(h, 3, 5, 1, false);
    BroadcastTwo(Ask(3, 2));
    assert Addressed(multiset{}) by { NothingAddressed(); }
    r := DoOpen(r, r0, w.(c := Member(3, 1, 0, 1, 2, false)), multiset{}, h, 3, {}, multiset{});
  }

  lemma NothingAddressed()
    ensures Addressed(multiset{})
  {
  }

  /** Replica 4 opens the election for epoch 2 and gets both votes. */
  lemma OtherElection(r0: Run, r1: Run, h1: History) returns (r: Run, h: History)
    requires Reached(r1, r0, Four(Member(2, 1, 1, 0, 0, false), Member(5, 1, 1, 0, 0, false),
             Member(3, 2, 0, 2, 2, true), Member(4, 1, 0, 0, 0, false)),
                     multiset{}, h1)
    ensures Reached(r, r0, Four(Member(2, 2, 2, 0, 0, false), Member(5, 2, 2, 0, 0, false),
            Member(3, 2, 0, 2, 2, true), Member(4, 2, 0, 2, 2, true)),
                    multiset{}, h)
    ensures h.grants == h1.grants + {Grant(2, 2, 4), Grant(5, 2, 4)} && h.wins == h1.wins
  {
    hide Broadcast, Table, Owners, Addressed, Ask, Answer, Run.Valid, World, Four.Members;
    var q := Ask(4, 2);
    BroadcastTwo(q);
    AskAddressed(4, 2, {2, 5});
    var p2, p5 := multiset{Packet(2, q)}, multiset{Packet(5, q)};
    var a2, a5 := multiset{Packet(4, Answer(2, 2))}, multiset{Packet(4, Answer(5, 2))};
    var w := Four(Member(2, 1, 1, 0, 0, false), Member(5, 1, 1, 0, 0, false), Member(3, 2, 0, 2, 2, true),
        Member(4, 1, 0, 0, 0, false));
    r := DoSchedule(r1, r0, w, multiset{}, h1, 4);
    h := h1.(counted := h1.counted[4 := {}], stale := h1.stale[4 := 0]);
    assert multiset{} + Broadcast({2, 5}, q) == p5 + p2;
    r := DoOpen(r, r0, w, multiset{}, h, 4, {2, 5}, p5 + p2);
    w := w.(d := Member(4, 2, 0, 2, 0, true));
    r := DoVote(r, r0, w, p5, h, 2, 4, 2);
    h := h.(grants := h.grants + {Grant(2, 2, 4)});
    w := w.(a := Member(2, 2, 2, 0, 0, false));
    assert p5 + a2 == a2 + p5;
    r := DoVote(r, r0, w, a2, h, 5, 4, 2);
    h := h.(grants := h.grants + {Grant(5, 2, 4)});
    w := w.(b := Member(5, 2, 2, 0, 0, false));
    assert a2 + a5 == a5 + a2;
    r := DoReceive(r, r0, w, a5, h, 4, 2, 2);
    h := Heard(h, 4, 2, 2, true);
    assert multiset{} + a5 == a5;
    r := DoReceive(r, r0, w.(d := Member(4, 2, 0, 2, 1, true)), multiset{}, h, 4, 5, 2);
    h := Heard(h, 4, 5, 2, true);
  }

  lemma QuietBounded(i: NodeId)
    requires IsMember(i)
    ensures Quiet(i).WellFormed() && EpochsBounded(Quiet(i)) && AllQuiet().Of(i) == Quiet(i) && Quiet(i).me == i
  {
    MemberWellFormed(Quiet(i));
  }

  lemma QuietEpochs()
    ensures EpochInvariant(World(AllQuiet(), multiset{}))
  {
    hide Node.WellFormed, EpochsBounded, Quiet, Four.Of;
    QuietBounded(2);
    QuietBounded(5);
    QuietBounded(3);
    QuietBounded(4);
    WorldNode(AllQuiet(), multiset{}, 2, Quiet(2), multiset{});
    WorldNode(AllQuiet(), multiset{}, 5, Quiet(5), multiset{});
    WorldNode(AllQuiet(), multiset{}, 3, Quiet(3), multiset{});
    WorldNode(AllQuiet(), multiset{}, 4, Quiet(4), multiset{});
  }

  lemma QuietElections()
    ensures NoElections(World(AllQuiet(), multiset{}), Nothing())
  {
    hide Table, Owners;
  }

  lemma StartsQuiet() returns (r: Run)
    ensures Reached(r, r, AllQuiet(), multiset{}, Nothing()) && |r.states| == 1 == |r.history|
    ensures EpochInvariant(r.states[0]) && NoElections(r.states[0], r.history[0])
  {
    hide Next, Record, Enabled, EpochInvariant, NoElections, World, Table, Owners;
    r := Run([World(AllQuiet(), multiset{})], [Nothing()], []);
    QuietEpochs();
    QuietElections();
    NothingAddressed();
  }

  /** Both replicas are elected. */
  lemma BothWin(r0: Run, r1: Run, h1: History) returns (r: Run, w: Win, w': Win)
    requires Reached(r1, r0, Four(Member(2, 2, 2, 0, 0, false), Member(5, 2, 2, 0, 0, false),
             Member(3, 2, 0, 2, 2, true), Member(4, 2, 0, 2, 2, true)),
                     multiset{}, h1)
    ensures r.Valid() && |r.states| > 0 && |r.history| > 0 && r.states[0] == r0.states[0]
    ensures r.history[0] == r0.history[0]
    ensures r.Past().grants == h1.grants && w in r.Past().wins && w' in r.Past().wins
    ensures w.candidate == 3 && w'.candidate == 4 && w.epoch == 2 == w'.epoch && w.size == 3 == w'.size
  {
    hide Sound, Enabled, Next, Record, Tracks, IsRecordedRun, Table, Owners, Cluster, World;
    var f := Four(Member(2, 2, 2, 0, 0, false), Member(5, 2, 2, 0, 0, false), Member(3, 2, 0, 2, 2, true),
        Member(4, 2, 0, 2, 2, true));
    NotEmpty(r1);
    WorldIsCluster(f, multiset{});
    WorldNode(f, multiset{}, 3, f.c, multiset{});
    WorldNode(f, multiset{}, 4, f.d, multiset{});
    WinStep(r1.Last(), h1, 3);
    w := Win(3, 2, h1.stale[3], 3);
    var r2 := Extend(r1, Failover(3, GO, {}, false));
    NotEmpty(r2);
    assert 4 in r2.Last().nodes by { ClusterKeys(r2.Last()); }
    WinStep(r2.Last(), r2.Past(), 4);
    w' := Win(4, 2, h1.stale[4], 3);
    r := Extend(r2, Failover(4, GO, {}, false));
    NotEmpty(r);
  }

  lemma ClusterKeys(s: Net)
    requires Cluster(s)
    ensures s.nodes.Keys == {2, 3, 4, 5}
  {
  }

  /** There is a run of automatic failovers, from a state without elections and with three
      masters of which two vote, in which two replicas win the same epoch: acknowledgements that
      arrive early break the uniqueness of winners. */
  lemma TwoWinners() returns (r: Run, w: Win, w': Win)
    ensures IsRecordedRun(r.states, r.history, r.steps) && |r.history| > 0 && |r.states| > 0 && Automatic(r.steps)
    ensures EpochInvariant(r.states[0]) && NoElections(r.states[0], r.history[0])
    ensures var h := r.history[|r.history| - 1];
            && (forall g :: g in h.grants ==> g.voter in {2, 5})
            && w in h.wins && w' in h.wins && w.epoch == w'.epoch && w.size == w'.size == 3
                  && w.candidate != w'.candidate
  {
    hide Reached, IsRecordedRun, EpochInvariant, NoElections, Table, Owners;
    var r0 := StartsQuiet();
    var r1, h1 := FirstElection(r0);
    var r2, h2 := SecondTry(r0, r1, h1);
    var r3, h3 := OtherElection(r0, r2, h2);
    r, w, w' := BothWin(r0, r3, h3);
  }
}