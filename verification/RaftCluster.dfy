/** A fixed set of Raft nodes exchanging messages over a network that may lose, repeat, delay and
    reorder them.

    A message once sent stays in `net` for ever, and any step may deliver it again or never. The
    history component records what has happened and influences no step. */
module RaftClusters {
  import opened Wrappers
  import opened RaftLogs
  import opened RaftNodes

  datatype Msg =
    | VoteReq(term: nat, candidate: nat, lastIndex: nat, lastTerm: nat)
    | VoteResp(term: nat, voter: nat, candidate: nat, granted: bool)
    | AppendReq(to: nat, req: AppendRequest)
      // A response travels with the request it answers: AppendEntries is a call with a reply.
    | AppendResp(to: nat, req: AppendRequest, resp: AppendResponse)

  /** One term of office: who won, with which log and whose votes, and the leader's log since. */
  datatype Reign = Reign(leader: nat, electionLog: seq<Entry>, log: seq<Entry>, voters: set<nat>)

  /** A vote, with the voter's log at the moment it was first cast. */
  datatype Vote = Vote(candidate: nat, log: seq<Entry>)

  datatype History = History(
    reigns: map<nat, Reign>,
    votes: map<(nat, nat), Vote>,
      // acks[(f, t)]: how far f has held, at some moment of term t, the log of that term's leader
    acks: map<(nat, nat), nat>)

  datatype System = System(nodes: map<nat, Node>, net: set<Msg>, hist: History)

  datatype Event =
    | Timeout(n: nat)
    | DeliverVoteReq(n: nat, msg: Msg)
    | Win(n: nat, voters: set<nat>)
    | Submit(n: nat, command: Command)
    | SendAppends(n: nat)
    | DeliverAppendReq(n: nat, msg: Msg)
    | DeliverAppendResp(n: nat, msg: Msg)
    | Demote(n: nat, term: nat)
    | Restart(n: nat)
    | Apply(n: nat)

  function Quorum(s: System): nat { |s.nodes| / 2 + 1 }

  function Fresh(id: nat, size: nat): Node {
    Node(id, Follower, 0, None, [], 0, 0, map[], size)
  }

  function Init(members: set<nat>): System {
    System(map m | m in members :: Fresh(m, |members|), {}, History(map[], map[], map[]))
  }

  /** The caller promotes a node only when a majority granted it their vote in its current term. */
  predicate Elected(s: System, n: nat, voters: set<nat>)
    requires n in s.nodes
  {
    && s.nodes[n].role == Candidate
    && n in voters && voters <= s.nodes.Keys
    && |voters| >= Quorum(s)
    && forall v :: v in voters && v != n ==> VoteResp(s.nodes[n].term, v, n, true) in s.net
  }

  predicate Enabled(s: System, e: Event) {
    && e.n in s.nodes
    && match e
       case DeliverVoteReq(_, msg) => msg in s.net && msg.VoteReq?
       case Win(n, voters) => Elected(s, n, voters)
       case DeliverAppendReq(n, msg) => msg in s.net && msg.AppendReq? && msg.to == n
       case DeliverAppendResp(n, msg) => msg in s.net && msg.AppendResp? && msg.to == n
       case _ => true
  }

  function Ack(h: History, f: nat, t: nat): nat {
    if (f, t) in h.acks then h.acks[(f, t)] else 0
  }

  function NoteAck(h: History, f: nat, t: nat, upTo: nat): History {
    h.(acks := h.acks[(f, t) := Max(Ack(h, f, t), upTo)])
  }

  function NoteVote(h: History, v: nat, t: nat, vote: Vote): History {
    if (v, t) in h.votes then h else h.(votes := h.votes[(v, t) := vote])
  }

  function Put(s: System, n: nat, node: Node): System { s.(nodes := s.nodes[n := node]) }

  function Send(s: System, msgs: set<Msg>): System { s.(net := s.net + msgs) }

  // ----- the steps -----

  function OnTimeout(s: System, n: nat): System
    requires n in s.nodes
  {
    match BecomeCandidate(s.nodes[n])
    case Err => s
    case Ok(m) =>
      Send(Put(s, n, m), {VoteReq(m.term, n, LastIndex(m.log), LastTerm(m.log))})
      .(hist := NoteVote(s.hist, n, m.term, Vote(n, m.log)))
  }

  function OnVoteReq(s: System, n: nat, msg: Msg): System
    requires n in s.nodes && msg.VoteReq?
  {
    var (m, granted) := HandleVoteRequest(s.nodes[n], msg.term, msg.candidate, msg.lastIndex, msg.lastTerm);
    var s' := Send(Put(s, n, m), {VoteResp(m.term, n, msg.candidate, granted)});
    if granted then s'.(hist := NoteVote(s.hist, n, m.term, Vote(msg.candidate, m.log))) else s'
  }

  function OnWin(s: System, n: nat, voters: set<nat>): System
    requires n in s.nodes
  {
    match BecomeLeader(s.nodes[n], s.nodes.Keys - {n})
    case Err => s
    case Ok(m) =>
      var h := s.hist.(reigns := s.hist.reigns[m.term := Reign(n, m.log, m.log, voters)]);
      Put(s, n, m).(hist := NoteAck(h, n, m.term, |m.log|))
  }

  function OnSubmit(s: System, n: nat, command: Command): System
    requires n in s.nodes
  {
    match Propose(s.nodes[n], command)
    case Err => s
    case Ok(m) =>
      if m.term in s.hist.reigns then
        var h := s.hist.(reigns := s.hist.reigns[m.term := s.hist.reigns[m.term].(log := m.log)]);
        Put(s, n, m).(hist := NoteAck(h, n, m.term, |m.log|))
      else Put(s, n, m)
  }

  function OnSendAppends(s: System, n: nat): System
    requires n in s.nodes
  {
    var requests := BuildRequests(s.nodes[n]);
    Send(s, set f | f in requests :: AppendReq(f, requests[f]))
  }

  function Covered(req: AppendRequest): nat { req.prevIndex + |req.entries| }

  ghost function OnAppendReq(s: System, n: nat, msg: Msg): System
    requires n in s.nodes && msg.AppendReq?
  {
    var (m, r) := HandleAppend(s.nodes[n], msg.req);
    match r
    case Err => Put(s, n, m)
    case Ok(resp) =>
      var s' := Send(Put(s, n, m), {AppendResp(msg.req.leaderId, msg.req, resp)});
      if resp.success then s'.(hist := NoteAck(s.hist, n, m.term, Covered(msg.req))) else s'
  }

  function OnAppendResp(s: System, n: nat, msg: Msg): System
    requires n in s.nodes && msg.AppendResp?
  {
    match HandleResponse(s.nodes[n], msg.resp)
    case Err => s
    case Ok(m) => Put(s, n, m)
  }

  ghost function Next(s: System, e: Event): System
    requires Enabled(s, e)
  {
    match e
    case Timeout(n) => OnTimeout(s, n)
    case DeliverVoteReq(n, msg) => OnVoteReq(s, n, msg)
    case Win(n, voters) => OnWin(s, n, voters)
    case Submit(n, command) => OnSubmit(s, n, command)
    case SendAppends(n) => OnSendAppends(s, n)
    case DeliverAppendReq(n, msg) => OnAppendReq(s, n, msg)
    case DeliverAppendResp(n, msg) => OnAppendResp(s, n, msg)
    case Demote(n, term) => Put(s, n, BecomeFollower(s.nodes[n], term))
    case Restart(n) => Put(s, n, Reopened(s.nodes[n]))
    case Apply(n) => Put(s, n, MarkApplied(s.nodes[n], s.nodes[n].commit))
  }

  /** Every event of the sequence is enabled where it occurs. */
  ghost predicate ValidRun(s: System, events: seq<Event>)
    decreases |events|
  {
    events == [] || (Enabled(s, events[0]) && ValidRun(Next(s, events[0]), events[1..]))
  }

  ghost function After(s: System, events: seq<Event>): System
    requires ValidRun(s, events)
    decreases |events|
  {
    if events == [] then s else After(Next(s, events[0]), events[1..])
  }
}
