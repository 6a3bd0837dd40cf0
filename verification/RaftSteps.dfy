/** Building runs event by event: what one event does to nodes and network, and what a leader can commit.

    The runs obey one half of the check on responses, so that a run that ends badly shows the other half is needed. */
module RaftSteps {
  import opened Wrappers
  import opened Sets
  import opened RaftLogs
  import opened RaftNodes
  import opened RaftClusters
  import opened RaftSafety

  datatype Half = OnlyOwnTerm | OnlyWithin

  predicate Obeys(half: Half, s: System, e: Event)
    requires Enabled(s, e)
  {
    match half
    case OnlyOwnTerm => OwnTerm(s, e)
    case OnlyWithin => Within(s, e)
  }

  ghost predicate HalfRun(half: Half, s: System, events: seq<Event>)
    decreases |events|
  {
    || events == []
    || (Enabled(s, events[0]) && Obeys(half, s, events[0]) && HalfRun(half, Next(s, events[0]), events[1..]))
  }

  ghost predicate EndsIn(half: Half, s0: System, events: seq<Event>, s: System) {
    HalfRun(half, s0, events) && ValidRun(s0, events) && After(s0, events) == s
  }

  ghost predicate Reachable(half: Half, s0: System, s: System) { exists events :: EndsIn(half, s0, events, s) }

  lemma {:induction false} RunExtended(half: Half, s: System, events: seq<Event>, e: Event)
    requires HalfRun(half, s, events) && ValidRun(s, events)
    requires Enabled(After(s, events), e) && Obeys(half, After(s, events), e)
    ensures EndsIn(half, s, events + [e], Next(After(s, events), e))
    decreases |events|
  {
    if events != [] {
      RunExtended(half, Next(s, events[0]), events[1..], e);
      assert (events + [e])[1..] == events[1..] + [e];
    } else {
      assert events + [e] == [e] && [e][1..] == [];
      assert ValidRun(Next(s, e), []) && HalfRun(half, Next(s, e), []);
    }
  }

  lemma ReachNext(half: Half, s0: System, s: System, e: Event)
    requires Reachable(half, s0, s) && Enabled(s, e) && Obeys(half, s, e)
    ensures Reachable(half, s0, Next(s, e))
  {
    var events :| EndsIn(half, s0, events, s);
    RunExtended(half, s0, events, e);
  }

  lemma ReachStart(half: Half, s0: System)
    ensures Reachable(half, s0, s0)
  {
    assert EndsIn(half, s0, [], s0);
  }

  /** Two nodes have committed different commands at an index. */
  predicate Clash(s: System, a: nat, b: nat, i: nat) {
    && a in s.nodes && b in s.nodes
    && i < s.nodes[a].commit <= |s.nodes[a].log| && i < s.nodes[b].commit <= |s.nodes[b].log|
    && s.nodes[a].log[i].command != s.nodes[b].log[i].command
  }

  // ----- what one event does to nodes and network -----

  function Campaigning(x: Node): Node { x.(role := Candidate, term := x.term + 1, votedFor := Some(x.id)) }

  lemma DoTimeout(half: Half, s0: System, s: System, n: nat) returns (s': System)
    requires Reachable(half, s0, s) && n in s.nodes && s.nodes[n].term < U64_MAX
    ensures Reachable(half, s0, s')
    ensures var x := s.nodes[n];
            && s'.nodes == s.nodes[n := Campaigning(x)]
            && s'.net == s.net + {VoteReq(x.term + 1, n, LastIndex(x.log), LastTerm(x.log))}
  {
    ReachNext(half, s0, s, Timeout(n));
    s' := Next(s, Timeout(n));
  }

  function Granted(x: Node, term: nat, candidate: nat): Node { BecomeFollower(x, term).(votedFor := Some(candidate)) }

  lemma DoVote(half: Half, s0: System, s: System, n: nat, msg: Msg) returns (s': System)
    requires Reachable(half, s0, s) && n in s.nodes && msg in s.net && msg.VoteReq?
    requires msg.term > s.nodes[n].term && UpToDate(s.nodes[n].log, msg.lastTerm, msg.lastIndex)
    ensures Reachable(half, s0, s')
    ensures && s'.nodes == s.nodes[n := Granted(s.nodes[n], msg.term, msg.candidate)]
            && s'.net == s.net + {VoteResp(msg.term, n, msg.candidate, true)}
  {
    ReachNext(half, s0, s, DeliverVoteReq(n, msg));
    s' := Next(s, DeliverVoteReq(n, msg));
  }

  ghost predicate NoneOf(log: seq<Entry>, term: nat) { forall i :: 0 <= i < |log| ==> log[i].term != term }

  lemma NothingToCommit(x: Node)
    requires WellNumbered(x.log) && NoneOf(x.log, x.term)
    ensures AdvanceCommit(x) == x
  {
    var c := HighestReplicated(x, x.commit, LastIndex(x.log));
    WellNumberedReads(x.log, c);
  }

  lemma DoWin(half: Half, s0: System, s: System, n: nat, voters: set<nat>) returns (s': System)
    requires Reachable(half, s0, s) && n in s.nodes && Elected(s, n, voters)
    requires WellNumbered(s.nodes[n].log) && |s.nodes[n].log| < U64_MAX && NoneOf(s.nodes[n].log, s.nodes[n].term)
    ensures Reachable(half, s0, s')
    ensures s'.nodes == s.nodes[n := Crowned(s.nodes[n], s.nodes.Keys - {n})] && s'.net == s.net
  {
    ReachNext(half, s0, s, Win(n, voters));
    s' := Next(s, Win(n, voters));
    WellNumberedReads(s.nodes[n].log, 0);
    NothingToCommit(Crowned(s.nodes[n], s.nodes.Keys - {n}));
  }

  lemma DoSubmit(half: Half, s0: System, s: System, n: nat, command: Command, y: Node) returns (s': System)
    requires Reachable(half, s0, s) && n in s.nodes && Propose(s.nodes[n], command) == Ok(y)
    ensures Reachable(half, s0, s') && s'.nodes == s.nodes[n := y] && s'.net == s.net
  {
    ReachNext(half, s0, s, Submit(n, command));
    s' := Next(s, Submit(n, command));
  }

  lemma DoSend(half: Half, s0: System, s: System, n: nat, f: nat) returns (s': System)
    requires Reachable(half, s0, s) && n in s.nodes && s.nodes[n].role == Leader && f in s.nodes[n].followers
    ensures Reachable(half, s0, s') && s'.nodes == s.nodes && s.net <= s'.net
    ensures AppendReq(f, RequestFor(s.nodes[n], s.nodes[n].followers[f])) in s'.net
  {
    ReachNext(half, s0, s, SendAppends(n));
    s' := Next(s, SendAppends(n));
    assert BuildRequests(s.nodes[n])[f] == RequestFor(s.nodes[n], s.nodes[n].followers[f]);
  }

  lemma DoAppend(half: Half, s0: System, s: System, n: nat, req: AppendRequest, y: Node, resp: AppendResponse)
    returns (s': System)
    requires Reachable(half, s0, s) && n in s.nodes && AppendReq(n, req) in s.net
    requires HandleAppend(s.nodes[n], req) == (y, Ok(resp))
    ensures Reachable(half, s0, s') && s'.nodes == s.nodes[n := y]
    ensures s'.net == s.net + {AppendResp(req.leaderId, req, resp)}
  {
    ReachNext(half, s0, s, DeliverAppendReq(n, AppendReq(n, req)));
    s' := Next(s, DeliverAppendReq(n, AppendReq(n, req)));
  }

  predicate Believable(half: Half, x: Node, req: AppendRequest, resp: AppendResponse) {
    resp.success ==> if half == OnlyOwnTerm then resp.term == x.term else resp.matchIndex <= Covered(req)
  }

  lemma DoResponse(half: Half, s0: System, s: System, n: nat, req: AppendRequest, resp: AppendResponse, y: Node)
    returns (s': System)
    requires Reachable(half, s0, s) && n in s.nodes && AppendResp(n, req, resp) in s.net
    requires HandleResponse(s.nodes[n], resp) == Ok(y) && Believable(half, s.nodes[n], req, resp)
    ensures Reachable(half, s0, s') && s'.nodes == s.nodes[n := y] && s'.net == s.net
  {
    ReachNext(half, s0, s, DeliverAppendResp(n, AppendResp(n, req, resp)));
    s' := Next(s, DeliverAppendResp(n, AppendResp(n, req, resp)));
  }

  // ----- what a leader can commit -----

  /** Nothing more, while only a few followers have acknowledged more. */
  lemma FewCannotCommit(x: Node, few: set<nat>)
    requires |few| < x.clusterSize / 2
    requires forall f :: f in x.followers && f !in few ==> x.followers[f].matchIndex <= x.commit
    ensures AdvanceCommit(x) == x
  {
    forall k | k > x.commit ensures !Replicated(x, k) {
      SubsetSize(Acknowledged(x, k), few);
    }
  }

  /** Enough acknowledgements commit the last entry, if it is of the leader's term. */
  lemma EnoughCommit(x: Node, many: set<nat>)
    requires |many| >= x.clusterSize / 2 && WellNumbered(x.log) && |x.log| > x.commit && LastTerm(x.log) == x.term
    requires forall f :: f in many ==> f in x.followers && x.followers[f].matchIndex == |x.log|
    ensures AdvanceCommit(x) == x.(commit := |x.log|)
  {
    WellNumberedReads(x.log, |x.log|);
    SubsetSize(many, Acknowledged(x, |x.log|));
    assert Replicated(x, |x.log|);
  }
}
