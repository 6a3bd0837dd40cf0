/** Without the half of the check on responses that compares them with their requests, state machine safety fails.

    A follower answers a successful AppendEntries with the index of its last entry, although only
    the part the request covered is known to agree with the leader. A follower that still holds an
    entry of a deposed leader then acknowledges an entry it has never seen, and the leader commits
    it alone. The run below, of three nodes, in which every response is of its leader's own term,
    ends with two nodes having committed different commands at index 1. */
module RaftOvershoot {
  import opened Wrappers
  import opened RaftLogs
  import opened RaftNodes
  import opened RaftClusters
  import opened RaftElection
  import opened RaftSafety
  import opened RaftSteps

  /** The index in a successful answer names a prefix that both hold exactly if it is within what the request covered,
      or the leader happens to have an entry of that term there; within what was covered it always does, and only
      then if the request reached the end of the leader's log. */
  lemma AnswerIsTruthfulExactlyWhenCovered(
    m: Node, req: AppendRequest, leaderLog: seq<Entry>, reigns: map<nat, Reign>)
    requires LogOk(m.log, reigns) && LogOk(leaderLog, reigns) && 0 !in reigns
    requires Quotes(req, leaderLog) && Consistent(m, req)
    ensures var log := Merge(m.log, req.entries);
            var last := LastIndex(log);
            && (Extends(log, leaderLog, last)
                <==> last <= |leaderLog| && (last <= Covered(req) || TermAt(leaderLog, last) == LastTerm(log)))
            && (last <= Covered(req) ==> Extends(log, leaderLog, last))
            && (Covered(req) == |leaderLog| ==> (Extends(log, leaderLog, last) <==> last <= Covered(req)))
  {
    var log := Merge(m.log, req.entries);
    AbsorbShape(m, req, leaderLog, reigns);
    WellNumberedReads(log, 0);
    WellNumberedReads(leaderLog, LastIndex(log));
    if LastIndex(log) <= Covered(req) {
      PrefixOfPrefix(log, leaderLog, LastIndex(log), Covered(req));
    } else if LastIndex(log) <= |leaderLog| {
      LastEntryDecides(log, leaderLog, reigns);
    }
  }

  lemma LastEntryDecides(log: seq<Entry>, base: seq<Entry>, reigns: map<nat, Reign>)
    requires LogOk(log, reigns) && LogOk(base, reigns) && 0 < |log| <= |base|
    ensures log == base[..|log|] <==> base[|log| - 1].term == LastTerm(log)
  {
    if base[|log| - 1].term == LastTerm(log) { SameTermSamePrefix(log, base, |log| - 1, reigns); }
    assert log[..|log|] == log;
  }

  // ----- a run that breaks safety -----

  const A := UpdateConfig("owner", "two")
  const B := UpdateConfig("owner", "one")
  const C := Noop

  const EntryA := Entry(1, 1, A)
  const EntryB := Entry(1, 2, B)
  const EntryC := Entry(2, 3, C)

  function Three(a: Node, b: Node, c: Node): map<nat, Node> { map[1 := a, 2 := b, 3 := c] }

  function Voter(id: nat, role: Role, term: nat, vote: nat, log: seq<Entry>, commit: nat): Node {
    Node(id, role, term, Some(vote), log, commit, 0, map[], 3)
  }

  function Lead(id: nat, term: nat, log: seq<Entry>, commit: nat, p: nat, pp: Progress, q: nat, qq: Progress): Node {
    Node(id, Leader, term, Some(id), log, commit, 0, map[p := pp, q := qq], 3)
  }

  ghost predicate Reached(s0: System, s: System) { Reachable(OnlyOwnTerm, s0, s) }

  lemma Start() returns (s0: System)
    ensures s0 == Init({1, 2, 3}) && Reached(s0, s0)
    ensures s0.nodes == Three(Fresh(1, 3), Fresh(2, 3), Fresh(3, 3))
  {
    s0 := Init({1, 2, 3});
    ReachStart(OnlyOwnTerm, s0);
    assert |{1, 2, 3}| == 3;
  }

  // ----- the run -----

  lemma TwoUpdated(p: nat, q: nat, pp: Progress, qq: Progress, next': Progress)
    requires p != q
    ensures map[p := pp, q := qq][p := next'] == map[p := next', q := qq]
    ensures map[p := pp, q := qq][q := next'] == map[p := pp, q := next']
  {
  }

  /** The state of c after asking v for its vote and winning with it. */
  function Winner(x: Node, p: nat, q: nat): Node {
    var next := Progress(LastIndex(x.log) + 1, 0);
    Node(x.id, Leader, x.term + 1, Some(x.id), x.log, x.commit, x.lastApplied, map[p := next, q := next], x.clusterSize)
  }

  lemma CrownedWinner(x: Node, p: nat, q: nat)
    requires p != q
    ensures Crowned(Campaigning(x), {p, q}) == Winner(x, p, q)
  {
    assert Winner(x, p, q).followers.Keys == {p, q};
  }

  /** c asks for votes and v, with an empty log, grants its own. */
  lemma DoCampaign(s0: System, s: System, c: nat, v: nat) returns (s': System)
    requires Reached(s0, s) && c in s.nodes && v in s.nodes && c != v
    requires s.nodes[c].term < U64_MAX
    requires s.nodes[v].term <= s.nodes[c].term && s.nodes[v].log == []
    ensures Reached(s0, s')
    ensures var x := s.nodes[c];
            && s'.nodes == s.nodes[c := Campaigning(x)]
                                  [v := Granted(s.nodes[v], x.term + 1, c)]
            && VoteResp(x.term + 1, v, c, true) in s'.net
  {
    var x := s.nodes[c];
    var s1 := DoTimeout(OnlyOwnTerm, s0, s, c);
    s' := DoVote(OnlyOwnTerm, s0, s1, v, VoteReq(x.term + 1, c, LastIndex(x.log), LastTerm(x.log)));
  }

  lemma DoElection(s0: System, s: System, c: nat, v: nat, other: nat) returns (s': System)
    requires Reached(s0, s) && s.nodes.Keys == {1, 2, 3} == {c, v, other} && c != v && c != other && v != other
    requires s.nodes[c].id == c && s.nodes[c].term < U64_MAX && |s.nodes[c].log| < U64_MAX
             && WellNumbered(s.nodes[c].log)
    requires forall i :: 0 <= i < |s.nodes[c].log| ==> s.nodes[c].log[i].term <= s.nodes[c].term
    requires s.nodes[v].term <= s.nodes[c].term && s.nodes[v].log == []
    ensures Reached(s0, s')
    ensures s'.nodes == s.nodes[c := Winner(s.nodes[c], v, other)]
                               [v := Granted(s.nodes[v], s.nodes[c].term + 1, c)]
  {
    var x := s.nodes[c];
    var y, z := Winner(x, v, other), Granted(s.nodes[v], x.term + 1, c);
    var s2 := DoCampaign(s0, s, c, v);
    assert |{1, 2, 3}| == 3 && |{c, v}| == 2 && |s2.nodes| == |s2.nodes.Keys|;
    assert Elected(s2, c, {c, v});
    s' := DoWin(OnlyOwnTerm, s0, s2, c, {c, v});
    assert s2.nodes.Keys - {c} == {v, other};
    CrownedWinner(x, v, other);
    assert s2.nodes[c := y] == s.nodes[c := y][v := z];
  }

  const N1 := Lead(1, 2, [EntryB], 1, 3, Progress(1, 0), 2, Progress(2, 1))
  const N2 := Node(2, Follower, 2, None, [EntryA], 0, 0, map[], 3)

  /** Node 2 wins term 1 with node 3's vote and appends A, which nobody else receives. */
  lemma FirstReign(s0: System) returns (s: System)
    requires Reached(s0, s0) && s0.nodes == Three(Fresh(1, 3), Fresh(2, 3), Fresh(3, 3))
    ensures Reached(s0, s)
    ensures s.nodes == Three(Fresh(1, 3), Lead(2, 1, [EntryA], 0, 3, Progress(1, 0), 1, Progress(1, 0)),
                             Voter(3, Follower, 1, 2, [], 0))
  {
    s := DoElection(s0, s0, 2, 3, 1);
    var y := Lead(2, 1, [EntryA], 0, 3, Progress(1, 0), 1, Progress(1, 0));
    FewCannotCommit(y, {});
    assert [] + [EntryA] == [EntryA];
    s := DoSubmit(OnlyOwnTerm, s0, s, 2, A, y);
  }

  /** Node 1, without A, wins term 2 with node 3's vote. */
  lemma SecondReign(s0: System, s: System) returns (s': System)
    requires Reached(s0, s)
    requires s.nodes == Three(Fresh(1, 3), Lead(2, 1, [EntryA], 0, 3, Progress(1, 0), 1, Progress(1, 0)),
                              Voter(3, Follower, 1, 2, [], 0))
    ensures Reached(s0, s')
    ensures s'.nodes == Three(Lead(1, 2, [], 0, 3, Progress(1, 0), 2, Progress(1, 0)),
                              Lead(2, 1, [EntryA], 0, 3, Progress(1, 0), 1, Progress(1, 0)),
                              Voter(3, Follower, 2, 1, [], 0))
  {
    var s1 := DoTimeout(OnlyOwnTerm, s0, s, 1);
    s' := DoElection(s0, s1, 1, 3, 2);
  }

  const Beat := AppendRequest(2, 1, 0, 0, [], 0)
  const BeatAnswer := AppendResponse(2, 2, true, 1)

  /** Node 2 acknowledges an empty heartbeat with index 1, because of its own entry A. */
  lemma Overshoot(s0: System, s: System) returns (s': System)
    requires Reached(s0, s)
    requires s.nodes == Three(Lead(1, 2, [], 0, 3, Progress(1, 0), 2, Progress(1, 0)),
                              Lead(2, 1, [EntryA], 0, 3, Progress(1, 0), 1, Progress(1, 0)),
                              Voter(3, Follower, 2, 1, [], 0))
    ensures Reached(s0, s') && AppendResp(1, Beat, BeatAnswer) in s'.net
    ensures s'.nodes == Three(Lead(1, 2, [], 0, 3, Progress(1, 0), 2, Progress(1, 0)), N2,
                              Voter(3, Follower, 2, 1, [], 0))
  {
    var s1 := DoSend(OnlyOwnTerm, s0, s, 1, 2);
    assert RequestFor(s.nodes[1], Progress(1, 0)) == Beat;
    s' := DoAppend(OnlyOwnTerm, s0, s1, 2, Beat, N2, BeatAnswer);
  }

  /** Node 1 appends B and takes the earlier answer for an acknowledgement of B. */
  lemma CommitsAlone(s0: System, s: System) returns (s': System)
    requires Reached(s0, s) && AppendResp(1, Beat, BeatAnswer) in s.net
    requires s.nodes == Three(Lead(1, 2, [], 0, 3, Progress(1, 0), 2, Progress(1, 0)), N2,
                              Voter(3, Follower, 2, 1, [], 0))
    ensures Reached(s0, s')
    ensures s'.nodes == Three(N1, N2, Voter(3, Follower, 2, 1, [], 0))
  {
    var y := Lead(1, 2, [EntryB], 0, 3, Progress(1, 0), 2, Progress(1, 0));
    FewCannotCommit(y, {});
    assert [] + [EntryB] == [EntryB];
    var s3 := DoSubmit(OnlyOwnTerm, s0, s, 1, B, y);
    EnoughCommit(N1.(commit := 0), {2});
    TwoUpdated(3, 2, Progress(1, 0), Progress(1, 0), Progress(2, 1));
    s' := DoResponse(OnlyOwnTerm, s0, s3, 1, Beat, BeatAnswer, N1);
  }

  const N2Leads := Lead(2, 3, [EntryA, EntryC], 0, 3, Progress(2, 0), 1, Progress(2, 0))

  /** Node 2 wins term 3 with node 3's vote and appends C. */
  lemma ThirdReign(s0: System, s: System) returns (s': System)
    requires Reached(s0, s) && s.nodes == Three(N1, N2, Voter(3, Follower, 2, 1, [], 0))
    ensures Reached(s0, s')
    ensures s'.nodes == Three(N1, N2Leads, Voter(3, Follower, 3, 2, [], 0))
  {
    var s1 := DoElection(s0, s, 2, 3, 1);
    FewCannotCommit(N2Leads, {});
    assert [EntryA] + [EntryC] == [EntryA, EntryC];
    s' := DoSubmit(OnlyOwnTerm, s0, s1, 2, C, N2Leads);
  }

  /** Node 3 lacks index 1 and refuses, so node 2 sends from the start. */
  lemma Backtracking(s0: System, s: System) returns (s': System)
    requires Reached(s0, s) && s.nodes == Three(N1, N2Leads, Voter(3, Follower, 3, 2, [], 0))
    ensures Reached(s0, s')
    ensures s'.nodes == Three(N1, Lead(2, 3, [EntryA, EntryC], 0, 3, Progress(1, 0), 1, Progress(2, 0)),
                              Voter(3, Follower, 3, 2, [], 0))
  {
    var req := AppendRequest(3, 2, 1, 1, [EntryC], 0);
    var s1 := DoSend(OnlyOwnTerm, s0, s, 2, 3);
    assert [EntryA, EntryC][1..] == [EntryC];
    assert RequestFor(N2Leads, Progress(2, 0)) == req;
    var refusal := AppendResponse(3, 3, false, 0);
    var s2 := DoAppend(OnlyOwnTerm, s0, s1, 3, req, Voter(3, Follower, 3, 2, [], 0), refusal);
    TwoUpdated(3, 1, Progress(2, 0), Progress(2, 0), Progress(1, 0));
    s' := DoResponse(OnlyOwnTerm, s0, s2, 2, req, refusal,
                     Lead(2, 3, [EntryA, EntryC], 0, 3, Progress(1, 0), 1, Progress(2, 0)));
  }

  /** With node 3's acknowledgement of A and C, node 2 commits both. */
  lemma CommitsOther(s0: System, s: System) returns (s': System)
    requires Reached(s0, s)
    requires s.nodes == Three(N1, Lead(2, 3, [EntryA, EntryC], 0, 3, Progress(1, 0), 1, Progress(2, 0)),
                              Voter(3, Follower, 3, 2, [], 0))
    ensures Reached(s0, s') && s'.nodes.Keys == {1, 2, 3}
    ensures s'.nodes[1] == N1 && s'.nodes[2].log == [EntryA, EntryC] && s'.nodes[2].commit == 2
  {
    var x := s.nodes[2];
    var req := AppendRequest(3, 2, 0, 0, [EntryA, EntryC], 0);
    var s1 := DoSend(OnlyOwnTerm, s0, s, 2, 3);
    assert [EntryA, EntryC][0..] == [EntryA, EntryC];
    assert RequestFor(x, Progress(1, 0)) == req;
    var acceptance := AppendResponse(3, 3, true, 2);
    MergeAtEnd([], [EntryA, EntryC]);
    assert [] + [EntryA, EntryC] == [EntryA, EntryC];
    var s2 := DoAppend(OnlyOwnTerm, s0, s1, 3, req, Voter(3, Follower, 3, 2, [EntryA, EntryC], 0), acceptance);
    var y := Lead(2, 3, [EntryA, EntryC], 0, 3, Progress(3, 2), 1, Progress(2, 0));
    EnoughCommit(y, {3});
    TwoUpdated(3, 1, Progress(1, 0), Progress(2, 0), Progress(3, 2));
    s' := DoResponse(OnlyOwnTerm, s0, s2, 2, req, acceptance, y.(commit := 2));
  }

  /** State machine safety does not hold of all runs: here node 1 has committed B and node 2 has
      committed A at index 1. */
  lemma SafetyFailsWithoutTheCheck() returns (events: seq<Event>)
    ensures HalfRun(OnlyOwnTerm, Init({1, 2, 3}), events) && ValidRun(Init({1, 2, 3}), events)
    ensures Clash(After(Init({1, 2, 3}), events), 1, 2, 0) && !CommitsAgree(After(Init({1, 2, 3}), events))
  {
    var s0 := Start();
    var s := FirstReign(s0);
    s := SecondReign(s0, s);
    s := Overshoot(s0, s);
    s := CommitsAlone(s0, s);
    s := ThirdReign(s0, s);
    s := Backtracking(s0, s);
    s := CommitsOther(s0, s);
    events :| EndsIn(OnlyOwnTerm, s0, events, s);
    assert A.value[0] != B.value[0];
    assert s.nodes[1].log[0] != s.nodes[2].log[0];
  }
}
