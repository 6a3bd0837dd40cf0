/** What every run keeps, whatever the leader makes of its responses: one leader per term and
    logs that agree wherever their terms agree. */
module RaftElection {
  import opened Wrappers
  import opened RaftLogs
  import opened RaftNodes
  import opened RaftClusters

  // ----- the invariant -----

  /** Entry i came from the leader of its term, together with everything before it. */
  ghost predicate Rooted(log: seq<Entry>, i: int, reigns: map<nat, Reign>)
    requires 0 <= i < |log|
  {
    && log[i].term in reigns
    && i < |reigns[log[i].term].log|
    && log[..i + 1] == reigns[log[i].term].log[..i + 1]
  }

  ghost predicate LogOk(log: seq<Entry>, reigns: map<nat, Reign>) {
    && WellNumbered(log)
    && forall i :: 0 <= i < |log| ==> Rooted(log, i, reigns)
  }

  ghost predicate RoleOk(members: set<nat>, h: History, n: nat, x: Node) {
    && (x.role == Leader ==>
          && x.term in h.reigns
          && h.reigns[x.term].leader == n
          && h.reigns[x.term].log == x.log
          && x.followers.Keys == members - {n})
    && (x.role == Candidate ==>
          && x.term >= 1
          && x.votedFor == Some(n)
          && (n, x.term) in h.votes
          && h.votes[(n, x.term)].log == x.log
          && (x.term in h.reigns ==> h.reigns[x.term].leader != n))
  }

  ghost predicate NodeOk(members: set<nat>, h: History, n: nat, x: Node) {
    && x.id == n
    && x.clusterSize == |members|
    && (x.votedFor.Some? <==> (n, x.term) in h.votes)
    && (x.votedFor.Some? ==> h.votes[(n, x.term)].candidate == x.votedFor.value)
    && LogOk(x.log, h.reigns)
    && (forall i :: 0 <= i < |x.log| ==> x.log[i].term <= x.term)
    && RoleOk(members, h, n, x)
  }

  /** A candidate still running has the log its voters compared with theirs. */
  ghost predicate Outranks(c: Node, t: nat, log: seq<Entry>) {
    c.term == t && c.role == Candidate ==> UpToDate(log, LastTerm(c.log), LastIndex(c.log))
  }

  ghost predicate VoteOk(nodes: map<nat, Node>, reigns: map<nat, Reign>, k: (nat, nat), vote: Vote) {
    && k.0 in nodes && k.1 <= nodes[k.0].term
    && vote.candidate in nodes && k.1 <= nodes[vote.candidate].term
    && LogOk(vote.log, reigns)
    && Outranks(nodes[vote.candidate], k.1, vote.log)
  }

  ghost predicate ElectedBy(votes: map<(nat, nat), Vote>, t: nat, r: Reign, v: nat) {
    && (v, t) in votes
    && votes[(v, t)].candidate == r.leader
    && UpToDate(votes[(v, t)].log, LastTerm(r.electionLog), LastIndex(r.electionLog))
  }

  ghost predicate ReignOk(nodes: map<nat, Node>, h: History, t: nat, r: Reign) {
    && t >= 1
    && r.leader in nodes && t <= nodes[r.leader].term
    && r.voters <= nodes.Keys && |r.voters| >= |nodes.Keys| / 2 + 1
    && (forall v :: v in r.voters ==> ElectedBy(h.votes, t, r, v))
    && LogOk(r.log, h.reigns)
    && r.electionLog <= r.log
    && (forall i :: 0 <= i < |r.log| ==> r.log[i].term <= t && (i < |r.electionLog| <==> r.log[i].term < t))
  }

  /** An append request quotes its leader's log; one that points past it is an empty probe whose
      term 0 matches no entry. */
  ghost predicate Quotes(req: AppendRequest, log: seq<Entry>) {
    || (Covered(req) <= |log|
        && req.entries == log[req.prevIndex..Covered(req)]
        && (req.prevIndex > 0 ==> req.prevTerm == log[req.prevIndex - 1].term))
    || (req.prevIndex > 0 && req.prevTerm == 0 && req.entries == [])
  }

  ghost predicate MsgOk(nodes: map<nat, Node>, h: History, msg: Msg) {
    match msg
    case VoteReq(t, c, lastIndex, lastTerm) =>
      && c in nodes && t <= nodes[c].term
      && (nodes[c].term == t && nodes[c].role == Candidate ==>
            lastIndex == LastIndex(nodes[c].log) && lastTerm == LastTerm(nodes[c].log))
    case VoteResp(t, v, c, granted) =>
      granted ==> (v, t) in h.votes && h.votes[(v, t)].candidate == c
    case AppendReq(to, req) =>
      && req.term in h.reigns
      && req.leaderId == h.reigns[req.term].leader
      && to in nodes && to != req.leaderId
      && Quotes(req, h.reigns[req.term].log)
    case AppendResp(_, _, _) => true
  }

  ghost predicate NodesOk(s: System) {
    forall n :: n in s.nodes ==> NodeOk(s.nodes.Keys, s.hist, n, s.nodes[n])
  }
  ghost predicate VotesOk(s: System) {
    forall k :: k in s.hist.votes ==> VoteOk(s.nodes, s.hist.reigns, k, s.hist.votes[k])
  }
  ghost predicate ReignsOk(s: System) {
    forall t :: t in s.hist.reigns ==> ReignOk(s.nodes, s.hist, t, s.hist.reigns[t])
  }
  ghost predicate NetOk(s: System) {
    forall m :: m in s.net ==> MsgOk(s.nodes, s.hist, m)
  }

  ghost predicate Inv(s: System) {
    NodesOk(s) && VotesOk(s) && ReignsOk(s) && NetOk(s)
  }

  // ----- logs under growing reigns -----

  /** Terms of office are added and leader logs extended; nothing recorded changes otherwise. */
  ghost predicate Grown(r: map<nat, Reign>, r': map<nat, Reign>) {
    forall t :: t in r ==> t in r' && r[t].log <= r'[t].log && r'[t] == r[t].(log := r'[t].log)
  }

  lemma LogOkGrown(log: seq<Entry>, r: map<nat, Reign>, r': map<nat, Reign>)
    requires LogOk(log, r) && Grown(r, r')
    ensures LogOk(log, r')
  {
    forall i | 0 <= i < |log| ensures Rooted(log, i, r') {
      assert Rooted(log, i, r);
      var t := log[i].term;
      assert r'[t].log[..i + 1] == r[t].log[..i + 1];
    }
  }

  lemma LogOkPrefix(log: seq<Entry>, k: nat, r: map<nat, Reign>)
    requires LogOk(log, r) && k <= |log|
    ensures LogOk(log[..k], r)
  {
    forall i | 0 <= i < k ensures Rooted(log[..k], i, r) {
      assert Rooted(log, i, r);
      assert log[..k][..i + 1] == log[..i + 1];
    }
  }

  lemma SameTermSamePrefix(a: seq<Entry>, b: seq<Entry>, i: nat, r: map<nat, Reign>)
    requires LogOk(a, r) && LogOk(b, r) && i < |a| && i < |b| && a[i].term == b[i].term
    ensures a[..i + 1] == b[..i + 1]
  {
    assert Rooted(a, i, r) && Rooted(b, i, r);
  }

  lemma PrefixOfPrefix<T>(a: seq<T>, b: seq<T>, i: nat, k: nat)
    requires i <= k <= |a| && k <= |b| && a[..k] == b[..k]
    ensures a[..i] == b[..i]
  {
    assert a[..i] == a[..k][..i];
    assert b[..i] == b[..k][..i];
  }

  /** Two logs that are alike in terms at k - 1 agree on their first k entries. */
  lemma MatchAt(a: seq<Entry>, b: seq<Entry>, k: nat, r: map<nat, Reign>)
    requires LogOk(a, r) && LogOk(b, r) && k <= |a| && k <= |b|
    requires k > 0 ==> a[k - 1].term == b[k - 1].term
    ensures a[..k] == b[..k]
  {
    if k > 0 { SameTermSamePrefix(a, b, k - 1, r); }
  }

  // ----- majorities -----

  lemma MajoritiesMeet(members: set<nat>, a: set<nat>, b: set<nat>) returns (v: nat)
    requires a <= members && b <= members
    requires |a| >= |members| / 2 + 1 && |b| >= |members| / 2 + 1
    ensures v in a && v in b
  {
    assert members == (a + b) + (members - (a + b));
    assert |a + b| == |a| + |b| - |a * b|;
    v :| v in a * b;
  }

  // ----- one step, in general -----

  /** Step s to s' is the work of node n: only n changes; history only
      grows, in reigns of n and in n's vote of its new term. */
  ghost predicate Shift(s: System, s': System, n: nat) {
    && n in s.nodes && n in s'.nodes
    && s'.nodes == s.nodes[n := s'.nodes[n]]
    && s'.nodes[n].term >= s.nodes[n].term
    && s.net <= s'.net
    && Grown(s.hist.reigns, s'.hist.reigns)
    && (forall t :: t in s'.hist.reigns && (t !in s.hist.reigns || s'.hist.reigns[t] != s.hist.reigns[t]) ==>
          s'.hist.reigns[t].leader == n)
    && (forall k :: k in s.hist.votes ==> k in s'.hist.votes && s'.hist.votes[k] == s.hist.votes[k])
    && (forall k :: k in s'.hist.votes && k !in s.hist.votes ==> k == (n, s'.nodes[n].term))
  }

  /** A candidacy starts in a new term, and its log does not change while it lasts. */
  ghost predicate FairCandidacy(x: Node, y: Node) {
    y.role == Candidate && y.term == x.term ==> x.role == Candidate && y.log == x.log
  }

  lemma NodesKept(s: System, s': System, n: nat)
    requires Inv(s) && Shift(s, s', n)
    requires NodeOk(s'.nodes.Keys, s'.hist, n, s'.nodes[n])
    ensures NodesOk(s')
  {
    assert s'.nodes.Keys == s.nodes.Keys;
    forall m | m in s'.nodes && m != n ensures NodeOk(s'.nodes.Keys, s'.hist, m, s'.nodes[m]) {
      var x := s.nodes[m];
      assert NodeOk(s.nodes.Keys, s.hist, m, x);
      LogOkGrown(x.log, s.hist.reigns, s'.hist.reigns);
    }
  }

  lemma VotesKept(s: System, s': System, n: nat)
    requires Inv(s) && Shift(s, s', n) && FairCandidacy(s.nodes[n], s'.nodes[n])
    ensures forall k :: k in s.hist.votes ==> VoteOk(s'.nodes, s'.hist.reigns, k, s'.hist.votes[k])
  {
    forall k | k in s.hist.votes ensures VoteOk(s'.nodes, s'.hist.reigns, k, s'.hist.votes[k]) {
      assert VoteOk(s.nodes, s.hist.reigns, k, s.hist.votes[k]);
      LogOkGrown(s.hist.votes[k].log, s.hist.reigns, s'.hist.reigns);
    }
  }

  lemma ReignsKept(s: System, s': System, n: nat)
    requires Inv(s) && Shift(s, s', n)
    ensures forall t :: t in s.hist.reigns && s'.hist.reigns[t] == s.hist.reigns[t] ==>
              ReignOk(s'.nodes, s'.hist, t, s'.hist.reigns[t])
  {
    assert s'.nodes.Keys == s.nodes.Keys;
    forall t | t in s.hist.reigns && s'.hist.reigns[t] == s.hist.reigns[t]
      ensures ReignOk(s'.nodes, s'.hist, t, s'.hist.reigns[t])
    {
      var r := s.hist.reigns[t];
      assert ReignOk(s.nodes, s.hist, t, r);
      LogOkGrown(r.log, s.hist.reigns, s'.hist.reigns);
      forall v | v in r.voters ensures ElectedBy(s'.hist.votes, t, r, v) { assert ElectedBy(s.hist.votes, t, r, v); }
    }
  }

  lemma QuotesGrown(req: AppendRequest, log: seq<Entry>, log': seq<Entry>)
    requires Quotes(req, log) && log <= log'
    ensures Quotes(req, log')
  {
    if Covered(req) <= |log| && req.entries == log[req.prevIndex..Covered(req)] {
      assert log'[req.prevIndex..Covered(req)] == log[req.prevIndex..Covered(req)];
    }
  }

  lemma NetKept(s: System, s': System, n: nat)
    requires Inv(s) && Shift(s, s', n) && FairCandidacy(s.nodes[n], s'.nodes[n])
    ensures forall m :: m in s.net ==> MsgOk(s'.nodes, s'.hist, m)
  {
    forall m | m in s.net ensures MsgOk(s'.nodes, s'.hist, m) {
      assert MsgOk(s.nodes, s.hist, m);
      if m.AppendReq? {
        QuotesGrown(m.req, s.hist.reigns[m.req.term].log, s'.hist.reigns[m.req.term].log);
      }
    }
  }

  /** A step keeps the invariant as soon as what is new in it is in order. */
  lemma StepKeeps(s: System, s': System, n: nat)
    requires Inv(s) && Shift(s, s', n) && FairCandidacy(s.nodes[n], s'.nodes[n])
    requires NodeOk(s'.nodes.Keys, s'.hist, n, s'.nodes[n])
    requires forall k :: k in s'.hist.votes && k !in s.hist.votes ==>
               VoteOk(s'.nodes, s'.hist.reigns, k, s'.hist.votes[k])
    requires forall t :: t in s'.hist.reigns && (t !in s.hist.reigns || s'.hist.reigns[t] != s.hist.reigns[t]) ==>
               ReignOk(s'.nodes, s'.hist, t, s'.hist.reigns[t])
    requires forall m :: m in s'.net && m !in s.net ==> MsgOk(s'.nodes, s'.hist, m)
    ensures Inv(s')
  {
    NodesKept(s, s', n);
    VotesKept(s, s', n);
    ReignsKept(s, s', n);
    NetKept(s, s', n);
  }

  // ----- the steps -----

  /** Changes that touch neither term, vote nor log, and may only end a role. */
  lemma LocalChangeKeeps(s: System, n: nat, y: Node)
    requires Inv(s) && n in s.nodes
    requires var x := s.nodes[n];
             y == x.(commit := y.commit, lastApplied := y.lastApplied, followers := y.followers, role := y.role)
    requires y.role == s.nodes[n].role || y.role == Follower
    requires y.role == Leader ==> y.followers.Keys == s.nodes[n].followers.Keys
    ensures Inv(Put(s, n, y))
  {
    assert NodeOk(s.nodes.Keys, s.hist, n, s.nodes[n]);
    assert Put(s, n, y).nodes.Keys == s.nodes.Keys;
    StepKeeps(s, Put(s, n, y), n);
  }

  lemma DemoteKeeps(s: System, n: nat, term: nat)
    requires Inv(s) && n in s.nodes
    ensures Inv(Put(s, n, BecomeFollower(s.nodes[n], term)))
  {
    var x, y := s.nodes[n], BecomeFollower(s.nodes[n], term);
    assert NodeOk(s.nodes.Keys, s.hist, n, x);
    assert Put(s, n, y).nodes.Keys == s.nodes.Keys;
    assert term > x.term ==> (n, term) !in s.hist.votes;
    StepKeeps(s, Put(s, n, y), n);
  }

  lemma SendKeeps(s: System, n: nat, msgs: set<Msg>)
    requires Inv(s) && n in s.nodes && forall m :: m in msgs ==> MsgOk(s.nodes, s.hist, m)
    ensures Inv(Send(s, msgs))
  {
    var s' := Send(s, msgs);
    assert s'.nodes == s.nodes[n := s.nodes[n]];
    StepKeeps(s, s', n);
  }

  lemma AckKeeps(s: System, f: nat, t: nat, upTo: nat)
    requires Inv(s)
    ensures Inv(s.(hist := NoteAck(s.hist, f, t, upTo)))
  {
    var s' := s.(hist := NoteAck(s.hist, f, t, upTo));
    forall u | u in s'.hist.reigns ensures ReignOk(s'.nodes, s'.hist, u, s'.hist.reigns[u]) {
      assert ReignOk(s.nodes, s.hist, u, s.hist.reigns[u]);
    }
    forall n | n in s'.nodes ensures NodeOk(s'.nodes.Keys, s'.hist, n, s'.nodes[n]) {
      assert NodeOk(s.nodes.Keys, s.hist, n, s.nodes[n]);
    }
    forall k | k in s'.hist.votes ensures VoteOk(s'.nodes, s'.hist.reigns, k, s'.hist.votes[k]) {
      assert VoteOk(s.nodes, s.hist.reigns, k, s.hist.votes[k]);
    }
    forall m | m in s'.net ensures MsgOk(s'.nodes, s'.hist, m) { assert MsgOk(s.nodes, s.hist, m); }
  }

  lemma TimeoutShift(s: System, n: nat)
    requires n in s.nodes && s.nodes[n].term < U64_MAX
    requires (n, s.nodes[n].term + 1) !in s.hist.votes && s.nodes[n].id == n
    ensures var s' := OnTimeout(s, n);
            var y := s'.nodes[n];
            && Shift(s, s', n) && FairCandidacy(s.nodes[n], y) && s'.nodes.Keys == s.nodes.Keys
            && s'.hist.reigns == s.hist.reigns && s'.hist.acks == s.hist.acks
            && s'.hist.votes == s.hist.votes[(n, y.term) := Vote(n, y.log)]
            && s'.net == s.net + {VoteReq(y.term, n, LastIndex(y.log), LastTerm(y.log))}
            && y == s.nodes[n].(role := Candidate, term := s.nodes[n].term + 1, votedFor := Some(n))
  {
  }

  lemma TimeoutKeeps(s: System, n: nat)
    requires Inv(s) && n in s.nodes
    ensures Inv(OnTimeout(s, n))
  {
    var x := s.nodes[n];
    assert NodeOk(s.nodes.Keys, s.hist, n, x);
    if x.term < U64_MAX {
      NewTermUnseen(s, n, x.term + 1);
      TimeoutShift(s, n);
      StepKeeps(s, OnTimeout(s, n), n);
    }
  }

  /** A node has cast no vote and led no reign in a term it has not reached. */
  lemma NewTermUnseen(s: System, n: nat, t: nat)
    requires Inv(s) && n in s.nodes && t > s.nodes[n].term
    ensures (n, t) !in s.hist.votes
    ensures t in s.hist.reigns ==> s.hist.reigns[t].leader != n
  {
    assert (n, t) in s.hist.votes ==> VoteOk(s.nodes, s.hist.reigns, (n, t), s.hist.votes[(n, t)]);
    assert t in s.hist.reigns ==> ReignOk(s.nodes, s.hist, t, s.hist.reigns[t]);
  }

  /** Casting a vote in the current term, for the candidate of a request in the network. */
  lemma VoteKeeps(s: System, n: nat, msg: Msg)
    requires Inv(s) && n in s.nodes && msg in s.net && msg.VoteReq?
    requires Grants(s.nodes[n], msg.term, msg.candidate, msg.lastIndex, msg.lastTerm)
    ensures var y := s.nodes[n].(votedFor := Some(msg.candidate));
            Inv(Send(Put(s, n, y), {VoteResp(y.term, n, msg.candidate, true)})
                .(hist := NoteVote(s.hist, n, y.term, Vote(msg.candidate, y.log))))
  {
    var y := s.nodes[n].(votedFor := Some(msg.candidate));
    var s' := Send(Put(s, n, y), {VoteResp(y.term, n, msg.candidate, true)})
              .(hist := NoteVote(s.hist, n, y.term, Vote(msg.candidate, y.log)));
    assert NodeOk(s.nodes.Keys, s.hist, n, s.nodes[n]);
    assert MsgOk(s.nodes, s.hist, msg);
    assert s'.nodes.Keys == s.nodes.Keys;
    StepKeeps(s, s', n);
  }

  lemma VoteReqKeeps(s: System, n: nat, msg: Msg)
    requires Inv(s) && n in s.nodes && msg in s.net && msg.VoteReq?
    ensures Inv(OnVoteReq(s, n, msg))
  {
    var m := AdoptTerm(s.nodes[n], msg.term);
    var s1 := Put(s, n, m);
    AdoptTermKeeps(s, n, msg.term);
    VoteReqInTwo(s, n, msg);
    if Grants(m, msg.term, msg.candidate, msg.lastIndex, msg.lastTerm) {
      VoteKeeps(s1, n, msg);
    } else {
      SendKeeps(s1, n, {VoteResp(m.term, n, msg.candidate, false)});
    }
  }

  lemma AdoptTermKeeps(s: System, n: nat, term: nat)
    requires Inv(s) && n in s.nodes
    ensures Inv(Put(s, n, AdoptTerm(s.nodes[n], term)))
  {
    if term > s.nodes[n].term {
      DemoteKeeps(s, n, term);
    } else {
      assert Put(s, n, s.nodes[n]) == s;
    }
  }

  /** Answering a vote request is adopting its term and then voting or refusing. */
  lemma VoteReqInTwo(s: System, n: nat, msg: Msg)
    requires n in s.nodes && msg.VoteReq?
    ensures var m := AdoptTerm(s.nodes[n], msg.term);
            var s1, y := Put(s, n, m), m.(votedFor := Some(msg.candidate));
            OnVoteReq(s, n, msg) ==
            if Grants(m, msg.term, msg.candidate, msg.lastIndex, msg.lastTerm) then
              Send(Put(s1, n, y), {VoteResp(y.term, n, msg.candidate, true)})
              .(hist := NoteVote(s1.hist, n, y.term, Vote(msg.candidate, y.log)))
            else Send(s1, {VoteResp(m.term, n, msg.candidate, false)})
  {
    var m := AdoptTerm(s.nodes[n], msg.term);
    assert Put(Put(s, n, m), n, m.(votedFor := Some(msg.candidate))) == Put(s, n, m.(votedFor := Some(msg.candidate)));
  }

  // ----- winning an election -----

  lemma VotesForWinner(s: System, n: nat, voters: set<nat>)
    requires Inv(s) && n in s.nodes && Elected(s, n, voters)
    ensures var x := s.nodes[n];
            forall v :: v in voters ==> ElectedBy(s.hist.votes, x.term, Reign(n, x.log, x.log, voters), v)
  {
    var x := s.nodes[n];
    var t := x.term;
    assert NodeOk(s.nodes.Keys, s.hist, n, x);
    forall v | v in voters ensures ElectedBy(s.hist.votes, t, Reign(n, x.log, x.log, voters), v) {
      if v != n { assert MsgOk(s.nodes, s.hist, VoteResp(t, v, n, true)); }
      assert VoteOk(s.nodes, s.hist.reigns, (v, t), s.hist.votes[(v, t)]);
    }
  }

  /** Two majorities of votes in one term are for one candidate: they share a voter. */
  lemma SameWinner(members: set<nat>, votes: map<(nat, nat), Vote>, t: nat, a: Reign, b: Reign)
    requires a.voters <= members && |a.voters| >= |members| / 2 + 1
    requires b.voters <= members && |b.voters| >= |members| / 2 + 1
    requires forall v :: v in a.voters ==> ElectedBy(votes, t, a, v)
    requires forall v :: v in b.voters ==> ElectedBy(votes, t, b, v)
    ensures a.leader == b.leader
  {
    var v := MajoritiesMeet(members, a.voters, b.voters);
    assert ElectedBy(votes, t, a, v) && ElectedBy(votes, t, b, v);
  }

  /** No term is won twice. */
  lemma FirstWin(s: System, n: nat, voters: set<nat>)
    requires Inv(s) && n in s.nodes && Elected(s, n, voters)
    ensures s.nodes[n].term !in s.hist.reigns
  {
    var x := s.nodes[n];
    VotesForWinner(s, n, voters);
    assert NodeOk(s.nodes.Keys, s.hist, n, x);
    if x.term in s.hist.reigns {
      var r := s.hist.reigns[x.term];
      assert ReignOk(s.nodes, s.hist, x.term, r);
      SameWinner(s.nodes.Keys, s.hist.votes, x.term, Reign(n, x.log, x.log, voters), r);
    }
  }

  function WithReign(h: History, t: nat, r: Reign): History { h.(reigns := h.reigns[t := r]) }

  ghost function CrownedSystem(s: System, n: nat, voters: set<nat>): System
    requires n in s.nodes
  {
    var y := Crowned(s.nodes[n], s.nodes.Keys - {n});
    Put(s, n, y).(hist := WithReign(s.hist, y.term, Reign(n, y.log, y.log, voters)))
  }

  /** Entries known before term t is won are of lower terms. */
  lemma BelowOwnTerm(s: System, n: nat, t: nat)
    requires Inv(s) && n in s.nodes && t == s.nodes[n].term && t !in s.hist.reigns
    ensures forall i :: 0 <= i < |s.nodes[n].log| ==> s.nodes[n].log[i].term < t
  {
    var x := s.nodes[n];
    assert NodeOk(s.nodes.Keys, s.hist, n, x);
    forall i | 0 <= i < |x.log| ensures x.log[i].term < t {
      assert Rooted(x.log, i, s.hist.reigns);
    }
  }

  lemma NewReignOk(s: System, n: nat, voters: set<nat>, s': System)
    requires Inv(s) && n in s.nodes && Elected(s, n, voters) && s' == CrownedSystem(s, n, voters)
    requires LogOk(s.nodes[n].log, s'.hist.reigns)
    ensures ReignOk(s'.nodes, s'.hist, s.nodes[n].term, s'.hist.reigns[s.nodes[n].term])
  {
    FirstWin(s, n, voters);
    VotesForWinner(s, n, voters);
    BelowOwnTerm(s, n, s.nodes[n].term);
    assert NodeOk(s.nodes.Keys, s.hist, n, s.nodes[n]);
    assert s'.nodes.Keys == s.nodes.Keys;
  }

  lemma CrownKeeps(s: System, n: nat, voters: set<nat>)
    requires Inv(s) && n in s.nodes && Elected(s, n, voters)
    ensures Inv(CrownedSystem(s, n, voters))
  {
    var s' := CrownedSystem(s, n, voters);
    FirstWin(s, n, voters);
    assert NodeOk(s.nodes.Keys, s.hist, n, s.nodes[n]);
    assert s'.nodes.Keys == s.nodes.Keys;
    LogOkGrown(s.nodes[n].log, s.hist.reigns, s'.hist.reigns);
    NewReignOk(s, n, voters, s');
    StepKeeps(s, s', n);
  }

  lemma AdvanceCommitKeeps(s: System, n: nat)
    requires Inv(s) && n in s.nodes
    ensures Inv(Put(s, n, AdvanceCommit(s.nodes[n])))
  {
    LocalChangeKeeps(s, n, AdvanceCommit(s.nodes[n]));
  }

  /** Winning is taking office and then advancing the commit index. */
  lemma WinInTwo(s: System, n: nat, voters: set<nat>)
    requires n in s.nodes && BecomeLeader(s.nodes[n], s.nodes.Keys - {n}).Ok?
    ensures var s1 := CrownedSystem(s, n, voters);
            var s2 := Put(s1, n, AdvanceCommit(s1.nodes[n]));
            OnWin(s, n, voters) == s2.(hist := NoteAck(s2.hist, n, s1.nodes[n].term, |s1.nodes[n].log|))
  {
    var y := Crowned(s.nodes[n], s.nodes.Keys - {n});
    assert s.nodes[n := y][n := AdvanceCommit(y)] == s.nodes[n := AdvanceCommit(y)];
  }

  lemma WinKeeps(s: System, n: nat, voters: set<nat>)
    requires Inv(s) && n in s.nodes && Elected(s, n, voters)
    ensures Inv(OnWin(s, n, voters))
  {
    if BecomeLeader(s.nodes[n], s.nodes.Keys - {n}).Ok? {
      CrownKeeps(s, n, voters);
      WinInTwo(s, n, voters);
      CommitAndAckKeep(CrownedSystem(s, n, voters), n);
    }
  }

  lemma CommitAndAckKeep(s: System, n: nat)
    requires Inv(s) && n in s.nodes
    ensures var s2 := Put(s, n, AdvanceCommit(s.nodes[n]));
            Inv(s2.(hist := NoteAck(s2.hist, n, s.nodes[n].term, |s.nodes[n].log|)))
  {
    AdvanceCommitKeeps(s, n);
    AckKeeps(Put(s, n, AdvanceCommit(s.nodes[n])), n, s.nodes[n].term, |s.nodes[n].log|);
  }

  // ----- appending at the leader -----

  ghost function ExtendedSystem(s: System, n: nat, command: Command): System
    requires n in s.nodes && Extended(s.nodes[n], command).Ok? && s.nodes[n].term in s.hist.reigns
  {
    var y := Extended(s.nodes[n], command).value;
    Put(s, n, y).(hist := WithReign(s.hist, y.term, s.hist.reigns[y.term].(log := y.log)))
  }

  lemma LogOkExtended(log: seq<Entry>, e: Entry, reigns: map<nat, Reign>)
    requires e.term in reigns && reigns[e.term].log == log && LogOk(log, reigns) && e.index == |log| + 1
    ensures var reigns' := reigns[e.term := reigns[e.term].(log := log + [e])];
            Grown(reigns, reigns') && LogOk(log + [e], reigns')
  {
    var reigns' := reigns[e.term := reigns[e.term].(log := log + [e])];
    LogOkGrown(log, reigns, reigns');
    forall i | 0 <= i < |log + [e]| ensures Rooted(log + [e], i, reigns') {
      if i < |log| {
        assert Rooted(log, i, reigns');
        assert (log + [e])[..i + 1] == log[..i + 1];
      }
    }
  }

  lemma LongerLogOk(s: System, n: nat, command: Command, s': System)
    requires Inv(s) && n in s.nodes && s.nodes[n].role == Leader && Extended(s.nodes[n], command).Ok?
    requires s.nodes[n].term in s.hist.reigns && s' == ExtendedSystem(s, n, command)
    ensures s'.nodes[n].log == s.nodes[n].log + [Entry(|s.nodes[n].log| + 1, s.nodes[n].term, command)]
    ensures LogOk(s'.nodes[n].log, s'.hist.reigns)
    ensures Grown(s.hist.reigns, s'.hist.reigns)
  {
    var x := s.nodes[n];
    assert NodeOk(s.nodes.Keys, s.hist, n, x);
    WellNumberedReads(x.log, 0);
    LogOkExtended(x.log, Entry(|x.log| + 1, x.term, command), s.hist.reigns);
  }

  lemma ReignExtended(nodes: map<nat, Node>, h: History, nodes': map<nat, Node>, h': History, t: nat, r: Reign,
                      e: Entry)
    requires ReignOk(nodes, h, t, r)
    requires nodes'.Keys == nodes.Keys && nodes'[r.leader].term >= nodes[r.leader].term
    requires h'.votes == h.votes && e.term == t && LogOk(r.log + [e], h'.reigns)
    ensures ReignOk(nodes', h', t, r.(log := r.log + [e]))
  {
    var r' := r.(log := r.log + [e]);
    forall v | v in r'.voters ensures ElectedBy(h'.votes, t, r', v) { assert ElectedBy(h.votes, t, r, v); }
  }

  lemma LongerReignOk(s: System, n: nat, command: Command, s': System)
    requires Inv(s) && n in s.nodes && s.nodes[n].role == Leader && Extended(s.nodes[n], command).Ok?
    requires s.nodes[n].term in s.hist.reigns && s' == ExtendedSystem(s, n, command)
    ensures ReignOk(s'.nodes, s'.hist, s.nodes[n].term, s'.hist.reigns[s.nodes[n].term])
  {
    var x, t := s.nodes[n], s.nodes[n].term;
    assert NodeOk(s.nodes.Keys, s.hist, n, x);
    assert s'.nodes.Keys == s.nodes.Keys;
    LongerLogOk(s, n, command, s');
    ReignExtended(s.nodes, s.hist, s'.nodes, s'.hist, t, s.hist.reigns[t], Entry(|x.log| + 1, t, command));
  }

  lemma ExtendKeeps(s: System, n: nat, command: Command)
    requires Inv(s) && n in s.nodes && s.nodes[n].role == Leader && Extended(s.nodes[n], command).Ok?
    ensures s.nodes[n].term in s.hist.reigns
    ensures Inv(ExtendedSystem(s, n, command))
  {
    assert NodeOk(s.nodes.Keys, s.hist, n, s.nodes[n]);
    var s' := ExtendedSystem(s, n, command);
    LongerReignOk(s, n, command, s');
    LongerLogOk(s, n, command, s');
    assert s'.nodes.Keys == s.nodes.Keys;
    StepKeeps(s, s', n);
  }

  /** Proposing is appending and then advancing the commit index. */
  lemma SubmitInTwo(s: System, n: nat, command: Command)
    requires n in s.nodes && Propose(s.nodes[n], command).Ok? && s.nodes[n].term in s.hist.reigns
    ensures var s1 := ExtendedSystem(s, n, command);
            var s2 := Put(s1, n, AdvanceCommit(s1.nodes[n]));
            OnSubmit(s, n, command) == s2.(hist := NoteAck(s2.hist, n, s1.nodes[n].term, |s1.nodes[n].log|))
  {
    var y := Extended(s.nodes[n], command).value;
    assert s.nodes[n := y][n := AdvanceCommit(y)] == s.nodes[n := AdvanceCommit(y)];
  }

  lemma SubmitKeeps(s: System, n: nat, command: Command)
    requires Inv(s) && n in s.nodes
    ensures Inv(OnSubmit(s, n, command))
  {
    if Propose(s.nodes[n], command).Ok? {
      ExtendKeeps(s, n, command);
      SubmitInTwo(s, n, command);
      CommitAndAckKeep(ExtendedSystem(s, n, command), n);
    }
  }

  lemma RequestQuotes(x: Node, p: Progress)
    requires WellNumbered(x.log)
    ensures Quotes(RequestFor(x, p), x.log)
  {
    var req := RequestFor(x, p);
    WellNumberedReads(x.log, req.prevIndex);
    WellNumberedReads(x.log, p.nextIndex);
    if req.prevIndex <= |x.log| {
      assert x.log[req.prevIndex..Covered(req)] == req.entries;
    }
  }

  lemma SendAppendsKeeps(s: System, n: nat)
    requires Inv(s) && n in s.nodes
    ensures Inv(OnSendAppends(s, n))
  {
    var x := s.nodes[n];
    assert NodeOk(s.nodes.Keys, s.hist, n, x);
    var requests := BuildRequests(x);
    var msgs := set f | f in requests :: AppendReq(f, requests[f]);
    forall m | m in msgs ensures MsgOk(s.nodes, s.hist, m) {
      RequestQuotes(x, x.followers[m.to]);
    }
    SendKeeps(s, n, msgs);
  }

  // ----- appending at a follower -----

  lemma Stitch(log: seq<Entry>, leaderLog: seq<Entry>, j: nat, end: nat)
    requires j <= |log| && j <= end <= |leaderLog| && log[..j] == leaderLog[..j]
    ensures log[..j] + leaderLog[j..end] == leaderLog[..end]
  {
  }

  /** The part of a log that agrees in terms with the leader's entries agrees with the leader's log. */
  lemma AgreedPart(log: seq<Entry>, leaderLog: seq<Entry>, prev: nat, k: nat, reigns: map<nat, Reign>)
    requires LogOk(log, reigns) && LogOk(leaderLog, reigns)
    requires prev + k <= |leaderLog| && prev + k <= |log| && log[..prev] == leaderLog[..prev]
    requires k > 0 ==> log[prev + k - 1].term == leaderLog[prev + k - 1].term
    ensures log[..prev + k] == leaderLog[..prev + k]
  {
    if k > 0 { MatchAt(log, leaderLog, prev + k, reigns); }
  }

  lemma {:induction false} MergeQuoted(
    log: seq<Entry>, leaderLog: seq<Entry>, prev: nat, end: nat, reigns: map<nat, Reign>)
    requires LogOk(log, reigns) && LogOk(leaderLog, reigns)
    requires prev <= end <= |leaderLog| && prev <= |log| && log[..prev] == leaderLog[..prev]
    ensures var merged := Merge(log, leaderLog[prev..end]);
            && end <= |merged| && merged[..end] == leaderLog[..end]
            && (merged == log || merged == leaderLog[..end])
  {
    var entries := leaderLog[prev..end];
    var k := MergeShape(log, prev, entries);
    assert k > 0 ==> log[prev + (k - 1)].term == entries[k - 1].term;
    AgreedPart(log, leaderLog, prev, k, reigns);
    if k < |entries| {
      assert entries[k..] == leaderLog[prev + k..end];
      Stitch(log, leaderLog, prev + k, end);
    }
  }

  /** Merging the leader's entries loses nothing that already agrees with the leader. */
  lemma {:induction false} MergeKeepsShared(log: seq<Entry>, leaderLog: seq<Entry>, prev: nat, end: nat, shared: nat)
    requires WellNumbered(log) && WellNumbered(leaderLog)
    requires prev <= end <= |leaderLog| && prev <= |log|
    requires shared <= |log| && shared <= |leaderLog| && log[..shared] == leaderLog[..shared]
    ensures var merged := Merge(log, leaderLog[prev..end]);
            merged == log || shared <= end
  {
    var entries := leaderLog[prev..end];
    assert forall i :: 0 <= i < |entries| ==> entries[i] == leaderLog[prev + i];
    var k := MergeShape(log, prev, entries);
    forall j | 0 <= j < shared ensures log[j] == leaderLog[j] {
      assert log[j] == log[..shared][j] == leaderLog[..shared][j];
    }
  }

  /** A request that quotes the leader's log and passes the consistency check leaves the follower
      with the quoted part, and either its own log untouched or exactly the quoted prefix. */
  lemma {:induction false} AbsorbShape(m: Node, req: AppendRequest, leaderLog: seq<Entry>, reigns: map<nat, Reign>)
    requires LogOk(m.log, reigns) && LogOk(leaderLog, reigns) && Quotes(req, leaderLog)
    requires 0 !in reigns
    requires Consistent(m, req)
    ensures Covered(req) <= |leaderLog|
    ensures var log := Merge(m.log, req.entries);
            && Covered(req) <= |log| && log[..Covered(req)] == leaderLog[..Covered(req)]
            && (log == m.log || log == leaderLog[..Covered(req)])
            && LogOk(log, reigns)
  {
    var prev := req.prevIndex;
    WellNumberedReads(m.log, prev);
    assert prev > 0 ==> Rooted(m.log, prev - 1, reigns);
    assert Covered(req) <= |leaderLog| && req.entries == leaderLog[prev..Covered(req)];
    MatchAt(m.log, leaderLog, prev, reigns);
    MergeQuoted(m.log, leaderLog, prev, Covered(req), reigns);
    LogOkPrefix(leaderLog, Covered(req), reigns);
  }

  lemma AdoptLeaderKeeps(s: System, n: nat, term: nat)
    requires Inv(s) && n in s.nodes
    ensures Inv(Put(s, n, AdoptLeader(s.nodes[n], term)))
  {
    var m := AdoptLeader(s.nodes[n], term);
    if m == s.nodes[n] {
      assert Put(s, n, m) == s;
    } else {
      DemoteKeeps(s, n, term);
    }
  }

  lemma AbsorbedLogOk(s: System, n: nat, msg: Msg)
    requires Inv(s) && n in s.nodes && msg in s.net && msg.AppendReq? && msg.to == n
    requires s.nodes[n].term == msg.req.term && Consistent(s.nodes[n], msg.req)
    ensures var log := Merge(s.nodes[n].log, msg.req.entries);
            LogOk(log, s.hist.reigns) && forall i :: 0 <= i < |log| ==> log[i].term <= s.nodes[n].term
  {
    var x, req := s.nodes[n], msg.req;
    assert NodeOk(s.nodes.Keys, s.hist, n, x);
    assert MsgOk(s.nodes, s.hist, msg);
    var r := s.hist.reigns[req.term];
    assert ReignOk(s.nodes, s.hist, req.term, r);
    NoReignZero(s);
    AbsorbShape(x, req, r.log, s.hist.reigns);
  }

  lemma NoReignZero(s: System)
    requires Inv(s)
    ensures 0 !in s.hist.reigns
  {
    forall t | t in s.hist.reigns ensures t != 0 { assert ReignOk(s.nodes, s.hist, t, s.hist.reigns[t]); }
  }

  lemma ContiguousMerges(log: seq<Entry>, prev: nat, entries: seq<Entry>)
    requires AppendChecked(log, prev, entries).Ok?
    ensures AppendChecked(log, prev, entries).value == Merge(log, entries)
  {
  }

  /** Handling an append request is adopting its term, then refusing, failing or absorbing. */
  ghost predicate Refuses(x: Node, req: AppendRequest) {
    req.term < AdoptLeader(x, req.term).term || !Consistent(AdoptLeader(x, req.term), req)
  }

  ghost predicate Accepts(x: Node, req: AppendRequest) {
    !Refuses(x, req) && AppendChecked(AdoptLeader(x, req.term).log, req.prevIndex, req.entries).Ok?
  }

  ghost function AcceptedSystem(s: System, n: nat, msg: Msg, y: Node): System
    requires msg.AppendReq?
  {
    Send(Put(s, n, y), {AppendResp(msg.req.leaderId, msg.req, Answer(y, true))})
    .(hist := NoteAck(s.hist, n, y.term, Covered(msg.req)))
  }

  lemma AppendReqInTwo(s: System, n: nat, msg: Msg)
    requires n in s.nodes && msg.AppendReq?
    ensures var m, y := AdoptLeader(s.nodes[n], msg.req.term), HandleAppend(s.nodes[n], msg.req).0;
            OnAppendReq(s, n, msg) ==
            if Refuses(s.nodes[n], msg.req) then
              Send(Put(s, n, m), {AppendResp(msg.req.leaderId, msg.req, Answer(m, false))})
            else if Accepts(s.nodes[n], msg.req) then AcceptedSystem(Put(s, n, m), n, msg, y)
            else Put(s, n, m)
  {
    var m, y := AdoptLeader(s.nodes[n], msg.req.term), HandleAppend(s.nodes[n], msg.req).0;
    assert Put(Put(s, n, m), n, y) == Put(s, n, y);
  }

  lemma AcceptedShape(x: Node, req: AppendRequest)
    requires Accepts(x, req)
    ensures var m, y := AdoptLeader(x, req.term), HandleAppend(x, req).0;
            && m.role == Follower && m.term == req.term && Consistent(m, req)
            && y == m.(log := Merge(m.log, req.entries), commit := y.commit)
            && (y.commit == m.commit || (y.commit > m.commit && y.commit == Min(req.leaderCommit, LastIndex(y.log))))
  {
    ContiguousMerges(AdoptLeader(x, req.term).log, req.prevIndex, req.entries);
  }

  lemma AcceptedNodeOk(members: set<nat>, h: History, h': History, n: nat, x: Node, y: Node)
    requires NodeOk(members, h, n, x) && x.role == Follower
    requires y == x.(log := y.log, commit := y.commit)
    requires LogOk(y.log, h.reigns) && forall i :: 0 <= i < |y.log| ==> y.log[i].term <= x.term
    requires h'.reigns == h.reigns && h'.votes == h.votes
    ensures NodeOk(members, h', n, y)
  {
  }

  lemma AcceptedIsShift(s: System, n: nat, msg: Msg, y: Node)
    requires n in s.nodes && msg.AppendReq? && y.term == s.nodes[n].term && y.role == Follower
    ensures var s' := AcceptedSystem(s, n, msg, y);
            && Shift(s, s', n) && FairCandidacy(s.nodes[n], y) && s'.nodes.Keys == s.nodes.Keys && s'.nodes[n] == y
            && s'.hist.reigns == s.hist.reigns && s'.hist.votes == s.hist.votes
            && forall m :: m in s'.net && m !in s.net ==> m.AppendResp?
  {
  }

  lemma AcceptKeeps(s: System, n: nat, msg: Msg, y: Node)
    requires Inv(s) && n in s.nodes && msg in s.net && msg.AppendReq? && msg.to == n
    requires s.nodes[n].role == Follower && s.nodes[n].term == msg.req.term && Consistent(s.nodes[n], msg.req)
    requires y == s.nodes[n].(log := Merge(s.nodes[n].log, msg.req.entries), commit := y.commit)
    ensures Inv(AcceptedSystem(s, n, msg, y))
  {
    var s' := AcceptedSystem(s, n, msg, y);
    AbsorbedLogOk(s, n, msg);
    AcceptedNodeOk(s.nodes.Keys, s.hist, s'.hist, n, s.nodes[n], y);
    AcceptedIsShift(s, n, msg, y);
    StepKeeps(s, s', n);
  }

  lemma AcceptReqKeeps(s: System, n: nat, msg: Msg)
    requires Inv(s) && n in s.nodes && msg in s.net && msg.AppendReq? && msg.to == n && Accepts(s.nodes[n], msg.req)
    ensures Inv(AcceptedSystem(Put(s, n, AdoptLeader(s.nodes[n], msg.req.term)), n, msg,
                               HandleAppend(s.nodes[n], msg.req).0))
  {
    AdoptLeaderKeeps(s, n, msg.req.term);
    AcceptedShape(s.nodes[n], msg.req);
    AcceptKeeps(Put(s, n, AdoptLeader(s.nodes[n], msg.req.term)), n, msg, HandleAppend(s.nodes[n], msg.req).0);
  }

  lemma RefuseReqKeeps(s: System, n: nat, req: AppendRequest)
    requires Inv(s) && n in s.nodes
    ensures var m := AdoptLeader(s.nodes[n], req.term);
            Inv(Put(s, n, m)) && Inv(Send(Put(s, n, m), {AppendResp(req.leaderId, req, Answer(m, false))}))
  {
    AdoptLeaderKeeps(s, n, req.term);
    var m := AdoptLeader(s.nodes[n], req.term);
    SendKeeps(Put(s, n, m), n, {AppendResp(req.leaderId, req, Answer(m, false))});
  }

  lemma AppendReqKeeps(s: System, n: nat, msg: Msg)
    requires Inv(s) && n in s.nodes && msg in s.net && msg.AppendReq? && msg.to == n
    ensures Inv(OnAppendReq(s, n, msg))
  {
    var req, x := msg.req, s.nodes[n];
    AppendReqInTwo(s, n, msg);
    if Accepts(x, req) {
      AcceptReqKeeps(s, n, msg);
    } else {
      RefuseReqKeeps(s, n, req);
    }
  }

  // ----- every step, every run -----

  /** Unless it steps down, handling a response changes only progress and commit index. */
  lemma ResponseShape(x: Node, resp: AppendResponse)
    requires HandleResponse(x, resp).Ok? && resp.term <= x.term
    ensures var y := HandleResponse(x, resp).value;
            y == x.(commit := y.commit, followers := y.followers) && y.followers.Keys == x.followers.Keys
  {
  }

  lemma AppendRespKeeps(s: System, n: nat, msg: Msg)
    requires Inv(s) && n in s.nodes && msg.AppendResp?
    ensures Inv(OnAppendResp(s, n, msg))
  {
    var x, resp := s.nodes[n], msg.resp;
    if resp.term > x.term {
      DemoteKeeps(s, n, resp.term);
    } else if HandleResponse(x, resp).Ok? {
      ResponseShape(x, resp);
      LocalChangeKeeps(s, n, HandleResponse(x, resp).value);
    }
  }

  lemma NextKeeps(s: System, e: Event)
    requires Inv(s) && Enabled(s, e)
    ensures Inv(Next(s, e))
  {
    match e
    case Timeout(n) => TimeoutKeeps(s, n);
    case DeliverVoteReq(n, msg) => VoteReqKeeps(s, n, msg);
    case Win(n, voters) => WinKeeps(s, n, voters);
    case Submit(n, command) => SubmitKeeps(s, n, command);
    case SendAppends(n) => SendAppendsKeeps(s, n);
    case DeliverAppendReq(n, msg) => AppendReqKeeps(s, n, msg);
    case DeliverAppendResp(n, msg) => AppendRespKeeps(s, n, msg);
    case Demote(n, term) => DemoteKeeps(s, n, term);
    case Restart(n) => LocalChangeKeeps(s, n, Reopened(s.nodes[n]));
    case Apply(n) => LocalChangeKeeps(s, n, MarkApplied(s.nodes[n], s.nodes[n].commit));
  }

  lemma InitOk(members: set<nat>)
    ensures Inv(Init(members))
  {
    assert Init(members).nodes.Keys == members;
  }

  lemma {:induction false} RunKeeps(s: System, events: seq<Event>)
    requires Inv(s) && ValidRun(s, events)
    ensures Inv(After(s, events))
    decreases |events|
  {
    if events != [] {
      NextKeeps(s, events[0]);
      RunKeeps(Next(s, events[0]), events[1..]);
    }
  }

  ghost predicate OneLeaderPerTerm(s: System) {
    forall a, b ::
      && a in s.nodes && b in s.nodes
      && s.nodes[a].role == Leader && s.nodes[b].role == Leader && s.nodes[a].term == s.nodes[b].term
      ==> a == b
  }

  /** Entries of equal index and term are equal, and so is everything before them. */
  ghost predicate LogsMatch(s: System) {
    forall a, b, i {:trigger s.nodes[a].log[i], s.nodes[b].log[i]} ::
      && a in s.nodes && b in s.nodes
      && 0 <= i < |s.nodes[a].log| && i < |s.nodes[b].log|
      && s.nodes[a].log[i].term == s.nodes[b].log[i].term
      ==> s.nodes[a].log[..i + 1] == s.nodes[b].log[..i + 1]
  }

  /** Election Safety: in no run do two nodes lead the same term. */
  lemma ElectionSafety(members: set<nat>, events: seq<Event>)
    requires ValidRun(Init(members), events)
    ensures OneLeaderPerTerm(After(Init(members), events))
  {
    InitOk(members);
    RunKeeps(Init(members), events);
  }

  /** Log Matching holds in every state of every run. */
  lemma LogMatching(members: set<nat>, events: seq<Event>)
    requires ValidRun(Init(members), events)
    ensures LogsMatch(After(Init(members), events))
  {
    InitOk(members);
    RunKeeps(Init(members), events);
    var s := After(Init(members), events);
    forall a, b, i | a in s.nodes && b in s.nodes && 0 <= i < |s.nodes[a].log| && i < |s.nodes[b].log|
                     && s.nodes[a].log[i].term == s.nodes[b].log[i].term
      ensures s.nodes[a].log[..i + 1] == s.nodes[b].log[..i + 1]
    {
      SameTermSamePrefix(s.nodes[a].log, s.nodes[b].log, i, s.hist.reigns);
    }
  }

  ghost predicate Leads(s: System, n: nat, t: nat) { n in s.nodes && s.nodes[n].role == Leader && s.nodes[n].term == t }

  /** Term t is behind the node: it has passed it, or given up leading in it. */
  ghost predicate DoneWith(s: System, n: nat, t: nat) {
    n in s.nodes && (s.nodes[n].term > t || (s.nodes[n].term == t && s.nodes[n].role == Follower))
  }

  lemma StillDone(s: System, e: Event, n: nat, t: nat)
    requires Enabled(s, e) && DoneWith(s, n, t)
    ensures DoneWith(Next(s, e), n, t)
  {
  }

  lemma LeaderStep(s: System, e: Event, n: nat, t: nat)
    requires Enabled(s, e) && Leads(s, n, t)
    ensures (Leads(Next(s, e), n, t) && s.nodes[n].log <= Next(s, e).nodes[n].log) || DoneWith(Next(s, e), n, t)
  {
  }

  lemma {:induction false} DoneForGood(s: System, events: seq<Event>, n: nat, t: nat)
    requires ValidRun(s, events) && DoneWith(s, n, t)
    ensures DoneWith(After(s, events), n, t)
    decreases |events|
  {
    if events != [] {
      StillDone(s, events[0], n, t);
      DoneForGood(Next(s, events[0]), events[1..], n, t);
    }
  }

  /** Leader Append-Only: from any state and over any run, a node that leads a term at both ends has led it throughout
      and has only added to its log. */
  lemma {:induction false} LeaderAppendOnly(s: System, events: seq<Event>, n: nat, t: nat)
    requires ValidRun(s, events) && Leads(s, n, t) && Leads(After(s, events), n, t)
    ensures s.nodes[n].log <= After(s, events).nodes[n].log
    decreases |events|
  {
    if events != [] {
      var next := Next(s, events[0]);
      LeaderStep(s, events[0], n, t);
      if Leads(next, n, t) {
        LeaderAppendOnly(next, events[1..], n, t);
      } else {
        DoneForGood(next, events[1..], n, t);
      }
    }
  }
}
