/** Without the other half of the check on responses, state machine safety fails too.

    A leader takes answers of older terms. In the run below, of five nodes, every answer points no further than its
    request covered. Node 1 leads terms 1, 3 and 5 and is overwritten in between; answers to what it sent in terms 1 and
    3 reach it in term 5, where it takes them for acknowledgements of what its log holds by then. */
module RaftStale {
  import opened Wrappers
  import opened RaftLogs
  import opened RaftNodes
  import opened RaftClusters
  import opened RaftSafety
  import opened RaftSteps

  const X1 := Entry(1, 1, Noop)
  const X2 := Entry(2, 1, Noop)
  const X3 := Entry(3, 1, Noop)
  const Y := Entry(1, 2, Noop)
  const W2 := Entry(2, 3, UpdateConfig("owner", "four"))
  const W3 := Entry(3, 3, Noop)
  const V := Entry(2, 4, UpdateConfig("owner", "one"))
  const Z := Entry(3, 5, Noop)
  const U := Entry(4, 6, Noop)

  const ALL: set<nat> := {1, 2, 3, 4, 5}

  ghost predicate Reached(s0: System, s: System) { Reachable(OnlyWithin, s0, s) }

  function Follows(id: nat, term: nat, vote: Option<nat>, log: seq<Entry>): Node {
    Node(id, Follower, term, vote, log, 0, 0, map[], 5)
  }

  function Even(id: nat, next: nat): map<nat, Progress> { map p | p in ALL - {id} :: Progress(next, 0) }

  function LeadsWith(id: nat, term: nat, log: seq<Entry>, commit: nat, followers: map<nat, Progress>): Node {
    Node(id, Leader, term, Some(id), log, commit, 0, followers, 5)
  }

  ghost predicate Are(s: System, a: Node, b: Node, c: Node, d: Node, e: Node) {
    && s.nodes.Keys == ALL
    && s.nodes[1] == a && s.nodes[2] == b && s.nodes[3] == c && s.nodes[4] == d && s.nodes[5] == e
  }

  // ----- elections and deliveries -----

  predicate Trio(c: nat, v: nat, w: nat) { c in ALL && v in ALL && w in ALL && c != v && c != w && v != w }

  predicate Backs(v: Node, c: Node) { v.term <= c.term && UpToDate(v.log, LastTerm(c.log), LastIndex(c.log)) }

  lemma ElectedByTwo(s: System, c: nat, v: nat, w: nat)
    requires s.nodes.Keys == ALL && Trio(c, v, w) && s.nodes[c].role == Candidate
    requires VoteResp(s.nodes[c].term, v, c, true) in s.net && VoteResp(s.nodes[c].term, w, c, true) in s.net
    ensures Elected(s, c, {c, v, w})
  {
    assert |ALL| == 5 && |{c, v, w}| == 3 && |s.nodes| == |s.nodes.Keys|;
  }

  lemma LastWriteCounts(m: map<nat, Node>, c: nat, a: Node, b: Node, v: nat, y: Node, w: nat, z: Node)
    requires c != v && c != w
    ensures m[c := a][v := y][w := z][c := b] == m[v := y][w := z][c := b]
  {
  }

  /** Two voters grant c their votes. */
  lemma DoBallot(s0: System, s: System, c: nat, v: nat, w: nat) returns (s': System)
    requires Reached(s0, s) && s.nodes.Keys == ALL && Trio(c, v, w) && s.nodes[c].id == c && s.nodes[c].term < U64_MAX
    requires Backs(s.nodes[v], s.nodes[c]) && Backs(s.nodes[w], s.nodes[c])
    ensures Reached(s0, s') && s.net <= s'.net
    ensures var x := s.nodes[c];
            s'.nodes == s.nodes[c := Campaigning(x)]
                               [v := Granted(s.nodes[v], x.term + 1, c)]
                               [w := Granted(s.nodes[w], x.term + 1, c)]
    ensures s'.nodes.Keys == ALL && Elected(s', c, {c, v, w})
  {
    var x := s.nodes[c];
    var ask := VoteReq(x.term + 1, c, LastIndex(x.log), LastTerm(x.log));
    var s1 := DoTimeout(OnlyWithin, s0, s, c);
    var s2 := DoVote(OnlyWithin, s0, s1, v, ask);
    s' := DoVote(OnlyWithin, s0, s2, w, ask);
    assert s'.nodes.Keys == ALL;
    ElectedByTwo(s', c, v, w);
  }

  lemma CrownedIs(x: Node)
    requires x.lastApplied == 0 && x.clusterSize == 5 && WellNumbered(x.log)
    ensures Crowned(Campaigning(x), ALL - {x.id}) ==
            LeadsWith(x.id, x.term + 1, x.log, x.commit, Even(x.id, |x.log| + 1))
  {
    WellNumberedReads(x.log, 0);
  }

  lemma DoCrown(s0: System, s: System, c: nat, votes: set<nat>, x: Node) returns (s': System)
    requires Reached(s0, s) && s.nodes.Keys == ALL && c in ALL && x.id == c && s.nodes[c] == Campaigning(x)
    requires Elected(s, c, votes) && x.lastApplied == 0 && x.clusterSize == 5
    requires WellNumbered(x.log) && |x.log| < U64_MAX && NoneOf(x.log, x.term + 1)
    ensures Reached(s0, s') && s.net <= s'.net
    ensures s'.nodes == s.nodes[c := LeadsWith(c, x.term + 1, x.log, x.commit, Even(c, |x.log| + 1))]
  {
    CrownedIs(x);
    s' := DoWin(OnlyWithin, s0, s, c, votes);
  }

  lemma DoElection(s0: System, s: System, c: nat, v: nat, w: nat) returns (s': System)
    requires Reached(s0, s) && s.nodes.Keys == ALL && Trio(c, v, w) && s.nodes[c].id == c && s.nodes[c].term < U64_MAX
    requires Backs(s.nodes[v], s.nodes[c]) && Backs(s.nodes[w], s.nodes[c])
    requires s.nodes[c].lastApplied == 0 && s.nodes[c].clusterSize == 5
    requires WellNumbered(s.nodes[c].log) && |s.nodes[c].log| < U64_MAX && NoneOf(s.nodes[c].log, s.nodes[c].term + 1)
    ensures Reached(s0, s') && s.net <= s'.net
    ensures var x := s.nodes[c];
            s'.nodes == s.nodes[v := Granted(s.nodes[v], x.term + 1, c)]
                               [w := Granted(s.nodes[w], x.term + 1, c)]
                               [c := LeadsWith(c, x.term + 1, x.log, x.commit, Even(c, |x.log| + 1))]
  {
    var x := s.nodes[c];
    var s1 := DoBallot(s0, s, c, v, w);
    s' := DoCrown(s0, s1, c, {c, v, w}, x);
    LastWriteCounts(s.nodes, c, Campaigning(x), LeadsWith(c, x.term + 1, x.log, x.commit, Even(c, |x.log| + 1)),
                    v, Granted(s.nodes[v], x.term + 1, c), w, Granted(s.nodes[w], x.term + 1, c));
  }

  /** The request for f is sent and answered. */
  lemma DoDeliver(s0: System, s: System, n: nat, f: nat, req: AppendRequest, y: Node, resp: AppendResponse)
    returns (s': System)
    requires Reached(s0, s) && n in s.nodes && f in s.nodes && s.nodes[n].role == Leader && s.nodes[n].id == n
    requires f in s.nodes[n].followers && RequestFor(s.nodes[n], s.nodes[n].followers[f]) == req
    requires HandleAppend(s.nodes[f], req) == (y, Ok(resp))
    ensures Reached(s0, s') && s'.nodes == s.nodes[f := y] && s.net <= s'.net && AppendResp(n, req, resp) in s'.net
  {
    var s1 := DoSend(OnlyWithin, s0, s, n, f);
    s' := DoAppend(OnlyWithin, s0, s1, f, req, y, resp);
  }

  /** A request that f refuses moves its next index back. */
  lemma DoRefusal(s0: System, s: System, n: nat, f: nat) returns (s': System)
    requires Reached(s0, s) && n in s.nodes && f in s.nodes && n != f && s.nodes[n].role == Leader && s.nodes[n].id == n
    requires f in s.nodes[n].followers && s.nodes[f].id == f && s.nodes[f].term <= s.nodes[n].term
    requires !Consistent(s.nodes[f], RequestFor(s.nodes[n], s.nodes[n].followers[f]))
    ensures Reached(s0, s') && s.net <= s'.net
    ensures var x := s.nodes[n];
            s'.nodes == s.nodes[f := AdoptLeader(s.nodes[f], x.term)]
                               [n := x.(followers := x.followers[f := Backtrack(x.followers[f])])]
  {
    var x, y := s.nodes[n], AdoptLeader(s.nodes[f], s.nodes[n].term);
    var req := RequestFor(x, x.followers[f]);
    var s1 := DoDeliver(s0, s, n, f, req, y, Answer(y, false));
    s' := DoResponse(OnlyWithin, s0, s1, n, req, Answer(y, false),
                     x.(followers := x.followers[f := Backtrack(x.followers[f])]));
  }

  lemma RequestIs(x: Node, next: nat)
    requires WellNumbered(x.log) && 1 <= next <= |x.log|
    ensures RequestFor(x, Progress(next, 0)) ==
            AppendRequest(x.term, x.id, next - 1, if next == 1 then 0 else x.log[next - 2].term,
                          x.log[next - 1..], x.commit)
  {
    WellNumberedReads(x.log, next);
    WellNumberedReads(x.log, next - 1);
  }

  /** The follower's log agrees up to the next index and differs right after it, or ends there. */
  ghost predicate ReadyAt(x: Node, y: Node, k: nat) {
    && WellNumbered(x.log) && WellNumbered(y.log) && k < |x.log| < U64_MAX && k <= |y.log| && y.log[..k] == x.log[..k]
    && (k < |y.log| ==> y.log[k].term != x.log[k].term)
    && y.term <= x.term && x.commit == 0
  }

  lemma MergesInto(log: seq<Entry>, base: seq<Entry>, k: nat)
    requires WellNumbered(log) && WellNumbered(base) && k < |base| < U64_MAX && k <= |log| && log[..k] == base[..k]
    requires k < |log| ==> log[k].term != base[k].term
    ensures base[k..] != [] && Contiguous(base[k..], k + 1) && Merge(log, base[k..]) == base
  {
    MergeConflict(log, k, base[k..]);
    assert log[..k] + base[k..] == base;
  }

  lemma SameTermBefore(log: seq<Entry>, base: seq<Entry>, k: nat)
    requires WellNumbered(log) && 0 < k <= |log| && k <= |base| && log[..k] == base[..k]
    ensures k <= LastIndex(log) && TermAt(log, k) == base[k - 1].term
  {
    WellNumberedReads(log, k);
    assert log[..k][k - 1] == base[..k][k - 1];
  }

  function Taken(y: Node, term: nat, log: seq<Entry>): Node { AdoptLeader(y, term).(log := log) }

  lemma AcceptsRequest(y: Node, req: AppendRequest, log: seq<Entry>)
    requires y.term <= req.term && Consistent(y, req) && req.entries != [] && Contiguous(req.entries, req.prevIndex + 1)
    requires Merge(y.log, req.entries) == log && req.leaderCommit == 0
    ensures HandleAppend(y, req) == (Taken(y, req.term, log), Ok(AppendResponse(req.term, y.id, true, LastIndex(log))))
  {
  }

  lemma Accepts(x: Node, y: Node, k: nat)
    requires ReadyAt(x, y, k)
    ensures var req := RequestFor(x, Progress(k + 1, 0));
            && req.leaderId == x.id && Covered(req) == |x.log|
            && HandleAppend(y, req) == (Taken(y, x.term, x.log), Ok(AppendResponse(x.term, y.id, true, |x.log|)))
  {
    RequestIs(x, k + 1);
    WellNumberedReads(x.log, 0);
    MergesInto(y.log, x.log, k);
    if k > 0 { SameTermBefore(y.log, x.log, k); }
    AcceptsRequest(y, RequestFor(x, Progress(k + 1, 0)), x.log);
  }

  lemma DoAccept(s0: System, s: System, n: nat, f: nat, k: nat) returns (s': System, req: AppendRequest)
    requires Reached(s0, s) && n in s.nodes && f in s.nodes && s.nodes[n].role == Leader && s.nodes[n].id == n
    requires f in s.nodes[n].followers && s.nodes[n].followers[f] == Progress(k + 1, 0) && s.nodes[f].id == f
    requires ReadyAt(s.nodes[n], s.nodes[f], k)
    ensures Reached(s0, s') && s.net <= s'.net && Covered(req) == |s.nodes[n].log|
    ensures var x := s.nodes[n];
            && s'.nodes == s.nodes[f := Taken(s.nodes[f], x.term, x.log)]
            && AppendResp(n, req, AppendResponse(x.term, f, true, |x.log|)) in s'.net
  {
    var x, y := s.nodes[n], s.nodes[f];
    Accepts(x, y, k);
    req := RequestFor(x, Progress(k + 1, 0));
    s' := DoDeliver(s0, s, n, f, req, Taken(y, x.term, x.log), AppendResponse(x.term, f, true, |x.log|));
  }

  // ----- leaders without acknowledgements -----

  lemma DoCommand(s0: System, s: System, n: nat, term: nat, log: seq<Entry>, next: nat, command: Command)
    returns (s': System)
    requires Reached(s0, s) && n in s.nodes && s.nodes[n] == LeadsWith(n, term, log, 0, Even(n, next))
    requires WellNumbered(log) && |log| < U64_MAX
    ensures Reached(s0, s') && s'.net == s.net
    ensures s'.nodes == s.nodes[n := LeadsWith(n, term, log + [Entry(|log| + 1, term, command)], 0, Even(n, next))]
  {
    var y := LeadsWith(n, term, log + [Entry(|log| + 1, term, command)], 0, Even(n, next));
    WellNumberedReads(log, 0);
    FewCannotCommit(y, {});
    s' := DoSubmit(OnlyWithin, s0, s, n, command, y);
  }

  /** An election and a first command. */
  lemma DoReign(s0: System, s: System, c: nat, v: nat, w: nat, command: Command) returns (s': System)
    requires Reached(s0, s) && s.nodes.Keys == ALL && Trio(c, v, w) && s.nodes[c].id == c && s.nodes[c].term < U64_MAX
    requires Backs(s.nodes[v], s.nodes[c]) && Backs(s.nodes[w], s.nodes[c])
    requires s.nodes[c].commit == s.nodes[c].lastApplied == 0 && s.nodes[c].clusterSize == 5
    requires WellNumbered(s.nodes[c].log) && |s.nodes[c].log| < U64_MAX && NoneOf(s.nodes[c].log, s.nodes[c].term + 1)
    ensures Reached(s0, s') && s.net <= s'.net
    ensures var x := s.nodes[c];
            var log := x.log + [Entry(|x.log| + 1, x.term + 1, command)];
            s'.nodes == s.nodes[v := Granted(s.nodes[v], x.term + 1, c)]
                               [w := Granted(s.nodes[w], x.term + 1, c)]
                               [c := LeadsWith(c, x.term + 1, log, 0, Even(c, |x.log| + 1))]
  {
    var x := s.nodes[c];
    var s1 := DoElection(s0, s, c, v, w);
    s' := DoCommand(s0, s1, c, x.term + 1, x.log, |x.log| + 1, command);
  }

  /** An answer that has not reached node 1 yet. */
  ghost predicate Owed(s: System, f: nat, term: nat) {
    exists req :: AppendResp(1, req, AppendResponse(term, f, true, 3)) in s.net && Covered(req) == 3
  }

  lemma StillOwed(s: System, s': System, f: nat, term: nat)
    requires Owed(s, f, term) && s.net <= s'.net
    ensures Owed(s', f, term)
  {
    var req :| AppendResp(1, req, AppendResponse(term, f, true, 3)) in s.net && Covered(req) == 3;
    assert AppendResp(1, req, AppendResponse(term, f, true, 3)) in s'.net;
  }

  // ----- the run -----

  const Xs := [X1, X2, X3]
  const Ws := [Y, W2, W3]

  lemma Start() returns (s0: System)
    ensures s0 == Init(ALL) && Reached(s0, s0)
    ensures Are(s0, Follows(1, 0, None, []), Follows(2, 0, None, []), Follows(3, 0, None, []), Follows(4, 0, None, []),
                Follows(5, 0, None, []))
  {
    s0 := Init(ALL);
    ReachStart(OnlyWithin, s0);
    assert |ALL| == 5;
  }

  /** Nodes 4 and 5 elect node 1, which appends its first entry. */
  lemma Term1Begins(s0: System) returns (s: System)
    requires Reached(s0, s0)
    requires Are(s0, Follows(1, 0, None, []), Follows(2, 0, None, []), Follows(3, 0, None, []), Follows(4, 0, None, []),
                 Follows(5, 0, None, []))
    ensures Reached(s0, s)
    ensures Are(s, LeadsWith(1, 1, [X1], 0, Even(1, 1)), Follows(2, 0, None, []), Follows(3, 0, None, []),
                Follows(4, 1, Some(1), []), Follows(5, 1, Some(1), []))
  {
    s := DoReign(s0, s0, 1, 4, 5, Noop);
  }

  /** Term 1: node 1 appends three entries, and node 2 acknowledges them; the answer is delayed. */
  lemma Term1(s0: System) returns (s: System)
    requires Reached(s0, s0)
    requires Are(s0, Follows(1, 0, None, []), Follows(2, 0, None, []), Follows(3, 0, None, []), Follows(4, 0, None, []),
                 Follows(5, 0, None, []))
    ensures Reached(s0, s) && Owed(s, 2, 1)
    ensures Are(s, LeadsWith(1, 1, Xs, 0, Even(1, 1)), Follows(2, 1, None, Xs), Follows(3, 0, None, []),
                Follows(4, 1, Some(1), []), Follows(5, 1, Some(1), []))
  {
    s := Term1Begins(s0);
    s := DoCommand(s0, s, 1, 1, [X1], 1, Noop);
    s := DoCommand(s0, s, 1, 1, [X1, X2], 1, Noop);
    var req;
    s, req := DoAccept(s0, s, 1, 2, 0);
  }

  /** Node 3 has heard from nobody once already. */
  lemma Term2Begins(s0: System, s: System) returns (s': System)
    requires Reached(s0, s) && s.nodes.Keys == ALL && s.nodes[3] == Follows(3, 0, None, [])
    requires s.nodes[4] == Follows(4, 1, Some(1), []) && s.nodes[5] == Follows(5, 1, Some(1), [])
    ensures Reached(s0, s') && s.net <= s'.net
    ensures s'.nodes == s.nodes[3 := Campaigning(Follows(3, 0, None, []))]
    ensures Trio(3, 4, 5) && Backs(s'.nodes[4], s'.nodes[3]) && Backs(s'.nodes[5], s'.nodes[3])
    ensures WellNumbered(s'.nodes[3].log) && NoneOf(s'.nodes[3].log, 2)
  {
    s' := DoTimeout(OnlyWithin, s0, s, 3);
  }

  /** Term 2: node 3 appends an entry of its own. */
  lemma Term2(s0: System, s: System) returns (s': System)
    requires Reached(s0, s) && Owed(s, 2, 1)
    requires Are(s, LeadsWith(1, 1, Xs, 0, Even(1, 1)), Follows(2, 1, None, Xs), Follows(3, 0, None, []),
                 Follows(4, 1, Some(1), []), Follows(5, 1, Some(1), []))
    ensures Reached(s0, s') && Owed(s', 2, 1)
    ensures Are(s', LeadsWith(1, 1, Xs, 0, Even(1, 1)), Follows(2, 1, None, Xs), LeadsWith(3, 2, [Y], 0, Even(3, 1)),
                Follows(4, 2, Some(3), []), Follows(5, 2, Some(3), []))
  {
    s' := Term2Begins(s0, s);
    s' := DoReign(s0, s', 3, 4, 5, Noop);
    StillOwed(s, s', 2, 1);
  }

  /** Nodes 1, 4 and 5 take it, in place of what they hold. */
  lemma Spreads(s0: System, s: System) returns (s': System)
    requires Reached(s0, s) && Owed(s, 2, 1)
    requires Are(s, LeadsWith(1, 1, Xs, 0, Even(1, 1)), Follows(2, 1, None, Xs), LeadsWith(3, 2, [Y], 0, Even(3, 1)),
                 Follows(4, 2, Some(3), []), Follows(5, 2, Some(3), []))
    ensures Reached(s0, s') && Owed(s', 2, 1)
    ensures Are(s', Follows(1, 2, None, [Y]), Follows(2, 1, None, Xs), LeadsWith(3, 2, [Y], 0, Even(3, 1)),
                Follows(4, 2, Some(3), [Y]), Follows(5, 2, Some(3), [Y]))
  {
    var req;
    s', req := DoAccept(s0, s, 3, 1, 0);
    s', req := DoAccept(s0, s', 3, 4, 0);
    s', req := DoAccept(s0, s', 3, 5, 0);
    StillOwed(s, s', 2, 1);
  }

  /** Nodes 4 and 5 elect node 1 once more. */
  lemma Term3Begins(s0: System, s: System) returns (s': System)
    requires Reached(s0, s)
    requires Are(s, Follows(1, 2, None, [Y]), Follows(2, 1, None, Xs), LeadsWith(3, 2, [Y], 0, Even(3, 1)),
                 Follows(4, 2, Some(3), [Y]), Follows(5, 2, Some(3), [Y]))
    ensures Reached(s0, s') && s.net <= s'.net
    ensures Are(s', LeadsWith(1, 3, [Y, W2], 0, Even(1, 2)), Follows(2, 1, None, Xs),
                LeadsWith(3, 2, [Y], 0, Even(3, 1)), Follows(4, 3, Some(1), [Y]), Follows(5, 3, Some(1), [Y]))
  {
    s' := DoReign(s0, s, 1, 4, 5, W2.command);
  }

  /** Term 3: node 1 leads again and node 4 acknowledges its two entries; the answer is delayed. */
  lemma Term3(s0: System, s: System) returns (s': System)
    requires Reached(s0, s) && Owed(s, 2, 1)
    requires Are(s, Follows(1, 2, None, [Y]), Follows(2, 1, None, Xs), LeadsWith(3, 2, [Y], 0, Even(3, 1)),
                 Follows(4, 2, Some(3), [Y]), Follows(5, 2, Some(3), [Y]))
    ensures Reached(s0, s') && Owed(s', 2, 1) && Owed(s', 4, 3)
    ensures Are(s', LeadsWith(1, 3, Ws, 0, Even(1, 2)), Follows(2, 1, None, Xs), LeadsWith(3, 2, [Y], 0, Even(3, 1)),
                Follows(4, 3, Some(1), Ws), Follows(5, 3, Some(1), [Y]))
  {
    s' := Term3Begins(s0, s);
    s' := DoCommand(s0, s', 1, 3, [Y, W2], 2, Noop);
    var req;
    s', req := DoAccept(s0, s', 1, 4, 1);
    StillOwed(s, s', 2, 1);
  }

  /** Term 4: node 3 leads again, with an entry of its own. */
  lemma Term4(s0: System, s: System) returns (s': System)
    requires Reached(s0, s) && Owed(s, 2, 1) && Owed(s, 4, 3)
    requires Are(s, LeadsWith(1, 3, Ws, 0, Even(1, 2)), Follows(2, 1, None, Xs), LeadsWith(3, 2, [Y], 0, Even(3, 1)),
                 Follows(4, 3, Some(1), Ws), Follows(5, 3, Some(1), [Y]))
    ensures Reached(s0, s') && Owed(s', 2, 1) && Owed(s', 4, 3)
    ensures Are(s', LeadsWith(1, 3, Ws, 0, Even(1, 2)), Follows(2, 4, Some(3), Xs),
                LeadsWith(3, 4, [Y, V], 0, Even(3, 2)), Follows(4, 3, Some(1), Ws), Follows(5, 4, Some(3), [Y]))
  {
    s' := DoTimeout(OnlyWithin, s0, s, 3);
    s' := DoReign(s0, s', 3, 2, 5, V.command);
    StillOwed(s, s', 2, 1);
    StillOwed(s, s', 4, 3);
  }

  /** It replaces the entries of term 3 in node 1's log. */
  lemma OverwritesNode1(s0: System, s: System) returns (s': System)
    requires Reached(s0, s) && Owed(s, 2, 1) && Owed(s, 4, 3)
    requires Are(s, LeadsWith(1, 3, Ws, 0, Even(1, 2)), Follows(2, 4, Some(3), Xs),
                 LeadsWith(3, 4, [Y, V], 0, Even(3, 2)), Follows(4, 3, Some(1), Ws), Follows(5, 4, Some(3), [Y]))
    ensures Reached(s0, s') && Owed(s', 2, 1) && Owed(s', 4, 3)
    ensures Are(s', Follows(1, 4, None, [Y, V]), Follows(2, 4, Some(3), Xs), LeadsWith(3, 4, [Y, V], 0, Even(3, 2)),
                Follows(4, 3, Some(1), Ws), Follows(5, 4, Some(3), [Y]))
  {
    var req;
    s', req := DoAccept(s0, s, 3, 1, 1);
    StillOwed(s, s', 2, 1);
    StillOwed(s, s', 4, 3);
  }

  /** Term 5: node 1 appends a third entry, and the two delayed answers commit it, and the second with it. */
  lemma Term5(s0: System, s: System) returns (s': System)
    requires Reached(s0, s) && Owed(s, 2, 1) && Owed(s, 4, 3)
    requires Are(s, Follows(1, 4, None, [Y, V]), Follows(2, 4, Some(3), Xs), LeadsWith(3, 4, [Y, V], 0, Even(3, 2)),
                 Follows(4, 3, Some(1), Ws), Follows(5, 4, Some(3), [Y]))
    ensures Reached(s0, s') && 1 in s'.nodes && s'.nodes[1].log == [Y, V, Z] && s'.nodes[1].commit == 3
    ensures Are(s', s'.nodes[1], Follows(2, 5, Some(1), Xs), LeadsWith(3, 4, [Y, V], 0, Even(3, 2)),
                Follows(4, 3, Some(1), Ws), Follows(5, 5, Some(1), [Y]))
  {
    s' := DoReign(s0, s, 1, 2, 5, Noop);
    StillOwed(s, s', 2, 1);
    StillOwed(s, s', 4, 3);
    s' := StaleAnswers(s0, s');
  }

  lemma StaleAnswers(s0: System, s: System) returns (s': System)
    requires Reached(s0, s) && Owed(s, 2, 1) && Owed(s, 4, 3) && 1 in s.nodes
    requires s.nodes[1] == LeadsWith(1, 5, [Y, V, Z], 0, Even(1, 3))
    ensures Reached(s0, s') && s'.nodes.Keys == s.nodes.Keys && s'.nodes[1].log == [Y, V, Z] && s'.nodes[1].commit == 3
    ensures forall k :: k in s.nodes && k != 1 ==> s'.nodes[k] == s.nodes[k]
  {
    var req :| AppendResp(1, req, AppendResponse(1, 2, true, 3)) in s.net && Covered(req) == 3;
    var y := LeadsWith(1, 5, [Y, V, Z], 0, Even(1, 3)[2 := Progress(4, 3)]);
    FewCannotCommit(y, {2});
    var s1 := DoResponse(OnlyWithin, s0, s, 1, req, AppendResponse(1, 2, true, 3), y);
    var req' :| AppendResp(1, req', AppendResponse(3, 4, true, 3)) in s.net && Covered(req') == 3;
    var z := LeadsWith(1, 5, [Y, V, Z], 0, Even(1, 3)[2 := Progress(4, 3)][4 := Progress(4, 3)]);
    assert |{2, 4}| == 2;
    EnoughCommit(z, {2, 4});
    s' := DoResponse(OnlyWithin, s0, s1, 1, req', AppendResponse(3, 4, true, 3), z.(commit := 3));
  }

  const Us := Ws + [U]

  lemma Refuses(x: Node, y: Node, next: nat)
    requires x.log == Us && (y.log == [Y] || y.log == [Y, V]) && (next == 3 || next == 4)
    ensures !Consistent(y, RequestFor(x, Progress(next, 0)))
  {
    RequestIs(x, next);
    WellNumberedReads(y.log, next - 1);
  }

  /** Node 4 steps back to where f agrees, and f then takes over its log; the answer has not reached it yet. */
  lemma DoRepair(s0: System, s: System, f: nat, m: map<nat, Progress>) returns (s': System, req: AppendRequest)
    requires Reached(s0, s) && 4 in s.nodes && f in s.nodes && f != 4 && s.nodes[4] == LeadsWith(4, 6, Us, 0, m)
    requires f in m && m[f] == Progress(4, 0)
    requires s.nodes[f].id == f && s.nodes[f].term <= 6 && (s.nodes[f].log == [Y] || s.nodes[f].log == [Y, V])
    ensures Reached(s0, s') && s.net <= s'.net && s'.nodes.Keys == s.nodes.Keys
    ensures s'.nodes[4] == LeadsWith(4, 6, Us, 0, m[f := Progress(2, 0)])
    ensures forall k :: k in s.nodes && k != 4 && k != f ==> s'.nodes[k] == s.nodes[k]
    ensures AppendResp(4, req, AppendResponse(6, f, true, 4)) in s'.net && Covered(req) == 4
  {
    Refuses(s.nodes[4], s.nodes[f], 4);
    var s1 := DoRefusal(s0, s, 4, f);
    Refuses(s1.nodes[4], s1.nodes[f], 3);
    var s2 := DoRefusal(s0, s1, 4, f);
    assert m[f := Progress(3, 0)][f := Progress(2, 0)] == m[f := Progress(2, 0)];
    s', req := DoAccept(s0, s2, 4, f, 1);
  }

  lemma Answers(s0: System, s: System, m: map<nat, Progress>, req: AppendRequest, req': AppendRequest)
    returns (s': System)
    requires Reached(s0, s) && 4 in s.nodes && s.nodes[4] == LeadsWith(4, 6, Us, 0, m)
    requires 3 in m && 5 in m && forall f :: f in m ==> m[f].matchIndex == 0
    requires AppendResp(4, req, AppendResponse(6, 3, true, 4)) in s.net && Covered(req) == 4
    requires AppendResp(4, req', AppendResponse(6, 5, true, 4)) in s.net && Covered(req') == 4
    ensures Reached(s0, s') && s'.nodes.Keys == s.nodes.Keys && s'.nodes[4].log == Us && s'.nodes[4].commit == 4
    ensures forall k :: k in s.nodes && k != 4 ==> s'.nodes[k] == s.nodes[k]
  {
    var y := LeadsWith(4, 6, Us, 0, m[3 := Progress(5, 4)]);
    FewCannotCommit(y, {3});
    var s1 := DoResponse(OnlyWithin, s0, s, 4, req, AppendResponse(6, 3, true, 4), y);
    var z := LeadsWith(4, 6, Us, 0, m[3 := Progress(5, 4)][5 := Progress(5, 4)]);
    assert |{3, 5}| == 2;
    EnoughCommit(z, {3, 5});
    s' := DoResponse(OnlyWithin, s0, s1, 4, req', AppendResponse(6, 5, true, 4), z.(commit := 4));
  }

  /** Node 4 has heard from nobody twice already. */
  lemma Term6Begins(s0: System, s: System) returns (s': System)
    requires Reached(s0, s) && s.nodes.Keys == ALL && s.nodes[4] == Follows(4, 3, Some(1), Ws)
    requires s.nodes[2] == Follows(2, 5, Some(1), Xs) && s.nodes[5] == Follows(5, 5, Some(1), [Y])
    ensures Reached(s0, s') && s.net <= s'.net
    ensures s'.nodes == s.nodes[4 := Campaigning(Campaigning(Follows(4, 3, Some(1), Ws)))]
    ensures Trio(4, 2, 5) && Backs(s'.nodes[2], s'.nodes[4]) && Backs(s'.nodes[5], s'.nodes[4])
    ensures WellNumbered(s'.nodes[4].log) && NoneOf(s'.nodes[4].log, 6)
  {
    s' := DoTimeout(OnlyWithin, s0, s, 4);
    s' := DoTimeout(OnlyWithin, s0, s', 4);
  }

  /** Term 6: node 4, which still has node 1's entries of term 3, appends one of its own. */
  lemma Term6(s0: System, s: System) returns (s': System)
    requires Reached(s0, s) && 1 in s.nodes
    requires Are(s, s.nodes[1], Follows(2, 5, Some(1), Xs), LeadsWith(3, 4, [Y, V], 0, Even(3, 2)),
                 Follows(4, 3, Some(1), Ws), Follows(5, 5, Some(1), [Y]))
    ensures Reached(s0, s')
    ensures Are(s', s.nodes[1], Follows(2, 6, Some(4), Xs), LeadsWith(3, 4, [Y, V], 0, Even(3, 2)),
                LeadsWith(4, 6, Us, 0, Even(4, 4)), Follows(5, 6, Some(4), [Y]))
  {
    s' := Term6Begins(s0, s);
    s' := DoReign(s0, s', 4, 2, 5, Noop);
  }

  /** With nodes 3 and 5 it commits them all. */
  lemma CommitsOther(s0: System, s: System) returns (s': System)
    requires Reached(s0, s) && 1 in s.nodes
    requires Are(s, s.nodes[1], Follows(2, 6, Some(4), Xs), LeadsWith(3, 4, [Y, V], 0, Even(3, 2)),
                 LeadsWith(4, 6, Us, 0, Even(4, 4)), Follows(5, 6, Some(4), [Y]))
    ensures Reached(s0, s') && s'.nodes.Keys == ALL && s'.nodes[1] == s.nodes[1]
    ensures s'.nodes[4].log == Us && s'.nodes[4].commit == 4
  {
    var m := Even(4, 4);
    var s1, req := DoRepair(s0, s, 3, m);
    var s2, req' := DoRepair(s0, s1, 5, m[3 := Progress(2, 0)]);
    s' := Answers(s0, s2, m[3 := Progress(2, 0)][5 := Progress(2, 0)], req, req');
  }

  /** Terms 1 to 4 leave two answers to node 1 on their way. */
  lemma FourTerms() returns (s0: System, s: System)
    ensures s0 == Init(ALL) && Reached(s0, s) && Owed(s, 2, 1) && Owed(s, 4, 3)
    ensures Are(s, Follows(1, 4, None, [Y, V]), Follows(2, 4, Some(3), Xs), LeadsWith(3, 4, [Y, V], 0, Even(3, 2)),
                Follows(4, 3, Some(1), Ws), Follows(5, 4, Some(3), [Y]))
  {
    s0 := Start();
    s := Term1(s0);
    s := Term2(s0, s);
    s := Spreads(s0, s);
    s := Term3(s0, s);
    s := Term4(s0, s);
    s := OverwritesNode1(s0, s);
  }

  lemma EndsInClash(s: System)
    requires 1 in s.nodes && s.nodes[1].log == [Y, V, Z] && s.nodes[1].commit == 3
    requires 4 in s.nodes && s.nodes[4].log == Us && s.nodes[4].commit == 4
    ensures Clash(s, 1, 4, 1) && !CommitsAgree(s)
  {
    assert V.command.value[0] != W2.command.value[0];
    assert s.nodes[1].log[1] != s.nodes[4].log[1];
  }

  /** State machine safety does not hold of all runs whose answers stay within what their requests covered: here node 1
      and node 4 have committed different commands at index 2. */
  lemma SafetyFailsWithStaleAnswers() returns (events: seq<Event>)
    ensures HalfRun(OnlyWithin, Init(ALL), events) && ValidRun(Init(ALL), events)
    ensures Clash(After(Init(ALL), events), 1, 4, 1) && !CommitsAgree(After(Init(ALL), events))
  {
    var s0, s := FourTerms();
    s := Term5(s0, s);
    s := Term6(s0, s);
    s := CommitsOther(s0, s);
    EndsInClash(s);
    events :| EndsIn(OnlyWithin, s0, events, s);
  }
}
