/** State machine safety for the runs in which a leader believes a successful response only when it
    belongs to the leader's own term and claims no more than the request it answers covered. */
module RaftSafety {
  import opened RaftLogs
  import opened RaftNodes
  import opened RaftClusters
  import opened RaftElection

  /** A leader is handed a successful response that does not depose it. */
  predicate Counts(s: System, e: Event)
    requires Enabled(s, e)
  {
    e.DeliverAppendResp? && e.msg.resp.success && s.nodes[e.n].role == Leader && e.msg.resp.term <= s.nodes[e.n].term
  }

  predicate OwnTerm(s: System, e: Event)
    requires Enabled(s, e)
  {
    Counts(s, e) ==> e.msg.resp.term == s.nodes[e.n].term
  }

  predicate Within(s: System, e: Event)
    requires Enabled(s, e)
  {
    Counts(s, e) ==> e.msg.resp.matchIndex <= Covered(e.msg.req)
  }

  /** The check a caller can make before handing a response to the leader. */
  predicate Honest(s: System, e: Event)
    requires Enabled(s, e)
  {
    OwnTerm(s, e) && Within(s, e)
  }

  ghost predicate HonestRun(s: System, events: seq<Event>)
    decreases |events|
  {
    events == [] || (Enabled(s, events[0]) && Honest(s, events[0]) && HonestRun(Next(s, events[0]), events[1..]))
  }

  // ----- what an acknowledgement is worth -----

  ghost predicate Extends(log: seq<Entry>, base: seq<Entry>, i: int) {
    0 <= i <= |log| && i <= |base| && log[..i] == base[..i]
  }

  /** A later leader, of a term up to `high`, does not have the first i entries of term t's leader. */
  ghost predicate Overruled(reigns: map<nat, Reign>, t: nat, i: int, high: int)
    requires t in reigns
  {
    exists u :: u in reigns && t < u <= high && !Extends(reigns[u].log, reigns[t].log, i)
  }

  ghost predicate Kept(reigns: map<nat, Reign>, t: nat, i: int, log: seq<Entry>, high: int)
    requires t in reigns
  {
    Extends(log, reigns[t].log, i) || Overruled(reigns, t, i, high)
  }

  ghost predicate KeptUpTo(reigns: map<nat, Reign>, t: nat, upTo: nat, log: seq<Entry>, high: int)
    requires t in reigns
  {
    forall i :: 0 <= i <= upTo ==> Kept(reigns, t, i, log, high)
  }

  ghost predicate AckOk(nodes: map<nat, Node>, h: History, f: nat, t: nat, upTo: nat) {
    && f in nodes && t in h.reigns
    && t <= nodes[f].term
    && upTo <= |h.reigns[t].log|
    && KeptUpTo(h.reigns, t, upTo, nodes[f].log, nodes[f].term)
  }

  /** A vote that counted, or may still count, was cast with everything its voter had acknowledged. */
  ghost predicate VoteBound(h: History, v: nat, t': nat, vote: Vote) {
    t' !in h.reigns || v in h.reigns[t'].voters ==>
      forall t :: (v, t) in h.acks && t in h.reigns && t < t' ==>
        KeptUpTo(h.reigns, t, h.acks[(v, t)], vote.log, t' - 1)
  }

  ghost predicate ProgressOk(h: History, n: nat, x: Node) {
    x.role == Leader ==>
      && Ack(h, n, x.term) >= |x.log|
      && forall f :: f in x.followers ==>
           && x.followers[f].matchIndex <= Ack(h, f, x.term)
           && 1 <= x.followers[f].nextIndex <= |x.log| + 1
  }

  // ----- commitment -----

  function Holders(s: System, t: nat, i: int): set<nat> {
    set f | f in s.nodes && Ack(s.hist, f, t) >= i
  }

  /** Entry i of term t's leader is of that term and a majority has acknowledged it. */
  ghost predicate Chosen(s: System, t: nat, i: int) {
    && t in s.hist.reigns
    && 0 < i <= |s.hist.reigns[t].log|
    && s.hist.reigns[t].log[i - 1].term == t
    && |Holders(s, t, i)| >= Quorum(s)
  }

  ghost predicate Backed(s: System, log: seq<Entry>, c: nat, high: nat, t: nat, i: int) {
    Chosen(s, t, i) && t <= high && c <= i && Extends(log, s.hist.reigns[t].log, c)
  }

  /** The first c entries of the log are part of what some term up to `high` has chosen. */
  ghost predicate Committed(s: System, log: seq<Entry>, c: nat, high: nat) {
    c == 0 || exists t, i :: Backed(s, log, c, high, t, i)
  }

  ghost predicate ReplyOk(s: System, m: Msg) {
    match m
    case AppendReq(_, req) =>
      req.term in s.hist.reigns ==>
        && req.leaderCommit <= Covered(req)
        && Committed(s, s.hist.reigns[req.term].log, req.leaderCommit, req.term)
    case AppendResp(_, req, resp) =>
      resp.success ==> resp.term == req.term && Covered(req) <= Ack(s.hist, resp.nodeId, req.term)
    case _ => true
  }

  ghost predicate AcksOk(s: System) {
    forall f, t :: (f, t) in s.hist.acks ==> AckOk(s.nodes, s.hist, f, t, s.hist.acks[(f, t)])
  }
  ghost predicate BoundsOk(s: System) {
    forall v, t :: (v, t) in s.hist.votes ==> VoteBound(s.hist, v, t, s.hist.votes[(v, t)])
  }
  ghost predicate LeadersOk(s: System) {
    forall n :: n in s.nodes ==> ProgressOk(s.hist, n, s.nodes[n])
  }
  ghost predicate RepliesOk(s: System) {
    forall m :: m in s.net ==> ReplyOk(s, m)
  }
  ghost predicate CommitsOk(s: System) {
    forall n :: n in s.nodes ==> Committed(s, s.nodes[n].log, s.nodes[n].commit, s.nodes[n].term)
  }

  ghost predicate Safe(s: System) {
    AcksOk(s) && BoundsOk(s) && LeadersOk(s) && RepliesOk(s) && CommitsOk(s)
  }

  // ----- leader completeness -----

  lemma LastTermBounds(log: seq<Entry>, i: nat, reigns: map<nat, Reign>)
    requires LogOk(log, reigns) && i < |log| && Ordered(reigns)
    ensures log[i].term <= LastTerm(log)
  {
    var last := |log| - 1;
    assert Rooted(log, last, reigns);
    assert log[i] == log[..last + 1][i] == reigns[log[last].term].log[..last + 1][i];
  }

  /** A leader's log is its election log, of lower terms, followed by entries of its own term. */
  ghost predicate ReignShape(t: nat, r: Reign) {
    && r.electionLog <= r.log
    && forall i :: 0 <= i < |r.log| ==> r.log[i].term <= t && (i < |r.electionLog| <==> r.log[i].term < t)
  }

  ghost predicate Ordered(reigns: map<nat, Reign>) {
    forall t :: t in reigns ==> ReignShape(t, reigns[t])
  }

  lemma ReignsOrdered(s: System)
    requires Inv(s)
    ensures Ordered(s.hist.reigns)
  {
    forall t | t in s.hist.reigns ensures ReignShape(t, s.hist.reigns[t]) {
      assert ReignOk(s.nodes, s.hist, t, s.hist.reigns[t]);
    }
  }

  /** A log that ends in an entry of term u, of a leader holding a chosen prefix, holds it too. */
  lemma EndsInHolder(reigns: map<nat, Reign>, log: seq<Entry>, u: nat, t: nat, i: nat)
    requires Ordered(reigns) && LogOk(log, reigns) && log != [] && LastTerm(log) == u
    requires t in reigns && u in reigns && t < u
    requires Extends(reigns[u].log, reigns[t].log, i)
    ensures Extends(log, reigns[t].log, i)
  {
    var last, ru, rt := |log| - 1, reigns[u], reigns[t];
    assert Rooted(log, last, reigns);
    assert ru.log[last] == log[..last + 1][last];
    forall j | 0 <= j < i ensures ru.log[j].term <= t {
      assert ru.log[j] == ru.log[..i][j] == rt.log[..i][j];
      assert ReignShape(t, rt);
    }
    PrefixOfPrefix(log, ru.log, i, |log|);
  }

  lemma HolderEndsLate(reigns: map<nat, Reign>, voted: seq<Entry>, t: nat, i: nat)
    requires Ordered(reigns) && LogOk(voted, reigns) && t in reigns
    requires 0 < i <= |reigns[t].log| && reigns[t].log[i - 1].term == t
    requires Extends(voted, reigns[t].log, i)
    ensures t <= LastTerm(voted)
  {
    assert voted[i - 1] == voted[..i][i - 1] == reigns[t].log[..i][i - 1];
    LastTermBounds(voted, i - 1, reigns);
  }

  /** A log at least as up to date as one holding the first i entries of term t, the i-th being of
      that term, holds them too, provided the leader of its last term does. */
  lemma UpToDateHolds(reigns: map<nat, Reign>, log: seq<Entry>, voted: seq<Entry>, t: nat, i: nat)
    requires Ordered(reigns) && LogOk(log, reigns) && LogOk(voted, reigns) && t in reigns && 0 !in reigns
    requires 0 < i <= |reigns[t].log| && reigns[t].log[i - 1].term == t
    requires UpToDate(voted, LastTerm(log), LastIndex(log))
    requires Extends(voted, reigns[t].log, i)
    requires LastTerm(log) > t && LastTerm(log) in reigns ==>
               Extends(reigns[LastTerm(log)].log, reigns[t].log, i)
    ensures Extends(log, reigns[t].log, i)
  {
    HolderEndsLate(reigns, voted, t, i);
    WellNumberedReads(voted, 0);
    WellNumberedReads(log, 0);
    assert log != [];
    assert Rooted(log, |log| - 1, reigns);
    if LastTerm(log) == t {
      PrefixOfPrefix(log, reigns[t].log, i, |log|);
    } else {
      EndsInHolder(reigns, log, LastTerm(log), t, i);
    }
  }

  /** The winner of term u was at least as up to date as some log that kept the first i entries of
      term t. */
  ghost predicate Witnessed(reigns: map<nat, Reign>, t: nat, i: nat, u: nat)
    requires t in reigns && u in reigns
  {
    exists voted ::
      && LogOk(voted, reigns)
      && UpToDate(voted, LastTerm(reigns[u].electionLog), LastIndex(reigns[u].electionLog))
      && Kept(reigns, t, i, voted, u - 1)
  }

  lemma VoterWitnesses(s: System, t: nat, i: nat, u: nat)
    requires Inv(s) && AcksOk(s) && BoundsOk(s)
    requires Chosen(s, t, i) && u in s.hist.reigns && t < u
    ensures Witnessed(s.hist.reigns, t, i, u)
  {
    var r := s.hist.reigns[u];
    assert ReignOk(s.nodes, s.hist, u, r);
    var v := MajoritiesMeet(s.nodes.Keys, Holders(s, t, i), r.voters);
    assert ElectedBy(s.hist.votes, u, r, v);
    var vote := s.hist.votes[(v, u)];
    assert VoteOk(s.nodes, s.hist.reigns, (v, u), vote);
    assert VoteBound(s.hist, v, u, vote);
    assert Kept(s.hist.reigns, t, i, vote.log, u - 1);
  }

  ghost predicate RootedElections(reigns: map<nat, Reign>) {
    forall u :: u in reigns ==> LogOk(reigns[u].electionLog, reigns) && LastTerm(reigns[u].electionLog) < u
  }

  lemma ElectionsRooted(s: System)
    requires Inv(s)
    ensures RootedElections(s.hist.reigns)
  {
    forall u | u in s.hist.reigns
      ensures LogOk(s.hist.reigns[u].electionLog, s.hist.reigns) && LastTerm(s.hist.reigns[u].electionLog) < u
    {
      var r := s.hist.reigns[u];
      assert ReignOk(s.nodes, s.hist, u, r);
      LogOkPrefix(r.log, |r.electionLog|, s.hist.reigns);
      assert r.log[..|r.electionLog|] == r.electionLog;
    }
  }

  lemma WinnerHolds(reigns: map<nat, Reign>, t: nat, i: nat, u: nat)
    requires Ordered(reigns) && RootedElections(reigns) && 0 !in reigns
    requires t in reigns && 0 < i <= |reigns[t].log| && reigns[t].log[i - 1].term == t
    requires u in reigns && t < u && Witnessed(reigns, t, i, u)
    requires !Overruled(reigns, t, i, u - 1)
    ensures Extends(reigns[u].log, reigns[t].log, i)
  {
    var r := reigns[u];
    var voted :| LogOk(voted, reigns)
                 && UpToDate(voted, LastTerm(r.electionLog), LastIndex(r.electionLog))
                 && Kept(reigns, t, i, voted, u - 1);
    UpToDateHolds(reigns, r.electionLog, voted, t, i);
    assert ReignShape(u, r);
    assert r.log[..i] == r.electionLog[..i];
  }

  lemma {:induction false} LaterLeadersHold(reigns: map<nat, Reign>, t: nat, i: nat, u: nat)
    requires Ordered(reigns) && RootedElections(reigns) && 0 !in reigns
    requires t in reigns && 0 < i <= |reigns[t].log| && reigns[t].log[i - 1].term == t
    requires forall w :: w in reigns && t < w ==> Witnessed(reigns, t, i, w)
    requires u in reigns && t <= u
    ensures Extends(reigns[u].log, reigns[t].log, i)
    decreases u
  {
    if t < u {
      if Overruled(reigns, t, i, u - 1) {
        var w :| w in reigns && t < w < u && !Extends(reigns[w].log, reigns[t].log, i);
        LaterLeadersHold(reigns, t, i, w);
      }
      WinnerHolds(reigns, t, i, u);
    }
  }

  /** Leader Completeness: every later leader has every chosen entry. */
  lemma LeaderCompleteness(s: System, t: nat, i: nat, u: nat)
    requires Inv(s) && AcksOk(s) && BoundsOk(s)
    requires Chosen(s, t, i) && u in s.hist.reigns && t <= u
    ensures Extends(s.hist.reigns[u].log, s.hist.reigns[t].log, i)
  {
    ReignsOrdered(s);
    ElectionsRooted(s);
    NoReignZero(s);
    forall w | w in s.hist.reigns && t < w ensures Witnessed(s.hist.reigns, t, i, w) {
      VoterWitnesses(s, t, i, w);
    }
    LaterLeadersHold(s.hist.reigns, t, i, u);
  }

  // ----- acknowledgements, votes and commitments under growth -----

  /** Only the entry for the acting node in its new term changes, upwards. */
  ghost predicate AckShift(s: System, s': System, n: nat)
    requires n in s'.nodes
  {
    && (forall k :: k in s.hist.acks ==> k in s'.hist.acks && s.hist.acks[k] <= s'.hist.acks[k])
    && (forall k :: k in s'.hist.acks && (k !in s.hist.acks || s'.hist.acks[k] != s.hist.acks[k]) ==>
          k == (n, s'.nodes[n].term))
  }

  lemma OverruledGrown(r: map<nat, Reign>, r': map<nat, Reign>, t: nat, i: nat, high: int, high': int)
    requires Ordered(r) && Ordered(r') && Grown(r, r')
    requires t in r && i <= |r[t].log| && high <= high'
    requires Overruled(r, t, i, high)
    ensures Overruled(r', t, i, high')
  {
    var u :| u in r && t < u <= high && !Extends(r[u].log, r[t].log, i);
    assert r'[t].log[..i] == r[t].log[..i];
    if i <= |r[u].log| {
      assert r'[u].log[..i] == r[u].log[..i];
    } else if i <= |r'[u].log| {
      var j := |r[u].log|;
      assert ReignShape(u, r[u]) && ReignShape(u, r'[u]) && ReignShape(t, r'[t]);
      assert r'[u].log[j].term == u && r'[t].log[j].term <= t;
      assert r'[u].log[..i][j] != r'[t].log[..i][j];
    }
    assert !Extends(r'[u].log, r'[t].log, i);
  }

  lemma KeptGrown(r: map<nat, Reign>, r': map<nat, Reign>, t: nat, upTo: nat, log: seq<Entry>, high: int, high': int)
    requires Ordered(r) && Ordered(r') && Grown(r, r')
    requires t in r && upTo <= |r[t].log| && high <= high'
    requires KeptUpTo(r, t, upTo, log, high)
    ensures KeptUpTo(r', t, upTo, log, high')
  {
    forall i | 0 <= i <= upTo ensures Kept(r', t, i, log, high') {
      assert Kept(r, t, i, log, high);
      if Overruled(r, t, i, high) {
        OverruledGrown(r, r', t, i, high, high');
      } else {
        assert r'[t].log[..i] == r[t].log[..i];
      }
    }
  }

  /** Whatever the acting node had acknowledged, its new log still keeps. */
  ghost predicate Carries(s: System, s': System, n: nat)
    requires n in s'.nodes
  {
    forall t :: (n, t) in s.hist.acks && t in s'.hist.reigns ==>
      KeptUpTo(s'.hist.reigns, t, s.hist.acks[(n, t)], s'.nodes[n].log, s'.nodes[n].term)
  }

  /** A new acknowledgement is of the leader's log of the current term, which the node holds. */
  ghost predicate NewAckOk(s: System, s': System, n: nat)
    requires n in s'.nodes
  {
    var t := s'.nodes[n].term;
    (n, t) in s'.hist.acks && ((n, t) !in s.hist.acks || s'.hist.acks[(n, t)] != s.hist.acks[(n, t)]) ==>
      t in s'.hist.reigns && Extends(s'.nodes[n].log, s'.hist.reigns[t].log, s'.hist.acks[(n, t)])
  }

  lemma ExtendsKeepsUpTo(r: map<nat, Reign>, t: nat, upTo: nat, log: seq<Entry>, high: int)
    requires t in r && Extends(log, r[t].log, upTo)
    ensures KeptUpTo(r, t, upTo, log, high)
  {
    forall i | 0 <= i <= upTo ensures Kept(r, t, i, log, high) {
      PrefixOfPrefix(log, r[t].log, i, upTo);
    }
  }

  lemma AcksKept(s: System, s': System, n: nat)
    requires Ordered(s.hist.reigns) && Ordered(s'.hist.reigns)
    requires AcksOk(s) && Shift(s, s', n) && AckShift(s, s', n)
    requires Carries(s, s', n) && NewAckOk(s, s', n)
    ensures AcksOk(s')
  {
    forall f, t | (f, t) in s'.hist.acks ensures AckOk(s'.nodes, s'.hist, f, t, s'.hist.acks[(f, t)]) {
      var a := s'.hist.acks[(f, t)];
      if (f, t) !in s.hist.acks || a != s.hist.acks[(f, t)] {
        ExtendsKeepsUpTo(s'.hist.reigns, t, a, s'.nodes[n].log, s'.nodes[n].term);
      } else {
        assert AckOk(s.nodes, s.hist, f, t, a);
        if f != n {
          KeptGrown(s.hist.reigns, s'.hist.reigns, t, a, s.nodes[f].log, s.nodes[f].term, s.nodes[f].term);
        }
      }
    }
  }

  /** A vote's bound depends only on acknowledgements of earlier terms. */
  lemma OldVoteBound(s: System, s': System, n: nat, v: nat, t': nat)
    requires Ordered(s.hist.reigns) && Ordered(s'.hist.reigns)
    requires AcksOk(s) && Shift(s, s', n) && AckShift(s, s', n)
    requires (v, t') in s.hist.votes && v in s.nodes && t' <= s.nodes[v].term
    requires VoteBound(s.hist, v, t', s.hist.votes[(v, t')])
    ensures VoteBound(s'.hist, v, t', s'.hist.votes[(v, t')])
  {
    var vote := s.hist.votes[(v, t')];
    if t' !in s'.hist.reigns || v in s'.hist.reigns[t'].voters {
      forall t | (v, t) in s'.hist.acks && t in s'.hist.reigns && t < t'
        ensures KeptUpTo(s'.hist.reigns, t, s'.hist.acks[(v, t)], vote.log, t' - 1)
      {
        assert (v, t) != (n, s'.nodes[n].term);
        assert AckOk(s.nodes, s.hist, v, t, s.hist.acks[(v, t)]);
        KeptGrown(s.hist.reigns, s'.hist.reigns, t, s.hist.acks[(v, t)], vote.log, t' - 1, t' - 1);
      }
    }
  }

  lemma KeptBelow(r: map<nat, Reign>, t: nat, upTo: nat, log: seq<Entry>, high: nat)
    requires t in r && high !in r && KeptUpTo(r, t, upTo, log, high)
    ensures KeptUpTo(r, t, upTo, log, high - 1)
  {
    var below := high - 1;
    forall i | 0 <= i <= upTo ensures Kept(r, t, i, log, below) {
      assert Kept(r, t, i, log, high);
    }
  }

  lemma NewVoteBound(s': System, n: nat, t': nat)
    requires AcksOk(s') && n in s'.nodes && t' == s'.nodes[n].term && t' !in s'.hist.reigns
    requires (n, t') in s'.hist.votes && s'.hist.votes[(n, t')].log == s'.nodes[n].log
    ensures VoteBound(s'.hist, n, t', s'.hist.votes[(n, t')])
  {
    forall t | (n, t) in s'.hist.acks && t in s'.hist.reigns && t < t'
      ensures KeptUpTo(s'.hist.reigns, t, s'.hist.acks[(n, t)], s'.nodes[n].log, t' - 1)
    {
      assert AckOk(s'.nodes, s'.hist, n, t, s'.hist.acks[(n, t)]);
      KeptBelow(s'.hist.reigns, t, s'.hist.acks[(n, t)], s'.nodes[n].log, t');
    }
  }

  /** A late vote, for a term already won, is not among those that won it. */
  lemma LateVote(s: System, s': System, n: nat, t': nat)
    requires Inv(s) && (n, t') !in s.hist.votes && t' in s.hist.reigns && s'.hist.reigns == s.hist.reigns
    ensures n !in s.hist.reigns[t'].voters
    ensures (n, t') in s'.hist.votes ==> VoteBound(s'.hist, n, t', s'.hist.votes[(n, t')])
  {
    assert ReignOk(s.nodes, s.hist, t', s.hist.reigns[t']);
  }

  lemma BoundsKept(s: System, s': System, n: nat)
    requires Inv(s) && Inv(s') && AcksOk(s) && BoundsOk(s) && AcksOk(s') && Shift(s, s', n) && AckShift(s, s', n)
    requires forall k :: k in s'.hist.votes && k !in s.hist.votes ==>
               s'.hist.votes[k].log == s'.nodes[n].log && s'.hist.reigns == s.hist.reigns
    ensures BoundsOk(s')
  {
    ReignsOrdered(s);
    ReignsOrdered(s');
    forall v, t' | (v, t') in s'.hist.votes ensures VoteBound(s'.hist, v, t', s'.hist.votes[(v, t')]) {
      if (v, t') in s.hist.votes {
        assert VoteOk(s.nodes, s.hist.reigns, (v, t'), s.hist.votes[(v, t')]);
        OldVoteBound(s, s', n, v, t');
      } else if t' in s.hist.reigns {
        LateVote(s, s', n, t');
      } else {
        NewVoteBound(s', n, t');
      }
    }
  }

  lemma ChosenGrown(s: System, s': System, n: nat, t: nat, i: nat)
    requires Shift(s, s', n) && AckShift(s, s', n) && Chosen(s, t, i)
    ensures Chosen(s', t, i)
  {
    assert s'.nodes.Keys == s.nodes.Keys;
    assert |s'.nodes| == |s'.nodes.Keys| && |s.nodes| == |s.nodes.Keys|;
    var a, b := Holders(s, t, i), Holders(s', t, i);
    assert a <= b;
    assert b == a + (b - a);
  }

  lemma CommittedGrown(s: System, s': System, n: nat, log: seq<Entry>, c: nat, high: nat, log': seq<Entry>, high': nat)
    requires Shift(s, s', n) && AckShift(s, s', n) && Committed(s, log, c, high)
    requires high <= high' && log <= log'
    ensures Committed(s', log', c, high')
  {
    if c != 0 {
      var t, i :| Backed(s, log, c, high, t, i);
      ChosenGrown(s, s', n, t, i);
      assert s'.hist.reigns[t].log[..c] == s.hist.reigns[t].log[..c];
      assert log'[..c] == log[..c];
      assert Backed(s', log', c, high', t, i);
    }
  }

  lemma LeadersKept(s: System, s': System, n: nat)
    requires Inv(s) && LeadersOk(s) && Shift(s, s', n) && AckShift(s, s', n)
    requires ProgressOk(s'.hist, n, s'.nodes[n])
    ensures LeadersOk(s')
  {
    forall m | m in s'.nodes ensures ProgressOk(s'.hist, m, s'.nodes[m]) {
      if m != n { assert ProgressOk(s.hist, m, s.nodes[m]); }
    }
  }

  lemma RepliesKept(s: System, s': System, n: nat)
    requires NetOk(s) && RepliesOk(s) && Shift(s, s', n) && AckShift(s, s', n)
    requires forall m :: m in s'.net && m !in s.net ==> ReplyOk(s', m)
    ensures RepliesOk(s')
  {
    forall m | m in s'.net ensures ReplyOk(s', m) {
      if m in s.net {
        assert MsgOk(s.nodes, s.hist, m) && ReplyOk(s, m);
        if m.AppendReq? {
          var r, r' := s.hist.reigns[m.req.term], s'.hist.reigns[m.req.term];
          CommittedGrown(s, s', n, r.log, m.req.leaderCommit, m.req.term, r'.log, m.req.term);
        }
      }
    }
  }

  lemma CommitsKept(s: System, s': System, n: nat)
    requires CommitsOk(s) && Shift(s, s', n) && AckShift(s, s', n)
    requires Committed(s', s'.nodes[n].log, s'.nodes[n].commit, s'.nodes[n].term)
    ensures CommitsOk(s')
  {
    forall m | m in s'.nodes ensures Committed(s', s'.nodes[m].log, s'.nodes[m].commit, s'.nodes[m].term) {
      if m != n {
        var x := s.nodes[m];
        CommittedGrown(s, s', n, x.log, x.commit, x.term, x.log, x.term);
      }
    }
  }

  /** A step keeps safety as soon as what is new in it is in order. */
  lemma SafeStepKeeps(s: System, s': System, n: nat)
    requires Inv(s) && Inv(s') && Safe(s) && Shift(s, s', n) && AckShift(s, s', n)
    requires Carries(s, s', n) && NewAckOk(s, s', n)
    requires forall k :: k in s'.hist.votes && k !in s.hist.votes ==>
               s'.hist.votes[k].log == s'.nodes[n].log && s'.hist.reigns == s.hist.reigns
    requires ProgressOk(s'.hist, n, s'.nodes[n])
    requires forall m :: m in s'.net && m !in s.net ==> ReplyOk(s', m)
    requires Committed(s', s'.nodes[n].log, s'.nodes[n].commit, s'.nodes[n].term)
    ensures Safe(s')
  {
    ReignsOrdered(s);
    ReignsOrdered(s');
    AcksKept(s, s', n);
    BoundsKept(s, s', n);
    LeadersKept(s, s', n);
    RepliesKept(s, s', n);
    CommitsKept(s, s', n);
  }

  // ----- steps that leave log, commit index and acknowledgements alone -----

  lemma CarriesSameLog(s: System, s': System, n: nat)
    requires AcksOk(s) && Ordered(s.hist.reigns) && Ordered(s'.hist.reigns)
    requires Shift(s, s', n) && s.nodes[n].log <= s'.nodes[n].log
    ensures Carries(s, s', n)
  {
    var x, y := s.nodes[n], s'.nodes[n];
    forall t | (n, t) in s.hist.acks && t in s'.hist.reigns
      ensures KeptUpTo(s'.hist.reigns, t, s.hist.acks[(n, t)], y.log, y.term)
    {
      var a := s.hist.acks[(n, t)];
      assert AckOk(s.nodes, s.hist, n, t, a);
      KeptGrown(s.hist.reigns, s'.hist.reigns, t, a, x.log, x.term, y.term);
      KeptLonger(s'.hist.reigns, t, a, x.log, y.log, y.term);
    }
  }

  lemma KeptLonger(r: map<nat, Reign>, t: nat, upTo: nat, log: seq<Entry>, log': seq<Entry>, high: int)
    requires t in r && KeptUpTo(r, t, upTo, log, high) && log <= log'
    ensures KeptUpTo(r, t, upTo, log', high)
  {
    forall i | 0 <= i <= upTo ensures Kept(r, t, i, log', high) {
      assert Kept(r, t, i, log, high);
      if Extends(log, r[t].log, i) { assert log'[..i] == log[..i]; }
    }
  }

  lemma QuietStepKeeps(s: System, s': System, n: nat)
    requires Inv(s) && Inv(s') && Safe(s) && Shift(s, s', n)
    requires s'.hist.reigns == s.hist.reigns && s'.hist.acks == s.hist.acks
    requires s'.nodes[n].log == s.nodes[n].log && s'.nodes[n].commit == s.nodes[n].commit
    requires forall k :: k in s'.hist.votes && k !in s.hist.votes ==> s'.hist.votes[k].log == s'.nodes[n].log
    requires ProgressOk(s'.hist, n, s'.nodes[n])
    requires forall m :: m in s'.net && m !in s.net ==> ReplyOk(s', m)
    ensures Safe(s')
  {
    var x, y := s.nodes[n], s'.nodes[n];
    ReignsOrdered(s);
    CarriesSameLog(s, s', n);
    CommittedGrown(s, s', n, x.log, x.commit, x.term, y.log, y.term);
    SafeStepKeeps(s, s', n);
  }

  // ----- committing at the leader -----

  lemma ReplicatedIsChosen(s: System, n: nat, x: Node, c: nat)
    requires n in s.nodes && x.term in s.hist.reigns && s.hist.reigns[x.term].log == x.log
    requires x.role == Leader && ProgressOk(s.hist, n, x) && WellNumbered(x.log)
    requires x.followers.Keys == s.nodes.Keys - {n} && x.clusterSize == |s.nodes|
    requires 0 < c <= |x.log| && Replicated(x, c)
    ensures Chosen(s, x.term, c)
  {
    WellNumberedReads(x.log, c);
    var holders, known := Holders(s, x.term, c), Acknowledged(x, c);
    assert forall f :: f in known + {n} ==> f in holders;
    AddOne(known, n, holders);
  }

  lemma AddOne(a: set<nat>, n: nat, b: set<nat>)
    requires n !in a && a + {n} <= b
    ensures |b| >= |a| + 1
  {
    assert b == (a + {n}) + (b - (a + {n}));
  }

  /** Advancing the commit index lands on a chosen entry. */
  lemma AdvanceCommitted(s: System, n: nat, x: Node)
    requires n in s.nodes && x.term in s.hist.reigns && s.hist.reigns[x.term].log == x.log
    requires x.role == Leader && ProgressOk(s.hist, n, x) && WellNumbered(x.log)
    requires x.followers.Keys == s.nodes.Keys - {n} && x.clusterSize == |s.nodes|
    requires Committed(s, x.log, x.commit, x.term)
    ensures Committed(s, x.log, AdvanceCommit(x).commit, x.term)
  {
    var c := AdvanceCommit(x).commit;
    WellNumberedReads(x.log, 0);
    if c != x.commit {
      ReplicatedIsChosen(s, n, x, c);
      assert Backed(s, x.log, c, x.term, x.term, c);
    }
  }

  /** A leader's step that ends by advancing the commit index of an intermediate state y. */
  lemma LeaderStepKeeps(s: System, s': System, n: nat, y: Node)
    requires Inv(s) && Inv(s') && Safe(s) && Shift(s, s', n) && AckShift(s, s', n) && NewAckOk(s, s', n)
    requires s'.nodes[n] == AdvanceCommit(y) && y.role == Leader && ProgressOk(s'.hist, n, y)
    requires y.term == s.nodes[n].term && y.commit == s.nodes[n].commit && s.nodes[n].log <= y.log
    requires s'.hist.votes == s.hist.votes && s'.net == s.net
    ensures Safe(s')
  {
    var x := s.nodes[n];
    ReignsOrdered(s);
    ReignsOrdered(s');
    CarriesSameLog(s, s', n);
    CommittedGrown(s, s', n, x.log, x.commit, x.term, y.log, y.term);
    assert NodeOk(s'.nodes.Keys, s'.hist, n, s'.nodes[n]);
    AdvanceCommitted(s', n, y);
    SafeStepKeeps(s, s', n);
  }

  lemma WinShift(s: System, n: nat, voters: set<nat>)
    requires n in s.nodes && BecomeLeader(s.nodes[n], s.nodes.Keys - {n}).Ok?
    requires s.nodes[n].term !in s.hist.reigns && WellNumbered(s.nodes[n].log)
    ensures var s', y := OnWin(s, n, voters), Crowned(s.nodes[n], s.nodes.Keys - {n});
            && Shift(s, s', n) && AckShift(s, s', n)
            && s'.nodes[n] == AdvanceCommit(y) && ProgressOk(s'.hist, n, y)
            && s'.hist.votes == s.hist.votes && s'.net == s.net
    ensures Ack(s.hist, n, s.nodes[n].term) <= |s.nodes[n].log| ==> NewAckOk(s, OnWin(s, n, voters), n)
  {
    WellNumberedReads(s.nodes[n].log, 0);
  }

  lemma NoAckBeforeReign(s: System, n: nat, t: nat)
    requires AcksOk(s) && t !in s.hist.reigns
    ensures Ack(s.hist, n, t) == 0
  {
    forall u | (n, u) in s.hist.acks ensures u in s.hist.reigns {
      assert AckOk(s.nodes, s.hist, n, u, s.hist.acks[(n, u)]);
    }
  }

  lemma WinSafe(s: System, n: nat, voters: set<nat>)
    requires Inv(s) && Safe(s) && n in s.nodes && Elected(s, n, voters)
    ensures Safe(OnWin(s, n, voters))
  {
    var x := s.nodes[n];
    if BecomeLeader(x, s.nodes.Keys - {n}).Ok? {
      assert NodeOk(s.nodes.Keys, s.hist, n, x);
      WinKeeps(s, n, voters);
      FirstWin(s, n, voters);
      NoAckBeforeReign(s, n, x.term);
      WinShift(s, n, voters);
      LeaderStepKeeps(s, OnWin(s, n, voters), n, Crowned(x, s.nodes.Keys - {n}));
    }
  }

  lemma SubmitShift(s: System, n: nat, command: Command)
    requires n in s.nodes && Propose(s.nodes[n], command).Ok?
    requires s.nodes[n].term in s.hist.reigns && s.hist.reigns[s.nodes[n].term].leader == n
    requires s.hist.reigns[s.nodes[n].term].log == s.nodes[n].log
    requires ProgressOk(s.hist, n, s.nodes[n]) && Ack(s.hist, n, s.nodes[n].term) <= |s.nodes[n].log|
    ensures var s', y := OnSubmit(s, n, command), Extended(s.nodes[n], command).value;
            && Shift(s, s', n) && AckShift(s, s', n) && NewAckOk(s, s', n)
            && s'.nodes[n] == AdvanceCommit(y) && ProgressOk(s'.hist, n, y)
            && y.role == Leader && s.nodes[n].log <= y.log
            && s'.hist.votes == s.hist.votes && s'.net == s.net
  {
  }

  lemma SubmitSafe(s: System, n: nat, command: Command)
    requires Inv(s) && Safe(s) && n in s.nodes
    ensures Safe(OnSubmit(s, n, command))
  {
    var x := s.nodes[n];
    if Propose(x, command).Ok? {
      assert NodeOk(s.nodes.Keys, s.hist, n, x);
      SubmitKeeps(s, n, command);
      AckBound(s, n, x.term);
      assert ProgressOk(s.hist, n, x);
      SubmitShift(s, n, command);
      LeaderStepKeeps(s, OnSubmit(s, n, command), n, Extended(x, command).value);
    }
  }

  // ----- messages -----

  lemma CommittedInLog(s: System, log: seq<Entry>, c: nat, high: nat)
    requires Committed(s, log, c, high)
    ensures c <= |log|
  {
  }

  lemma RequestCovers(x: Node, p: Progress)
    requires WellNumbered(x.log) && 1 <= p.nextIndex <= |x.log| + 1
    ensures Covered(RequestFor(x, p)) == |x.log|
  {
    WellNumberedReads(x.log, p.nextIndex);
  }

  lemma SendAppendsSafe(s: System, n: nat)
    requires Inv(s) && Safe(s) && n in s.nodes
    ensures Safe(OnSendAppends(s, n))
  {
    var x := s.nodes[n];
    var s' := OnSendAppends(s, n);
    SendAppendsKeeps(s, n);
    assert NodeOk(s.nodes.Keys, s.hist, n, x);
    assert ProgressOk(s.hist, n, x);
    assert s'.nodes == s.nodes[n := x];
    assert Committed(s, x.log, x.commit, x.term);
    CommittedInLog(s, x.log, x.commit, x.term);
    CommittedGrown(s, s', n, x.log, x.commit, x.term, x.log, x.term);
    forall m | m in s'.net && m !in s.net ensures ReplyOk(s', m) {
      RequestCovers(x, x.followers[m.to]);
    }
    QuietStepKeeps(s, s', n);
  }

  lemma QuietShift(s: System, n: nat, y: Node)
    requires n in s.nodes && y.term >= s.nodes[n].term
    ensures Shift(s, Put(s, n, y), n) && AckShift(s, Put(s, n, y), n) && NewAckOk(s, Put(s, n, y), n)
  {
  }

  lemma MatchedSafe(s: System, n: nat, msg: Msg)
    requires Inv(s) && Safe(s) && n in s.nodes && msg in s.net && msg.AppendResp?
    requires var x, resp := s.nodes[n], msg.resp;
             x.role == Leader && resp.nodeId in x.followers && resp.success && resp.term == x.term
             && resp.matchIndex <= Covered(msg.req) && RecordMatch(x, resp.nodeId, resp.matchIndex).Ok?
    ensures Safe(OnAppendResp(s, n, msg))
  {
    var x, resp := s.nodes[n], msg.resp;
    assert NodeOk(s.nodes.Keys, s.hist, n, x);
    assert ProgressOk(s.hist, n, x) && ReplyOk(s, msg);
    AckBound(s, resp.nodeId, x.term);
    var y := RecordMatch(x, resp.nodeId, resp.matchIndex).value;
    assert ProgressOk(s.hist, n, y);
    AppendRespKeeps(s, n, msg);
    QuietShift(s, n, AdvanceCommit(y));
    LeaderStepKeeps(s, OnAppendResp(s, n, msg), n, y);
  }

  /** Steps that change one node and nothing else, without touching log and commit index. */
  lemma QuietPutKeeps(s: System, n: nat, y: Node)
    requires Inv(s) && Safe(s) && n in s.nodes && Inv(Put(s, n, y))
    requires y.term >= s.nodes[n].term && y.log == s.nodes[n].log && y.commit == s.nodes[n].commit
    requires ProgressOk(s.hist, n, y)
    ensures Safe(Put(s, n, y))
  {
    QuietShift(s, n, y);
    QuietStepKeeps(s, Put(s, n, y), n);
  }

  lemma PutSame(s: System, n: nat)
    requires n in s.nodes
    ensures Put(s, n, s.nodes[n]) == s
  {
  }

  function Backtracked(x: Node, f: nat): Node
    requires f in x.followers
  {
    x.(followers := x.followers[f := Backtrack(x.followers[f])])
  }

  lemma BacktrackedProgress(h: History, n: nat, x: Node, f: nat)
    requires f in x.followers && ProgressOk(h, n, x)
    ensures ProgressOk(h, n, Backtracked(x, f))
  {
  }

  lemma RefusedSafe(s: System, n: nat, msg: Msg)
    requires Inv(s) && Safe(s) && n in s.nodes && msg.AppendResp?
    requires var x, resp := s.nodes[n], msg.resp;
             resp.term > x.term || x.role != Leader || resp.nodeId !in x.followers || !resp.success
    ensures Safe(OnAppendResp(s, n, msg))
  {
    var x, resp := s.nodes[n], msg.resp;
    AppendRespKeeps(s, n, msg);
    if resp.term > x.term {
      QuietPutKeeps(s, n, BecomeFollower(x, resp.term));
    } else if x.role != Leader || resp.nodeId !in x.followers {
      PutSame(s, n);
    } else {
      assert ProgressOk(s.hist, n, x);
      BacktrackedProgress(s.hist, n, x, resp.nodeId);
      QuietPutKeeps(s, n, Backtracked(x, resp.nodeId));
    }
  }

  /** What an honest response asks of the leader: nothing, or to record a justified match. */
  lemma HonestCases(s: System, n: nat, msg: Msg)
    requires n in s.nodes && msg in s.net && msg.AppendResp? && msg.to == n
    requires Honest(s, DeliverAppendResp(n, msg))
    ensures var x, resp := s.nodes[n], msg.resp;
            || resp.term > x.term || x.role != Leader || resp.nodeId !in x.followers || !resp.success
            || OnAppendResp(s, n, msg) == s
            || (resp.term == x.term && resp.matchIndex <= Covered(msg.req)
                && RecordMatch(x, resp.nodeId, resp.matchIndex).Ok?)
  {
  }

  lemma AppendRespSafe(s: System, n: nat, msg: Msg)
    requires Inv(s) && Safe(s) && n in s.nodes && msg in s.net && msg.AppendResp? && msg.to == n
    requires Honest(s, DeliverAppendResp(n, msg))
    ensures Safe(OnAppendResp(s, n, msg))
  {
    var x, resp := s.nodes[n], msg.resp;
    HonestCases(s, n, msg);
    if resp.term > x.term || x.role != Leader || resp.nodeId !in x.followers || !resp.success {
      RefusedSafe(s, n, msg);
    } else if OnAppendResp(s, n, msg) != s {
      MatchedSafe(s, n, msg);
    }
  }

  lemma AckBound(s: System, f: nat, t: nat)
    requires AcksOk(s) && t in s.hist.reigns
    ensures Ack(s.hist, f, t) <= |s.hist.reigns[t].log|
  {
    if (f, t) in s.hist.acks { assert AckOk(s.nodes, s.hist, f, t, s.hist.acks[(f, t)]); }
  }

  lemma TimeoutSafe(s: System, n: nat)
    requires Inv(s) && Safe(s) && n in s.nodes
    ensures Safe(OnTimeout(s, n))
  {
    var x := s.nodes[n];
    assert NodeOk(s.nodes.Keys, s.hist, n, x);
    if x.term < U64_MAX {
      TimeoutKeeps(s, n);
      NewTermUnseen(s, n, x.term + 1);
      TimeoutShift(s, n);
      QuietStepKeeps(s, OnTimeout(s, n), n);
    }
  }

  lemma VoteReqSafe(s: System, n: nat, msg: Msg)
    requires Inv(s) && Safe(s) && n in s.nodes && msg in s.net && msg.VoteReq?
    ensures Safe(OnVoteReq(s, n, msg))
  {
    VoteReqKeeps(s, n, msg);
    assert ProgressOk(s.hist, n, s.nodes[n]);
    VoteReqShape(s, n, msg);
    QuietStepKeeps(s, OnVoteReq(s, n, msg), n);
  }

  lemma VoteReqShape(s: System, n: nat, msg: Msg)
    requires n in s.nodes && msg.VoteReq? && ProgressOk(s.hist, n, s.nodes[n])
    ensures var s' := OnVoteReq(s, n, msg);
            && Shift(s, s', n) && s'.hist.reigns == s.hist.reigns && s'.hist.acks == s.hist.acks
            && s'.nodes[n].log == s.nodes[n].log && s'.nodes[n].commit == s.nodes[n].commit
            && ProgressOk(s'.hist, n, s'.nodes[n])
            && (forall k :: k in s'.hist.votes && k !in s.hist.votes ==> s'.hist.votes[k].log == s'.nodes[n].log)
            && (forall m :: m in s'.net && m !in s.net ==> m.VoteResp?)
  {
  }

  // ----- appending at a follower -----

  /** Absorbing the log of term u's leader loses an acknowledged prefix only if that leader lacks it. */
  lemma AbsorbKeepsUpTo(reigns: map<nat, Reign>, log: seq<Entry>, prev: nat, end: nat, t: nat, upTo: nat, u: nat)
    requires LogOk(log, reigns) && t in reigns && u in reigns && t <= u
    requires LogOk(reigns[u].log, reigns) && prev <= |log| && prev <= end <= |reigns[u].log|
    requires log[..prev] == reigns[u].log[..prev]
    requires upTo <= |reigns[t].log| && KeptUpTo(reigns, t, upTo, log, u)
    ensures KeptUpTo(reigns, t, upTo, Merge(log, reigns[u].log[prev..end]), u)
  {
    var leaderLog := reigns[u].log;
    var merged := Merge(log, leaderLog[prev..end]);
    MergeQuoted(log, leaderLog, prev, end, reigns);
    forall i | 0 <= i <= upTo ensures Kept(reigns, t, i, merged, u) {
      assert Kept(reigns, t, i, log, u);
      if Extends(log, reigns[t].log, i) && Extends(leaderLog, reigns[t].log, i) {
        MergeKeepsShared(log, leaderLog, prev, end, i);
        if merged != log { PrefixOfPrefix(merged, leaderLog, i, end); }
      }
    }
  }

  /** What is committed up to some term agrees with the leader of that term. */
  lemma CommittedUnderLeader(s: System, log: seq<Entry>, c: nat, u: nat)
    requires Inv(s) && AcksOk(s) && BoundsOk(s) && u in s.hist.reigns && Committed(s, log, c, u)
    ensures Extends(log, s.hist.reigns[u].log, c)
    ensures forall other :: Extends(other, s.hist.reigns[u].log, c) ==> Committed(s, other, c, u)
  {
    if c != 0 {
      var t, i :| Backed(s, log, c, u, t, i);
      LeaderCompleteness(s, t, i, u);
      PrefixOfPrefix(s.hist.reigns[u].log, s.hist.reigns[t].log, c, i);
      forall other | Extends(other, s.hist.reigns[u].log, c) ensures Committed(s, other, c, u) {
        assert Backed(s, other, c, u, t, i);
      }
    }
  }

  /** The facts about an accepted request that the rest of the step needs. */
  ghost predicate Accepting(s: System, n: nat, msg: Msg) {
    && n in s.nodes && msg in s.net && msg.AppendReq? && msg.to == n
    && s.nodes[n].role == Follower && s.nodes[n].term == msg.req.term && Consistent(s.nodes[n], msg.req)
    && msg.req.term in s.hist.reigns
  }

  lemma AcceptedAgrees(s: System, n: nat, msg: Msg)
    requires Inv(s) && Accepting(s, n, msg)
    ensures var req, x := msg.req, s.nodes[n];
            var leaderLog := s.hist.reigns[req.term].log;
            && LogOk(x.log, s.hist.reigns) && LogOk(leaderLog, s.hist.reigns)
            && req.prevIndex <= |x.log| && Covered(req) <= |leaderLog|
            && x.log[..req.prevIndex] == leaderLog[..req.prevIndex]
            && req.entries == leaderLog[req.prevIndex..Covered(req)]
  {
    var req, x := msg.req, s.nodes[n];
    var r := s.hist.reigns[req.term];
    assert NodeOk(s.nodes.Keys, s.hist, n, x) && MsgOk(s.nodes, s.hist, msg);
    assert ReignOk(s.nodes, s.hist, req.term, r);
    NoReignZero(s);
    WellNumberedReads(x.log, req.prevIndex);
    assert req.prevIndex > 0 ==> Rooted(x.log, req.prevIndex - 1, s.hist.reigns);
    MatchAt(x.log, r.log, req.prevIndex, s.hist.reigns);
  }

  /** The commit index after accepting stays within what is committed. */
  lemma AcceptedCommit(s: System, n: nat, msg: Msg, log: seq<Entry>, c: nat)
    requires Inv(s) && Safe(s) && Accepting(s, n, msg) && log == Merge(s.nodes[n].log, msg.req.entries)
    requires WellNumbered(log)
    requires c == s.nodes[n].commit || c == Min(msg.req.leaderCommit, LastIndex(log))
    ensures Committed(s, log, c, s.nodes[n].term)
  {
    var req, x := msg.req, s.nodes[n];
    var leaderLog := s.hist.reigns[req.term].log;
    AcceptedAgrees(s, n, msg);
    MergeQuoted(x.log, leaderLog, req.prevIndex, Covered(req), s.hist.reigns);
    WellNumberedReads(log, 0);
    if c == x.commit {
      CommittedUnderLeader(s, x.log, c, x.term);
      MergeKeepsShared(x.log, leaderLog, req.prevIndex, Covered(req), c);
      if log != x.log { PrefixOfPrefix(log, leaderLog, c, Covered(req)); }
    } else {
      assert ReplyOk(s, msg);
      CommittedUnderLeader(s, leaderLog, req.leaderCommit, x.term);
      PrefixOfPrefix(log, leaderLog, req.leaderCommit, Covered(req));
    }
  }

  lemma AcceptedCarries(s: System, n: nat, msg: Msg, log: seq<Entry>, t: nat)
    requires Inv(s) && AcksOk(s) && Accepting(s, n, msg) && log == Merge(s.nodes[n].log, msg.req.entries)
    requires (n, t) in s.hist.acks
    ensures t in s.hist.reigns && KeptUpTo(s.hist.reigns, t, s.hist.acks[(n, t)], log, s.nodes[n].term)
  {
    var a := s.hist.acks[(n, t)];
    assert AckOk(s.nodes, s.hist, n, t, a);
    AcceptedAgrees(s, n, msg);
    AbsorbKeepsUpTo(s.hist.reigns, s.nodes[n].log, msg.req.prevIndex, Covered(msg.req), t, a, msg.req.term);
  }

  lemma AcceptedShift(s: System, n: nat, msg: Msg, y: Node)
    requires n in s.nodes && msg.AppendReq? && y.term == s.nodes[n].term == msg.req.term && y.id == n
    requires y.term in s.hist.reigns && Extends(y.log, s.hist.reigns[y.term].log, Covered(msg.req))
    ensures var s' := AcceptedSystem(s, n, msg, y);
            && Shift(s, s', n) && AckShift(s, s', n) && NewAckOk(s, s', n)
            && forall m :: m in s'.net && m !in s.net ==> ReplyOk(s', m)
  {
  }

  lemma AcceptedSafe(s: System, n: nat, msg: Msg, y: Node, s': System)
    requires Inv(s) && Safe(s) && Accepting(s, n, msg) && Inv(s') && s' == AcceptedSystem(s, n, msg, y)
    requires y == s.nodes[n].(log := Merge(s.nodes[n].log, msg.req.entries), commit := y.commit) && y.id == n
    requires y.commit == s.nodes[n].commit || y.commit == Min(msg.req.leaderCommit, LastIndex(y.log))
    ensures Safe(s')
  {
    var x, req := s.nodes[n], msg.req;
    AcceptedAgrees(s, n, msg);
    MergeQuoted(x.log, s.hist.reigns[req.term].log, req.prevIndex, Covered(req), s.hist.reigns);
    AcceptedShift(s, n, msg, y);
    assert NodeOk(s'.nodes.Keys, s'.hist, n, y);
    AcceptedCommit(s, n, msg, y.log, y.commit);
    CommittedGrown(s, s', n, y.log, y.commit, x.term, y.log, y.term);
    forall t | (n, t) in s.hist.acks && t in s'.hist.reigns
      ensures KeptUpTo(s'.hist.reigns, t, s.hist.acks[(n, t)], y.log, y.term)
    {
      AcceptedCarries(s, n, msg, y.log, t);
    }
    SafeStepKeeps(s, s', n);
  }

  lemma AdoptLeaderSafe(s: System, n: nat, term: nat)
    requires Inv(s) && Safe(s) && n in s.nodes
    ensures Safe(Put(s, n, AdoptLeader(s.nodes[n], term)))
  {
    AdoptLeaderKeeps(s, n, term);
    assert ProgressOk(s.hist, n, s.nodes[n]);
    QuietPutKeeps(s, n, AdoptLeader(s.nodes[n], term));
  }

  lemma AcceptedReqSafe(s: System, n: nat, msg: Msg, y: Node)
    requires Inv(s) && Safe(s) && n in s.nodes && msg in s.net && msg.AppendReq? && msg.to == n
    requires s.nodes[n].role == Follower && s.nodes[n].term == msg.req.term && Consistent(s.nodes[n], msg.req)
    requires y == s.nodes[n].(log := Merge(s.nodes[n].log, msg.req.entries), commit := y.commit)
    requires y.commit == s.nodes[n].commit || y.commit == Min(msg.req.leaderCommit, LastIndex(y.log))
    requires Inv(AcceptedSystem(s, n, msg, y))
    ensures Safe(AcceptedSystem(s, n, msg, y))
  {
    assert MsgOk(s.nodes, s.hist, msg);
    assert NodeOk(s.nodes.Keys, s.hist, n, s.nodes[n]);
    AcceptedSafe(s, n, msg, y, AcceptedSystem(s, n, msg, y));
  }

  lemma AppendReqSafe(s: System, n: nat, msg: Msg)
    requires Inv(s) && Safe(s) && n in s.nodes && msg in s.net && msg.AppendReq? && msg.to == n
    ensures Safe(OnAppendReq(s, n, msg))
  {
    var req, x := msg.req, s.nodes[n];
    var m := AdoptLeader(x, req.term);
    AdoptLeaderKeeps(s, n, req.term);
    AdoptLeaderSafe(s, n, req.term);
    AppendReqInTwo(s, n, msg);
    if Refuses(x, req) {
      RefusalSafe(Put(s, n, m), n, AppendResp(req.leaderId, req, Answer(m, false)));
    } else if Accepts(x, req) {
      AcceptedShape(x, req);
      AcceptReqKeeps(s, n, msg);
      AcceptedReqSafe(Put(s, n, m), n, msg, HandleAppend(x, req).0);
    }
  }

  lemma RefusalSafe(s: System, n: nat, reply: Msg)
    requires Inv(s) && Safe(s) && n in s.nodes && reply.AppendResp? && !reply.resp.success
    ensures Safe(Send(s, {reply}))
  {
    SendKeeps(s, n, {reply});
    PutSame(s, n);
    assert ProgressOk(s.hist, n, s.nodes[n]);
    QuietStepKeeps(s, Send(s, {reply}), n);
  }

  // ----- every honest run -----

  lemma NextSafe(s: System, e: Event)
    requires Inv(s) && Safe(s) && Enabled(s, e) && Honest(s, e)
    ensures Safe(Next(s, e))
  {
    NextKeeps(s, e);
    assert ProgressOk(s.hist, e.n, s.nodes[e.n]);
    match e
    case Timeout(n) => TimeoutSafe(s, n);
    case DeliverVoteReq(n, msg) => VoteReqSafe(s, n, msg);
    case Win(n, voters) => WinSafe(s, n, voters);
    case Submit(n, command) => SubmitSafe(s, n, command);
    case SendAppends(n) => SendAppendsSafe(s, n);
    case DeliverAppendReq(n, msg) => AppendReqSafe(s, n, msg);
    case DeliverAppendResp(n, msg) => AppendRespSafe(s, n, msg);
    case Demote(n, term) => QuietPutKeeps(s, n, BecomeFollower(s.nodes[n], term));
    case Restart(n) => QuietPutKeeps(s, n, Reopened(s.nodes[n]));
    case Apply(n) => QuietPutKeeps(s, n, MarkApplied(s.nodes[n], s.nodes[n].commit));
  }

  lemma InitSafe(members: set<nat>)
    ensures Safe(Init(members))
  {
  }

  lemma {:induction false} HonestRunKeeps(s: System, events: seq<Event>)
    requires Inv(s) && Safe(s) && HonestRun(s, events)
    ensures ValidRun(s, events)
    ensures Inv(After(s, events)) && Safe(After(s, events))
    decreases |events|
  {
    if events != [] {
      NextKeeps(s, events[0]);
      NextSafe(s, events[0]);
      HonestRunKeeps(Next(s, events[0]), events[1..]);
    }
  }

  /** Leader Completeness over runs: in every honest run, what a majority acknowledged in a leader's own term is in the
      log of every leader since. */
  lemma LeadersHaveChosen(members: set<nat>, events: seq<Event>, t: nat, i: nat, u: nat)
    requires HonestRun(Init(members), events)
    ensures ValidRun(Init(members), events)
    ensures var s := After(Init(members), events);
            Chosen(s, t, i) && u in s.hist.reigns && t <= u ==> Extends(s.hist.reigns[u].log, s.hist.reigns[t].log, i)
  {
    InitOk(members);
    InitSafe(members);
    HonestRunKeeps(Init(members), events);
    var s := After(Init(members), events);
    if Chosen(s, t, i) && u in s.hist.reigns && t <= u { LeaderCompleteness(s, t, i, u); }
  }

  /** No two nodes have committed different entries at the same index. */
  ghost predicate CommitsAgree(s: System) {
    forall a, b, i {:trigger s.nodes[a].log[i], s.nodes[b].log[i]} ::
      && a in s.nodes && b in s.nodes
      && 0 <= i < s.nodes[a].commit <= |s.nodes[a].log|
      && i < s.nodes[b].commit <= |s.nodes[b].log|
      ==> s.nodes[a].log[i] == s.nodes[b].log[i]
  }

  lemma ExtendsThrough(log: seq<Entry>, base: seq<Entry>, later: seq<Entry>, c: nat, k: nat)
    requires Extends(log, base, c) && Extends(later, base, k) && c <= k
    ensures Extends(log, later, c)
  {
    PrefixOfPrefix(later, base, c, k);
  }

  /** Two committed prefixes are prefixes of the log of one leader, the later one. */
  lemma CommonLeader(s: System, a: nat, b: nat) returns (u: nat)
    requires Inv(s) && Safe(s) && a in s.nodes && b in s.nodes
    requires 0 < s.nodes[a].commit && 0 < s.nodes[b].commit
    ensures u in s.hist.reigns
    ensures Extends(s.nodes[a].log, s.hist.reigns[u].log, s.nodes[a].commit)
    ensures Extends(s.nodes[b].log, s.hist.reigns[u].log, s.nodes[b].commit)
  {
    var x, y := s.nodes[a], s.nodes[b];
    assert Committed(s, x.log, x.commit, x.term) && Committed(s, y.log, y.commit, y.term);
    var t, k :| Backed(s, x.log, x.commit, x.term, t, k);
    var w, l :| Backed(s, y.log, y.commit, y.term, w, l);
    if t <= w {
      LeaderCompleteness(s, t, k, w);
      ExtendsThrough(x.log, s.hist.reigns[t].log, s.hist.reigns[w].log, x.commit, k);
      u := w;
    } else {
      LeaderCompleteness(s, w, l, t);
      ExtendsThrough(y.log, s.hist.reigns[w].log, s.hist.reigns[t].log, y.commit, l);
      u := t;
    }
  }

  lemma SameBase(log: seq<Entry>, other: seq<Entry>, base: seq<Entry>, c: nat, d: nat, i: nat)
    requires Extends(log, base, c) && Extends(other, base, d) && i < c && i < d
    ensures log[i] == other[i]
  {
    assert log[i] == log[..c][i] == base[..c][i];
    assert other[i] == other[..d][i] == base[..d][i];
  }

  /** State Machine Safety: in every honest run, commit indexes stay inside the logs and no two nodes
      have committed different entries at one index. */
  lemma StateMachineSafety(members: set<nat>, events: seq<Event>)
    requires HonestRun(Init(members), events)
    ensures ValidRun(Init(members), events)
    ensures var s := After(Init(members), events);
            CommitsAgree(s) && forall n :: n in s.nodes ==> s.nodes[n].commit <= |s.nodes[n].log|
  {
    InitOk(members);
    InitSafe(members);
    HonestRunKeeps(Init(members), events);
    var s := After(Init(members), events);
    forall n | n in s.nodes ensures s.nodes[n].commit <= |s.nodes[n].log| {
      CommittedInLog(s, s.nodes[n].log, s.nodes[n].commit, s.nodes[n].term);
    }
    forall a, b, i | a in s.nodes && b in s.nodes && 0 <= i < s.nodes[a].commit <= |s.nodes[a].log|
                     && i < s.nodes[b].commit <= |s.nodes[b].log|
      ensures s.nodes[a].log[i] == s.nodes[b].log[i]
    {
      var u := CommonLeader(s, a, b);
      SameBase(s.nodes[a].log, s.nodes[b].log, s.hist.reigns[u].log, s.nodes[a].commit, s.nodes[b].commit, i);
    }
  }

  /** A node's committed entries stay. */
  lemma AcceptedKeepsCommitted(s: System, n: nat, msg: Msg)
    requires Inv(s) && Safe(s) && Accepting(s, n, msg)
    ensures Extends(Merge(s.nodes[n].log, msg.req.entries), s.nodes[n].log, s.nodes[n].commit)
  {
    var req, x := msg.req, s.nodes[n];
    var leaderLog := s.hist.reigns[req.term].log;
    var merged := Merge(x.log, req.entries);
    AcceptedAgrees(s, n, msg);
    MergeQuoted(x.log, leaderLog, req.prevIndex, Covered(req), s.hist.reigns);
    CommittedUnderLeader(s, x.log, x.commit, x.term);
    MergeKeepsShared(x.log, leaderLog, req.prevIndex, Covered(req), x.commit);
    if merged != x.log { PrefixOfPrefix(merged, leaderLog, x.commit, Covered(req)); }
  }

  /** The commit index does not fall and the entries below it stay. */
  ghost predicate Retains(x: Node, y: Node) {
    x.commit <= y.commit && Extends(y.log, x.log, x.commit)
  }

  lemma HandleAppendShape(x: Node, req: AppendRequest)
    ensures var m, y := AdoptLeader(x, req.term), HandleAppend(x, req).0;
            && m.log == x.log && m.commit == x.commit && x.commit <= y.commit
            && (y.log == x.log || (Accepts(x, req) && y.log == Merge(x.log, req.entries)))
  {
    if Accepts(x, req) { AcceptedShape(x, req); }
  }

  lemma AppendReqRetains(s: System, n: nat, msg: Msg)
    requires Inv(s) && Safe(s) && n in s.nodes && msg in s.net && msg.AppendReq? && msg.to == n
    ensures Retains(s.nodes[n], HandleAppend(s.nodes[n], msg.req).0)
  {
    var req, x := msg.req, s.nodes[n];
    var m, y := AdoptLeader(x, req.term), HandleAppend(x, req).0;
    CommittedInLog(s, x.log, x.commit, x.term);
    HandleAppendShape(x, req);
    if y.log != x.log {
      AdoptLeaderKeeps(s, n, req.term);
      AdoptLeaderSafe(s, n, req.term);
      assert MsgOk(s.nodes, s.hist, msg);
      assert Accepting(Put(s, n, m), n, msg);
      AcceptedKeepsCommitted(Put(s, n, m), n, msg);
    }
  }

  lemma OtherStepsRetain(s: System, e: Event, n: nat)
    requires Enabled(s, e) && n in s.nodes && s.nodes[n].commit <= |s.nodes[n].log|
    ensures n in Next(s, e).nodes
    ensures e.DeliverAppendReq? && e.n == n ==> Next(s, e).nodes[n] == HandleAppend(s.nodes[n], e.msg.req).0
    ensures !(e.DeliverAppendReq? && e.n == n) ==> Retains(s.nodes[n], Next(s, e).nodes[n])
  {
  }

  /** Durability: no step of an honest run lowers a commit index or touches a committed entry, not
      even a restart or a change of leader. */
  lemma CommittedStays(members: set<nat>, events: seq<Event>, e: Event, n: nat)
    requires HonestRun(Init(members), events) && ValidRun(Init(members), events)
    requires Enabled(After(Init(members), events), e) && n in After(Init(members), events).nodes
    ensures var s := After(Init(members), events);
            n in Next(s, e).nodes && Retains(s.nodes[n], Next(s, e).nodes[n])
  {
    InitOk(members);
    InitSafe(members);
    HonestRunKeeps(Init(members), events);
    var s := After(Init(members), events);
    CommittedInLog(s, s.nodes[n].log, s.nodes[n].commit, s.nodes[n].term);
    OtherStepsRetain(s, e, n);
    if e.DeliverAppendReq? && e.n == n {
      AppendReqRetains(s, n, e.msg);
    }
  }
}
