/** One Raft node (crates/aiondb-ha/src/raft/node.rs and state.rs).

    `Node` is the node's state as a value and the functions on it say what each entry point computes;
    the class RaftNode runs the same entry points in place, with the source's loops and early
    returns, and every method is proved against its function. Writing the state file is not
    modelled: saving is taken to succeed. */
module RaftNodes {
  import opened Wrappers
  import opened RaftLogs

  datatype Role = Follower | Candidate | Leader

  /** The leader's view of one follower. */
  datatype Progress = Progress(nextIndex: nat, matchIndex: nat)

  datatype Node = Node(
    id: nat, role: Role, term: nat, votedFor: Option<nat>, log: seq<Entry>,
    commit: nat, lastApplied: nat, followers: map<nat, Progress>, clusterSize: nat)

  datatype AppendRequest = AppendRequest(
    term: nat, leaderId: nat, prevIndex: nat, prevTerm: nat, entries: seq<Entry>, leaderCommit: nat)

  datatype AppendResponse = AppendResponse(term: nat, nodeId: nat, success: bool, matchIndex: nat)

  function Min(a: nat, b: nat): nat { if a <= b then a else b }

  function Max(a: nat, b: nat): nat { if a <= b then b else a }

  // ----- role changes -----

  function AdvanceTerm(n: Node, term: nat): Node {
    if term <= n.term then n else n.(term := term, votedFor := None)
  }

  function BecomeFollower(n: Node, term: nat): Node {
    AdvanceTerm(n, term).(role := Follower, followers := map[])
  }

  function BecomeCandidate(n: Node): Result<Node> {
    if n.term < U64_MAX then
      Ok(AdvanceTerm(n, n.term + 1).(votedFor := Some(n.id), role := Candidate))
    else Err
  }

  function Crowned(n: Node, peers: set<nat>): Node {
    n.(role := Leader, followers := map p | p in peers :: Progress(LastIndex(n.log) + 1, 0))
  }

  function BecomeLeader(n: Node, peers: set<nat>): Result<Node> {
    if LastIndex(n.log) < U64_MAX then Ok(AdvanceCommit(Crowned(n, peers))) else Err
  }

  // ----- votes -----

  /** The candidate's last (term, index) is at least ours. */
  predicate UpToDate(log: seq<Entry>, candidateTerm: nat, candidateIndex: nat) {
    if candidateTerm != LastTerm(log) then candidateTerm > LastTerm(log)
    else candidateIndex >= LastIndex(log)
  }

  /** The part of `handle_vote_request` after a higher term has been adopted. */
  predicate Grants(n: Node, term: nat, candidate: nat, lastIndex: nat, lastTerm: nat) {
    && term == n.term
    && (n.votedFor.None? || n.votedFor.value == candidate)
    && UpToDate(n.log, lastTerm, lastIndex)
  }

  function AdoptTerm(n: Node, term: nat): Node {
    if term > n.term then BecomeFollower(n, term) else n
  }

  function HandleVoteRequest(n: Node, term: nat, candidate: nat, lastIndex: nat, lastTerm: nat): (Node, bool)
  {
    var m := AdoptTerm(n, term);
    if term < m.term then (m, false)
    else if Grants(m, term, candidate, lastIndex, lastTerm) then (m.(votedFor := Some(candidate)), true)
    else (m, false)
  }

  // ----- log replication, follower side -----

  function SetCommit(n: Node, index: nat): Node {
    if index > n.commit then n.(commit := index) else n
  }

  function AdoptLeader(n: Node, term: nat): Node {
    if term > n.term || (term == n.term && n.role != Follower) then BecomeFollower(n, term) else n
  }

  /** The consistency check at `prevIndex`. */
  predicate Consistent(n: Node, req: AppendRequest) {
    req.prevIndex > 0 ==> req.prevIndex <= LastIndex(n.log) && TermAt(n.log, req.prevIndex) == req.prevTerm
  }

  function Answer(n: Node, success: bool): AppendResponse {
    AppendResponse(n.term, n.id, success, LastIndex(n.log))
  }

  /** An error leaves the node with the adopted term and produces no response. */
  ghost function HandleAppend(n: Node, req: AppendRequest): (Node, Result<AppendResponse>) {
    var m := AdoptLeader(n, req.term);
    if req.term < m.term || !Consistent(m, req) then (m, Ok(Answer(m, false)))
    else
      match AppendChecked(m.log, req.prevIndex, req.entries)
      case Err => (m, Err)
      case Ok(log) =>
        var a := m.(log := log);
        var c := if req.leaderCommit > a.commit then SetCommit(a, Min(req.leaderCommit, LastIndex(log))) else a;
        (c, Ok(Answer(c, true)))
  }

  // ----- log replication, leader side -----

  function Acknowledged(n: Node, index: nat): set<nat> {
    set f | f in n.followers && n.followers[f].matchIndex >= index
  }

  /** An entry of the current term held, as far as the leader knows, by a majority. */
  predicate Replicated(n: Node, index: nat) {
    && TermAt(n.log, index) == n.term
    && |Acknowledged(n, index)| + 1 >= n.clusterSize / 2 + 1
  }

  /** The highest replicated index above `low` and up to `high`, or `low` when there is none. */
  function HighestReplicated(n: Node, low: nat, high: nat): (r: nat)
    ensures r == low || (low < r <= high && Replicated(n, r))
    ensures forall k :: r < k <= high && low < k ==> !Replicated(n, k)
    decreases high
  {
    if high <= low then low
    else if Replicated(n, high) then high
    else HighestReplicated(n, low, high - 1)
  }

  function AdvanceCommit(n: Node): Node {
    n.(commit := HighestReplicated(n, n.commit, LastIndex(n.log)))
  }

  /** An entry of the node's own term that more than half of the nodes have, as far as the node knows. */
  ghost predicate HasMajority(n: Node, k: nat) {
    TermAt(n.log, k) == n.term && 2 * (|set f | f in n.followers && n.followers[f].matchIndex >= k| + 1) > n.clusterSize
  }

  /** The commit index went from `before` to the highest index with a majority, if there is a higher one. */
  ghost predicate Advanced(n: Node, before: nat) {
    && (n.commit == before || (before < n.commit <= LastIndex(n.log) && HasMajority(n, n.commit)))
    && forall k :: n.commit < k <= LastIndex(n.log) ==> !HasMajority(n, k)
  }

  lemma MajorityIsReplicated(n: Node, k: nat)
    ensures HasMajority(n, k) <==> Replicated(n, k)
  {
    assert (set f | f in n.followers && n.followers[f].matchIndex >= k) == Acknowledged(n, k);
  }

  lemma CommitAdvances(n: Node)
    ensures Advanced(AdvanceCommit(n), n.commit)
  {
    var m := AdvanceCommit(n);
    forall k: nat ensures HasMajority(m, k) <==> Replicated(n, k) {
      MajorityIsReplicated(m, k);
      assert Acknowledged(m, k) == Acknowledged(n, k);
    }
  }

  /** Only moves `matchIndex` forward; a next index past the 64-bit limit is an error. */
  function RecordMatch(n: Node, follower: nat, index: nat): Result<Node>
    requires follower in n.followers
  {
    if index <= n.followers[follower].matchIndex then Ok(n)
    else if index < U64_MAX then Ok(n.(followers := n.followers[follower := Progress(index + 1, index)]))
    else Err
  }

  function Backtrack(p: Progress): Progress {
    Progress(Max(if p.nextIndex > 0 then p.nextIndex - 1 else 0, 1), p.matchIndex)
  }

  function HandleResponse(n: Node, resp: AppendResponse): Result<Node> {
    if resp.term > n.term then Ok(BecomeFollower(n, resp.term))
    else if n.role != Leader || resp.nodeId !in n.followers then Ok(n)
    else if resp.success then
      match RecordMatch(n, resp.nodeId, resp.matchIndex)
      case Ok(m) => Ok(AdvanceCommit(m))
      case Err => Err
    else Ok(n.(followers := n.followers[resp.nodeId := Backtrack(n.followers[resp.nodeId])]))
  }

  function RequestFor(n: Node, p: Progress): AppendRequest {
    var prev := if p.nextIndex > 0 then p.nextIndex - 1 else 0;
    AppendRequest(n.term, n.id, prev, TermAt(n.log, prev), EntriesFrom(n.log, p.nextIndex), n.commit)
  }

  /** A request for what follows the next index, with the entry before it to compare. */
  ghost predicate Asks(n: Node, next: nat, req: AppendRequest)
    requires 1 <= next <= |n.log| + 1
  {
    && req.term == n.term && req.leaderId == n.id && req.leaderCommit == n.commit
    && req.prevIndex == next - 1 && req.entries == n.log[next - 1..]
    && req.prevTerm == if next == 1 then 0 else n.log[next - 2].term
  }

  lemma RequestAsks(n: Node, p: Progress)
    requires WellNumbered(n.log) && 1 <= p.nextIndex <= |n.log| + 1
    ensures Asks(n, p.nextIndex, RequestFor(n, p))
  {
    WellNumberedReads(n.log, p.nextIndex);
    WellNumberedReads(n.log, p.nextIndex - 1);
  }

  function BuildRequests(n: Node): map<nat, AppendRequest> {
    if n.role != Leader then map[] else map f | f in n.followers :: RequestFor(n, n.followers[f])
  }

  function Extended(n: Node, command: Command): Result<Node> {
    match Append(n.log, n.term, command)
    case Ok(log) => Ok(n.(log := log))
    case Err => Err
  }

  function Propose(n: Node, command: Command): Result<Node> {
    if n.role != Leader then Err
    else
      match Extended(n, command)
      case Ok(m) => Ok(AdvanceCommit(m))
      case Err => Err
  }

  // ----- applying -----

  function Unapplied(n: Node): seq<Entry> {
    if n.lastApplied + 1 > n.commit then []
    else KeepUpTo(EntriesFrom(n.log, n.lastApplied + 1), n.commit)
  }

  function KeepUpTo(entries: seq<Entry>, last: nat): seq<Entry> {
    if entries == [] then []
    else (if entries[0].index <= last then [entries[0]] else []) + KeepUpTo(entries[1..], last)
  }

  function MarkApplied(n: Node, index: nat): Node {
    if index > n.lastApplied then n.(lastApplied := index) else n
  }

  /** What survives a restart: `open` reloads term, vote, commit index and log. */
  function Reopened(n: Node): Node {
    n.(role := Follower, followers := map[], lastApplied := 0)
  }

  /** Draining the unapplied entries hands out exactly the committed entries past the last applied. */
  lemma {:induction false} UnappliedIsCommittedTail(n: Node)
    requires WellNumbered(n.log) && n.commit <= |n.log|
    ensures Unapplied(n) == if n.lastApplied <= n.commit then n.log[n.lastApplied..n.commit] else []
  {
    WellNumberedReads(n.log, n.lastApplied + 1);
    if n.lastApplied < n.commit {
      KeepUpToTail(n.log, n.lastApplied, n.commit);
    } else if n.lastApplied == n.commit {
      assert n.log[n.lastApplied..n.commit] == [];
    }
  }

  lemma {:induction false} KeepUpToTail(log: seq<Entry>, from: nat, last: nat)
    requires WellNumbered(log) && from <= |log| && last <= |log|
    ensures KeepUpTo(log[from..], last) == if from <= last then log[from..last] else []
    decreases |log| - from
  {
    if from < |log| {
      KeepUpToTail(log, from + 1, last);
      assert log[from..][0] == log[from] && log[from..][1..] == log[from + 1..];
      if from < last {
        assert log[from..last] == [log[from]] + log[from + 1..last];
      } else if from == last {
        assert log[from..last] == [];
      }
    }
  }

  method FilterUpTo(entries: seq<Entry>, last: nat) returns (r: seq<Entry>)
    ensures r == KeepUpTo(entries, last)
  {
    r := [];
    for i := 0 to |entries|
      invariant r + KeepUpTo(entries[i..], last) == KeepUpTo(entries, last)
    {
      assert entries[i..][1..] == entries[i + 1..];
      if entries[i].index <= last {
        r := r + [entries[i]];
      }
    }
  }

  /** The node object. */
  class RaftNode {
    const id: nat
    const clusterSize: nat
    const log: RaftLog
    var role: Role
    var term: nat
    var votedFor: Option<nat>
    var commit: nat
    var lastApplied: nat
    var followers: map<nat, Progress>

    ghost function State(): Node
      reads this, log
    {
      Node(id, role, term, votedFor, log.entries, commit, lastApplied, followers, clusterSize)
    }

    /** `open` on reloaded state; the caller has checked that the commit index is inside the log. */
    constructor (id: nat, clusterSize: nat, term: nat, votedFor: Option<nat>, commit: nat, entries: seq<Entry>)
      ensures fresh(log)
      ensures State() == Node(id, Follower, term, votedFor, entries, commit, 0, map[], clusterSize)
    {
      this.id, this.clusterSize := id, clusterSize;
      log := new RaftLog(entries);
      role, this.term, this.votedFor := Follower, term, votedFor;
      this.commit, lastApplied, followers := commit, 0, map[];
    }

    method StepDown(newTerm: nat)
      modifies this
      ensures State() == BecomeFollower(old(State()), newTerm)
      ensures term == Max(old(term), newTerm) && votedFor == (if newTerm > old(term) then None else old(votedFor))
      ensures role == Follower && followers == map[] && unchanged(log)
      ensures commit == old(commit) && lastApplied == old(lastApplied)
    {
      if newTerm > term {
        term, votedFor := newTerm, None;
      }
      role, followers := Follower, map[];
    }

    method StartElection() returns (r: Result<nat>)
      modifies this
      ensures r.Ok? <==> BecomeCandidate(old(State())).Ok?
      ensures r.Ok? ==> State() == BecomeCandidate(old(State())).value && r.value == term
      ensures r.Err? ==> State() == old(State())
      ensures r.Ok? <==> old(term) < U64_MAX
      ensures r.Ok? ==> term == old(term) + 1 && votedFor == Some(id) && role == Candidate
      ensures unchanged(log) && commit == old(commit) && lastApplied == old(lastApplied) && followers == old(followers)
    {
      if term >= U64_MAX {
        return Err;
      }
      term, votedFor := term + 1, None;
      votedFor := Some(id);
      role := Candidate;
      return Ok(term);
    }

    method HandleVote(candidateTerm: nat, candidate: nat, lastIndex: nat, lastTerm: nat)
      returns (granted: bool, ourTerm: nat)
      modifies this
      ensures (State(), granted) == HandleVoteRequest(old(State()), candidateTerm, candidate, lastIndex, lastTerm)
      ensures ourTerm == term == Max(old(term), candidateTerm)
      ensures granted <==>
                && old(term) <= candidateTerm
                && (old(term) < candidateTerm || old(votedFor) == None || old(votedFor) == Some(candidate))
                && (lastTerm > LastTerm(log.entries)
                    || (lastTerm == LastTerm(log.entries) && lastIndex >= LastIndex(log.entries)))
      ensures votedFor == if granted then Some(candidate) else if old(term) < candidateTerm then None else old(votedFor)
      ensures role == (if old(term) < candidateTerm then Follower else old(role))
      ensures unchanged(log) && commit == old(commit) && lastApplied == old(lastApplied)
    {
      if candidateTerm > term {
        StepDown(candidateTerm);
      }
      if candidateTerm < term {
        return false, term;
      }
      if votedFor.Some? && votedFor.value != candidate {
        return false, term;
      }
      if !UpToDate(log.entries, lastTerm, lastIndex) {
        return false, term;
      }
      votedFor := Some(candidate);
      return true, term;
    }

    method HandleAppendEntries(req: AppendRequest) returns (r: Result<AppendResponse>)
      modifies this, log
      ensures (State(), r) == HandleAppend(old(State()), req)
      ensures term == Max(old(term), req.term)
      ensures votedFor == (if old(term) < req.term then None else old(votedFor))
      ensures role == (if old(term) <= req.term then Follower else old(role))
      ensures lastApplied == old(lastApplied)
      ensures r.Ok? && r.value.success <==>
                && old(term) <= req.term
                && (req.prevIndex == 0
                    || (&& req.prevIndex <= LastIndex(old(log.entries))
                        && TermAt(old(log.entries), req.prevIndex) == req.prevTerm))
                && (req.entries == [] || Contiguous(req.entries, req.prevIndex + 1))
      ensures r.Ok? && r.value.success ==>
                && log.entries == Merge(old(log.entries), req.entries)
                && commit == Max(old(commit), Min(req.leaderCommit, LastIndex(log.entries)))
      ensures !(r.Ok? && r.value.success) ==> log.entries == old(log.entries) && commit == old(commit)
      ensures r.Ok? ==> r.value.term == term && r.value.nodeId == id && r.value.matchIndex == LastIndex(log.entries)
    {
      if req.term > term || (req.term == term && role != Follower) {
        StepDown(req.term);
      }
      if req.term < term {
        return Ok(AppendResponse(term, id, false, LastIndex(log.entries)));
      }
      if req.prevIndex > 0 {
        if req.prevIndex > LastIndex(log.entries) {
          return Ok(AppendResponse(term, id, false, LastIndex(log.entries)));
        }
        if TermAt(log.entries, req.prevIndex) != req.prevTerm {
          return Ok(AppendResponse(term, id, false, LastIndex(log.entries)));
        }
      }
      if req.entries != [] {
        var appended := log.AppendEntriesChecked(req.prevIndex, req.entries);
        if appended.Err? {
          return Err;
        }
      }
      if req.leaderCommit > commit {
        var newCommit := Min(req.leaderCommit, LastIndex(log.entries));
        if newCommit > commit {
          commit := newCommit;
        }
      }
      return Ok(AppendResponse(term, id, true, LastIndex(log.entries)));
    }

    /** Walks upwards over the uncommitted indexes and keeps the last one that qualifies. */
    method TryAdvanceCommit()
      modifies this
      ensures State() == AdvanceCommit(old(State()))
      ensures Advanced(State(), old(commit))
    {
      CommitAdvances(State());
      var last := LastIndex(log.entries);
      if commit >= last {
        return;
      }
      ghost var before := State();
      var start := commit + 1;
      for n := start to last + 1
        invariant log.entries == before.log
        invariant State() == before.(commit := HighestReplicated(before, before.commit, n - 1))
      {
        if TermAt(log.entries, n) != term {
          continue;
        }
        var holders := set f | f in followers && followers[f].matchIndex >= n;
        assert holders == Acknowledged(before, n);
        if |holders| + 1 >= clusterSize / 2 + 1 && n > commit {
          commit := n;
        }
      }
    }

    method Promote(peers: set<nat>) returns (r: Result<()>)
      modifies this
      ensures r.Ok? <==> BecomeLeader(old(State()), peers).Ok?
      ensures r.Ok? ==> State() == BecomeLeader(old(State()), peers).value
      ensures r.Err? ==> State() == old(State())
      ensures r.Ok? <==> LastIndex(log.entries) < U64_MAX
      ensures r.Ok? ==> role == Leader && followers.Keys == peers && Advanced(State(), old(commit))
      ensures r.Ok? ==> forall p :: p in peers ==> followers[p] == Progress(LastIndex(log.entries) + 1, 0)
      ensures unchanged(log) && term == old(term) && votedFor == old(votedFor) && lastApplied == old(lastApplied)
    {
      var next := NextIndex(LastIndex(log.entries));
      if next.Err? {
        return Err;
      }
      role, followers := Leader, map p | p in peers :: Progress(next.value, 0);
      TryAdvanceCommit();
      return Ok(());
    }

    method HandleAppendResponse(resp: AppendResponse) returns (r: Result<()>)
      modifies this
      ensures r.Ok? <==> HandleResponse(old(State()), resp).Ok?
      ensures r.Ok? ==> State() == HandleResponse(old(State()), resp).value
      ensures r.Err? ==> State() == old(State())
      ensures resp.term > old(term) ==> term == resp.term && votedFor == None && role == Follower && followers == map[]
      ensures resp.term <= old(term) ==> term == old(term) && votedFor == old(votedFor) && role == old(role)
      ensures resp.term <= old(term) && (old(role) != Leader || resp.nodeId !in old(followers)) ==>
                State() == old(State())
      ensures resp.term <= old(term) && old(role) == Leader && resp.nodeId in old(followers) ==>
                var p := old(followers)[resp.nodeId];
                && (r.Err? <==> resp.success && resp.matchIndex > p.matchIndex && resp.matchIndex >= U64_MAX)
                && (r.Ok? ==>
                      && followers.Keys == old(followers).Keys && (resp.success ==> Advanced(State(), old(commit)))
                      && (forall f :: f in followers && f != resp.nodeId ==> followers[f] == old(followers)[f])
                      && followers[resp.nodeId] ==
                         if !resp.success then Progress(if p.nextIndex > 2 then p.nextIndex - 1 else 1, p.matchIndex)
                         else if resp.matchIndex > p.matchIndex then Progress(resp.matchIndex + 1, resp.matchIndex)
                         else p)
      ensures !resp.success ==> commit == old(commit)
      ensures unchanged(log) && lastApplied == old(lastApplied)
    {
      if resp.term > term {
        StepDown(resp.term);
        return Ok(());
      }
      if role != Leader || resp.nodeId !in followers {
        return Ok(());
      }
      var p := followers[resp.nodeId];
      if resp.success {
        if resp.matchIndex > p.matchIndex {
          var next := NextIndex(resp.matchIndex);
          if next.Err? {
            return Err;
          }
          followers := followers[resp.nodeId := Progress(next.value, resp.matchIndex)];
        }
        TryAdvanceCommit();
      } else {
        var lower := if p.nextIndex > 0 then p.nextIndex - 1 else 0;
        followers := followers[resp.nodeId := Progress(Max(lower, 1), p.matchIndex)];
      }
      return Ok(());
    }

    /** One request for each follower: what follows its next index, and the entry before that to compare. */
    method BuildAppendRequests() returns (r: map<nat, AppendRequest>)
      ensures r == BuildRequests(State())
      ensures role != Leader ==> r == map[]
      ensures role == Leader ==> r.Keys == followers.Keys
      ensures forall f :: f in r && WellNumbered(log.entries) && 1 <= followers[f].nextIndex <= |log.entries| + 1 ==>
                Asks(State(), followers[f].nextIndex, r[f])
    {
      r := map[];
      if role != Leader {
        return;
      }
      ghost var n := State();
      var left := followers.Keys;
      while left != {}
        invariant left <= followers.Keys && r.Keys == followers.Keys - left
        invariant forall f :: f in r ==> r[f] == RequestFor(n, n.followers[f])
      {
        var f :| f in left;
        var p := followers[f];
        var prev := if p.nextIndex > 0 then p.nextIndex - 1 else 0;
        var entries := EntriesFrom(log.entries, p.nextIndex);
        r := r[f := AppendRequest(term, id, prev, TermAt(log.entries, prev), entries, commit)];
        left := left - {f};
      }
      forall f | f in r && WellNumbered(n.log) && 1 <= followers[f].nextIndex <= |n.log| + 1
        ensures Asks(n, followers[f].nextIndex, r[f])
      {
        RequestAsks(n, followers[f]);
      }
    }

    method ProposeCommand(command: Command) returns (r: Result<nat>)
      modifies this, log
      ensures r.Ok? <==> Propose(old(State()), command).Ok?
      ensures r.Ok? ==> State() == Propose(old(State()), command).value && r.value == LastIndex(log.entries)
      ensures r.Err? ==> State() == old(State())
      ensures r.Ok? <==> role == Leader && LastIndex(old(log.entries)) < U64_MAX
      ensures r.Ok? ==> log.entries == old(log.entries) + [Entry(LastIndex(old(log.entries)) + 1, term, command)]
      ensures r.Ok? ==> Advanced(State(), old(commit))
      ensures role == old(role) && term == old(term) && votedFor == old(votedFor) && followers == old(followers)
    {
      if role != Leader {
        return Err;
      }
      r := log.PushNew(term, command);
      if r.Ok? {
        TryAdvanceCommit();
      }
    }

    /** `unapplied_entries`. */
    method DrainCommitted() returns (r: seq<Entry>)
      ensures r == Unapplied(State())
      ensures WellNumbered(log.entries) && lastApplied <= commit <= |log.entries| ==>
                r == log.entries[lastApplied..commit]
      ensures commit <= lastApplied ==> r == []
    {
      ghost var n := State();
      if WellNumbered(n.log) && commit <= |n.log| { UnappliedIsCommittedTail(n); }
      if lastApplied + 1 > commit {
        return [];
      }
      r := FilterUpTo(EntriesFrom(log.entries, lastApplied + 1), commit);
    }

    method Mark(index: nat)
      modifies this
      ensures State() == old(State()).(lastApplied := Max(old(lastApplied), index))
      ensures State() == MarkApplied(old(State()), index)
    {
      if index > lastApplied {
        lastApplied := index;
      }
    }
  }

  /** Starting from the saved state; a commit index past the end of the log is refused. */
  method OpenNode(id: nat, clusterSize: nat, term: nat, votedFor: Option<nat>, commit: nat, entries: seq<Entry>)
    returns (r: Result<RaftNode>)
    ensures r.Ok? <==> commit <= LastIndex(entries)
    ensures r.Ok? ==>
              && fresh(r.value)
              && r.value.State() == Node(id, Follower, term, votedFor, entries, commit, 0, map[], clusterSize)
  {
    if commit > LastIndex(entries) {
      return Err;
    }
    var node := new RaftNode(id, clusterSize, term, votedFor, commit, entries);
    return Ok(node);
  }
}
