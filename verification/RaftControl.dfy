/** The control plane (crates/aiondb-ha/src/raft_control_plane.rs): every replica folds the committed log into the same
    tables. */
module RaftControl {
  import opened RaftLogs
  import opened RaftNodes
  import opened RaftClusters
  import opened RaftSafety
  import opened RaftMetadata
  import opened RaftHistory

  /** Any two replicas of an honest run hold the same metadata after the same number of committed
      entries. */
  lemma ReplicasAgree(members: set<nat>, events: seq<Event>, a: nat, b: nat, k: nat)
    requires HonestRun(Init(members), events)
    ensures ValidRun(Init(members), events)
    ensures var s := After(Init(members), events);
            a in s.nodes && b in s.nodes && k <= s.nodes[a].commit && k <= s.nodes[b].commit ==>
              && k <= |s.nodes[a].log| && k <= |s.nodes[b].log|
              && ApplyAll(EMPTY, s.nodes[a].log[..k]) == ApplyAll(EMPTY, s.nodes[b].log[..k])
  {
    StateMachineSafety(members, events);
    var s := After(Init(members), events);
    if a in s.nodes && b in s.nodes && k <= s.nodes[a].commit && k <= s.nodes[b].commit {
      assert s.nodes[a].log[..k] == s.nodes[b].log[..k] by {
        forall i | 0 <= i < k ensures s.nodes[a].log[i] == s.nodes[b].log[i] { }
      }
    }
  }

  /** Folding the tail onto the fold of the head is folding the whole prefix. */
  lemma TailFolds(log: seq<Entry>, from: nat, to: nat)
    requires WellNumbered(log) && from < to <= |log|
    ensures ApplyAll(ApplyAll(EMPTY, log[..from]), log[from..to]) == ApplyAll(EMPTY, log[..to])
    ensures ApplyAll(EMPTY, log[..to]).appliedIndex == to == log[from..to][to - from - 1].index
  {
    ApplyAllAppend(EMPTY, log[..from], log[from..to]);
    assert log[..from] + log[from..to] == log[..to];
    AppliedIndexIs(log, to);
  }

  /** The control plane of one node: its tables and the Raft node it drains. */
  class ControlPlane {
    const node: RaftNode
    var state: ControlState

    constructor (node: RaftNode)
      requires node.lastApplied == 0
      ensures this.node == node && state == EMPTY
    {
      this.node := node;
      state := EMPTY;
    }

    /** The tables are the fold of the applied prefix of the log. */
    ghost predicate Valid()
      reads this, node, node.log
    {
      && WellNumbered(node.log.entries)
      && node.lastApplied <= node.commit <= |node.log.entries|
      && state == ApplyAll(EMPTY, node.log.entries[..node.lastApplied])
    }

    method ApplyCommitted() returns (applied: nat)
      requires Valid()
      modifies this, node
      ensures Valid() && node.lastApplied == node.commit == old(node.commit)
      ensures state == ApplyAll(EMPTY, node.log.entries[..node.commit])
      ensures node.State() == old(node.State()).(lastApplied := node.commit)
      ensures applied == state.appliedIndex == node.commit
      ensures Reflects(state, node.log.entries[..node.commit])
    {
      var unapplied := node.DrainCommitted();
      ghost var log, from := node.log.entries, node.lastApplied;
      UnappliedIsCommittedTail(node.State());
      AppliedIndexIs(log, from);
      FoldReflects(log[..node.commit]);
      applied := state.appliedIndex;
      if unapplied == [] {
        assert log[..from] == log[..node.commit];
        return;
      }
      TailFolds(log, from, node.commit);
      applied := ApplyEach(unapplied);
      node.Mark(applied);
    }

    /** The loop over the drained entries; the result is the index of the last of them. */
    method ApplyEach(entries: seq<Entry>) returns (last: nat)
      requires entries != []
      modifies this
      ensures state == ApplyAll(old(state), entries) && last == entries[|entries| - 1].index
    {
      last := state.appliedIndex;
      for i := 0 to |entries|
        invariant state == ApplyAll(old(state), entries[..i]) && (i > 0 ==> last == entries[i - 1].index)
      {
        assert entries[..i + 1][..i] == entries[..i];
        state := ApplyEntry(state, entries[i]);
        last := entries[i].index;
      }
      assert entries[..|entries|] == entries;
    }
  }
}
