/** The replicated cluster metadata (crates/aiondb-ha/src/raft_control_plane.rs): the fold of a log. */
module RaftMetadata {
  import opened RaftLogs
  import opened RaftNodes

  datatype ControlState = ControlState(
    members: map<nat, string>,
    assignments: map<(nat, nat), nat>,
    config: map<string, string>,
    appliedIndex: nat)

  const EMPTY := ControlState(map[], map[], map[], 0)

  function ApplyCommand(st: ControlState, command: Command): ControlState {
    match command
    case Noop => st
    case AddNode(id, address) => st.(members := st.members[id := address])
    case RemoveNode(id) =>
      st.(members := st.members - {id},
          assignments := map k | k in st.assignments && st.assignments[k] != id :: st.assignments[k])
    case AssignShard(table, shard, id) => st.(assignments := st.assignments[(table, shard) := id])
    case TransferShard(table, shard, _, to) =>
      if (table, shard) in st.assignments then st.(assignments := st.assignments[(table, shard) := to]) else st
    case UpdateConfig(key, value) => st.(config := st.config[key := value])
    case KvWrite(_, _) => st
  }

  function ApplyEntry(st: ControlState, e: Entry): ControlState {
    var applied := ApplyCommand(st, e.command);
    applied.(appliedIndex := Max(applied.appliedIndex, e.index))
  }

  function ApplyAll(st: ControlState, entries: seq<Entry>): ControlState {
    if entries == [] then st else ApplyEntry(ApplyAll(st, entries[..|entries| - 1]), entries[|entries| - 1])
  }

  lemma {:induction false} ApplyAllAppend(st: ControlState, a: seq<Entry>, b: seq<Entry>)
    ensures ApplyAll(st, a + b) == ApplyAll(ApplyAll(st, a), b)
    decreases |b|
  {
    if b == [] {
      assert a + b == a;
    } else {
      var c := b[..|b| - 1];
      assert (a + b)[..|a + b| - 1] == a + c;
      ApplyAllAppend(st, a, c);
    }
  }

  /** Folding the first k entries of a log leaves k as the applied index. */
  lemma {:induction false} AppliedIndexIs(log: seq<Entry>, k: nat)
    requires WellNumbered(log) && k <= |log|
    ensures ApplyAll(EMPTY, log[..k]).appliedIndex == k
  {
    if k > 0 {
      AppliedIndexIs(log, k - 1);
      assert log[..k][..k - 1] == log[..k - 1];
    }
  }
}
