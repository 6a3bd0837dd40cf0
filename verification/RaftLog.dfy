/** The term-indexed Raft log (crates/aiondb-ha/src/raft/log.rs).

    The value-level functions say what each log operation computes; the class RaftLog
    performs them in place, as the source does, and is proved against those functions.
    Writing the log file is not modelled: `persist` is taken to succeed. */
module RaftLogs {
  import opened Wrappers

  const U64_MAX: nat := 0xFFFF_FFFF_FFFF_FFFF

  /** The commands of crates/aiondb-ha/src/raft/state.rs. */
  datatype Command =
    | Noop
    | AddNode(nodeId: nat, address: string)
    | RemoveNode(nodeId: nat)
    | AssignShard(tableId: nat, shardId: nat, nodeId: nat)
    | TransferShard(tableId: nat, shardId: nat, fromNode: nat, toNode: nat)
    | UpdateConfig(key: string, value: string)
    | KvWrite(kvKey: seq<bv8>, kvValue: Option<seq<bv8>>)

  datatype Entry = Entry(index: nat, term: nat, command: Command)

  /** `next_log_index`: fails where the source's checked addition overflows. */
  function NextIndex(index: nat): Result<nat> {
    if index < U64_MAX then Ok(index + 1) else Err
  }

  function LastIndex(log: seq<Entry>): nat {
    if log == [] then 0 else log[|log| - 1].index
  }

  function LastTerm(log: seq<Entry>): nat {
    if log == [] then 0 else log[|log| - 1].term
  }

  function Get(log: seq<Entry>, index: nat): Option<Entry> {
    if index == 0 || log == [] then None
    else if index < log[0].index then None
    else if index - log[0].index < |log| then Some(log[index - log[0].index])
    else None
  }

  function TermAt(log: seq<Entry>, index: nat): nat {
    match Get(log, index)
    case Some(e) => e.term
    case None => 0
  }

  function EntriesFrom(log: seq<Entry>, start: nat): seq<Entry> {
    if log == [] || start == 0 then []
    else if start < log[0].index then log
    else if start - log[0].index >= |log| then []
    else log[start - log[0].index..]
  }

  function TruncateFrom(log: seq<Entry>, from: nat): seq<Entry> {
    if log == [] then log
    else if from < log[0].index then []
    else if from - log[0].index < |log| then log[..from - log[0].index]
    else log
  }

  function Append(log: seq<Entry>, term: nat, command: Command): Result<seq<Entry>> {
    match NextIndex(LastIndex(log))
    case Ok(index) => Ok(log + [Entry(index, term, command)])
    case Err => Err
  }

  /** The entries number themselves `first, first + 1, ...` without passing the 64-bit limit. */
  ghost predicate Contiguous(entries: seq<Entry>, first: nat) {
    && (forall i :: 0 <= i < |entries| ==> entries[i].index == first + i)
    && first + |entries| <= U64_MAX + 1
  }

  /** One pass of the merging loop: keep an entry of the same term, otherwise cut and push. */
  function MergeOne(log: seq<Entry>, entry: Entry): seq<Entry> {
    match Get(log, entry.index)
    case Some(existing) =>
      if existing.term == entry.term then log else TruncateFrom(log, entry.index) + [entry]
    case None => log + [entry]
  }

  function Merge(log: seq<Entry>, entries: seq<Entry>): seq<Entry>
    decreases |entries|
  {
    if entries == [] then log else Merge(MergeOne(log, entries[0]), entries[1..])
  }

  /** `append_entries_checked`, as a function of the log and the request. */
  ghost function AppendChecked(log: seq<Entry>, prev: nat, entries: seq<Entry>): Result<seq<Entry>> {
    if entries == [] then Ok(log)
    else if Contiguous(entries, prev + 1) then Ok(Merge(log, entries))
    else Err
  }

  /** A log as the protocol builds it: entry k carries index k + 1. */
  ghost predicate WellNumbered(log: seq<Entry>) {
    forall i :: 0 <= i < |log| ==> log[i].index == i + 1
  }

  lemma WellNumberedReads(log: seq<Entry>, index: nat)
    requires WellNumbered(log)
    ensures LastIndex(log) == |log|
    ensures TermAt(log, index) == if 1 <= index <= |log| then log[index - 1].term else 0
    ensures EntriesFrom(log, index) == if 1 <= index <= |log| then log[index - 1..] else []
  {
    if log != [] { assert log[0].index == 1 && log[|log| - 1].index == |log|; }
  }

  lemma MergeSnoc(log: seq<Entry>, entries: seq<Entry>, entry: Entry)
    ensures Merge(log, entries + [entry]) == MergeOne(Merge(log, entries), entry)
    decreases |entries|
  {
    if entries != [] {
      assert (entries + [entry])[0] == entries[0];
      assert (entries + [entry])[1..] == entries[1..] + [entry];
      MergeSnoc(MergeOne(log, entries[0]), entries[1..], entry);
    } else {
      assert (entries + [entry])[1..] == [];
      assert Merge(log, [entry]) == Merge(MergeOne(log, entry), []);
    }
  }

  lemma MergeOneShape(log: seq<Entry>, prev: nat, entry: Entry)
    requires WellNumbered(log) && prev <= |log| && entry.index == prev + 1
    requires prev < |log| ==> log[prev].term != entry.term
    ensures MergeOne(log, entry) == log[..prev] + [entry]
    ensures WellNumbered(log[..prev] + [entry])
  {
    if log != [] { assert log[0].index == 1; }
    if prev == |log| { assert log[..prev] == log; }
  }

  lemma {:induction false} MergeAtEnd(log: seq<Entry>, entries: seq<Entry>)
    requires WellNumbered(log)
    requires forall i :: 0 <= i < |entries| ==> entries[i].index == |log| + 1 + i
    ensures Merge(log, entries) == log + entries
    decreases |entries|
  {
    if entries == [] {
      assert log + entries == log;
    } else {
      var first, rest := entries[0], entries[1..];
      assert first.index == |log| + 1;
      MergeOneShape(log, |log|, first);
      assert log[..|log|] == log;
      var longer := log + [first];
      forall i | 0 <= i < |rest| ensures rest[i].index == |longer| + 1 + i { assert rest[i] == entries[i + 1]; }
      MergeAtEnd(longer, rest);
      assert entries == [first] + rest;
      assert longer + rest == log + entries;
    }
  }

  lemma {:induction false} MergeConflict(log: seq<Entry>, prev: nat, entries: seq<Entry>)
    requires WellNumbered(log) && prev <= |log| && entries != []
    requires forall i :: 0 <= i < |entries| ==> entries[i].index == prev + 1 + i
    requires prev < |log| ==> log[prev].term != entries[0].term
    ensures Merge(log, entries) == log[..prev] + entries
  {
    var cut := log[..prev] + [entries[0]];
    assert entries[0].index == prev + 1;
    MergeOneShape(log, prev, entries[0]);
    assert Merge(log, entries) == Merge(cut, entries[1..]);
    forall i | 0 <= i < |entries[1..]| ensures entries[1..][i].index == |cut| + 1 + i {
      assert entries[1..][i] == entries[i + 1];
    }
    MergeAtEnd(cut, entries[1..]);
    assert log[..prev] + entries == cut + entries[1..];
  }

  /** Entries number `prev + 1 ..` and the log reaches `prev`: merging keeps the log as long as the
      terms agree and, from the first disagreement on, replaces the rest by the leader's entries.
      The result names how many entries agreed. */
  lemma {:induction false} MergeShape(log: seq<Entry>, prev: nat, entries: seq<Entry>) returns (agreed: nat)
    requires WellNumbered(log) && prev <= |log|
    requires forall i :: 0 <= i < |entries| ==> entries[i].index == prev + 1 + i
    ensures agreed <= |entries|
    ensures prev + agreed <= |log|
    ensures forall i :: 0 <= i < agreed ==> log[prev + i].term == entries[i].term
    ensures agreed < |entries| && prev + agreed < |log| ==> log[prev + agreed].term != entries[agreed].term
    ensures Merge(log, entries) == if agreed == |entries| then log else log[..prev + agreed] + entries[agreed..]
    decreases |entries|
  {
    if entries == [] {
      return 0;
    }
    if prev < |log| && log[prev].term == entries[0].term {
      var rest := entries[1..];
      assert MergeOne(log, entries[0]) == log by { assert log[0].index == 1 && entries[0].index == prev + 1; }
      forall i | 0 <= i < |rest| ensures rest[i].index == prev + 1 + 1 + i { assert rest[i] == entries[i + 1]; }
      var k := MergeShape(log, prev + 1, rest);
      agreed := k + 1;
      forall i | 0 <= i < agreed ensures log[prev + i].term == entries[i].term {
        assert i > 0 ==> log[prev + 1 + (i - 1)].term == rest[i - 1].term;
      }
      assert rest[k..] == entries[agreed..];
    } else {
      MergeConflict(log, prev, entries);
      agreed := 0;
    }
  }

  /** The log object: `RaftLog` with its vector of entries. */
  class RaftLog {
    var entries: seq<Entry>

    constructor (loaded: seq<Entry>)
      ensures entries == loaded
    {
      entries := loaded;
    }

    method PushNew(term: nat, command: Command) returns (r: Result<nat>)
      modifies this
      ensures Append(old(entries), term, command).Ok? ==>
                r == Ok(LastIndex(old(entries)) + 1) && entries == Append(old(entries), term, command).value
      ensures Append(old(entries), term, command).Err? ==> r == Err && entries == old(entries)
    {
      var next := NextIndex(LastIndex(entries));
      if next.Err? {
        return Err;
      }
      entries := entries + [Entry(next.value, term, command)];
      return next;
    }

    /** Both validation loops run before the first entry is merged, so a rejected request leaves the
        log as it was. */
    method AppendEntriesChecked(prev: nat, incoming: seq<Entry>) returns (r: Result<()>)
      modifies this
      ensures r.Ok? <==> AppendChecked(old(entries), prev, incoming).Ok?
      ensures r.Ok? ==> entries == AppendChecked(old(entries), prev, incoming).value
      ensures r.Err? ==> entries == old(entries)
    {
      if incoming == [] {
        return Ok(());
      }
      var first := NextIndex(prev);
      if first.Err? || incoming[0].index != first.value {
        return Err;
      }
      for i := 0 to |incoming| - 1
        invariant forall j :: 0 <= j <= i ==> incoming[j].index == prev + 1 + j
        invariant prev + 1 + i <= U64_MAX
        invariant entries == old(entries)
      {
        var next := NextIndex(incoming[i].index);
        if next.Err? || incoming[i + 1].index != next.value {
          assert incoming[i].index == prev + 1 + i;
          return Err;
        }
      }
      assert Contiguous(incoming, prev + 1);
      for i := 0 to |incoming|
        invariant entries == Merge(old(entries), incoming[..i])
      {
        MergeSnoc(old(entries), incoming[..i], incoming[i]);
        assert incoming[..i + 1] == incoming[..i] + [incoming[i]];
        var existing := Get(entries, incoming[i].index);
        if existing.Some? {
          if existing.value.term == incoming[i].term {
            continue;
          }
          entries := TruncateFrom(entries, incoming[i].index);
        }
        entries := entries + [incoming[i]];
      }
      assert incoming[..|incoming|] == incoming;
      return Ok(());
    }
  }
}
