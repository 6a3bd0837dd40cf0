/** What the metadata holds, read off the positions of the commands in the log
    (crates/aiondb-ha/src/raft_control_plane.rs). */
module RaftHistory {
  import opened RaftLogs
  import opened RaftMetadata

  type Shard = (nat, nat)

  // ----- members and configuration -----

  /** The last word on a member is that it was added, with this address. */
  ghost predicate Joined(log: seq<Entry>, n: nat, id: nat, address: string)
    requires n <= |log|
  {
    exists i :: 0 <= i < n && log[i].command == AddNode(id, address) && Undisturbed(log, i + 1, n, id)
  }

  /** No command between two positions adds or removes the member. */
  ghost predicate Undisturbed(log: seq<Entry>, from: nat, to: nat, id: nat)
    requires to <= |log|
  {
    forall j :: from <= j < to ==>
      !(log[j].command.AddNode? && log[j].command.nodeId == id) && log[j].command != RemoveNode(id)
  }

  /** The last value given to a configuration key. */
  ghost predicate Configured(log: seq<Entry>, n: nat, key: string, value: string)
    requires n <= |log|
  {
    exists i :: 0 <= i < n && log[i].command == UpdateConfig(key, value) && Unset(log, i + 1, n, key)
  }

  ghost predicate Unset(log: seq<Entry>, from: nat, to: nat, key: string)
    requires to <= |log|
  {
    forall j :: from <= j < to ==> !(log[j].command.UpdateConfig? && log[j].command.key == key)
  }

  // ----- shards -----

  predicate Assigns(c: Command, shard: Shard) { c.AssignShard? && (c.tableId, c.shardId) == shard }

  predicate Transfers(c: Command, shard: Shard) { c.TransferShard? && (c.tableId, c.shardId) == shard }

  /** Who has a shard assigned at position a: the last node it was transferred to since, or the one it was assigned
      to. */
  function Holder(log: seq<Entry>, a: nat, n: nat, shard: Shard): nat
    requires a < n <= |log| && Assigns(log[a].command, shard)
  {
    if n == a + 1 then log[a].command.nodeId
    else if Transfers(log[n - 1].command, shard) then log[n - 1].command.toNode
    else Holder(log, a, n - 1, shard)
  }

  /** Position a is the shard's last assignment, and since then none of its holders was removed while it had it. */
  ghost predicate Kept(log: seq<Entry>, a: nat, n: nat, shard: Shard)
    requires n <= |log|
  {
    && a < n && Assigns(log[a].command, shard)
    && forall j :: a < j < n ==>
         !Assigns(log[j].command, shard) && log[j].command != RemoveNode(Holder(log, a, j, shard))
  }

  ghost predicate On(log: seq<Entry>, n: nat, shard: Shard, node: nat)
    requires n <= |log|
  {
    exists a :: Kept(log, a, n, shard) && Holder(log, a, n, shard) == node
  }

  // ----- one command more -----

  lemma JoinedStep(log: seq<Entry>, n: nat, id: nat, address: string)
    requires n < |log|
    ensures Joined(log, n + 1, id, address) <==>
              || log[n].command == AddNode(id, address)
              || (Joined(log, n, id, address) && Undisturbed(log, n, n + 1, id))
  {
    if Joined(log, n, id, address) && Undisturbed(log, n, n + 1, id) {
      var i :| 0 <= i < n && log[i].command == AddNode(id, address) && Undisturbed(log, i + 1, n, id);
      assert Undisturbed(log, i + 1, n + 1, id);
    }
    if log[n].command == AddNode(id, address) { assert Undisturbed(log, n + 1, n + 1, id); }
    if Joined(log, n + 1, id, address) && log[n].command != AddNode(id, address) {
      var i :| 0 <= i < n + 1 && log[i].command == AddNode(id, address) && Undisturbed(log, i + 1, n + 1, id);
      assert Undisturbed(log, i + 1, n, id);
    }
  }

  lemma ConfiguredStep(log: seq<Entry>, n: nat, key: string, value: string)
    requires n < |log|
    ensures Configured(log, n + 1, key, value) <==>
              || log[n].command == UpdateConfig(key, value)
              || (Configured(log, n, key, value) && Unset(log, n, n + 1, key))
  {
    if Configured(log, n, key, value) && Unset(log, n, n + 1, key) {
      var i :| 0 <= i < n && log[i].command == UpdateConfig(key, value) && Unset(log, i + 1, n, key);
      assert Unset(log, i + 1, n + 1, key);
    }
    if log[n].command == UpdateConfig(key, value) { assert Unset(log, n + 1, n + 1, key); }
    if Configured(log, n + 1, key, value) && log[n].command != UpdateConfig(key, value) {
      var i :| 0 <= i < n + 1 && log[i].command == UpdateConfig(key, value) && Unset(log, i + 1, n + 1, key);
      assert Unset(log, i + 1, n, key);
    }
  }

  lemma KeptStep(log: seq<Entry>, a: nat, n: nat, shard: Shard)
    requires n < |log|
    ensures a < n ==>
              (Kept(log, a, n + 1, shard) <==>
                 && Kept(log, a, n, shard) && !Assigns(log[n].command, shard)
                 && log[n].command != RemoveNode(Holder(log, a, n, shard)))
    ensures Kept(log, n, n + 1, shard) <==> Assigns(log[n].command, shard)
  {
  }

  /** What a command makes of a shard's place. */
  ghost predicate Next(log: seq<Entry>, n: nat, shard: Shard, node: nat)
    requires n < |log|
  {
    var c := log[n].command;
    if Assigns(c, shard) then c.nodeId == node
    else if Transfers(c, shard) then c.toNode == node && exists holder: nat :: On(log, n, shard, holder)
    else On(log, n, shard, node) && c != RemoveNode(node)
  }

  lemma OnStep(log: seq<Entry>, n: nat, shard: Shard, node: nat)
    requires n < |log|
    ensures On(log, n + 1, shard, node) <==> Next(log, n, shard, node)
  {
    if On(log, n + 1, shard, node) {
      var a: nat :| Kept(log, a, n + 1, shard) && Holder(log, a, n + 1, shard) == node;
      KeptStep(log, a, n, shard);
      if a < n { assert On(log, n, shard, Holder(log, a, n, shard)); }
    }
    if Next(log, n, shard, node) {
      var c := log[n].command;
      if Assigns(c, shard) {
        KeptStep(log, n, n, shard);
        assert Holder(log, n, n + 1, shard) == node;
      } else {
        var holder: nat :| On(log, n, shard, holder) && (Transfers(c, shard) || holder == node);
        var a: nat :| Kept(log, a, n, shard) && Holder(log, a, n, shard) == holder;
        KeptStep(log, a, n, shard);
        assert Holder(log, a, n + 1, shard) == node;
      }
    }
  }

  // ----- the metadata -----

  ghost predicate Has<K, V>(m: map<K, V>, k: K, v: V) { k in m && m[k] == v }

  lemma Prefix(log: seq<Entry>, n: nat)
    requires n < |log|
    ensures ApplyAll(EMPTY, log[..n + 1]) == ApplyEntry(ApplyAll(EMPTY, log[..n]), log[n])
  {
    assert log[..n + 1][..n] == log[..n];
  }

  /** A member has exactly the address of the last AddNode of it, unless it was removed since. */
  lemma {:induction false} MembersAre(log: seq<Entry>, n: nat, id: nat, address: string)
    requires n <= |log|
    ensures Has(ApplyAll(EMPTY, log[..n]).members, id, address) <==> Joined(log, n, id, address)
  {
    if n == 0 {
      assert log[..0] == [];
    } else {
      MembersAre(log, n - 1, id, address);
      Prefix(log, n - 1);
      JoinedStep(log, n - 1, id, address);
    }
  }

  /** A configuration key has exactly the value of the last UpdateConfig of it. */
  lemma {:induction false} ConfigIs(log: seq<Entry>, n: nat, key: string, value: string)
    requires n <= |log|
    ensures Has(ApplyAll(EMPTY, log[..n]).config, key, value) <==> Configured(log, n, key, value)
  {
    if n == 0 {
      assert log[..0] == [];
    } else {
      ConfigIs(log, n - 1, key, value);
      Prefix(log, n - 1);
      ConfiguredStep(log, n - 1, key, value);
    }
  }

  lemma AssignmentStep(st: ControlState, c: Command, shard: Shard, node: nat)
    ensures Has(ApplyCommand(st, c).assignments, shard, node) <==>
              if Assigns(c, shard) then c.nodeId == node
              else if Transfers(c, shard) then c.toNode == node && shard in st.assignments
              else Has(st.assignments, shard, node) && c != RemoveNode(node)
  {
  }

  /** A shard is assigned to a node exactly when the node was the last to get it, by its last assignment or a transfer
      since, and neither it nor a holder before it was removed while it had the shard. */
  lemma {:induction false} AssignmentsAre(log: seq<Entry>, n: nat, shard: Shard, node: nat)
    requires n <= |log|
    ensures Has(ApplyAll(EMPTY, log[..n]).assignments, shard, node) <==> On(log, n, shard, node)
    decreases n, 0
  {
    if n == 0 {
      assert log[..0] == [];
    } else {
      var st := ApplyAll(EMPTY, log[..n - 1]);
      AssignmentsAre(log, n - 1, shard, node);
      AssignedIsOn(log, n - 1, shard);
      Prefix(log, n - 1);
      AssignmentStep(st, log[n - 1].command, shard, node);
      OnStep(log, n - 1, shard, node);
    }
  }

  lemma {:induction false} AssignedIsOn(log: seq<Entry>, n: nat, shard: Shard)
    requires n <= |log|
    ensures shard in ApplyAll(EMPTY, log[..n]).assignments <==> exists holder: nat :: On(log, n, shard, holder)
    decreases n, 1
  {
    var held := ApplyAll(EMPTY, log[..n]).assignments;
    if shard in held { AssignmentsAre(log, n, shard, held[shard]); }
    if holder: nat :| On(log, n, shard, holder) { AssignmentsAre(log, n, shard, holder); }
  }

  /** The metadata reflects the log. */
  ghost predicate Reflects(st: ControlState, log: seq<Entry>) {
    && (forall id, address :: Has(st.members, id, address) <==> Joined(log, |log|, id, address))
    && (forall key, value :: Has(st.config, key, value) <==> Configured(log, |log|, key, value))
    && (forall shard, node :: Has(st.assignments, shard, node) <==> On(log, |log|, shard, node))
  }

  /** Folding a log gives exactly the metadata its commands stand for. */
  lemma FoldReflects(log: seq<Entry>)
    ensures Reflects(ApplyAll(EMPTY, log), log)
  {
    assert log[..|log|] == log;
    forall id, address ensures Has(ApplyAll(EMPTY, log).members, id, address) <==> Joined(log, |log|, id, address) {
      MembersAre(log, |log|, id, address);
    }
    forall key, value ensures Has(ApplyAll(EMPTY, log).config, key, value) <==> Configured(log, |log|, key, value) {
      ConfigIs(log, |log|, key, value);
    }
    forall shard, node ensures Has(ApplyAll(EMPTY, log).assignments, shard, node) <==> On(log, |log|, shard, node) {
      AssignmentsAre(log, |log|, shard, node);
    }
  }
}
