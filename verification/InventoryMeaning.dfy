/** What a valid inventory is, spelled out on the document, and what the generator puts into one
    (scripts/dependency_inventory.py). */
module InventoryMeaning {
  import opened Ordering
  import opened Inventory

  // ----- fields -----

  /** Python's equality of a value with a number. */
  predicate IsNumber(v: Doc, n: int) {
    v == Int(n) || v == Float(n as real) || (v == Bool(true) && n == 1) || (v == Bool(false) && n == 0)
  }

  predicate FilledStr(v: Doc) { v.Str? && |v.s| > 0 }

  const HEX := "0123456789abcdef"

  /** Nothing, or 64 small hexadecimal digits. */
  predicate ChecksumMeans(v: Doc) { v == Nil || (v.Str? && |v.s| == 64 && forall i :: 0 <= i < 64 ==> v.s[i] in HEX) }

  predicate PackageMeans(p: Doc) {
    && p.Object?
    && FilledStr(Get(p, "name")) && FilledStr(Get(p, "version")) && FilledStr(Get(p, "source"))
    && ChecksumMeans(Get(p, "checksum"))
    && var n := Get(p, "dependency_count"); n.Bool? || (n.Int? && n.n >= 0)
  }

  /** Ordered by name, then by version, then by source, by the first difference each time. */
  ghost predicate Below(p: Doc, q: Doc)
    requires PackageMeans(p) && PackageMeans(q)
  {
    var a, b := Get(p, "name").s, Get(q, "name").s;
    var v, w := Get(p, "version").s, Get(q, "version").s;
    var s, t := Get(p, "source").s, Get(q, "source").s;
    PartsBelow(a, b) || (a == b && (PartsBelow(v, w) || (v == w && PartsBelow(s, t))))
  }

  function WorkspacePlaces(ps: seq<Doc>): set<nat> {
    set i | 0 <= i < |ps| && ps[i].Object? && Get(ps[i], "source") == Str("workspace")
  }

  ghost predicate InventoryMeans(d: Doc) {
    && d.Object?
    && IsNumber(Get(d, "schema_version"), 1) && Get(d, "lockfile") == Str("Cargo.lock")
    && Get(d, "packages").Array?
    && var ps := Get(d, "packages").items;
       && |ps| > 0 && IsNumber(Get(d, "package_count"), |ps|)
       && (forall i :: 0 <= i < |ps| ==> PackageMeans(ps[i]))
       && (forall i, j :: 0 <= i < j < |ps| ==> Below(ps[i], ps[j]))
       && IsNumber(Get(d, "workspace_package_count"), |WorkspacePlaces(ps)|)
       && IsNumber(Get(d, "external_package_count"), |ps| - |WorkspacePlaces(ps)|)
  }

  // ----- the same -----

  lemma NumberIs(v: Doc, n: int)
    ensures EqualsInt(v, n) <==> IsNumber(v, n)
  {
  }

  lemma HexIs(c: char)
    ensures IsHex(c) <==> c in HEX
  {
    if IsHex(c) {
      var i := if c <= '9' then c as int - '0' as int else c as int - 'a' as int + 10;
      assert HEX[i] == c;
    }
  }

  lemma ChecksumIs(v: Doc)
    ensures ChecksumOk(v) <==> ChecksumMeans(v)
  {
    if v.Str? && |v.s| == 64 {
      forall i | 0 <= i < 64 ensures IsHex(v.s[i]) <==> v.s[i] in HEX { HexIs(v.s[i]); }
    }
  }

  lemma PackageIs(p: Doc)
    ensures PackageOk(p) <==> PackageMeans(p)
  {
    if p.Object? { ChecksumIs(Get(p, "checksum")); }
  }

  lemma AllAre(ps: seq<Doc>)
    ensures AllOk(ps) <==> forall i :: 0 <= i < |ps| ==> PackageMeans(ps[i])
  {
    forall i | 0 <= i < |ps| ensures PackageOk(ps[i]) <==> PackageMeans(ps[i]) { PackageIs(ps[i]); }
  }

  lemma BelowIs(p: Doc, q: Doc)
    requires PackageOk(p) && PackageOk(q)
    ensures PackageMeans(p) && PackageMeans(q) && (KeyLt(KeyOf(p), KeyOf(q)) <==> Below(p, q))
  {
    PackageIs(p);
    PackageIs(q);
    var a, b := KeyOf(p), KeyOf(q);
    LexLtIs(a.name, b.name);
    LexLtIs(a.version, b.version);
    LexLtIs(a.source, b.source);
  }

  lemma OrderIs(ps: seq<Doc>)
    requires AllOk(ps) && forall i :: 0 <= i < |ps| ==> PackageMeans(ps[i])
    ensures Increasing(Keys(ps)) <==> forall i, j :: 0 <= i < j < |ps| ==> Below(ps[i], ps[j])
  {
    var keys := Keys(ps);
    forall i, j | 0 <= i < j < |ps| ensures KeyLt(keys[i], keys[j]) <==> Below(ps[i], ps[j]) { BelowIs(ps[i], ps[j]); }
  }

  lemma {:induction false} CountIs(ps: seq<Doc>)
    requires AllOk(ps) && forall i :: 0 <= i < |ps| ==> PackageMeans(ps[i])
    ensures CountWorkspace(ps) == |WorkspacePlaces(ps)|
    decreases |ps|
  {
    if ps != [] {
      var n := |ps| - 1;
      var front := ps[..n];
      CountIs(front);
      var here: set<nat> := if KeyOf(ps[n]).source == WORKSPACE then {n} else {};
      assert WorkspacePlaces(ps) == WorkspacePlaces(front) + here;
      assert n !in WorkspacePlaces(front);
    } else {
      assert WorkspacePlaces(ps) == {};
    }
  }

  /** A valid inventory is what its fields say: version 1 of a Cargo.lock, well-formed packages in strictly increasing
      order, and right counts. */
  lemma ValidMeans(d: Doc)
    ensures ValidInventory(d) <==> InventoryMeans(d)
  {
    if d.Object? && Get(d, "packages").Array? {
      var ps := Get(d, "packages").items;
      NumberIs(Get(d, "schema_version"), 1);
      NumberIs(Get(d, "package_count"), |ps|);
      AllAre(ps);
      if AllOk(ps) {
        OrderIs(ps);
        CountIs(ps);
        NumberIs(Get(d, "workspace_package_count"), |WorkspacePlaces(ps)|);
        NumberIs(Get(d, "external_package_count"), |ps| - |WorkspacePlaces(ps)|);
      }
    }
  }

  // ----- what is generated -----

  /** The inventory's package for one of the lock file. */
  predicate PackageFor(p: Doc, q: Doc) {
    && p.Object? && q.Object?
    && Get(q, "name") == Get(p, "name") && Get(q, "version") == Get(p, "version")
    && Get(q, "checksum") == Get(p, "checksum")
    && Get(q, "source") == (if FilledStr(Get(p, "source")) then Get(p, "source") else Str("workspace"))
    && Get(q, "dependency_count") ==
       Int(if "dependencies" in p.fields && p.fields["dependencies"].Array? then |p.fields["dependencies"].items|
           else 0)
  }

  /** A package of a lock file that can be taken. */
  predicate LockedMeans(p: Doc) {
    && p.Object? && FilledStr(Get(p, "name")) && FilledStr(Get(p, "version"))
    && (Get(p, "source") == Nil || Get(p, "source").Str?) && ChecksumMeans(Get(p, "checksum"))
    && ("dependencies" in p.fields ==> p.fields["dependencies"].Array?)
  }

  function SourceOf(p: Doc): string
    requires LockedMeans(p)
  {
    if FilledStr(Get(p, "source")) then Get(p, "source").s else "workspace"
  }

  predicate SamePackage(p: Doc, q: Doc)
    requires LockedMeans(p) && LockedMeans(q)
  {
    Get(p, "name") == Get(q, "name") && Get(p, "version") == Get(q, "version") && SourceOf(p) == SourceOf(q)
  }

  lemma LockedIs(p: Doc)
    ensures LockedOk(p) <==> LockedMeans(p)
    ensures LockedOk(p) ==> EntryOf(p).key == Key(Get(p, "name").s, Get(p, "version").s, SourceOf(p))
  {
    if p.Object? { ChecksumIs(Get(p, "checksum")); }
  }

  /** An inventory is written exactly for a non-empty list of such packages, no two of them the same. */
  lemma LockfileMeans(list: Doc)
    ensures LockfileOk(list) <==>
              && list.Array? && |list.items| > 0
              && (forall i :: 0 <= i < |list.items| ==> LockedMeans(list.items[i]))
              && (forall i, j :: 0 <= i < j < |list.items| ==> !SamePackage(list.items[i], list.items[j]))
  {
    if list.Array? {
      var ps := list.items;
      forall i | 0 <= i < |ps|
        ensures LockedOk(ps[i]) <==> LockedMeans(ps[i])
        ensures LockedOk(ps[i]) ==>
                  EntryOf(ps[i]).key == Key(Get(ps[i], "name").s, Get(ps[i], "version").s, SourceOf(ps[i]))
      {
        LockedIs(ps[i]);
      }
      if AllLocked(ps) {
        var es := EntriesOf(ps);
        forall i, j | 0 <= i < j < |ps| ensures es[i].key == es[j].key <==> SamePackage(ps[i], ps[j]) { }
      }
    }
  }

  lemma FiveFields(a: string, b: string, c: string, d: string, e: string, v: Doc, w: Doc, x: Doc, y: Doc, z: Doc)
    requires a != b && a != c && a != d && a != e && b != c && b != d && b != e && c != d && c != e && d != e
    ensures var o := Object(map[a := v, b := w, c := x, d := y, e := z]);
            Get(o, a) == v && Get(o, b) == w && Get(o, c) == x && Get(o, d) == y && Get(o, e) == z
  {
  }

  lemma PackageNamesDiffer()
    ensures "name" != "version" && "name" != "source" && "name" != "checksum" && "name" != "dependency_count"
    ensures "version" != "source" && "version" != "checksum" && "version" != "dependency_count"
    ensures "source" != "checksum" && "source" != "dependency_count" && "checksum" != "dependency_count"
  {
  }

  lemma EntryIsFor(p: Doc)
    requires LockedOk(p)
    ensures PackageFor(p, EntryDoc(EntryOf(p)))
  {
    var e := EntryOf(p);
    PackageNamesDiffer();
    FiveFields("name", "version", "source", "checksum", "dependency_count",
               Str(e.key.name), Str(e.key.version), Str(e.key.source),
               if e.checksum.Some? then Str(e.checksum.value) else Nil, Int(e.dependencies));
  }

  /** The generated inventory has as many packages as the lock file, one for each of them and no other. */
  lemma GeneratedHolds(ps: seq<Doc>)
    requires LockfileOk(Array(ps))
    ensures var qs := Get(InventoryDoc("Cargo.lock", SortEntries(EntriesOf(ps))), "packages");
            && qs.Array? && |qs.items| == |ps|
            && (forall i :: 0 <= i < |ps| ==> exists j :: 0 <= j < |ps| && PackageFor(ps[i], qs.items[j]))
            && (forall j :: 0 <= j < |ps| ==> exists i :: 0 <= i < |ps| && PackageFor(ps[i], qs.items[j]))
  {
    var all, es := EntriesOf(ps), SortEntries(EntriesOf(ps));
    SortRises(all);
    assert |multiset(es)| == |multiset(all)|;
    InventoryFields("Cargo.lock", es);
    forall i | 0 <= i < |ps| ensures exists j :: 0 <= j < |ps| && PackageFor(ps[i], EntryDocs(es)[j]) {
      var j := FoundIn(all, es, i);
      EntryStands(ps, i, es, j);
    }
    forall j | 0 <= j < |ps| ensures exists i :: 0 <= i < |ps| && PackageFor(ps[i], EntryDocs(es)[j]) {
      var i := FoundIn(es, all, j);
      EntryStands(ps, i, es, j);
    }
  }

  lemma FoundIn(a: seq<Entry>, b: seq<Entry>, i: nat) returns (j: nat)
    requires multiset(a) == multiset(b) && i < |a|
    ensures j < |b| && b[j] == a[i]
  {
    assert a[i] in multiset(a);
    assert a[i] in multiset(b);
    j :| 0 <= j < |b| && b[j] == a[i];
  }

  lemma EntryStands(ps: seq<Doc>, i: nat, es: seq<Entry>, j: nat)
    requires AllLocked(ps) && i < |ps| && j < |es| && es[j] == EntriesOf(ps)[i]
    ensures PackageFor(ps[i], EntryDocs(es)[j])
  {
    EntryIsFor(ps[i]);
  }
}
