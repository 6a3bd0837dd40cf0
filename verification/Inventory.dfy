/** The release dependency inventory: the generator and the two separately written validators
    (scripts/dependency_inventory.py, scripts/verify_release_bundle.py), from decoded documents on. */
module Inventory {
  import opened Wrappers
  import opened Ordering

  /** A decoded document. Special stands for numbers that equal no integer (NaN and the infinities) and for dates. */
  datatype Doc =
    | Nil
    | Bool(b: bool)
    | Int(n: int)
    | Float(x: real)
    | Special
    | Str(s: string)
    | Array(items: seq<Doc>)
    | Object(fields: map<string, Doc>)

  function Get(d: Doc, key: string): Doc
    requires d.Object?
  {
    if key in d.fields then d.fields[key] else Nil
  }

  /** `v == n`: truth values count as 0 and 1, and floats compare by value. */
  predicate EqualsInt(v: Doc, n: int) {
    match v
    case Int(m) => m == n
    case Bool(b) => (if b then 1 else 0) == n
    case Float(x) => x == n as real
    case _ => false
  }

  /** `isinstance(v, int) and v >= 0`: truth values are integers. */
  predicate IsCount(v: Doc) { (v.Int? && v.n >= 0) || v.Bool? }

  predicate NonEmptyStr(v: Doc) { v.Str? && v.s != [] }

  predicate IsHex(c: char) { '0' <= c <= '9' || 'a' <= c <= 'f' }

  predicate IsSha256(s: string) { |s| == 64 && forall i :: 0 <= i < 64 ==> IsHex(s[i]) }

  predicate ChecksumOk(v: Doc) { v.Nil? || (v.Str? && IsSha256(v.s)) }

  predicate Truthy(v: Doc) {
    match v
    case Nil => false
    case Bool(b) => b
    case Int(n) => n != 0
    case Float(x) => x != 0.0
    case Special => true
    case Str(s) => s != []
    case Array(items) => items != []
    case Object(fields) => fields != map[]
  }

  // ----- keys -----

  datatype Key = Key(name: string, version: string, source: string)

  predicate KeyLt(a: Key, b: Key) {
    LexLt(a.name, b.name)
    || (a.name == b.name && (LexLt(a.version, b.version) || (a.version == b.version && LexLt(a.source, b.source))))
  }

  lemma KeyTotal(a: Key, b: Key)
    ensures KeyLt(a, b) || KeyLt(b, a) || a == b
    ensures !(KeyLt(a, b) && KeyLt(b, a)) && !KeyLt(a, a)
  {
    LexTotal(a.name, b.name);
    LexTotal(a.version, b.version);
    LexTotal(a.source, b.source);
    if LexLe(a.name, b.name) && LexLe(b.name, a.name) { LexAntisym(a.name, b.name); }
    if LexLe(a.version, b.version) && LexLe(b.version, a.version) { LexAntisym(a.version, b.version); }
    if LexLe(a.source, b.source) && LexLe(b.source, a.source) { LexAntisym(a.source, b.source); }
  }

  lemma LexLtTrans(a: string, b: string, c: string)
    requires LexLt(a, b) && LexLt(b, c)
    ensures LexLt(a, c)
  {
    LexTrans(a, b, c);
    if a == c { LexAntisym(a, b); }
  }

  lemma KeyTrans(a: Key, b: Key, c: Key)
    requires KeyLt(a, b) && KeyLt(b, c)
    ensures KeyLt(a, c)
  {
    if LexLt(a.name, b.name) && LexLt(b.name, c.name) { LexLtTrans(a.name, b.name, c.name); }
    if LexLt(a.version, b.version) && LexLt(b.version, c.version) { LexLtTrans(a.version, b.version, c.version); }
    if LexLt(a.source, b.source) && LexLt(b.source, c.source) { LexLtTrans(a.source, b.source, c.source); }
  }

  // ----- what a valid inventory is -----

  const WORKSPACE: string := "workspace"

  predicate PackageOk(p: Doc) {
    && p.Object?
    && NonEmptyStr(Get(p, "name")) && NonEmptyStr(Get(p, "version")) && NonEmptyStr(Get(p, "source"))
    && ChecksumOk(Get(p, "checksum")) && IsCount(Get(p, "dependency_count"))
  }

  function KeyOf(p: Doc): Key
    requires PackageOk(p)
  {
    Key(Get(p, "name").s, Get(p, "version").s, Get(p, "source").s)
  }

  predicate AllOk(ps: seq<Doc>) { forall i :: 0 <= i < |ps| ==> PackageOk(ps[i]) }

  predicate Increasing(keys: seq<Key>) { forall i, j :: 0 <= i < j < |keys| ==> KeyLt(keys[i], keys[j]) }

  function Keys(ps: seq<Doc>): (r: seq<Key>)
    requires AllOk(ps)
  {
    seq(|ps|, i requires 0 <= i < |ps| => KeyOf(ps[i]))
  }

  function CountWorkspace(ps: seq<Doc>): nat
    requires AllOk(ps)
  {
    if ps == [] then 0
    else CountWorkspace(ps[..|ps| - 1]) + if KeyOf(ps[|ps| - 1]).source == WORKSPACE then 1 else 0
  }

  /** Packages in strictly increasing order of name, version and source, each well formed. */
  predicate PackagesOk(ps: seq<Doc>) { AllOk(ps) && Increasing(Keys(ps)) }

  predicate HeaderOk(d: Doc) {
    && d.Object? && EqualsInt(Get(d, "schema_version"), 1) && Get(d, "lockfile") == Str("Cargo.lock")
    && Get(d, "packages").Array? && Get(d, "packages").items != []
    && EqualsInt(Get(d, "package_count"), |Get(d, "packages").items|)
  }

  predicate CountsOk(d: Doc, workspace: int, external: int)
    requires d.Object?
  {
    EqualsInt(Get(d, "workspace_package_count"), workspace) && EqualsInt(Get(d, "external_package_count"), external)
  }

  predicate ValidInventory(d: Doc) {
    && HeaderOk(d)
    && PackagesOk(Get(d, "packages").items)
    && CountsOk(d, CountWorkspace(Get(d, "packages").items),
                |Get(d, "packages").items| - CountWorkspace(Get(d, "packages").items))
  }

  // ----- the validators -----

  datatype Problem =
    | NotAnObject | BadSchemaVersion | BadLockfile | NoPackages | BadPackageCount | BadPackage
    | BadName | BadVersion | BadSource | BadChecksum | BadDependencyCount | Duplicate | NotSorted
    | BadWorkspaceCount | BadExternalCount

  /** `package_key`, which takes any values; `show` is Python's `str`. */
  function RawKey(show: Doc -> string, p: Doc): Key
    requires p.Object?
  {
    var name := if "name" in p.fields then p.fields["name"] else Str("");
    var version := if "version" in p.fields then p.fields["version"] else Str("");
    var source := Get(p, "source");
    Key(show(name), show(version), show(if Truthy(source) then source else Str(WORKSPACE)))
  }

  lemma RawKeyIs(show: Doc -> string, p: Doc)
    requires (forall s :: show(Str(s)) == s) && PackageOk(p)
    ensures RawKey(show, p) == KeyOf(p)
  {
  }

  lemma AllOkSnoc(ps: seq<Doc>, i: nat)
    requires i < |ps|
    ensures AllOk(ps[..i + 1]) <==> AllOk(ps[..i]) && PackageOk(ps[i])
    ensures AllOk(ps[..i + 1]) ==> Keys(ps[..i + 1]) == Keys(ps[..i]) + [KeyOf(ps[i])]
    ensures AllOk(ps[..i + 1]) ==>
              CountWorkspace(ps[..i + 1]) == CountWorkspace(ps[..i]) + if KeyOf(ps[i]).source == WORKSPACE then 1 else 0
  {
    assert ps[..i + 1][..i] == ps[..i] && ps[..i + 1][i] == ps[i];
    if AllOk(ps[..i]) && PackageOk(ps[i]) {
      var next := ps[..i + 1];
      forall k | 0 <= k < |next| ensures PackageOk(next[k]) { if k < i { assert ps[..i][k] == ps[k]; } }
    }
    if AllOk(ps[..i + 1]) {
      forall k | 0 <= k < i ensures PackageOk(ps[..i][k]) { assert ps[..i + 1][k] == ps[k]; }
    }
  }

  /** A new key goes on an increasing list exactly when it is not on it and not below the last. */
  lemma IncreasingSnoc(keys: seq<Key>, key: Key)
    requires Increasing(keys)
    ensures Increasing(keys + [key]) <==> key !in keys && (keys != [] ==> !KeyLt(key, keys[|keys| - 1]))
  {
    var all := keys + [key];
    if Increasing(all) {
      forall i | 0 <= i < |keys| ensures keys[i] != key {
        assert KeyLt(all[i], all[|keys|]);
        KeyTotal(keys[i], key);
      }
      if keys != [] {
        assert KeyLt(all[|keys| - 1], all[|keys|]);
        KeyTotal(keys[|keys| - 1], key);
      }
    }
    if key !in keys && (keys != [] ==> !KeyLt(key, keys[|keys| - 1])) {
      forall i | 0 <= i < |keys| ensures KeyLt(keys[i], key) {
        var last := keys[|keys| - 1];
        KeyTotal(last, key);
        assert last in keys;
        if i < |keys| - 1 { KeyTrans(keys[i], last, key); }
      }
    }
  }

  lemma {:induction false} IncreasingPrefix(keys: seq<Key>, key: Key)
    requires Increasing(keys + [key])
    ensures Increasing(keys)
  {
    forall i, j | 0 <= i < j < |keys| ensures KeyLt(keys[i], keys[j]) {
      assert (keys + [key])[i] == keys[i] && (keys + [key])[j] == keys[j];
    }
  }

  /** One more package. */
  lemma PackagesSnoc(ps: seq<Doc>, i: nat)
    requires i < |ps|
    ensures PackagesOk(ps[..i + 1]) <==>
              && PackagesOk(ps[..i]) && PackageOk(ps[i]) && KeyOf(ps[i]) !in Keys(ps[..i])
              && (i > 0 ==> !KeyLt(KeyOf(ps[i]), Keys(ps[..i])[i - 1]))
  {
    AllOkSnoc(ps, i);
    if AllOk(ps[..i + 1]) {
      var keys, key := Keys(ps[..i]), KeyOf(ps[i]);
      if Increasing(keys + [key]) { IncreasingPrefix(keys, key); }
      if Increasing(keys) { IncreasingSnoc(keys, key); }
    }
  }

  method FieldProblems(p: Doc) returns (errors: seq<Problem>)
    requires p.Object?
    ensures errors == [] <==> PackageOk(p)
  {
    errors := [];
    if !NonEmptyStr(Get(p, "name")) { errors := errors + [BadName]; }
    if !NonEmptyStr(Get(p, "version")) { errors := errors + [BadVersion]; }
    if !NonEmptyStr(Get(p, "source")) { errors := errors + [BadSource]; }
    if !ChecksumOk(Get(p, "checksum")) { errors := errors + [BadChecksum]; }
    if !IsCount(Get(p, "dependency_count")) { errors := errors + [BadDependencyCount]; }
  }

  /** What the loop of either validator knows while nothing was wrong. */
  ghost predicate LoopState(ps: seq<Doc>, i: nat, seen: set<Key>, previous: Option<Key>, workspace: int, external: int)
    requires i <= |ps|
  {
    && PackagesOk(ps[..i])
    && (forall k :: k in seen <==> k in Keys(ps[..i]))
    && (if i == 0 then previous == None else previous == Some(Keys(ps[..i])[i - 1]))
    && workspace == CountWorkspace(ps[..i]) && external == i - workspace
  }

  lemma LoopStep(ps: seq<Doc>, i: nat, seen: set<Key>, previous: Option<Key>, workspace: int, external: int)
    requires i < |ps| && LoopState(ps, i, seen, previous, workspace, external)
    ensures PackagesOk(ps[..i + 1]) <==>
              && PackageOk(ps[i]) && KeyOf(ps[i]) !in seen && (previous.Some? ==> !KeyLt(KeyOf(ps[i]), previous.value))
    ensures PackagesOk(ps[..i + 1]) ==>
              var isWorkspace := KeyOf(ps[i]).source == WORKSPACE;
              LoopState(ps, i + 1, seen + {KeyOf(ps[i])}, Some(KeyOf(ps[i])),
                        if isWorkspace then workspace + 1 else workspace,
                        if isWorkspace then external else external + 1)
  {
    PackagesSnoc(ps, i);
    AllOkSnoc(ps, i);
  }

  lemma {:induction false} PrefixOk(ps: seq<Doc>, i: nat)
    requires i <= |ps| && PackagesOk(ps)
    ensures PackagesOk(ps[..i])
    decreases |ps| - i
  {
    if i == |ps| {
      assert ps[..i] == ps;
    } else {
      PrefixOk(ps, i + 1);
      PackagesSnoc(ps, i);
    }
  }

  /** The validator of the inventory script: it goes on after a problem and returns all it found. */
  method ValidateInventory(show: Doc -> string, d: Doc) returns (errors: seq<Problem>)
    requires forall s :: show(Str(s)) == s
    ensures errors == [] <==> ValidInventory(d)
  {
    if !d.Object? {
      return [NotAnObject];
    }
    errors := [];
    if !EqualsInt(Get(d, "schema_version"), 1) { errors := errors + [BadSchemaVersion]; }
    if Get(d, "lockfile") != Str("Cargo.lock") { errors := errors + [BadLockfile]; }
    var list := Get(d, "packages");
    if !list.Array? || list.items == [] {
      errors := errors + [NoPackages];
      return;
    }
    var ps := list.items;
    if !EqualsInt(Get(d, "package_count"), |ps|) { errors := errors + [BadPackageCount]; }
    ghost var head := HeaderOk(d);
    assert errors == [] <==> head;
    var workspace, external, previous, seen: set<Key> := 0, 0, None, {};
    for i := 0 to |ps|
      invariant errors == [] <==> head && PackagesOk(ps[..i])
      invariant errors == [] ==> LoopState(ps, i, seen, previous, workspace, external)
    {
      PackagesSnoc(ps, i);
      if errors == [] { LoopStep(ps, i, seen, previous, workspace, external); }
      var p := ps[i];
      if !p.Object? {
        errors := errors + [BadPackage];
        continue;
      }
      var problems := FieldProblems(p);
      errors := errors + problems;
      if PackageOk(p) { RawKeyIs(show, p); }
      var key := RawKey(show, p);
      if key in seen { errors := errors + [Duplicate]; }
      seen := seen + {key};
      if previous.Some? && KeyLt(key, previous.value) { errors := errors + [NotSorted]; }
      previous := Some(key);
      if Get(p, "source") == Str(WORKSPACE) {
        workspace := workspace + 1;
      } else if Get(p, "source").Str? {
        external := external + 1;
      }
    }
    assert ps[..|ps|] == ps;
    if !EqualsInt(Get(d, "workspace_package_count"), workspace) { errors := errors + [BadWorkspaceCount]; }
    if !EqualsInt(Get(d, "external_package_count"), external) { errors := errors + [BadExternalCount]; }
  }

  /** The inventory block of the bundle verifier: it stops at the first problem. */
  method VerifyBundleInventory(d: Doc) returns (ok: bool)
    ensures ok <==> ValidInventory(d)
  {
    if !d.Object? || !EqualsInt(Get(d, "schema_version"), 1) || Get(d, "lockfile") != Str("Cargo.lock") {
      return false;
    }
    var list := Get(d, "packages");
    if !list.Array? || list.items == [] {
      return false;
    }
    var ps := list.items;
    if !EqualsInt(Get(d, "package_count"), |ps|) {
      return false;
    }
    var workspace, external, previous, seen: set<Key> := 0, 0, None, {};
    for i := 0 to |ps|
      invariant LoopState(ps, i, seen, previous, workspace, external)
    {
      if PackagesOk(ps) { PrefixOk(ps, i + 1); }
      LoopStep(ps, i, seen, previous, workspace, external);
      var p := ps[i];
      if !p.Object? {
        return false;
      }
      var name, version, source := Get(p, "name"), Get(p, "version"), Get(p, "source");
      if !NonEmptyStr(name) || !NonEmptyStr(version) || !NonEmptyStr(source) {
        return false;
      }
      if !ChecksumOk(Get(p, "checksum")) || !IsCount(Get(p, "dependency_count")) {
        return false;
      }
      var key := Key(name.s, version.s, source.s);
      if key in seen {
        return false;
      }
      if previous.Some? && KeyLt(key, previous.value) {
        return false;
      }
      seen := seen + {key};
      previous := Some(key);
      if source.s == WORKSPACE {
        workspace := workspace + 1;
      } else {
        external := external + 1;
      }
    }
    assert ps[..|ps|] == ps;
    return EqualsInt(Get(d, "workspace_package_count"), workspace)
           && EqualsInt(Get(d, "external_package_count"), external);
  }

  // ----- the generator -----

  datatype Entry = Entry(key: Key, checksum: Option<string>, dependencies: nat)

  /** The packages of a lock file that the generator takes. */
  predicate LockedOk(p: Doc) {
    && p.Object?
    && NonEmptyStr(Get(p, "name")) && NonEmptyStr(Get(p, "version"))
    && (Get(p, "source").Nil? || Get(p, "source").Str?) && ChecksumOk(Get(p, "checksum"))
    && ("dependencies" in p.fields ==> p.fields["dependencies"].Array?)
  }

  function EntryOf(p: Doc): Entry
    requires LockedOk(p)
  {
    var source := Get(p, "source");
    var checksum := Get(p, "checksum");
    Entry(Key(Get(p, "name").s, Get(p, "version").s, if Truthy(source) then source.s else WORKSPACE),
          if checksum.Str? then Some(checksum.s) else None,
          if "dependencies" in p.fields then |p.fields["dependencies"].items| else 0)
  }

  predicate AllLocked(ps: seq<Doc>) { forall i :: 0 <= i < |ps| ==> LockedOk(ps[i]) }

  function EntriesOf(ps: seq<Doc>): (r: seq<Entry>)
    requires AllLocked(ps)
  {
    seq(|ps|, i requires 0 <= i < |ps| => EntryOf(ps[i]))
  }

  predicate DistinctKeys(es: seq<Entry>) { forall i, j :: 0 <= i < j < |es| ==> es[i].key != es[j].key }

  /** What a lock file must be for an inventory to be written. */
  predicate LockfileOk(list: Doc) {
    list.Array? && list.items != [] && AllLocked(list.items) && DistinctKeys(EntriesOf(list.items))
  }

  function InsertEntry(e: Entry, es: seq<Entry>): seq<Entry> {
    if es == [] || !KeyLt(es[0].key, e.key) then [e] + es else [es[0]] + InsertEntry(e, es[1..])
  }

  function SortEntries(es: seq<Entry>): seq<Entry> { if es == [] then [] else InsertEntry(es[0], SortEntries(es[1..])) }

  function EntryDoc(e: Entry): Doc {
    Object(map["name" := Str(e.key.name), "version" := Str(e.key.version), "source" := Str(e.key.source),
               "checksum" := if e.checksum.Some? then Str(e.checksum.value) else Nil,
               "dependency_count" := Int(e.dependencies)])
  }

  function EntryDocs(es: seq<Entry>): (r: seq<Doc>) { seq(|es|, i requires 0 <= i < |es| => EntryDoc(es[i])) }

  function CountLocal(es: seq<Entry>): nat {
    if es == [] then 0 else CountLocal(es[..|es| - 1]) + if es[|es| - 1].key.source == WORKSPACE then 1 else 0
  }

  function InventoryDoc(file: string, es: seq<Entry>): Doc {
    Object(map["schema_version" := Int(1), "lockfile" := Str(file), "package_count" := Int(|es|),
               "workspace_package_count" := Int(CountLocal(es)), "external_package_count" := Int(|es| - CountLocal(es)),
               "packages" := Array(EntryDocs(es))])
  }

  method ReadLockfile(list: Doc, file: string) returns (r: Result<Doc>)
    ensures r.Ok? <==> LockfileOk(list)
    ensures r.Ok? ==> r.value == InventoryDoc(file, SortEntries(EntriesOf(list.items)))
  {
    if !list.Array? || list.items == [] {
      return Err;
    }
    var ps := list.items;
    var entries, seen: set<Key> := [], {};
    for i := 0 to |ps|
      invariant AllLocked(ps[..i]) && entries == EntriesOf(ps[..i]) && DistinctKeys(entries)
      invariant seen == KeySet(entries)
    {
      var p := ps[i];
      LockedSnoc(ps, i);
      if !LockedOk(p) {
        return Err;
      }
      var entry := EntryOf(p);
      if entry.key in seen {
        SharedKey(ps, i);
        return Err;
      }
      KeySetSnoc(entries, entry);
      seen := seen + {entry.key};
      entries := entries + [entry];
    }
    assert ps[..|ps|] == ps;
    return Ok(InventoryDoc(file, SortEntries(entries)));
  }

  lemma LockedSnoc(ps: seq<Doc>, i: nat)
    requires i < |ps| && AllLocked(ps[..i])
    ensures LockedOk(ps[i]) ==>
              AllLocked(ps[..i + 1]) && EntriesOf(ps[..i + 1]) == EntriesOf(ps[..i]) + [EntryOf(ps[i])]
  {
    if LockedOk(ps[i]) {
      var next := ps[..i + 1];
      forall k | 0 <= k < |next| ensures LockedOk(next[k]) { if k < i { assert ps[..i][k] == ps[k]; } }
      forall k | 0 <= k < i ensures EntryOf(next[k]) == EntryOf(ps[..i][k]) { }
    }
  }

  function KeySet(es: seq<Entry>): set<Key> { set e | e in es :: e.key }

  lemma KeySetSnoc(es: seq<Entry>, e: Entry)
    ensures KeySet(es + [e]) == KeySet(es) + {e.key}
    ensures DistinctKeys(es) && e.key !in KeySet(es) ==> DistinctKeys(es + [e])
  {
    forall k | k in KeySet(es + [e]) ensures k in KeySet(es) + {e.key} {
      var x :| x in es + [e] && x.key == k;
      assert x in es || x == e;
    }
    forall k | k in KeySet(es) + {e.key} ensures k in KeySet(es + [e]) {
      if k == e.key {
        assert e in es + [e];
      } else {
        var x :| x in es && x.key == k;
        assert x in es + [e];
      }
    }
    if DistinctKeys(es) && e.key !in KeySet(es) {
      forall i | 0 <= i < |es| ensures es[i].key != e.key { assert es[i] in es; }
    }
  }

  lemma SharedKey(ps: seq<Doc>, i: nat)
    requires i < |ps| && AllLocked(ps[..i]) && LockedOk(ps[i]) && EntryOf(ps[i]).key in KeySet(EntriesOf(ps[..i]))
    ensures AllLocked(ps) ==> !DistinctKeys(EntriesOf(ps))
  {
    if AllLocked(ps) {
      var e :| e in EntriesOf(ps[..i]) && e.key == EntryOf(ps[i]).key;
      var j :| 0 <= j < i && EntriesOf(ps[..i])[j] == e;
      assert ps[..i][j] == ps[j];
      assert EntriesOf(ps)[j].key == EntriesOf(ps)[i].key;
    }
  }

  // ----- the generator's inventory is valid -----

  predicate EntryOk(e: Entry) {
    e.key.name != [] && e.key.version != [] && e.key.source != [] && (e.checksum.Some? ==> IsSha256(e.checksum.value))
  }

  predicate Rising(es: seq<Entry>) { forall i, j :: 0 <= i < j < |es| ==> KeyLt(es[i].key, es[j].key) }

  lemma {:induction false} InsertContents(e: Entry, es: seq<Entry>)
    ensures multiset(InsertEntry(e, es)) == multiset(es) + multiset{e}
    decreases |es|
  {
    if !(es == [] || !KeyLt(es[0].key, e.key)) {
      InsertContents(e, es[1..]);
      assert es == [es[0]] + es[1..];
    }
  }

  lemma RisingCons(e: Entry, es: seq<Entry>)
    requires Rising(es) && (es != [] ==> KeyLt(e.key, es[0].key))
    ensures Rising([e] + es)
  {
    forall j | 0 <= j < |es| ensures KeyLt(e.key, es[j].key) {
      if j > 0 { KeyTrans(e.key, es[0].key, es[j].key); }
    }
  }

  lemma {:induction false} InsertRises(e: Entry, es: seq<Entry>)
    requires Rising(es) && forall i :: 0 <= i < |es| ==> es[i].key != e.key
    ensures Rising(InsertEntry(e, es))
    ensures InsertEntry(e, es)[0] == e || (es != [] && InsertEntry(e, es)[0] == es[0])
    decreases |es|
  {
    if es == [] || !KeyLt(es[0].key, e.key) {
      if es != [] { KeyTotal(e.key, es[0].key); }
      RisingCons(e, es);
    } else {
      InsertRises(e, es[1..]);
      RisingCons(es[0], InsertEntry(e, es[1..]));
    }
  }

  lemma {:induction false} SortRises(es: seq<Entry>)
    requires DistinctKeys(es)
    ensures Rising(SortEntries(es)) && multiset(SortEntries(es)) == multiset(es)
    decreases |es|
  {
    if es != [] {
      var rest := SortEntries(es[1..]);
      SortRises(es[1..]);
      InsertContents(es[0], rest);
      assert es == [es[0]] + es[1..];
      forall i | 0 <= i < |rest| ensures rest[i].key != es[0].key {
        assert rest[i] in multiset(rest);
        assert rest[i] in multiset(es[1..]);
        var j :| 0 <= j < |es[1..]| && es[1..][j] == rest[i];
        assert es[j + 1].key != es[0].key;
      }
      InsertRises(es[0], rest);
    }
  }

  lemma EntryDocOk(e: Entry)
    requires EntryOk(e)
    ensures PackageOk(EntryDoc(e)) && KeyOf(EntryDoc(e)) == e.key
  {
  }

  lemma {:induction false} CountsMatch(es: seq<Entry>)
    requires forall i :: 0 <= i < |es| ==> EntryOk(es[i])
    ensures AllOk(EntryDocs(es)) && CountWorkspace(EntryDocs(es)) == CountLocal(es)
    decreases |es|
  {
    forall i | 0 <= i < |es| ensures PackageOk(EntryDocs(es)[i]) { EntryDocOk(es[i]); }
    if es != [] {
      var n := |es| - 1;
      CountsMatch(es[..n]);
      EntryDocOk(es[n]);
      assert EntryDocs(es)[..n] == EntryDocs(es[..n]);
    }
  }

  lemma EntryDocsOk(es: seq<Entry>)
    requires Rising(es) && forall i :: 0 <= i < |es| ==> EntryOk(es[i])
    ensures PackagesOk(EntryDocs(es))
  {
    CountsMatch(es);
    forall i | 0 <= i < |es| ensures Keys(EntryDocs(es))[i] == es[i].key { EntryDocOk(es[i]); }
  }

  lemma LockedEntryOk(p: Doc)
    requires LockedOk(p)
    ensures EntryOk(EntryOf(p))
  {
  }

  /** Whatever the generator writes for a Cargo.lock is valid, and holds each package of the lock file once. */
  lemma GeneratedIsValid(ps: seq<Doc>)
    requires LockfileOk(Array(ps))
    ensures ValidInventory(InventoryDoc("Cargo.lock", SortEntries(EntriesOf(ps))))
    ensures multiset(SortEntries(EntriesOf(ps))) == multiset(EntriesOf(ps))
  {
    var es := SortEntries(EntriesOf(ps));
    SortRises(EntriesOf(ps));
    assert |multiset(es)| == |multiset(EntriesOf(ps))|;
    forall i | 0 <= i < |es| ensures EntryOk(es[i]) {
      assert es[i] in multiset(es);
      assert es[i] in multiset(EntriesOf(ps));
      var j :| 0 <= j < |EntriesOf(ps)| && EntriesOf(ps)[j] == es[i];
      LockedEntryOk(ps[j]);
    }
    EntryDocsOk(es);
    CountsMatch(es);
    InventoryFields("Cargo.lock", es);
  }

  lemma FieldNamesDiffer()
    ensures "schema_version" != "lockfile" && "schema_version" != "package_count" && "schema_version" != "packages"
    ensures "schema_version" != "workspace_package_count" && "schema_version" != "external_package_count"
    ensures "lockfile" != "package_count" && "lockfile" != "workspace_package_count"
            && "lockfile" != "external_package_count"
    ensures "lockfile" != "packages" && "package_count" != "workspace_package_count" && "package_count" != "packages"
    ensures "package_count" != "external_package_count" && "workspace_package_count" != "external_package_count"
    ensures "workspace_package_count" != "packages" && "external_package_count" != "packages"
  {
    assert "lockfile"[0] != "packages"[0];
  }

  lemma InventoryFields(file: string, es: seq<Entry>)
    ensures var d := InventoryDoc(file, es);
            && Get(d, "schema_version") == Int(1) && Get(d, "lockfile") == Str(file)
            && Get(d, "package_count") == Int(|es|)
            && Get(d, "workspace_package_count") == Int(CountLocal(es))
            && Get(d, "external_package_count") == Int(|es| - CountLocal(es))
            && Get(d, "packages") == Array(EntryDocs(es))
  {
    FieldNamesDiffer();
    SixFields("schema_version", "lockfile", "package_count", "workspace_package_count", "external_package_count",
              "packages",
              Int(1), Str(file), Int(|es|), Int(CountLocal(es)), Int(|es| - CountLocal(es)), Array(EntryDocs(es)));
  }

  lemma SixFields(a: string, b: string, c: string, d: string, e: string, f: string,
                  u: Doc, v: Doc, w: Doc, x: Doc, y: Doc, z: Doc)
    requires a != b && a != c && a != d && a != e && a != f && b != c && b != d && b != e && b != f
    requires c != d && c != e && c != f && d != e && d != f && e != f
    ensures var o := Object(map[a := u, b := v, c := w, d := x, e := y, f := z]);
            Get(o, a) == u && Get(o, b) == v && Get(o, c) == w && Get(o, d) == x && Get(o, e) == y && Get(o, f) == z
  {
  }
}
