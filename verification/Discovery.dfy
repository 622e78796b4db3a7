/**
 * Capability registration and discovery. Models `capabilities/registry.py` and the risk catalogue
 * that `server/runtime.py` derives from it.
 */
module Discovery {
  import opened Errors
  import opened Governance
  import opened Ordering
  import opened Outcomes
  import opened Redaction
  import opened Text

  /** A published contract; its name was validated to be non-blank when it was described. */
  datatype Contract = Contract(name: string, risk: Risk, description: string)

  type Contracts = map<string, Contract>

  function Duplicate(name: string): McpError {
    McpError(ValidationError, "Capability is already registered", map["name" := Str(name)])
  }

  /** The registry after the contracts of `s`, when no name repeats. */
  function Registered(items: Contracts, s: seq<Contract>): Contracts {
    if s == [] then items else Registered(items, s[..|s| - 1])[s[|s| - 1].name := s[|s| - 1]]
  }

  ghost predicate NamesDiffer(s: seq<Contract>) {
    forall i, j | 0 <= i < j < |s| :: s[i].name != s[j].name
  }

  ghost predicate AllNew(items: Contracts, s: seq<Contract>) {
    NamesDiffer(s) && forall i | 0 <= i < |s| :: s[i].name !in items
  }

  ghost predicate GoodContracts(items: Contracts) {
    forall name | name in items :: items[name].name == name && Strip(name) != ""
  }

  ghost predicate HasName(s: seq<Contract>, name: string) {
    exists i :: 0 <= i < |s| && s[i].name == name
  }

  /** The names after registration: the old ones and the new ones. */
  lemma {:induction false} RegisteredNames(items: Contracts, s: seq<Contract>, name: string)
    ensures name in Registered(items, s) <==> name in items || HasName(s, name)
  {
    if s == [] {
    } else {
      var n := |s| - 1;
      RegisteredNames(items, s[..n], name);
      if HasName(s[..n], name) {
        var i :| 0 <= i < n && s[..n][i].name == name;
        assert s[i].name == name;
      }
      if HasName(s, name) && name != s[n].name {
        var i :| 0 <= i < |s| && s[i].name == name;
        assert s[..n][i].name == name;
      }
    }
  }

  lemma {:induction false} RegisteredHolds(items: Contracts, s: seq<Contract>, i: nat)
    requires NamesDiffer(s) && i < |s|
    ensures s[i].name in Registered(items, s) && Registered(items, s)[s[i].name] == s[i]
  {
    var n := |s| - 1;
    if i == n {
    } else {
      RegisteredHolds(items, s[..n], i);
    }
  }

  lemma AllNewOneMore(items: Contracts, s: seq<Contract>, i: nat)
    requires i < |s| && AllNew(items, s[..i])
    ensures AllNew(items, s[..i + 1]) <==> s[i].name !in Registered(items, s[..i])
  {
    RegisteredNames(items, s[..i], s[i].name);
    if s[i].name !in Registered(items, s[..i]) {
      forall k | 0 <= k < i ensures s[k].name != s[i].name {
        assert s[..i][k] == s[k];
      }
      assert forall k | 0 <= k < i :: s[..i + 1][k] == s[..i][k];
    } else if HasName(s[..i], s[i].name) {
      var k :| 0 <= k < i && s[..i][k].name == s[i].name;
      assert s[..i + 1][k].name == s[..i + 1][i].name;
    } else {
      assert s[..i + 1][i].name in items;
    }
  }

  lemma AllNewPrefix(items: Contracts, s: seq<Contract>, i: nat)
    requires i <= |s| && AllNew(items, s)
    ensures AllNew(items, s[..i])
  {
  }

  function NameKey(c: Contract): Keyed<Contract> {
    Keyed(0, c.name, c)
  }

  /** The one discovery snapshot of a registry: all its contracts, names strictly ascending. */
  ghost predicate Snapshot(items: Contracts, s: seq<Contract>) {
    && (forall i, j | 0 <= i < j < |s| :: LexLess(s[i].name, s[j].name))
    && forall c :: c in s <==> c.name in items && items[c.name] == c
  }

  function Keys(s: seq<Contract>): seq<Keyed<Contract>> {
    seq(|s|, i requires 0 <= i < |s| => NameKey(s[i]))
  }

  /** A registry has one snapshot only. */
  lemma SnapshotIsUnique(items: Contracts, s: seq<Contract>, t: seq<Contract>)
    requires Snapshot(items, s) && Snapshot(items, t)
    ensures s == t
  {
    forall x ensures x in Keys(s) <==> x in Keys(t) {
      KeysOf(s, x);
      KeysOf(t, x);
    }
    AscendingIsUnique(Keys(s), Keys(t));
    forall i | 0 <= i < |s| ensures s[i] == t[i] {
      assert Keys(s)[i] == Keys(t)[i];
    }
  }

  lemma KeysOf(s: seq<Contract>, x: Keyed<Contract>)
    ensures x in Keys(s) <==> x.item in s && x == NameKey(x.item)
  {
    if x in Keys(s) {
      var i :| 0 <= i < |s| && Keys(s)[i] == x;
      assert s[i] == x.item;
    }
    if x.item in s && x == NameKey(x.item) {
      var i :| 0 <= i < |s| && s[i] == x.item;
      assert Keys(s)[i] == x;
    }
  }

  class CapabilityRegistry {
    var items: Contracts

    constructor ()
      ensures items == map[]
    {
      items := map[];
    }

    method Register(c: Contract) returns (r: Result<(), McpError>)
      modifies this
      ensures r.Ok? <==> c.name !in old(items)
      ensures items == if r.Ok? then old(items)[c.name := c] else old(items)
      ensures r.Err? ==> r.error.kind == ValidationError && r.error.details == map["name" := Str(c.name)]
      ensures old(GoodContracts(items)) && Strip(c.name) != "" ==> GoodContracts(items)
    {
      if c.name in items {
        return Err(Duplicate(c.name));
      }
      items := items[c.name := c];
      return Ok(());
    }

    /** Registers from left to right and stops at the first name already taken, keeping what came before. */
    method RegisterMany(s: seq<Contract>) returns (r: Result<(), McpError>, registered: nat)
      modifies this
      ensures registered <= |s| && AllNew(old(items), s[..registered])
        && items == Registered(old(items), s[..registered])
      ensures r.Ok? <==> AllNew(old(items), s)
      ensures r.Ok? ==> registered == |s|
      ensures r.Err? ==> registered < |s| && s[registered].name in items
      ensures r.Err? ==> r.error.kind == ValidationError && r.error.details == map["name" := Str(s[registered].name)]
    {
      var i := 0;
      while i < |s|
        invariant 0 <= i <= |s|
        invariant AllNew(old(items), s[..i]) && items == Registered(old(items), s[..i])
      {
        AllNewOneMore(old(items), s, i);
        var outcome := Register(s[i]);
        if outcome.Err? {
          assert !AllNew(old(items), s) by {
            if AllNew(old(items), s) {
              AllNewPrefix(old(items), s, i + 1);
            }
          }
          return Err(outcome.error), i;
        }
        assert s[..i + 1][..i] == s[..i];
        i := i + 1;
      }
      assert s[..i] == s;
      return Ok(()), i;
    }

    /** `all`, and with it the capabilities of `discover_capabilities`: the registry's snapshot. */
    method All() returns (s: seq<Contract>)
      requires GoodContracts(items)
      ensures Snapshot(items, s)
    {
      var names := NamesIn(items.Keys);
      SortSorts(names);
      SortedNamesAscend(names);
      var sorted := Sort(names);
      s := [];
      for i := 0 to |sorted|
        invariant |s| == i
        invariant forall k | 0 <= k < i :: sorted[k].name in items && s[k] == items[sorted[k].name]
      {
        assert sorted[i] in names;
        s := s + [items[sorted[i].name]];
      }
      AscendingNamesAreASnapshot(items, sorted, s);
    }
  }

  /** The names of a set, in some order. */
  method NamesIn(keys: set<string>) returns (names: seq<Keyed<string>>)
    ensures forall x :: x in names <==> x.name in keys && x == Keyed(0, x.name, x.name)
    ensures forall i, j | 0 <= i < j < |names| :: names[i] != names[j]
  {
    names := [];
    var rest := keys;
    while rest != {}
      invariant rest <= keys
      invariant forall x :: x in names <==> x.name in keys - rest && x == Keyed(0, x.name, x.name)
      invariant forall i, j | 0 <= i < j < |names| :: names[i] != names[j]
      decreases rest
    {
      var name :| name in rest;
      assert Keyed(0, name, name) !in names;
      names := names + [Keyed(0, name, name)];
      rest := rest - {name};
    }
  }

  lemma AscendingNamesAreASnapshot(items: Contracts, sorted: seq<Keyed<string>>, s: seq<Contract>)
    requires GoodContracts(items) && Ascending(sorted) && |s| == |sorted|
    requires forall x :: x in sorted <==> x.name in items && x == Keyed(0, x.name, x.name)
    requires forall k | 0 <= k < |s| :: sorted[k].name in items && s[k] == items[sorted[k].name]
    ensures Snapshot(items, s)
  {
    forall i, j | 0 <= i < j < |s| ensures LexLess(s[i].name, s[j].name) {
      assert sorted[i] in sorted && sorted[j] in sorted;
      assert Before(sorted[i], sorted[j]);
    }
    forall c: Contract ensures c in s <==> c.name in items && items[c.name] == c {
      if c in s {
        var k :| 0 <= k < |s| && s[k] == c;
      }
      if c.name in items && items[c.name] == c {
        assert Keyed(0, c.name, c.name) in sorted;
        var k :| 0 <= k < |sorted| && sorted[k] == Keyed(0, c.name, c.name);
        assert s[k] == c;
      }
    }
  }

  /** Sorting different names gives them in strictly ascending order. */
  lemma SortedNamesAscend(names: seq<Keyed<string>>)
    requires forall x | x in names :: x == Keyed(0, x.name, x.name)
    requires forall i, j | 0 <= i < j < |names| :: names[i] != names[j]
    ensures Ascending(Sort(names))
  {
    hide LexLess, Sort;
    SortSorts(names);
    var sorted := Sort(names);
    DistinctStaysDistinct(names, sorted);
    forall i, j | 0 <= i < j < |sorted| ensures Before(sorted[i], sorted[j]) {
      assert sorted[i] in names && sorted[j] in names;
      assert !Before(sorted[j], sorted[i]);
      LexTotal(sorted[i].name, sorted[j].name);
    }
  }

  lemma {:induction false} MultiplicityOfDistinct<T>(s: seq<T>, x: T)
    requires forall i, j | 0 <= i < j < |s| :: s[i] != s[j]
    ensures multiset(s)[x] <= 1
  {
    if s == [] {
    } else {
      var n := |s| - 1;
      MultiplicityOfDistinct(s[..n], x);
      assert s == s[..n] + [s[n]];
      if x == s[n] {
        assert x !in s[..n];
        assert multiset(s[..n])[x] == 0;
      }
    }
  }

  lemma RepeatedCountsTwice<T>(t: seq<T>, i: nat, j: nat)
    requires i < j < |t| && t[i] == t[j]
    ensures multiset(t)[t[i]] >= 2
  {
    assert t == t[..j] + [t[j]] + t[j + 1..];
    assert t[..j][i] == t[i];
  }

  lemma DistinctStaysDistinct<T>(s: seq<T>, t: seq<T>)
    requires multiset(s) == multiset(t) && forall i, j | 0 <= i < j < |s| :: s[i] != s[j]
    ensures forall i, j | 0 <= i < j < |t| :: t[i] != t[j]
  {
    forall i, j | 0 <= i < j < |t| ensures t[i] != t[j] {
      MultiplicityOfDistinct(s, t[i]);
      if t[i] == t[j] {
        RepeatedCountsTwice(t, i, j);
      }
    }
  }

  lemma RegisteredIsTheSet(s: seq<Contract>)
    requires NamesDiffer(s)
    ensures forall c: Contract :: c.name in Registered(map[], s) && Registered(map[], s)[c.name] == c <==> c in s
  {
    forall c: Contract ensures c.name in Registered(map[], s) && Registered(map[], s)[c.name] == c <==> c in s {
      if c.name in Registered(map[], s) {
        RegisteredNames(map[], s, c.name);
        var i :| 0 <= i < |s| && s[i].name == c.name;
        RegisteredHolds(map[], s, i);
      }
      if c in s {
        var i :| 0 <= i < |s| && s[i] == c;
        RegisteredHolds(map[], s, i);
      }
    }
  }

  /**
   * Discovery is deterministic: registering the same contracts, names all different, in any two
   * orders gives registries with one and the same snapshot.
   */
  lemma DiscoveryIgnoresOrder(s: seq<Contract>, t: seq<Contract>, snapshot: seq<Contract>, snapshot': seq<Contract>)
    requires NamesDiffer(s) && NamesDiffer(t) && forall c :: c in s <==> c in t
    requires Snapshot(Registered(map[], s), snapshot) && Snapshot(Registered(map[], t), snapshot')
    ensures snapshot == snapshot' && (forall c :: c in snapshot <==> c in s)
  {
    RegisteredIsTheSet(s);
    RegisteredIsTheSet(t);
    SnapshotIsUnique(Registered(map[], s), snapshot, snapshot');
  }

  /** The catalogue after registering the risks of `s`, in order. */
  function RisksOf(s: seq<Contract>): Catalog {
    if s == [] then map[] else RisksOf(s[..|s| - 1])[s[|s| - 1].name := s[|s| - 1].risk]
  }

  lemma {:induction false} RisksOfRegistered(items: Contracts, s: seq<Contract>, name: string)
    requires forall c | c in s :: c.name in items && items[c.name] == c
    ensures name in RisksOf(s) ==> name in items && RisksOf(s)[name] == items[name].risk
    ensures name in items && items[name] in s && items[name].name == name ==> name in RisksOf(s)
  {
    if s == [] {
    } else {
      RisksOfRegistered(items, s[..|s| - 1], name);
      assert s == s[..|s| - 1] + [s[|s| - 1]];
    }
  }

  lemma RisksOfSnapshot(items: Contracts, s: seq<Contract>)
    requires GoodContracts(items) && Snapshot(items, s)
    ensures RisksOf(s) == map name | name in items :: items[name].risk
  {
    hide LexLess, RisksOf;
    forall name ensures name in RisksOf(s) <==> name in items
                ensures name in RisksOf(s) ==> RisksOf(s)[name] == items[name].risk
    {
      RisksOfRegistered(items, s, name);
    }
  }

  /** `_catalog_from_registry`: the catalogue knows exactly the registered names, with exactly their risks. */
  method CatalogFromRegistry(registry: CapabilityRegistry) returns (catalog: ToolRiskCatalog)
    requires GoodContracts(registry.items)
    ensures fresh(catalog)
    ensures catalog.entries == map name | name in registry.items :: registry.items[name].risk
  {
    hide LexLess;
    catalog := new ToolRiskCatalog();
    var contracts := registry.All();
    for i := 0 to |contracts|
      invariant catalog.entries == RisksOf(contracts[..i])
    {
      assert contracts[i] in contracts;
      assert contracts[..i + 1][..i] == contracts[..i];
      var registered := catalog.Register(contracts[i].name, contracts[i].risk);
    }
    assert contracts[..|contracts|] == contracts;
    RisksOfSnapshot(registry.items, contracts);
  }
}
