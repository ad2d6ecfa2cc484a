/** The architecture registry: ids and aliases resolving to shared implementations. */
module Registry {
  import opened Machine
  import opened Ordering

  /** An implementation: its own id, and the identity of its allocation (`Arc::ptr_eq`). */
  datatype Arch = Arch(id: string, allocation: nat)

  /** One call of `register_with_aliases`; `register` passes no aliases. */
  datatype Registration = Registration(arch: Arch, aliases: seq<string>)

  type Table = map<string, Arch>

  /** Entering aliases where nothing is registered yet. */
  function AddAliases(table: Table, arch: Arch, aliases: seq<string>): Table {
    if aliases == [] then table
    else
      var n := |aliases| - 1;
      var before := AddAliases(table, arch, aliases[..n]);
      if aliases[n] in before then before else before[aliases[n] := arch]
  }

  function Add(table: Table, r: Registration): Table {
    AddAliases(table, r.arch, r.aliases)[r.arch.id := r.arch]
  }

  function AddAll(rs: seq<Registration>): Table {
    if rs == [] then map[] else Add(AddAll(rs[..|rs| - 1]), rs[|rs| - 1])
  }

  class ArchitectureRegistry {
    var architectures: Table

    constructor ()
      ensures architectures == map[]
    {
      architectures := map[];
    }

    method RegisterWithAliases(arch: Arch, aliases: seq<string>)
      modifies this
      ensures architectures == Add(old(architectures), Registration(arch, aliases))
    {
      ghost var before := architectures;
      for i := 0 to |aliases|
        invariant architectures == AddAliases(before, arch, aliases[..i])
      {
        assert aliases[..i + 1][..i] == aliases[..i];
        if aliases[i] !in architectures {
          architectures := architectures[aliases[i] := arch];
        }
      }
      assert aliases[..|aliases|] == aliases;
      architectures := architectures[arch.id := arch];
    }

    method Register(arch: Arch)
      modifies this
      ensures architectures == Add(old(architectures), Registration(arch, []))
    {
      RegisterWithAliases(arch, []);
    }

    /** `get`; `None` is the unknown-architecture error. */
    method Get(id: string) returns (r: Option<Arch>)
      ensures r == Lookup(architectures, id)
    {
      return if id in architectures then Some(architectures[id]) else None;
    }
  }

  function Lookup(table: Table, id: string): Option<Arch> {
    if id in table then Some(table[id]) else None
  }

  // ---------------------------------------------------------------- the law of lookups

  /** The last registration whose own id is `key`. */
  function LastOwner(rs: seq<Registration>, key: string): Option<Arch> {
    if rs == [] then None
    else if rs[|rs| - 1].arch.id == key then Some(rs[|rs| - 1].arch)
    else LastOwner(rs[..|rs| - 1], key)
  }

  /** The first registration that lists `key` as an alias. */
  function FirstAlias(rs: seq<Registration>, key: string): Option<Arch> {
    if rs == [] then None
    else
      var earlier := FirstAlias(rs[..|rs| - 1], key);
      if earlier.Some? then earlier
      else if key in rs[|rs| - 1].aliases then Some(rs[|rs| - 1].arch)
      else None
  }

  lemma {:induction false} AddAliasesIs(table: Table, arch: Arch, aliases: seq<string>, key: string)
    ensures Lookup(AddAliases(table, arch, aliases), key) ==
            if key in table then Some(table[key]) else if key in aliases then Some(arch) else None
  {
    if aliases != [] {
      var n := |aliases| - 1;
      AddAliasesIs(table, arch, aliases[..n], key);
      assert aliases == aliases[..n] + [aliases[n]];
    }
  }

  /** After any sequence of registrations, a key resolves to the last registration that owns
      it, else to the first that lists it as an alias, else to nothing. An owner therefore
      wins over every alias, whenever either was registered. */
  lemma {:induction false} LookupLaw(rs: seq<Registration>, key: string)
    ensures Lookup(AddAll(rs), key) ==
            if LastOwner(rs, key).Some? then LastOwner(rs, key) else FirstAlias(rs, key)
  {
    if rs != [] {
      var n := |rs| - 1;
      LookupLaw(rs[..n], key);
      AddAliasesIs(AddAll(rs[..n]), rs[n].arch, rs[n].aliases, key);
    }
  }

  function OwnId(r: Registration): string {
    r.arch.id
  }

  lemma {:induction false} LastOwnerIff(rs: seq<Registration>, r: Registration)
    requires UniqueBy(rs, OwnId) && r in rs
    ensures LastOwner(rs, r.arch.id) == Some(r.arch)
  {
    var n := |rs| - 1;
    if rs[n].arch.id == r.arch.id {
      var i :| 0 <= i < |rs| && rs[i] == r;
      assert OwnId(rs[i]) == OwnId(rs[n]);
    } else {
      assert rs == rs[..n] + [rs[n]];
      LastOwnerIff(rs[..n], r);
    }
  }

  /** With distinct own ids, every own id resolves to its implementation after any
      permutation of the registrations. */
  lemma OwnIdsSurvivePermutation(rs: seq<Registration>, permuted: seq<Registration>, r: Registration)
    requires UniqueBy(rs, OwnId) && multiset(rs) == multiset(permuted) && r in rs
    ensures Lookup(AddAll(rs), r.arch.id) == Some(r.arch)
    ensures Lookup(AddAll(permuted), r.arch.id) == Some(r.arch)
  {
    UniqueByPermutes(rs, permuted, OwnId);
    assert r in multiset(permuted);
    LastOwnerIff(rs, r);
    LastOwnerIff(permuted, r);
    LookupLaw(rs, r.arch.id);
    LookupLaw(permuted, r.arch.id);
  }

  predicate Lists(r: Registration, key: string) {
    key in r.aliases
  }

  lemma {:induction false} FirstAliasLists(rs: seq<Registration>, key: string)
    ensures FirstAlias(rs, key).Some? <==> exists r :: r in rs && Lists(r, key)
    ensures FirstAlias(rs, key).Some? ==>
              exists r :: r in rs && Lists(r, key) && FirstAlias(rs, key) == Some(r.arch)
  {
    if rs != [] {
      var n := |rs| - 1;
      assert rs == rs[..n] + [rs[n]];
      FirstAliasLists(rs[..n], key);
      if FirstAlias(rs[..n], key).Some? {
        var r :| r in rs[..n] && Lists(r, key) && FirstAlias(rs[..n], key) == Some(r.arch);
        assert r in rs;
      } else {
        assert forall r :: r in rs && Lists(r, key) ==> r == rs[n];
        assert Lists(rs[n], key) ==> rs[n] in rs;
      }
    }
  }

  lemma {:induction false} FirstAliasHead(r: Registration, rest: seq<Registration>, key: string)
    requires Lists(r, key)
    ensures FirstAlias([r] + rest, key) == Some(r.arch)
    decreases |rest|
  {
    if rest == [] {
      assert [r] + rest == [r] && [r][..0] == [];
      assert FirstAlias([r][..0], key) == None;
    } else {
      var n := |rest| - 1;
      assert ([r] + rest)[..|rest|] == [r] + rest[..n];
      FirstAliasHead(r, rest[..n], key);
    }
  }

  lemma {:induction false} NoOwner(rs: seq<Registration>, key: string)
    requires forall r :: r in rs ==> r.arch.id != key
    ensures LastOwner(rs, key) == None
  {
    if rs != [] {
      var n := |rs| - 1;
      assert rs[n] in rs && forall r :: r in rs[..n] ==> r in rs;
      NoOwner(rs[..n], key);
    }
  }

  /** Every order of the registrations makes `key` resolve alike. */
  ghost predicate OrderFree(rs: seq<Registration>, key: string) {
    forall permuted: seq<Registration> :: multiset(permuted) == multiset(rs) ==>
      Lookup(AddAll(permuted), key) == Lookup(AddAll(rs), key)
  }

  /** All registrations that list `key` as an alias carry one implementation. */
  ghost predicate OneImplementation(rs: seq<Registration>, key: string) {
    forall a, b :: a in rs && b in rs && Lists(a, key) && Lists(b, key) ==> a.arch == b.arch
  }

  lemma UnownedLookup(rs: seq<Registration>, key: string)
    requires forall r :: r in rs ==> r.arch.id != key
    ensures Lookup(AddAll(rs), key) == FirstAlias(rs, key)
  {
    LookupLaw(rs, key);
    NoOwner(rs, key);
  }

  /** Aliases have no such luck: a key that no registration owns resolves alike in every order
      of the registrations exactly when all those that list it carry one implementation. */
  lemma AliasOrderFreeIff(rs: seq<Registration>, key: string)
    requires forall r :: r in rs ==> r.arch.id != key
    ensures OrderFree(rs, key) <==> OneImplementation(rs, key)
  {
    hide AddAll, Lookup, FirstAlias;
    if OneImplementation(rs, key) {
      forall permuted: seq<Registration> | multiset(permuted) == multiset(rs)
        ensures Lookup(AddAll(permuted), key) == Lookup(AddAll(rs), key)
      {
        SameAliasTarget(rs, permuted, key);
      }
    } else {
      var a, b :| a in rs && b in rs && Lists(a, key) && Lists(b, key) && a.arch != b.arch;
      FrontedAlias(rs, a, key);
      FrontedAlias(rs, b, key);
    }
  }

  lemma SameAliasTarget(rs: seq<Registration>, permuted: seq<Registration>, key: string)
    requires multiset(permuted) == multiset(rs) && forall r :: r in rs ==> r.arch.id != key
    requires OneImplementation(rs, key)
    ensures Lookup(AddAll(permuted), key) == Lookup(AddAll(rs), key)
  {
    hide AddAll, Lookup, FirstAlias;
    assert forall r :: r in permuted <==> r in multiset(rs);
    UnownedLookup(rs, key);
    UnownedLookup(permuted, key);
    FirstAliasLists(rs, key);
    FirstAliasLists(permuted, key);
  }

  /** Any registration can be moved to the front. */
  lemma MovedToFront(rs: seq<Registration>, r: Registration) returns (rest: seq<Registration>)
    requires r in rs
    ensures multiset([r] + rest) == multiset(rs)
  {
    var i :| 0 <= i < |rs| && rs[i] == r;
    rest := rs[..i] + rs[i + 1..];
    assert rs == rs[..i] + [r] + rs[i + 1..];
  }

  /** There, any lister of the alias wins. */
  lemma FrontedAlias(rs: seq<Registration>, r: Registration, key: string)
    requires r in rs && Lists(r, key) && forall x :: x in rs ==> x.arch.id != key
    ensures exists permuted: seq<Registration> ::
              multiset(permuted) == multiset(rs) && Lookup(AddAll(permuted), key) == Some(r.arch)
  {
    hide AddAll, Lookup, FirstAlias, Lists;
    var rest := MovedToFront(rs, r);
    var permuted := [r] + rest;
    forall x | x in permuted
      ensures x.arch.id != key
    {
      assert x in multiset(permuted);
      assert x in multiset(rs);
    }
    UnownedLookup(permuted, key);
    FirstAliasHead(r, rest, key);
  }

  /** All registrations that own `key` carry one implementation. */
  ghost predicate OneOwner(rs: seq<Registration>, key: string) {
    forall a, b :: a in rs && b in rs && a.arch.id == key && b.arch.id == key ==> a.arch == b.arch
  }

  ghost predicate Owned(rs: seq<Registration>, key: string) {
    exists r :: r in rs && r.arch.id == key
  }

  lemma {:induction false} LastOwnerOwns(rs: seq<Registration>, key: string)
    requires Owned(rs, key)
    ensures exists r :: r in rs && r.arch.id == key && LastOwner(rs, key) == Some(r.arch)
  {
    var n := |rs| - 1;
    assert rs == rs[..n] + [rs[n]];
    if rs[n].arch.id == key {
      assert rs[n] in rs;
    } else {
      var r :| r in rs && r.arch.id == key;
      assert r in rs[..n];
      LastOwnerOwns(rs[..n], key);
      var x :| x in rs[..n] && x.arch.id == key && LastOwner(rs[..n], key) == Some(x.arch);
      assert x in rs;
    }
  }

  lemma OwnedLookup(rs: seq<Registration>, key: string)
    requires Owned(rs, key)
    ensures exists r :: r in rs && r.arch.id == key && Lookup(AddAll(rs), key) == Some(r.arch)
  {
    LookupLaw(rs, key);
    LastOwnerOwns(rs, key);
  }

  lemma SameOwner(rs: seq<Registration>, permuted: seq<Registration>, key: string)
    requires multiset(permuted) == multiset(rs) && Owned(rs, key) && OneOwner(rs, key)
    ensures Lookup(AddAll(permuted), key) == Lookup(AddAll(rs), key)
  {
    hide AddAll, Lookup;
    assert forall r :: r in permuted <==> r in multiset(rs);
    OwnedLookup(rs, key);
    OwnedLookup(permuted, key);
  }

  /** Any owner can be moved to the end, where it wins. */
  lemma LastInLine(rs: seq<Registration>, r: Registration)
    requires r in rs
    ensures exists permuted: seq<Registration> ::
              multiset(permuted) == multiset(rs) && Lookup(AddAll(permuted), r.arch.id) == Some(r.arch)
  {
    hide AddAll, Lookup;
    var rest := MovedToFront(rs, r);
    var permuted := rest + [r];
    assert multiset(permuted) == multiset([r] + rest);
    LookupLaw(permuted, r.arch.id);
  }

  /** The same for a key that some registration owns: aliases no longer count, and it resolves
      alike in every order exactly when all its owners carry one implementation. */
  lemma OwnerOrderFreeIff(rs: seq<Registration>, key: string)
    requires Owned(rs, key)
    ensures OrderFree(rs, key) <==> OneOwner(rs, key)
  {
    hide AddAll, Lookup, LastOwner;
    if OneOwner(rs, key) {
      forall permuted: seq<Registration> | multiset(permuted) == multiset(rs)
        ensures Lookup(AddAll(permuted), key) == Lookup(AddAll(rs), key)
      {
        SameOwner(rs, permuted, key);
      }
    } else {
      var a, b :| a in rs && b in rs && a.arch.id == key && b.arch.id == key && a.arch != b.arch;
      LastInLine(rs, a);
      LastInLine(rs, b);
    }
  }

  // ---------------------------------------------------------------- alias classes

  /** `aliases_of`: every key sharing the allocation that `id` resolves to. */
  function AliasesOf(table: Table, id: string): set<string> {
    if id !in table then {}
    else set k | k in table && table[k].allocation == table[id].allocation
  }

  /** Alias sets partition the keys: each key is in its own set, and the sets of two keys are
      equal if they share an implementation and disjoint otherwise. */
  lemma AliasesPartitionKeys(table: Table, a: string, b: string)
    requires a in table && b in table
    ensures a in AliasesOf(table, a)
    ensures AliasesOf(table, a) <= table.Keys
    ensures b in AliasesOf(table, a) <==> AliasesOf(table, a) == AliasesOf(table, b)
    ensures b !in AliasesOf(table, a) <==> AliasesOf(table, a) !! AliasesOf(table, b)
  {
    var x, y := AliasesOf(table, a), AliasesOf(table, b);
    assert a in x && b in y;
    if table[a].allocation == table[b].allocation {
      assert x == y && b in x;
    } else {
      assert b !in x;
      forall k | k in x
        ensures k !in y
      {
        assert table[k].allocation == table[a].allocation;
      }
    }
  }

  /** The registration that wins a key. */
  function Winner(rs: seq<Registration>, key: string): Option<Arch> {
    if LastOwner(rs, key).Some? then LastOwner(rs, key) else FirstAlias(rs, key)
  }

  /** After any registrations, a key is among the aliases of another exactly when both resolve,
      to one shared implementation; an unknown id has no aliases. */
  lemma AliasesShareImplementation(rs: seq<Registration>, id: string, key: string)
    ensures key in AliasesOf(AddAll(rs), id) <==>
            && Winner(rs, id).Some? && Winner(rs, key).Some?
            && Winner(rs, id).value.allocation == Winner(rs, key).value.allocation
    ensures Winner(rs, id).None? ==> AliasesOf(AddAll(rs), id) == {}
  {
    LookupLaw(rs, id);
    LookupLaw(rs, key);
    hide AddAll, LastOwner, FirstAlias;
  }
}
