/** Tensor hashes: the model manifest, verification against an earlier one, and the
    `name:hex` entries of the metadata. Strings are UTF-8 code units. */
module Integrity {
  import opened Machine
  import opened Text
  import opened Ordering
  import opened GgufTypes

  /** Blake3, of which only being a function into 32 bytes is used. */
  type Hasher = Bytes -> Hash32

  datatype TensorHash = TensorHash(name: string, hash: Hash32, dataSize: U64)

  datatype Manifest = Manifest(tensorHashes: seq<TensorHash>, modelHash: Hash32, totalBytes: U64)

  /** The tensor table in the order the hash map iterates, and where the data section starts. */
  datatype TensorStore = TensorStore(infos: seq<TensorInfo>, dataOffset: U64)

  /** `hash_tensor` */
  function HashTensor(hash: Hasher, data: Bytes, t: TensorInfo, base: U64): Result<TensorHash, SliceError> {
    match TensorDataSlice(data, t, base)
    case Err(e) => Err(e)
    case Ok(slice) =>
      if |slice| < TWO_64 then Ok(TensorHash(t.name, hash(slice), |slice|)) else Err(SizeOverflow(t.name))
  }

  /** The recorded size is the size of the hashed bytes. */
  lemma HashedSizeIsDataSize(hash: Hasher, data: Bytes, t: TensorInfo, base: U64)
    ensures TensorDataSlice(data, t, base).Ok? ==>
              && HashTensor(hash, data, t, base).Ok?
              && TryDataSize(t.dimensions, t.tensorType) == Some(HashTensor(hash, data, t, base).value.dataSize)
    ensures TensorDataSlice(data, t, base).Err? ==>
              HashTensor(hash, data, t, base) == Err(TensorDataSlice(data, t, base).error)
  {
    hide TryDataSize;
  }

  predicate NameLe(a: TensorInfo, b: TensorInfo) {
    StrLe(a.name, b.name)
  }

  function HashAll(hash: Hasher, data: Bytes, base: U64, ts: seq<TensorInfo>): Result<seq<TensorHash>, SliceError> {
    if ts == [] then Ok([])
    else match HashTensor(hash, data, ts[0], base)
      case Err(e) => Err(e)
      case Ok(th) =>
        match HashAll(hash, data, base, ts[1..])
        case Err(e) => Err(e)
        case Ok(rest) => Ok([th] + rest)
  }

  /** The bytes fed to the combined hash. */
  function Combined(hashes: seq<TensorHash>): Bytes {
    if hashes == [] then [] else Combined(hashes[..|hashes| - 1]) + hashes[|hashes| - 1].hash
  }

  function TotalSize(hashes: seq<TensorHash>): nat {
    if hashes == [] then 0 else TotalSize(hashes[..|hashes| - 1]) + hashes[|hashes| - 1].dataSize
  }

  function ManifestOf(hash: Hasher, data: Bytes, store: TensorStore): Result<Manifest, SliceError> {
    match HashAll(hash, data, store.dataOffset, Sort(store.infos, NameLe))
    case Err(e) => Err(e)
    case Ok(hashes) => Ok(Manifest(hashes, hash(Combined(hashes)), Saturate64(TotalSize(hashes))))
  }

  /** `compute_model_manifest` */
  method ComputeModelManifest(hash: Hasher, data: Bytes, store: TensorStore) returns (r: Result<Manifest, SliceError>)
    ensures r == ManifestOf(hash, data, store)
  {
    hide HashTensor, Sort, Combined, TotalSize, Saturate64;
    var entries := Sort(store.infos, NameLe);
    var hashes: seq<TensorHash> := [];
    var totalBytes: U64 := 0;
    assert entries[0..] == entries;
    PrependNothing(HashAll(hash, data, store.dataOffset, entries));
    NoBytesYet();
    for i := 0 to |entries|
      invariant HashAll(hash, data, store.dataOffset, entries)
             == Prepend(hashes, HashAll(hash, data, store.dataOffset, entries[i..]))
      invariant totalBytes == Saturate64(TotalSize(hashes))
    {
      assert entries[i..][0] == entries[i] && entries[i..][1..] == entries[i + 1..];
      var th := HashTensor(hash, data, entries[i], store.dataOffset);
      if th.Err? {
        return Err(th.error);
      }
      PrependAssociates(hashes, th.value, HashAll(hash, data, store.dataOffset, entries[i + 1..]));
      AddSize(hashes, th.value);
      totalBytes := Saturate64(totalBytes + th.value.dataSize);
      hashes := hashes + [th.value];
    }
    assert entries[|entries|..] == [] && hashes + [] == hashes;
    var modelHash := HashHashes(hash, hashes);
    return Ok(Manifest(hashes, modelHash, totalBytes));
  }

  /** The incremental hasher over the per-tensor hashes. */
  method HashHashes(hash: Hasher, hashes: seq<TensorHash>) returns (modelHash: Hash32)
    ensures modelHash == hash(Combined(hashes))
  {
    var fed: Bytes := [];
    for i := 0 to |hashes|
      invariant fed == Combined(hashes[..i])
    {
      assert hashes[..i + 1][..i] == hashes[..i];
      fed := fed + hashes[i].hash;
    }
    assert hashes[..|hashes|] == hashes;
    return hash(fed);
  }

  lemma NoBytesYet()
    ensures Saturate64(TotalSize([])) == 0
  {
  }

  /** Saturating after every addition is saturating once. */
  lemma AddSize(hashes: seq<TensorHash>, th: TensorHash)
    ensures Saturate64(Saturate64(TotalSize(hashes)) + th.dataSize) == Saturate64(TotalSize(hashes + [th]))
  {
    assert (hashes + [th])[..|hashes|] == hashes;
  }

  // ---------------------------------------------------------------- what the manifest depends on

  lemma NameOrderTotal(ts: seq<TensorInfo>)
    requires UniqueBy(ts, NameOf)
    ensures TotalOn(multiset(ts), NameLe)
  {
    forall a: TensorInfo, b: TensorInfo | true
      ensures NameLe(a, b) || NameLe(b, a)
    {
      StrLeTotal(a.name, b.name);
    }
    forall a: TensorInfo, b: TensorInfo, c: TensorInfo | NameLe(a, b) && NameLe(b, c)
      ensures NameLe(a, c)
    {
      StrLeTransitive(a.name, b.name, c.name);
    }
    forall a, b | a in multiset(ts) && b in multiset(ts) && NameLe(a, b) && NameLe(b, a)
      ensures a == b
    {
      StrLeAntisymmetric(a.name, b.name);
      var i :| 0 <= i < |ts| && ts[i] == a;
      var j :| 0 <= j < |ts| && ts[j] == b;
      assert NameOf(ts[i]) == NameOf(ts[j]);
    }
  }

  /** The manifest, or the refusal, does not depend on the iteration order of the store. */
  lemma ManifestIgnoresOrder(hash: Hasher, data: Bytes, store1: TensorStore, store2: TensorStore)
    requires UniqueBy(store1.infos, NameOf) && multiset(store1.infos) == multiset(store2.infos)
    requires store1.dataOffset == store2.dataOffset
    ensures ManifestOf(hash, data, store1) == ManifestOf(hash, data, store2)
  {
    NameOrderTotal(store1.infos);
    SortOrderFree(store1.infos, store2.infos, NameLe);
  }

  /** Position `p` of the file belongs to some tensor. */
  ghost predicate Covered(store: TensorStore, p: nat) {
    exists t :: t in store.infos && CoveredBy(store.dataOffset, t, p)
  }

  ghost predicate CoveredBy(base: U64, t: TensorInfo, p: nat) {
    var start := base + t.offset;
    TryDataSize(t.dimensions, t.tensorType).Some?
    && start <= p < start + TryDataSize(t.dimensions, t.tensorType).value
  }

  lemma SliceFromCoveredBytes(data1: Bytes, data2: Bytes, t: TensorInfo, base: U64)
    requires |data1| == |data2|
    requires forall p :: 0 <= p < |data1| && CoveredBy(base, t, p) ==> data1[p] == data2[p]
    ensures TensorDataSlice(data1, t, base) == TensorDataSlice(data2, t, base)
  {
    hide TryDataSize;
    if TensorDataSlice(data1, t, base).Ok? {
      var start := base + t.offset;
      var end := start + TryDataSize(t.dimensions, t.tensorType).value;
      assert forall p :: start <= p < end ==> CoveredBy(base, t, p);
      assert data1[start..end] == data2[start..end];
    }
  }

  lemma {:induction false} HashAllFromSlices(hash: Hasher, data1: Bytes, data2: Bytes, base: U64, ts: seq<TensorInfo>)
    requires forall t :: t in ts ==> TensorDataSlice(data1, t, base) == TensorDataSlice(data2, t, base)
    ensures HashAll(hash, data1, base, ts) == HashAll(hash, data2, base, ts)
  {
    hide TensorDataSlice;
    if ts != [] {
      assert ts[0] in ts;
      HashAllFromSlices(hash, data1, data2, base, ts[1..]);
    }
  }

  /** Bytes outside every tensor do not reach the manifest. */
  lemma ManifestSeesOnlyTensors(hash: Hasher, data1: Bytes, data2: Bytes, store: TensorStore)
    requires |data1| == |data2|
    requires forall p :: 0 <= p < |data1| && Covered(store, p) ==> data1[p] == data2[p]
    ensures ManifestOf(hash, data1, store) == ManifestOf(hash, data2, store)
  {
    hide TensorDataSlice, CoveredBy, HashAll, Sort;
    var sorted := Sort(store.infos, NameLe);
    SortPermutes(store.infos, NameLe);
    forall t | t in sorted
      ensures TensorDataSlice(data1, t, store.dataOffset) == TensorDataSlice(data2, t, store.dataOffset)
    {
      assert t in multiset(store.infos);
      assert t in store.infos;
      SliceFromCoveredBytes(data1, data2, t, store.dataOffset);
    }
    HashAllFromSlices(hash, data1, data2, store.dataOffset, sorted);
  }

  /** The combined hash is fed 32 bytes per tensor, so what it is fed determines every
      per-tensor hash and their number. */
  lemma {:induction false} CombinedDeterminesHashes(a: seq<TensorHash>, b: seq<TensorHash>)
    requires Combined(a) == Combined(b)
    ensures |a| == |b| && forall i :: 0 <= i < |a| ==> a[i].hash == b[i].hash
    decreases |a|
  {
    CombinedLength(a);
    CombinedLength(b);
    if a != [] {
      var n := |a| - 1;
      CombinedLength(a[..n]);
      CombinedLength(b[..n]);
      assert Combined(a)[..32 * n] == Combined(a[..n]) && Combined(b)[..32 * n] == Combined(b[..n]);
      assert Combined(a)[32 * n..] == a[n].hash && Combined(b)[32 * n..] == b[n].hash;
      CombinedDeterminesHashes(a[..n], b[..n]);
      assert forall i :: 0 <= i < n ==> a[i] == a[..n][i] && b[i] == b[..n][i];
    }
  }

  lemma {:induction false} CombinedLength(a: seq<TensorHash>)
    ensures |Combined(a)| == 32 * |a|
  {
    if a != [] {
      CombinedLength(a[..|a| - 1]);
    }
  }

  // ---------------------------------------------------------------- verification

  datatype Failure = Failure(tensorName: string, expected: Hash32, actual: Hash32)

  /** Collecting pairs into a map: of several entries with one name the last one counts. */
  function ExpectedMap(hashes: seq<TensorHash>): map<string, Hash32> {
    if hashes == [] then map[]
    else
      var n := |hashes| - 1;
      ExpectedMap(hashes[..n])[hashes[n].name := hashes[n].hash]
  }

  function Failures(actual: seq<TensorHash>, expected: map<string, Hash32>): seq<Failure> {
    if actual == [] then []
    else
      var n := |actual| - 1;
      var th := actual[n];
      Failures(actual[..n], expected)
      + if th.name in expected && th.hash != expected[th.name]
        then [Failure(th.name, expected[th.name], th.hash)] else []
  }

  function Verified(hash: Hasher, data: Bytes, store: TensorStore, manifest: Manifest)
    : Result<seq<Failure>, SliceError>
  {
    match ManifestOf(hash, data, store)
    case Err(e) => Err(e)
    case Ok(actual) => Ok(Failures(actual.tensorHashes, ExpectedMap(manifest.tensorHashes)))
  }

  /** `verify_model` */
  method VerifyModel(hash: Hasher, data: Bytes, store: TensorStore, manifest: Manifest)
    returns (r: Result<seq<Failure>, SliceError>)
    ensures r == Verified(hash, data, store, manifest)
  {
    hide ManifestOf;
    var computed := ComputeModelManifest(hash, data, store);
    if computed.Err? {
      return Err(computed.error);
    }
    var actual, given := computed.value.tensorHashes, manifest.tensorHashes;
    var expected: map<string, Hash32> := map[];
    for i := 0 to |given|
      invariant expected == ExpectedMap(given[..i])
    {
      assert given[..i + 1][..i] == given[..i];
      expected := expected[given[i].name := given[i].hash];
    }
    assert given[..|given|] == given;
    var failures: seq<Failure> := [];
    for i := 0 to |actual|
      invariant failures == Failures(actual[..i], expected)
    {
      assert actual[..i + 1][..i] == actual[..i];
      var th := actual[i];
      if th.name in expected {
        if th.hash != expected[th.name] {
          failures := failures + [Failure(th.name, expected[th.name], th.hash)];
        }
      }
    }
    assert actual[..|actual|] == actual;
    return Ok(failures);
  }

  lemma {:induction false} HashAllCovers(hash: Hasher, data: Bytes, base: U64, ts: seq<TensorInfo>)
    requires HashAll(hash, data, base, ts).Ok?
    ensures var hashes := HashAll(hash, data, base, ts).value;
            && |hashes| == |ts|
            && forall i :: 0 <= i < |ts| ==>
                 && hashes[i].name == ts[i].name
                 && HashTensor(hash, data, ts[i], base) == Ok(hashes[i])
  {
    if ts != [] {
      HashAllCovers(hash, data, base, ts[1..]);
      assert forall i :: 0 < i < |ts| ==> ts[i] == ts[1..][i - 1];
      hide TensorDataSlice;
    }
  }

  /** A list of entries in strictly increasing name order. */
  ghost predicate Ascending(names: seq<string>) {
    forall i, j :: 0 <= i < j < |names| ==> StrLt(names[i], names[j])
  }

  function HashNames(hashes: seq<TensorHash>): (names: seq<string>)
    ensures |names| == |hashes|
  {
    seq(|hashes|, i requires 0 <= i < |hashes| => hashes[i].name)
  }

  function FailureNames(failures: seq<Failure>): (names: seq<string>)
    ensures |names| == |failures|
  {
    seq(|failures|, i requires 0 <= i < |failures| => failures[i].tensorName)
  }

  /** A manifest lists each tensor of the store once, in name order. */
  lemma ManifestAscending(hash: Hasher, data: Bytes, store: TensorStore)
    requires UniqueBy(store.infos, NameOf) && ManifestOf(hash, data, store).Ok?
    ensures Ascending(HashNames(ManifestOf(hash, data, store).value.tensorHashes))
  {
    hide HashTensor, HashAll;
    var sorted := Sort(store.infos, NameLe);
    var hashes := ManifestOf(hash, data, store).value.tensorHashes;
    SortPermutes(store.infos, NameLe);
    UniqueByPermutes(store.infos, sorted, NameOf);
    NameOrderTotal(store.infos);
    SortSorts(store.infos, NameLe);
    HashAllCovers(hash, data, store.dataOffset, sorted);
    forall i, j | 0 <= i < j < |hashes|
      ensures StrLt(HashNames(hashes)[i], HashNames(hashes)[j])
    {
      assert NameLe(sorted[i], sorted[j]) && NameOf(sorted[i]) != NameOf(sorted[j]);
    }
  }

  /** `f` reports the tensor of `th`, which is expected with another hash. */
  predicate Mismatch(th: TensorHash, expected: map<string, Hash32>, f: Failure) {
    && th.name in expected && th.hash != expected[th.name]
    && f == Failure(th.name, expected[th.name], th.hash)
  }

  ghost predicate Reported(actual: seq<TensorHash>, expected: map<string, Hash32>, f: Failure) {
    exists th :: th in actual && Mismatch(th, expected, f)
  }

  lemma {:induction false} FailuresAreMismatches(actual: seq<TensorHash>, expected: map<string, Hash32>, f: Failure)
    ensures f in Failures(actual, expected) <==> Reported(actual, expected, f)
  {
    if actual != [] {
      var n := |actual| - 1;
      var init, last := actual[..n], actual[n];
      assert actual == init + [last];
      FailuresAreMismatches(init, expected, f);
      if Reported(init, expected, f) {
        var th :| th in init && Mismatch(th, expected, f);
        assert th in actual;
      }
      if Mismatch(last, expected, f) {
        assert last in actual;
      }
    }
  }

  lemma AscendingPrefix(names: seq<string>, n: nat)
    requires Ascending(names) && n <= |names|
    ensures Ascending(names[..n])
  {
  }

  lemma {:induction false} FailuresAscend(actual: seq<TensorHash>, expected: map<string, Hash32>)
    requires Ascending(HashNames(actual))
    ensures Ascending(FailureNames(Failures(actual, expected)))
    ensures forall i :: 0 <= i < |Failures(actual, expected)| ==>
              Failures(actual, expected)[i].tensorName in HashNames(actual)
  {
    hide StrLe;
    if actual != [] {
      var n := |actual| - 1;
      var init, last := actual[..n], actual[n];
      assert HashNames(actual)[..n] == HashNames(init) && HashNames(actual)[n] == last.name;
      AscendingPrefix(HashNames(actual), n);
      FailuresAscend(init, expected);
      var earlier, all := Failures(init, expected), Failures(actual, expected);
      forall i | 0 <= i < |earlier|
        ensures StrLt(earlier[i].tensorName, last.name) && earlier[i].tensorName in HashNames(actual)
      {
        var j :| 0 <= j < n && HashNames(init)[j] == earlier[i].tensorName;
        assert HashNames(actual)[j] == earlier[i].tensorName;
      }
      forall i, j | 0 <= i < j < |all|
        ensures StrLt(FailureNames(all)[i], FailureNames(all)[j])
      {
        if j < |earlier| {
          assert StrLt(FailureNames(earlier)[i], FailureNames(earlier)[j]);
        } else {
          assert all[i] == earlier[i] && all[j].tensorName == last.name;
        }
      }
      forall i | 0 <= i < |all|
        ensures all[i].tensorName in HashNames(actual)
      {
        assert i < |earlier| ==> all[i] == earlier[i];
      }
    }
  }

  lemma {:induction false} ExpectedMapIs(hashes: seq<TensorHash>)
    requires Ascending(HashNames(hashes))
    ensures forall th :: th in hashes ==> th.name in ExpectedMap(hashes) && ExpectedMap(hashes)[th.name] == th.hash
    ensures forall name :: name in ExpectedMap(hashes) ==> name in HashNames(hashes)
  {
    hide StrLe;
    if hashes != [] {
      var n := |hashes| - 1;
      var init, last := hashes[..n], hashes[n];
      assert hashes == init + [last];
      assert HashNames(hashes)[..n] == HashNames(init);
      assert HashNames(hashes)[n] == last.name;
      forall i, j | 0 <= i < j < n
        ensures StrLt(HashNames(init)[i], HashNames(init)[j])
      {
        assert StrLt(HashNames(hashes)[i], HashNames(hashes)[j]);
      }
      ExpectedMapIs(init);
      forall th | th in init
        ensures th.name != last.name
      {
        var i :| 0 <= i < n && init[i] == th;
        assert StrLt(HashNames(hashes)[i], HashNames(hashes)[n]);
      }
    }
  }

  /** Verification reports, in strictly increasing name order, precisely the tensors of the
      store that the manifest also lists but with another hash; of repeated names in the
      manifest the last counts. */
  lemma VerificationExact(hash: Hasher, data: Bytes, store: TensorStore, manifest: Manifest)
    requires UniqueBy(store.infos, NameOf)
    requires Verified(hash, data, store, manifest).Ok?
    ensures var failures := Verified(hash, data, store, manifest).value;
            && Ascending(FailureNames(failures))
            && forall f :: f in failures <==>
                 Reported(ManifestOf(hash, data, store).value.tensorHashes, ExpectedMap(manifest.tensorHashes), f)
  {
    hide ManifestOf, ExpectedMap, Failures, Ascending, Reported;
    var actual, expected := ManifestOf(hash, data, store).value.tensorHashes, ExpectedMap(manifest.tensorHashes);
    ManifestAscending(hash, data, store);
    FailuresAscend(actual, expected);
    forall f | true
      ensures f in Failures(actual, expected) <==> Reported(actual, expected, f)
    {
      FailuresAreMismatches(actual, expected, f);
    }
  }

  /** Checking a store against a manifest taken from other bytes finds nothing exactly when
      every tensor hashes to what it did; in particular nothing for its own manifest. */
  lemma CleanIffSameHashes(hash: Hasher, data: Bytes, earlier: Bytes, store: TensorStore)
    requires UniqueBy(store.infos, NameOf)
    requires ManifestOf(hash, data, store).Ok? && ManifestOf(hash, earlier, store).Ok?
    ensures Verified(hash, data, store, ManifestOf(hash, earlier, store).value) == Ok([]) <==>
            ManifestOf(hash, data, store).value.tensorHashes == ManifestOf(hash, earlier, store).value.tensorHashes
    ensures Verified(hash, data, store, ManifestOf(hash, data, store).value) == Ok([])
  {
    hide ManifestOf, ExpectedMap, Failures, Ascending;
    var now := ManifestOf(hash, data, store).value.tensorHashes;
    var was := ManifestOf(hash, earlier, store).value.tensorHashes;
    ManifestAscending(hash, data, store);
    ManifestAscending(hash, earlier, store);
    SameManifestClean(now);
    if now != was {
      SameTensorsListed(hash, data, earlier, store);
      var i :| 0 <= i < |now| && now[i].hash != was[i].hash;
      DifferenceReported(now, was, i);
    }
  }

  /** Two tensors' bytes that hash alike are alike. */
  ghost predicate NoCollision(hash: Hasher, data: Bytes, earlier: Bytes, t: TensorInfo, base: U64) {
    var a, b := TensorDataSlice(data, t, base), TensorDataSlice(earlier, t, base);
    a.Ok? && b.Ok? && hash(a.value) == hash(b.value) ==> a == b
  }

  /** So, short of a hash collision, a clean verification means every tensor is unchanged byte
      for byte, and any change to a tensor is reported. */
  lemma CleanIffSameBytes(hash: Hasher, data: Bytes, earlier: Bytes, store: TensorStore)
    requires UniqueBy(store.infos, NameOf)
    requires ManifestOf(hash, data, store).Ok? && ManifestOf(hash, earlier, store).Ok?
    requires forall t :: t in store.infos ==> NoCollision(hash, data, earlier, t, store.dataOffset)
    ensures Verified(hash, data, store, ManifestOf(hash, earlier, store).value) == Ok([]) <==>
            forall t :: t in store.infos ==>
              TensorDataSlice(data, t, store.dataOffset) == TensorDataSlice(earlier, t, store.dataOffset)
  {
    hide TensorDataSlice, HashAll, Sort, Verified, HashTensor;
    var sorted, base := Sort(store.infos, NameLe), store.dataOffset;
    var now := ManifestOf(hash, data, store).value.tensorHashes;
    var was := ManifestOf(hash, earlier, store).value.tensorHashes;
    CleanIffSameHashes(hash, data, earlier, store);
    SortPermutes(store.infos, NameLe);
    assert forall t :: t in store.infos <==> t in multiset(sorted);
    if now == was {
      HashAllCovers(hash, data, base, sorted);
      HashAllCovers(hash, earlier, base, sorted);
      forall t | t in store.infos
        ensures TensorDataSlice(data, t, base) == TensorDataSlice(earlier, t, base)
      {
        assert t in sorted;
        var i :| 0 <= i < |sorted| && sorted[i] == t;
        assert HashTensor(hash, data, sorted[i], base) == HashTensor(hash, earlier, sorted[i], base);
        SameHashSameBytes(hash, data, earlier, t, base);
      }
    }
    if forall t :: t in store.infos ==> TensorDataSlice(data, t, base) == TensorDataSlice(earlier, t, base) {
      forall t | t in sorted
        ensures TensorDataSlice(data, t, base) == TensorDataSlice(earlier, t, base)
      {
        assert t in multiset(sorted);
      }
      HashAllFromSlices(hash, data, earlier, base, sorted);
    }
  }

  lemma SameHashSameBytes(hash: Hasher, data: Bytes, earlier: Bytes, t: TensorInfo, base: U64)
    requires NoCollision(hash, data, earlier, t, base)
    requires HashTensor(hash, data, t, base).Ok?
    requires HashTensor(hash, data, t, base) == HashTensor(hash, earlier, t, base)
    ensures TensorDataSlice(data, t, base) == TensorDataSlice(earlier, t, base)
  {
    hide TensorDataSlice;
  }

  /** Manifests of one store list the same tensors with the same sizes. */
  lemma SameTensorsListed(hash: Hasher, data: Bytes, earlier: Bytes, store: TensorStore)
    requires ManifestOf(hash, data, store).Ok? && ManifestOf(hash, earlier, store).Ok?
    ensures var now := ManifestOf(hash, data, store).value.tensorHashes;
            var was := ManifestOf(hash, earlier, store).value.tensorHashes;
            && |now| == |was|
            && forall i :: 0 <= i < |now| ==> now[i].name == was[i].name && now[i].dataSize == was[i].dataSize
  {
    hide HashTensor, HashAll, Sort;
    var sorted := Sort(store.infos, NameLe);
    HashAllCovers(hash, data, store.dataOffset, sorted);
    HashAllCovers(hash, earlier, store.dataOffset, sorted);
    var base := store.dataOffset;
    forall i | 0 <= i < |sorted|
      ensures var a, b := HashTensor(hash, data, sorted[i], base), HashTensor(hash, earlier, sorted[i], base);
              a.Ok? && b.Ok? ==> a.value.dataSize == b.value.dataSize
    {
      if HashTensor(hash, data, sorted[i], base).Ok? && HashTensor(hash, earlier, sorted[i], base).Ok? {
        SizesDoNotDiffer(hash, data, earlier, base, sorted[i]);
      }
    }
  }

  lemma DifferenceReported(now: seq<TensorHash>, was: seq<TensorHash>, i: nat)
    requires Ascending(HashNames(was)) && i < |now| && i < |was|
    requires now[i].name == was[i].name && now[i].hash != was[i].hash
    ensures Failures(now, ExpectedMap(was)) != []
  {
    hide Ascending, ExpectedMap;
    ExpectedMapIs(was);
    var f := Failure(now[i].name, was[i].hash, now[i].hash);
    assert now[i] in now && was[i] in was;
    assert Mismatch(now[i], ExpectedMap(was), f);
    FailuresAreMismatches(now, ExpectedMap(was), f);
  }

  lemma SizesDoNotDiffer(hash: Hasher, data: Bytes, earlier: Bytes, base: U64, t: TensorInfo)
    requires HashTensor(hash, data, t, base).Ok? && HashTensor(hash, earlier, t, base).Ok?
    ensures HashTensor(hash, data, t, base).value.dataSize == HashTensor(hash, earlier, t, base).value.dataSize
  {
    HashedSizeIsDataSize(hash, data, t, base);
    HashedSizeIsDataSize(hash, earlier, t, base);
  }

  lemma SameManifestClean(hashes: seq<TensorHash>)
    requires Ascending(HashNames(hashes))
    ensures Failures(hashes, ExpectedMap(hashes)) == []
  {
    hide Ascending, Failures, ExpectedMap;
    ExpectedMapIs(hashes);
    var failures := Failures(hashes, ExpectedMap(hashes));
    forall f | true
      ensures f !in failures
    {
      FailuresAreMismatches(hashes, ExpectedMap(hashes), f);
    }
    HasMember(failures);
  }

  lemma HasMember(failures: seq<Failure>)
    ensures failures == [] || exists f :: f in failures
  {
    if failures != [] {
      assert failures[0] in failures;
    }
  }

  // ---------------------------------------------------------------- what a manifest lists

  /** The combined hash is fed the hashes in order, 32 bytes each. */
  lemma {:induction false} CombinedAt(hashes: seq<TensorHash>, i: nat)
    requires i < |hashes|
    ensures |Combined(hashes)| == 32 * |hashes|
    ensures Combined(hashes)[32 * i..32 * i + 32] == hashes[i].hash
  {
    var n := |hashes| - 1;
    CombinedLength(hashes);
    CombinedLength(hashes[..n]);
    if i == n {
      assert Combined(hashes)[32 * n..32 * n + 32] == hashes[n].hash;
    } else {
      CombinedAt(hashes[..n], i);
      assert Combined(hashes)[32 * i..32 * i + 32] == Combined(hashes[..n])[32 * i..32 * i + 32];
    }
  }

  /** The sizes of two lists add up. */
  lemma {:induction false} TotalSizeAdds(a: seq<TensorHash>, b: seq<TensorHash>, th: TensorHash)
    ensures TotalSize(a + b) == TotalSize(a) + TotalSize(b)
    ensures TotalSize([th]) == th.dataSize
    decreases |b|
  {
    if b == [] {
      assert a + b == a;
    } else {
      var n := |b| - 1;
      assert (a + b)[..|a| + n] == a + b[..n];
      TotalSizeAdds(a, b[..n], th);
    }
  }

  /** A manifest lists, for each tensor and for nothing else, its name, its exact size and the
      hash of exactly its bytes in the file. */
  lemma ManifestLists(hash: Hasher, data: Bytes, store: TensorStore, th: TensorHash)
    requires ManifestOf(hash, data, store).Ok?
    ensures th in ManifestOf(hash, data, store).value.tensorHashes <==>
            exists t :: t in store.infos && Lists(hash, data, store.dataOffset, t, th)
    ensures |ManifestOf(hash, data, store).value.tensorHashes| == |store.infos|
    ensures ManifestOf(hash, data, store).value.modelHash
         == hash(Combined(ManifestOf(hash, data, store).value.tensorHashes))
    ensures ManifestOf(hash, data, store).value.totalBytes as int
         == var total := TotalSize(ManifestOf(hash, data, store).value.tensorHashes);
            if total < TWO_64 then total else TWO_64 - 1
  {
    hide HashAll, Sort, TensorDataSlice, TotalSize, Combined;
    var sorted, hashes := Sort(store.infos, NameLe), ManifestOf(hash, data, store).value.tensorHashes;
    SortPermutes(store.infos, NameLe);
    HashAllCovers(hash, data, store.dataOffset, sorted);
    forall t | t in store.infos
      ensures exists i :: 0 <= i < |sorted| && sorted[i] == t
    {
      assert t in multiset(sorted);
    }
    forall i | 0 <= i < |sorted|
      ensures sorted[i] in store.infos && Lists(hash, data, store.dataOffset, sorted[i], hashes[i])
    {
      assert sorted[i] in multiset(store.infos);
      HashedBytes(hash, data, store.dataOffset, sorted[i]);
    }
    if th in hashes {
      var i :| 0 <= i < |hashes| && hashes[i] == th;
      assert Lists(hash, data, store.dataOffset, sorted[i], th);
    }
    if exists t :: t in store.infos && Lists(hash, data, store.dataOffset, t, th) {
      var t :| t in store.infos && Lists(hash, data, store.dataOffset, t, th);
      var i :| 0 <= i < |sorted| && sorted[i] == t;
      assert hashes[i] == th;
    }
  }

  /** `th` is about tensor `t` of a file whose data starts at `base`. */
  predicate Lists(hash: Hasher, data: Bytes, base: U64, t: TensorInfo, th: TensorHash) {
    var start, size := base as int + t.offset, ExactSize(t.dimensions, t.tensorType);
    && start + size <= |data|
    && th.name == t.name && th.dataSize == size && th.hash == hash(data[start..start + size])
  }

  lemma HashedBytes(hash: Hasher, data: Bytes, base: U64, t: TensorInfo)
    requires HashTensor(hash, data, t, base).Ok?
    ensures Lists(hash, data, base, t, HashTensor(hash, data, t, base).value)
  {
    hide ExactSize, TryDataSize;
    TryDataSizeExact(t.dimensions, t.tensorType);
  }

  // ---------------------------------------------------------------- what is expected

  /** The last of the listed hashes under a name. */
  function LastListed(hashes: seq<TensorHash>, name: string): Option<Hash32> {
    if hashes == [] then None
    else if hashes[|hashes| - 1].name == name then Some(hashes[|hashes| - 1].hash)
    else LastListed(hashes[..|hashes| - 1], name)
  }

  lemma {:induction false} LastListedCounts(hashes: seq<TensorHash>, name: string)
    ensures (if name in ExpectedMap(hashes) then Some(ExpectedMap(hashes)[name]) else None) == LastListed(hashes, name)
  {
    if hashes != [] {
      LastListedCounts(hashes[..|hashes| - 1], name);
    }
  }

  /** A failure is reported exactly for a tensor of the store whose last listed hash is another
      than the one its bytes have now; it names the tensor, the listed hash and the new one. */
  lemma ReportedIff(hash: Hasher, data: Bytes, store: TensorStore, manifest: Manifest, f: Failure)
    requires UniqueBy(store.infos, NameOf) && Verified(hash, data, store, manifest).Ok?
    ensures f in Verified(hash, data, store, manifest).value <==>
            exists th :: th in ManifestOf(hash, data, store).value.tensorHashes && th.name == f.tensorName
                         && th.hash == f.actual != f.expected
                         && LastListed(manifest.tensorHashes, th.name) == Some(f.expected)
  {
    hide ManifestOf, ExpectedMap, Failures, LastListed;
    var actual, expected := ManifestOf(hash, data, store).value.tensorHashes, ExpectedMap(manifest.tensorHashes);
    VerificationExact(hash, data, store, manifest);
    LastListedCounts(manifest.tensorHashes, f.tensorName);
    if Reported(actual, expected, f) {
      var th :| th in actual && Mismatch(th, expected, f);
      assert th.name == f.tensorName;
    }
    if exists th :: th in actual && th.name == f.tensorName && th.hash == f.actual != f.expected
                    && LastListed(manifest.tensorHashes, th.name) == Some(f.expected) {
      var th :| th in actual && th.name == f.tensorName && th.hash == f.actual != f.expected
                && LastListed(manifest.tensorHashes, th.name) == Some(f.expected);
      assert Mismatch(th, expected, f);
    }
  }
}
