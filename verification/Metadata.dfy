/** The metadata block: a key-value table and how re-quantization rewrites it. */
module Metadata {
  import opened Machine
  import opened Text
  import opened Ordering
  import opened TypeSelect

  /** A metadata value; kinds the model never inspects are kept as tagged bytes. */
  datatype MetaValue =
    | Uint8(u8: U8)
    | Uint16(u16: int)
    | Uint32(u32: U32)
    | Str(text: string)
    | Array(items: seq<MetaValue>)
    | Tagged(tag: nat, bytes: Bytes)
  {
    function AsU32(): Option<int> {
      match this
      case Uint8(v) => Some(v)
      case Uint16(v) => Some(v)
      case Uint32(v) => Some(v)
      case _ => None
    }
  }

  type Pair = (string, MetaValue)

  function KeyOf(kv: Pair): string {
    kv.0
  }

  predicate KeyLe(a: Pair, b: Pair) {
    StrLe(a.0, b.0)
  }

  /** Lookup by key. */
  function Get(kvs: seq<Pair>, key: string): Option<MetaValue> {
    if kvs == [] then None
    else if kvs[0].0 == key then Some(kvs[0].1)
    else Get(kvs[1..], key)
  }

  predicate HasKey(kvs: seq<Pair>, key: string) {
    exists i :: 0 <= i < |kvs| && kvs[i].0 == key
  }

  lemma {:induction false} GetIff(kvs: seq<Pair>, key: string)
    requires UniqueBy(kvs, KeyOf)
    ensures Get(kvs, key).Some? <==> HasKey(kvs, key)
    ensures forall v :: Get(kvs, key) == Some(v) <==> (key, v) in kvs
  {
    if kvs != [] {
      assert kvs == [kvs[0]] + kvs[1..];
      GetIff(kvs[1..], key);
      if kvs[0].0 == key {
        forall kv | kv in kvs[1..]
          ensures kv.0 != key
        {
          var i :| 1 <= i < |kvs| && kvs[i] == kv;
          assert KeyOf(kvs[0]) != KeyOf(kvs[i]);
        }
      }
      assert HasKey(kvs[1..], key) ==> HasKey(kvs, key) by {
        if HasKey(kvs[1..], key) {
          var i :| 0 <= i < |kvs[1..]| && kvs[1..][i].0 == key;
          assert kvs[i + 1].0 == key;
        }
      }
    }
  }

  /** Lookup does not see the order of the table. */
  lemma GetOrderFree(a: seq<Pair>, b: seq<Pair>, key: string)
    requires UniqueBy(a, KeyOf) && multiset(a) == multiset(b)
    ensures Get(a, key) == Get(b, key)
  {
    UniqueByPermutes(a, b, KeyOf);
    GetIff(a, key);
    GetIff(b, key);
    assert forall kv :: kv in a <==> kv in multiset(b);
    if Get(a, key).Some? {
      assert (key, Get(a, key).value) in b;
    }
  }

  lemma KeyLeTotal(kvs: seq<Pair>)
    requires UniqueBy(kvs, KeyOf)
    ensures TotalOn(multiset(kvs), KeyLe)
  {
    forall a: Pair, b: Pair | true
      ensures KeyLe(a, b) || KeyLe(b, a)
    {
      StrLeTotal(a.0, b.0);
    }
    forall a: Pair, b: Pair, c: Pair | KeyLe(a, b) && KeyLe(b, c)
      ensures KeyLe(a, c)
    {
      StrLeTransitive(a.0, b.0, c.0);
    }
    forall a, b | a in multiset(kvs) && b in multiset(kvs) && KeyLe(a, b) && KeyLe(b, a)
      ensures a == b
    {
      StrLeAntisymmetric(a.0, b.0);
      GetIff(kvs, a.0);
      assert (a.0, a.1) in kvs && (b.0, b.1) in kvs;
      assert Get(kvs, a.0) == Some(a.1) && Get(kvs, a.0) == Some(b.1);
    }
  }

  const FILE_TYPE := "general.file_type"
  const QUANT_VERSION := "general.quantization_version"
  const ALIGNMENT_KEY := "general.alignment"
  const QUANTIZATION_VERSION: U32 := 2
  const WRITER_ALIGNMENT: U32 := 32

  function RewriteValue(ftype: Ftype, key: string, value: MetaValue): MetaValue {
    if key == FILE_TYPE then Uint32(ftype.FileTypeValue())
    else if key == QUANT_VERSION then Uint32(QUANTIZATION_VERSION)
    else if key == ALIGNMENT_KEY then Uint32(WRITER_ALIGNMENT)
    else value
  }

  function RewriteEach(ftype: Ftype, kvs: seq<Pair>): (r: seq<Pair>)
    ensures |r| == |kvs|
    ensures forall i :: 0 <= i < |kvs| ==> r[i] == (kvs[i].0, RewriteValue(ftype, kvs[i].0, kvs[i].1))
  {
    seq(|kvs|, i requires 0 <= i < |kvs| => (kvs[i].0, RewriteValue(ftype, kvs[i].0, kvs[i].1)))
  }

  /** The pairs added for the two keys every output must carry. */
  function Missing(ftype: Ftype, kvs: seq<Pair>): seq<Pair> {
    (if HasKey(kvs, FILE_TYPE) then [] else [(FILE_TYPE, Uint32(ftype.FileTypeValue()))])
    + (if HasKey(kvs, QUANT_VERSION) then [] else [(QUANT_VERSION, Uint32(QUANTIZATION_VERSION))])
  }

  /** The output's metadata, in the order it is written. */
  function Rewrite(ftype: Ftype, kvs: seq<Pair>): seq<Pair> {
    RewriteEach(ftype, Sort(kvs, KeyLe)) + Missing(ftype, kvs)
  }

  /** The header loop of `run_quantize`: `kvs` is the table in whatever order it iterates. */
  method RewriteMetadata(ftype: Ftype, kvs: seq<Pair>) returns (written: seq<Pair>)
    ensures written == Rewrite(ftype, kvs)
  {
    var sorted := Sort(kvs, KeyLe);
    written := [];
    for i := 0 to |sorted|
      invariant written == RewriteEach(ftype, sorted)[..i]
    {
      var (key, value) := sorted[i];
      written := written + [(key, RewriteValue(ftype, key, value))];
    }
    assert written == RewriteEach(ftype, sorted);
    if !HasKey(kvs, FILE_TYPE) {
      written := written + [(FILE_TYPE, Uint32(ftype.FileTypeValue()))];
    }
    if !HasKey(kvs, QUANT_VERSION) {
      written := written + [(QUANT_VERSION, Uint32(QUANTIZATION_VERSION))];
    }
    assert written == Rewrite(ftype, kvs);
  }

  lemma SameKeys(ftype: Ftype, kvs: seq<Pair>, key: string)
    requires UniqueBy(kvs, KeyOf)
    ensures UniqueBy(RewriteEach(ftype, Sort(kvs, KeyLe)), KeyOf)
    ensures HasKey(RewriteEach(ftype, Sort(kvs, KeyLe)), key) <==> HasKey(kvs, key)
  {
    var sorted := Sort(kvs, KeyLe);
    var each := RewriteEach(ftype, sorted);
    SortPermutes(kvs, KeyLe);
    UniqueByPermutes(kvs, sorted, KeyOf);
    forall i, j | 0 <= i < j < |each|
      ensures KeyOf(each[i]) != KeyOf(each[j])
    {
      assert KeyOf(sorted[i]) != KeyOf(sorted[j]);
    }
    if HasKey(kvs, key) {
      var i :| 0 <= i < |kvs| && kvs[i].0 == key;
      assert kvs[i] in multiset(sorted);
      var j :| 0 <= j < |sorted| && sorted[j] == kvs[i];
      assert each[j].0 == key;
    }
    if HasKey(each, key) {
      var i :| 0 <= i < |each| && each[i].0 == key;
      assert sorted[i] in multiset(kvs);
      var j :| 0 <= j < |kvs| && kvs[j] == sorted[i];
      assert kvs[j].0 == key;
    }
  }

  lemma RewriteKeysUnique(ftype: Ftype, kvs: seq<Pair>)
    requires UniqueBy(kvs, KeyOf)
    ensures UniqueBy(Rewrite(ftype, kvs), KeyOf)
    ensures HasKey(Rewrite(ftype, kvs), FILE_TYPE) && HasKey(Rewrite(ftype, kvs), QUANT_VERSION)
  {
    var each, extra := RewriteEach(ftype, Sort(kvs, KeyLe)), Missing(ftype, kvs);
    var all := Rewrite(ftype, kvs);
    SameKeys(ftype, kvs, FILE_TYPE);
    SameKeys(ftype, kvs, QUANT_VERSION);
    forall i, j | 0 <= i < j < |all|
      ensures KeyOf(all[i]) != KeyOf(all[j])
    {
      if j < |each| {
        assert all[i] == each[i] && all[j] == each[j];
      } else {
        assert all[j] == extra[j - |each|];
        if i < |each| {
          assert all[i] == each[i];
        }
      }
    }
    PrefixKey(each, extra, FILE_TYPE);
    PrefixKey(each, extra, QUANT_VERSION);
    if !HasKey(kvs, FILE_TYPE) {
      assert all[|each|].0 == FILE_TYPE;
    }
    if !HasKey(kvs, QUANT_VERSION) {
      assert all[|all| - 1].0 == QUANT_VERSION;
    }
  }

  lemma PrefixKey(a: seq<Pair>, b: seq<Pair>, key: string)
    ensures HasKey(a, key) ==> HasKey(a + b, key)
  {
    if HasKey(a, key) {
      var i :| 0 <= i < |a| && a[i].0 == key;
      assert (a + b)[i].0 == key;
    }
  }

  /** What a reader finds in the output: the two quantization keys always, the alignment key
      rewritten if and only if it was there, and every other key exactly as in the input. */
  lemma RewriteMeaning(ftype: Ftype, kvs: seq<Pair>, key: string)
    requires UniqueBy(kvs, KeyOf)
    ensures Get(Rewrite(ftype, kvs), key) ==
            if key == FILE_TYPE then Some(Uint32(ftype.FileTypeValue()))
            else if key == QUANT_VERSION then Some(Uint32(2))
            else if key == ALIGNMENT_KEY && HasKey(kvs, key) then Some(Uint32(32))
            else Get(kvs, key)
  {
    hide Get, Sort;
    var all, sorted := Rewrite(ftype, kvs), Sort(kvs, KeyLe);
    var each, extra := RewriteEach(ftype, sorted), Missing(ftype, kvs);
    RewriteKeysUnique(ftype, kvs);
    GetIff(all, key);
    GetIff(kvs, key);
    SortPermutes(kvs, KeyLe);
    if HasKey(kvs, key) {
      var v := Get(kvs, key).value;
      assert (key, v) in multiset(sorted);
      var i :| 0 <= i < |sorted| && sorted[i] == (key, v);
      assert all[i] == each[i] == (key, RewriteValue(ftype, key, v));
      assert all[i] in all;
    } else if key == FILE_TYPE || key == QUANT_VERSION {
      var value := RewriteValue(ftype, key, Uint32(0));
      assert (key, value) in extra;
      assert (key, value) in all;
    } else {
      forall i | 0 <= i < |all|
        ensures all[i].0 != key
      {
        if i < |each| {
          assert sorted[i] in multiset(kvs);
          assert all[i].0 == sorted[i].0;
        } else {
          assert all[i] in extra;
        }
      }
    }
  }

  lemma RewrittenValueStable(ftype: Ftype, kvs: seq<Pair>, kv: Pair)
    requires kv in Rewrite(ftype, kvs)
    ensures RewriteValue(ftype, kv.0, kv.1) == kv.1
  {
    var each := RewriteEach(ftype, Sort(kvs, KeyLe));
    if kv in each {
      var i :| 0 <= i < |each| && each[i] == kv;
    } else {
      assert kv in Missing(ftype, kvs);
    }
  }

  /** Rewriting an output changes no value: it only sorts the keys. */
  lemma RewriteAgain(ftype: Ftype, kvs: seq<Pair>)
    requires UniqueBy(kvs, KeyOf)
    ensures Rewrite(ftype, Rewrite(ftype, kvs)) == Sort(Rewrite(ftype, kvs), KeyLe)
  {
    var all := Rewrite(ftype, kvs);
    var sorted := Sort(all, KeyLe);
    SortPermutes(all, KeyLe);
    assert RewriteEach(ftype, sorted) == sorted by {
      forall i | 0 <= i < |sorted|
        ensures RewriteValue(ftype, sorted[i].0, sorted[i].1) == sorted[i].1
      {
        assert sorted[i] in multiset(all);
        RewrittenValueStable(ftype, kvs, sorted[i]);
      }
    }
    assert Missing(ftype, all) == [] by {
      RewriteKeysUnique(ftype, kvs);
    }
  }

  /** The metadata table is a fixed point of the rewrite, whatever the order it is stored in. */
  lemma RewriteIdempotentAsTable(ftype: Ftype, kvs: seq<Pair>, key: string)
    requires UniqueBy(kvs, KeyOf)
    ensures Get(Rewrite(ftype, Rewrite(ftype, kvs)), key) == Get(Rewrite(ftype, kvs), key)
  {
    RewriteAgain(ftype, kvs);
    RewriteKeysUnique(ftype, kvs);
    SortPermutes(Rewrite(ftype, kvs), KeyLe);
    GetOrderFree(Rewrite(ftype, kvs), Sort(Rewrite(ftype, kvs), KeyLe), key);
  }

  /** Keys the first pass would have to append already belong at the end. */
  predicate AppendsInOrder(kvs: seq<Pair>) {
    && (HasKey(kvs, FILE_TYPE) || forall kv :: kv in kvs ==> StrLt(kv.0, FILE_TYPE))
    && (HasKey(kvs, QUANT_VERSION) || forall kv :: kv in kvs ==> StrLt(kv.0, QUANT_VERSION))
  }

  /** The written header order is a fixed point exactly when no appended key is out of order.
      The table is always a fixed point; its layout is not, because the first pass appends the
      quantization keys behind the sorted ones while the second pass sorts them in. */
  lemma HeaderOrderStableIff(ftype: Ftype, kvs: seq<Pair>)
    requires UniqueBy(kvs, KeyOf)
    ensures Rewrite(ftype, Rewrite(ftype, kvs)) == Rewrite(ftype, kvs) <==> AppendsInOrder(kvs)
  {
    var all, sorted := Rewrite(ftype, kvs), Sort(kvs, KeyLe);
    RewriteAgain(ftype, kvs);
    RewriteKeysUnique(ftype, kvs);
    KeyLeTotal(all);
    SortFixedIff(all, KeyLe);
    KeyLeTotal(kvs);
    SortPermutes(kvs, KeyLe);
    SortSorts(kvs, KeyLe);
    if AppendsInOrder(kvs) {
      AppendedSorted(ftype, kvs);
    } else {
      AppendedUnsorted(ftype, kvs);
    }
  }

  lemma TwoKeysOrdered()
    ensures StrLt(FILE_TYPE, QUANT_VERSION)
  {
    assert FILE_TYPE == "general." + "file_type" && QUANT_VERSION == "general." + "quantization_version";
    StrLeCommonPrefix("general.", "file_type", "quantization_version");
    assert FILE_TYPE[8] != QUANT_VERSION[8];
  }

  lemma {:induction false} StrLeCommonPrefix(p: string, a: string, b: string)
    ensures StrLe(p + a, p + b) <==> StrLe(a, b)
  {
    if p == "" {
      assert p + a == a && p + b == b;
    } else {
      assert (p + a)[1..] == p[1..] + a && (p + b)[1..] == p[1..] + b;
      StrLeCommonPrefix(p[1..], a, b);
    }
  }

  lemma MissingSorted(ftype: Ftype, kvs: seq<Pair>)
    ensures Sorted(Missing(ftype, kvs), KeyLe)
  {
    TwoKeysOrdered();
    hide StrLe;
  }

  lemma EachSorted(ftype: Ftype, sorted: seq<Pair>)
    requires Sorted(sorted, KeyLe)
    ensures Sorted(RewriteEach(ftype, sorted), KeyLe)
  {
    var each := RewriteEach(ftype, sorted);
    forall i, j | 0 <= i < j < |each|
      ensures KeyLe(each[i], each[j])
    {
      assert KeyLe(sorted[i], sorted[j]);
    }
  }

  lemma EachBeforeMissing(ftype: Ftype, kvs: seq<Pair>, kv: Pair, y: Pair)
    requires AppendsInOrder(kvs) && kv in kvs && y in Missing(ftype, kvs)
    ensures StrLe(kv.0, y.0)
  {
    if y.0 == FILE_TYPE {
      assert !HasKey(kvs, FILE_TYPE);
    } else {
      assert y.0 == QUANT_VERSION && !HasKey(kvs, QUANT_VERSION);
    }
  }

  lemma AppendedSorted(ftype: Ftype, kvs: seq<Pair>)
    requires UniqueBy(kvs, KeyOf) && AppendsInOrder(kvs)
    requires Sorted(Sort(kvs, KeyLe), KeyLe) && multiset(Sort(kvs, KeyLe)) == multiset(kvs)
    ensures Sorted(Rewrite(ftype, kvs), KeyLe)
  {
    var sorted := Sort(kvs, KeyLe);
    var each, extra := RewriteEach(ftype, sorted), Missing(ftype, kvs);
    EachSorted(ftype, sorted);
    forall x, y | x in each && y in extra
      ensures KeyLe(x, y)
    {
      var i :| 0 <= i < |each| && each[i] == x;
      assert sorted[i] in multiset(kvs);
      EachBeforeMissing(ftype, kvs, sorted[i], y);
    }
    MissingSorted(ftype, kvs);
    SortedConcat(each, extra, KeyLe);
  }

  /** An appended key behind one that does not sort in front of it. */
  lemma OutOfOrderAt(ftype: Ftype, kvs: seq<Pair>, kv: Pair, q: nat)
    requires multiset(Sort(kvs, KeyLe)) == multiset(kvs) && kv in kvs
    requires |kvs| == |Sort(kvs, KeyLe)| <= q < |Rewrite(ftype, kvs)|
    requires !StrLe(kv.0, Rewrite(ftype, kvs)[q].0)
    ensures !Sorted(Rewrite(ftype, kvs), KeyLe)
  {
    hide StrLe, Sort, RewriteValue;
    var all, sorted := Rewrite(ftype, kvs), Sort(kvs, KeyLe);
    assert kv in multiset(sorted);
    var p :| 0 <= p < |sorted| && sorted[p] == kv;
    assert all[p] == RewriteEach(ftype, sorted)[p];
    assert !KeyLe(all[p], all[q]);
  }

  lemma AppendedUnsorted(ftype: Ftype, kvs: seq<Pair>)
    requires UniqueBy(kvs, KeyOf) && !AppendsInOrder(kvs)
    requires multiset(Sort(kvs, KeyLe)) == multiset(kvs)
    ensures !Sorted(Rewrite(ftype, kvs), KeyLe)
  {
    hide Sorted, StrLe, Sort, RewriteEach;
    SortPermutes(kvs, KeyLe);
    var all, n := Rewrite(ftype, kvs), |kvs|;
    if !HasKey(kvs, FILE_TYPE) && exists kv :: kv in kvs && !StrLt(kv.0, FILE_TYPE) {
      var kv :| kv in kvs && !StrLt(kv.0, FILE_TYPE);
      KeysDiffer(kvs, kv, FILE_TYPE);
      assert all[n].0 == FILE_TYPE;
      OutOfOrderAt(ftype, kvs, kv, n);
    } else {
      var kv :| kv in kvs && !StrLt(kv.0, QUANT_VERSION);
      KeysDiffer(kvs, kv, QUANT_VERSION);
      assert all[|all| - 1].0 == QUANT_VERSION;
      OutOfOrderAt(ftype, kvs, kv, |all| - 1);
    }
  }

  lemma KeysDiffer(kvs: seq<Pair>, kv: Pair, key: string)
    requires kv in kvs && !HasKey(kvs, key)
    ensures kv.0 != key
  {
  }

  /** The usual GGUF header has no quantization keys but has keys sorting behind them, so its
      first and second rewrites differ in layout. */
  lemma HeaderOrderUnstableExample()
    ensures var kvs := [("llama.block_count", Uint32(1))];
            Rewrite(FtQ4KM, Rewrite(FtQ4KM, kvs)) != Rewrite(FtQ4KM, kvs)
  {
    var kvs := [("llama.block_count", Uint32(1))];
    HeaderOrderStableIff(FtQ4KM, kvs);
    assert kvs[0].0[0] == 'l' && FILE_TYPE[0] == 'g';
    assert !StrLe(kvs[0].0, FILE_TYPE);
    assert !StrLt(kvs[0].0, FILE_TYPE);
  }
}
