/** The re-quantization planner: what happens to every tensor, in file order. */
module Quantize {
  import opened Machine
  import opened Text
  import opened Ordering
  import opened GgufTypes
  import opened TypeSelect
  import opened Metadata

  datatype Args = Args(allowRequantize: bool, forceRequantize: bool, pureTypes: bool, dryRun: bool)
  {
    predicate MayRequantize() {
      allowRequantize || forceRequantize
    }
  }

  datatype Action = Copy | Encode(ty: GgufTensorType)

  datatype Planned = Planned(
    name: string, dimensions: seq<U64>, srcType: GgufTensorType, dstType: GgufTensorType,
    action: Action, srcBytes: U64, dstBytes: U64)

  datatype PlanError =
    | BadLayer(name: string)
    | NeedsIq4NlEncoder(name: string)
    | UnsupportedRow(name: string)
    | NoEncoder(name: string)
    | RefusesRequantize(name: string)
    | SourceSizeOverflow(name: string)
    | BadRow(reason: RowError)

  // ---------------------------------------------------------------- model info

  function U32Or(kvs: seq<Pair>, key: string, default: int): int {
    match Get(kvs, key)
    case None => default
    case Some(v) => match v.AsU32()
      case None => default
      case Some(n) => n
  }

  function ArchOf(kvs: seq<Pair>): string {
    match Get(kvs, "general.architecture")
    case Some(Str(s)) => s
    case _ => "unknown"
  }

  predicate IsOutputHead(t: TensorInfo) {
    t.name == "output.weight"
  }

  predicate IsValueProjection(t: TensorInfo) {
    || Contains(t.name, "attn_v.weight")
    || Contains(t.name, "attn_qkv.weight")
    || Contains(t.name, "attn_kv_b.weight")
  }

  function AsU32OrZero(n: int): U32 {
    if 0 <= n < TWO_32 then n else 0
  }

  /** The metadata fields read below the architecture's own prefix. */
  const INFO_FIELDS: set<string> :=
    {".attention.head_count", ".block_count", ".attention.head_count_kv", ".expert_count"}

  /** The hyper-parameters the selector consults. */
  function ModelInfoOf(kvs: seq<Pair>, tensors: seq<TensorInfo>): ModelInfo {
    var arch := ArchOf(kvs);
    var nHead := U32Or(kvs, arch + ".attention.head_count", 0);
    ModelInfo(
      arch,
      AsI32(U32Or(kvs, arch + ".block_count", 0)),
      AsU32OrZero(nHead),
      AsU32OrZero(U32Or(kvs, arch + ".attention.head_count_kv", nHead)),
      AsU32OrZero(U32Or(kvs, arch + ".expert_count", 0)),
      CountIf(tensors, IsOutputHead) > 0,
      AsI32(CountIf(tensors, IsValueProjection)))
  }

  /** `read_model_info`: one pass over the tensor table in whatever order it iterates. */
  method ReadModelInfo(kvs: seq<Pair>, tensors: seq<TensorInfo>) returns (info: ModelInfo)
    ensures info == ModelInfoOf(kvs, tensors)
  {
    hide AsI32, Contains;
    var arch := ArchOf(kvs);
    var nHead := U32Or(kvs, arch + ".attention.head_count", 0);
    var hasOutput := false;
    var nAttentionWv := 0;
    AsI32Steps(0);
    for i := 0 to |tensors|
      invariant hasOutput <==> CountIf(tensors[..i], IsOutputHead) > 0
      invariant nAttentionWv == AsI32(CountIf(tensors[..i], IsValueProjection))
    {
      assert tensors[..i + 1] == tensors[..i] + [tensors[i]];
      CountIfConcat(tensors[..i], [tensors[i]], IsOutputHead);
      CountIfConcat(tensors[..i], [tensors[i]], IsValueProjection);
      if tensors[i].name == "output.weight" {
        hasOutput := true;
      }
      if IsValueProjection(tensors[i]) {
        AsI32Steps(CountIf(tensors[..i], IsValueProjection));
        nAttentionWv := AsI32(nAttentionWv + 1);
      }
    }
    assert tensors[..|tensors|] == tensors;
    info := ModelInfo(
      arch,
      AsI32(U32Or(kvs, arch + ".block_count", 0)),
      AsU32OrZero(nHead),
      AsU32OrZero(U32Or(kvs, arch + ".attention.head_count_kv", nHead)),
      AsU32OrZero(U32Or(kvs, arch + ".expert_count", 0)),
      hasOutput,
      nAttentionWv);
  }

  /** The table gives the unsigned number `n` under `key`, as an 8-, 16- or 32-bit integer. */
  ghost predicate Gives(kvs: seq<Pair>, key: string, n: int) {
    (exists b: U8 :: b == n && (key, Uint8(b)) in kvs)
    || (exists h: int :: h == n && (key, Uint16(h)) in kvs)
    || (exists v: U32 :: v == n && (key, Uint32(v)) in kvs)
  }

  lemma U32OrMeans(kvs: seq<Pair>, key: string, default: int)
    requires UniqueBy(kvs, KeyOf)
    ensures forall n :: Gives(kvs, key, n) ==> U32Or(kvs, key, default) == n
    ensures (forall n :: !Gives(kvs, key, n)) ==> U32Or(kvs, key, default) == default
  {
    GetIff(kvs, key);
    hide Get;
    match Get(kvs, key) {
      case Some(Uint8(b)) => assert Gives(kvs, key, b);
      case Some(Uint16(h)) => assert Gives(kvs, key, h);
      case Some(Uint32(v)) => assert Gives(kvs, key, v);
      case _ =>
    }
  }

  /** Which key feeds which hyper-parameter, and what stands in for an absent one. Numbers fit
      their fields here; the key-value head count falls back to the head count. */
  lemma InfoFromTable(kvs: seq<Pair>, tensors: seq<TensorInfo>, n: U32)
    requires UniqueBy(kvs, KeyOf)
    ensures var info := ModelInfoOf(kvs, tensors);
            var a := info.arch;
            && (forall name :: ("general.architecture", Str(name)) in kvs ==> a == name)
            && ((forall name :: ("general.architecture", Str(name)) !in kvs) ==> a == "unknown")
            && (Gives(kvs, a + ".block_count", n) && n < TWO_31 ==> info.nLayer == n)
            && (Gives(kvs, a + ".attention.head_count", n) ==> info.nHead == n)
            && (Gives(kvs, a + ".attention.head_count_kv", n) ==> info.nHeadKv == n)
            && ((forall x :: !Gives(kvs, a + ".attention.head_count_kv", x)) ==> info.nHeadKv == info.nHead)
            && (Gives(kvs, a + ".expert_count", n) ==> info.nExpert == n)
            && ((forall x :: !Gives(kvs, a + ".expert_count", x)) ==> info.nExpert == 0)
            && ((forall x :: !Gives(kvs, a + ".block_count", x)) ==> info.nLayer == 0)
            && ((forall x :: !Gives(kvs, a + ".attention.head_count", x)) ==> info.nHead == 0)
  {
    hide Get, U32Or, Gives, CountIf;
    GetIff(kvs, "general.architecture");
    var a := ArchOf(kvs);
    var nHead := U32Or(kvs, a + ".attention.head_count", 0);
    U32OrMeans(kvs, a + ".attention.head_count", 0);
    U32OrMeans(kvs, a + ".block_count", 0);
    U32OrMeans(kvs, a + ".attention.head_count_kv", nHead);
    U32OrMeans(kvs, a + ".expert_count", 0);
  }

  lemma {:induction false} CountedIff(tensors: seq<TensorInfo>, p: TensorInfo -> bool)
    ensures CountIf(tensors, p) > 0 <==> exists t :: t in tensors && p(t)
    ensures CountIf(tensors, p) <= |tensors|
  {
    if tensors != [] {
      CountedIff(tensors[1..], p);
      assert tensors == [tensors[0]] + tensors[1..];
      assert tensors[0] in tensors;
    }
  }

  /** A model has an output head of its own if some tensor has that name, and as many value
      projections as tensors are named as one of the three kinds. */
  lemma InfoFromTensors(kvs: seq<Pair>, tensors: seq<TensorInfo>, t: TensorInfo)
    ensures ModelInfoOf(kvs, tensors).hasOutput <==> exists x :: x in tensors && x.name == "output.weight"
    ensures |tensors| + 1 < TWO_31 ==>
              ModelInfoOf(kvs, tensors + [t]).nAttentionWv == ModelInfoOf(kvs, tensors).nAttentionWv +
              if Contains(t.name, "attn_v.weight") || Contains(t.name, "attn_qkv.weight")
                 || Contains(t.name, "attn_kv_b.weight") then 1 else 0
    ensures ModelInfoOf(kvs, []).nAttentionWv == 0
  {
    hide Contains, U32Or, ArchOf;
    CountedIff(tensors, IsOutputHead);
    if exists x :: x in tensors && x.name == "output.weight" {
      var x :| x in tensors && x.name == "output.weight";
      assert IsOutputHead(x);
    }
    CountedIff(tensors, IsValueProjection);
    CountIfConcat(tensors, [t], IsValueProjection);
  }

  // ---------------------------------------------------------------- planning

  predicate FileOrderLe(a: TensorInfo, b: TensorInfo) {
    a.offset < b.offset || (a.offset == b.offset && StrLe(a.name, b.name))
  }

  predicate SourceIsQuantized(ty: GgufTensorType) {
    ty != F32 && ty != F16 && ty != Bf16
  }

  /** The type a candidate tensor should end up with, and the selector state after it. */
  function TargetType(info: ModelInfo, ftype: Ftype, pureTypes: bool, c: Counters, t: TensorInfo)
    : Result<(GgufTensorType, Counters), PlanError>
  {
    if pureTypes then Ok((ftype.DefaultType(), c))
    else
      var ne0 := AsI64(if t.dimensions == [] then 0 else t.dimensions[0]);
      match SelectStep(info, ftype, c, t.name, ne0)
      case Err(_) => Err(BadLayer(t.name))
      case Ok((picked, c')) =>
        match FallbackForIncompatibleRow(picked, ne0)
        case None => Ok((picked, c'))
        case Some(Use(fallback)) => Ok((fallback, c'))
        case Some(NeedsIq4Nl) => Err(NeedsIq4NlEncoder(t.name))
        case Some(Unsupported) => Err(UnsupportedRow(t.name))
  }

  /** The decision for one tensor once its target is known. */
  function Decide(args: Args, t: TensorInfo, quantizable: bool, target: GgufTensorType): Result<Planned, PlanError> {
    var quantize := quantizable && (t.tensorType != target || args.forceRequantize);
    if quantize && !CanEncode(target) then Err(NoEncoder(t.name))
    else if quantize && !args.dryRun && SourceIsQuantized(t.tensorType) && !args.MayRequantize() then
      Err(RefusesRequantize(t.name))
    else match TryDataSize(t.dimensions, t.tensorType)
      case None => Err(SourceSizeOverflow(t.name))
      case Some(srcBytes) =>
        if !quantize then
          Ok(Planned(t.name, t.dimensions, t.tensorType, t.tensorType, Copy, srcBytes, srcBytes))
        else match RowBytes(t.dimensions, target)
          case Err(e) => Err(BadRow(e))
          case Ok(dstBytes) =>
            Ok(Planned(t.name, t.dimensions, t.tensorType, target, Encode(target), srcBytes, dstBytes))
  }

  function TargetOf(info: ModelInfo, ftype: Ftype, pureTypes: bool, c: Counters, t: TensorInfo, quantizable: bool)
    : Result<(GgufTensorType, Counters), PlanError>
  {
    if quantizable then TargetType(info, ftype, pureTypes, c, t) else Ok((t.tensorType, c))
  }

  function DecideFor(
    args: Args, t: TensorInfo, quantizable: bool, target: Result<(GgufTensorType, Counters), PlanError>)
    : Result<(Planned, Counters), PlanError>
  {
    match target
    case Err(e) => Err(e)
    case Ok((ty, next)) =>
      match Decide(args, t, quantizable, ty)
      case Err(e) => Err(e)
      case Ok(p) => Ok((p, next))
  }

  function PlanCandidate(info: ModelInfo, ftype: Ftype, args: Args, c: Counters, t: TensorInfo, quantizable: bool)
    : Result<(Planned, Counters), PlanError>
  {
    DecideFor(args, t, quantizable, TargetOf(info, ftype, args.pureTypes, c, t, quantizable))
  }

  function PlanOne(info: ModelInfo, ftype: Ftype, args: Args, c: Counters, t: TensorInfo)
    : Result<(Planned, Counters), PlanError>
  {
    PlanCandidate(info, ftype, args, c, t, ShouldQuantize(t.name, |t.dimensions|))
  }

  /** The plan for tensors already in file order. */
  function PlanAll(info: ModelInfo, ftype: Ftype, args: Args, c: Counters, ts: seq<TensorInfo>)
    : Result<seq<Planned>, PlanError>
    decreases ts
  {
    if ts == [] then Ok([])
    else match PlanOne(info, ftype, args, c, ts[0])
      case Err(e) => Err(e)
      case Ok((p, c')) =>
        match PlanAll(info, ftype, args, c', ts[1..])
        case Err(e) => Err(e)
        case Ok(rest) => Ok([p] + rest)
  }

  function Plan(info: ModelInfo, ftype: Ftype, args: Args, table: seq<TensorInfo>): Result<seq<Planned>, PlanError> {
    PlanAll(info, ftype, args, FRESH, Sort(table, FileOrderLe))
  }

  /** One round of the planning loop. */
  method PlanTensor(selector: TypeSelector, args: Args, t: TensorInfo, quantizable: bool)
    returns (r: Result<Planned, PlanError>)
    modifies selector
    ensures match PlanCandidate(selector.info, selector.ftype, args, old(selector.State()), t, quantizable)
            case Err(e) => r == Err(e)
            case Ok((p, next)) => r == Ok(p) && selector.State() == next
  {
    var dstType := t.tensorType;
    if quantizable {
      dstType := selector.ftype.DefaultType();
      if !args.pureTypes {
        var ne0 := AsI64(if t.dimensions == [] then 0 else t.dimensions[0]);
        var picked := selector.Select(t.name, ne0);
        if picked.Err? {
          return Err(BadLayer(t.name));
        }
        dstType := picked.value;
        match FallbackForIncompatibleRow(dstType, ne0) {
          case None =>
          case Some(Use(fallback)) => dstType := fallback;
          case Some(NeedsIq4Nl) => return Err(NeedsIq4NlEncoder(t.name));
          case Some(Unsupported) => return Err(UnsupportedRow(t.name));
        }
      }
    }
    var quantize := quantizable && (t.tensorType != dstType || args.forceRequantize);
    if !quantize {
      dstType := t.tensorType;
    }
    if quantize && !CanEncode(dstType) {
      return Err(NoEncoder(t.name));
    }
    if quantize && !args.dryRun && SourceIsQuantized(t.tensorType) && !args.MayRequantize() {
      return Err(RefusesRequantize(t.name));
    }
    var action := if quantize then Encode(dstType) else Copy;
    var srcBytes := TryDataSize(t.dimensions, t.tensorType);
    if srcBytes.None? {
      return Err(SourceSizeOverflow(t.name));
    }
    var dstBytes := srcBytes.value;
    if quantize {
      var row := RowBytes(t.dimensions, dstType);
      if row.Err? {
        return Err(BadRow(row.error));
      }
      dstBytes := row.value;
    }
    return Ok(Planned(t.name, t.dimensions, t.tensorType, dstType, action, srcBytes.value, dstBytes));
  }

  /** `build_plan`: `table` is the tensor table in the order the hash map happens to iterate. */
  method BuildPlan(info: ModelInfo, ftype: Ftype, args: Args, table: seq<TensorInfo>)
    returns (r: Result<seq<Planned>, PlanError>)
    ensures r == Plan(info, ftype, args, table)
  {
    hide PlanCandidate, ShouldQuantize, Sort;
    var ordered := Sort(table, FileOrderLe);
    var selector := new TypeSelector(info, ftype);
    var plan: seq<Planned> := [];
    PrependNothing(PlanAll(info, ftype, args, FRESH, ordered));
    assert ordered[0..] == ordered;
    for i := 0 to |ordered|
      invariant selector.info == info && selector.ftype == ftype
      invariant Plan(info, ftype, args, table)
                == Prepend(plan, PlanAll(info, ftype, args, selector.State(), ordered[i..]))
    {
      var t := ordered[i];
      assert ordered[i..][0] == t && ordered[i..][1..] == ordered[i + 1..];
      var p := PlanTensor(selector, args, t, ShouldQuantize(t.name, |t.dimensions|));
      if p.Err? {
        return Err(p.error);
      }
      PrependAssociates(plan, p.value, PlanAll(info, ftype, args, selector.State(), ordered[i + 1..]));
      plan := plan + [p.value];
    }
    assert ordered[|ordered|..] == [] && plan + [] == plan;
    return Ok(plan);
  }

  lemma ConsPlan(info: ModelInfo, ftype: Ftype, args: Args, c: Counters, ts: seq<TensorInfo>, plan: seq<Planned>)
    requires ts != []
    ensures PlanAll(info, ftype, args, c, ts) == Ok(plan) <==>
            && plan != []
            && PlanOne(info, ftype, args, c, ts[0]).Ok?
            && PlanOne(info, ftype, args, c, ts[0]).value.0 == plan[0]
            && PlanAll(info, ftype, args, PlanOne(info, ftype, args, c, ts[0]).value.1, ts[1..]) == Ok(plan[1..])
  {
    hide PlanOne;
    if plan != [] {
      assert plan == [plan[0]] + plan[1..];
    }
  }

  // ---------------------------------------------------------------- order independence

  lemma FileOrderTotal(table: seq<TensorInfo>)
    requires UniqueBy(table, NameOf)
    ensures TotalOn(multiset(table), FileOrderLe)
  {
    forall a: TensorInfo, b: TensorInfo | true
      ensures FileOrderLe(a, b) || FileOrderLe(b, a)
    {
      StrLeTotal(a.name, b.name);
    }
    forall a: TensorInfo, b: TensorInfo, c: TensorInfo | FileOrderLe(a, b) && FileOrderLe(b, c)
      ensures FileOrderLe(a, c)
    {
      if a.offset == b.offset == c.offset {
        StrLeTransitive(a.name, b.name, c.name);
      }
    }
    forall a, b | a in multiset(table) && b in multiset(table) && FileOrderLe(a, b) && FileOrderLe(b, a)
      ensures a == b
    {
      StrLeAntisymmetric(a.name, b.name);
      SameNameSameTensor(table, a, b);
    }
  }

  lemma SameNameSameTensor(table: seq<TensorInfo>, a: TensorInfo, b: TensorInfo)
    requires UniqueBy(table, NameOf) && a in table && b in table && a.name == b.name
    ensures a == b
  {
    var i :| 0 <= i < |table| && table[i] == a;
    var j :| 0 <= j < |table| && table[j] == b;
    assert NameOf(table[i]) == NameOf(table[j]);
  }

  lemma ModelInfoDependsOnLookups(kvs1: seq<Pair>, kvs2: seq<Pair>, table1: seq<TensorInfo>, table2: seq<TensorInfo>)
    requires Get(kvs1, "general.architecture") == Get(kvs2, "general.architecture")
    requires var arch := ArchOf(kvs1);
             forall field :: field in INFO_FIELDS ==> Get(kvs1, arch + field) == Get(kvs2, arch + field)
    requires CountIf(table1, IsOutputHead) == CountIf(table2, IsOutputHead)
    requires CountIf(table1, IsValueProjection) == CountIf(table2, IsValueProjection)
    ensures ModelInfoOf(kvs1, table1) == ModelInfoOf(kvs2, table2)
  {
    var arch := ArchOf(kvs1);
    assert forall field, d :: field in INFO_FIELDS ==> U32Or(kvs1, arch + field, d) == U32Or(kvs2, arch + field, d);
  }

  /** Hash order is invisible: two iteration orders of the same metadata and tensor tables
      give the same hyper-parameters, the same plan or the same refusal, although the
      selector is stateful. */
  lemma PlanIgnoresHashOrder(
    ftype: Ftype, args: Args, kvs1: seq<Pair>, kvs2: seq<Pair>, table1: seq<TensorInfo>, table2: seq<TensorInfo>)
    requires UniqueBy(kvs1, KeyOf) && multiset(kvs1) == multiset(kvs2)
    requires UniqueBy(table1, NameOf) && multiset(table1) == multiset(table2)
    ensures ModelInfoOf(kvs1, table1) == ModelInfoOf(kvs2, table2)
    ensures Plan(ModelInfoOf(kvs1, table1), ftype, args, table1)
         == Plan(ModelInfoOf(kvs2, table2), ftype, args, table2)
  {
    GetOrderFree(kvs1, kvs2, "general.architecture");
    forall field | field in INFO_FIELDS
      ensures Get(kvs1, ArchOf(kvs1) + field) == Get(kvs2, ArchOf(kvs1) + field)
    {
      GetOrderFree(kvs1, kvs2, ArchOf(kvs1) + field);
    }
    CountIfPermutes(table1, table2, IsOutputHead);
    CountIfPermutes(table1, table2, IsValueProjection);
    ModelInfoDependsOnLookups(kvs1, kvs2, table1, table2);
    assert Sort(table1, FileOrderLe) == Sort(table2, FileOrderLe) by {
      FileOrderTotal(table1);
      SortOrderFree(table1, table2, FileOrderLe);
    }
  }

  /** The entry is about this tensor. */
  ghost predicate EntryAbout(p: Planned, t: TensorInfo) {
    && p.name == t.name && p.dimensions == t.dimensions && p.srcType == t.tensorType
    && TryDataSize(t.dimensions, t.tensorType) == Some(p.srcBytes)
  }

  lemma DecisionAbout(args: Args, t: TensorInfo, quantizable: bool, target: GgufTensorType)
    requires Decide(args, t, quantizable, target).Ok?
    ensures EntryAbout(Decide(args, t, quantizable, target).value, t)
  {
    hide TryDataSize, RowBytes;
  }

  lemma CandidateEntryAbout(info: ModelInfo, ftype: Ftype, args: Args, c: Counters, t: TensorInfo, quantizable: bool)
    requires PlanCandidate(info, ftype, args, c, t, quantizable).Ok?
    ensures EntryAbout(PlanCandidate(info, ftype, args, c, t, quantizable).value.0, t)
  {
    hide TargetOf, Decide, EntryAbout;
    DecisionAbout(args, t, quantizable, TargetOf(info, ftype, args.pureTypes, c, t, quantizable).value.0);
  }

  /** A plan has one entry per tensor, in file order, about that tensor. */
  lemma {:induction false} PlanCoversTensors(
    info: ModelInfo, ftype: Ftype, args: Args, c: Counters, ts: seq<TensorInfo>, plan: seq<Planned>)
    requires PlanAll(info, ftype, args, c, ts) == Ok(plan)
    ensures |plan| == |ts|
    ensures forall i :: 0 <= i < |ts| ==> EntryAbout(plan[i], ts[i])
    decreases ts
  {
    hide PlanCandidate, EntryAbout;
    if ts != [] {
      ConsPlan(info, ftype, args, c, ts, plan);
      CandidateEntryAbout(info, ftype, args, c, ts[0], ShouldQuantize(ts[0].name, |ts[0].dimensions|));
      PlanCoversTensors(info, ftype, args, PlanOne(info, ftype, args, c, ts[0]).value.1, ts[1..], plan[1..]);
      assert forall i :: 0 < i < |ts| ==> plan[i] == plan[1..][i - 1] && ts[i] == ts[1..][i - 1];
    }
  }

  /** Every tensor of the table is planned exactly once. */
  lemma PlanNamesEachTensorOnce(info: ModelInfo, ftype: Ftype, args: Args, table: seq<TensorInfo>, t: TensorInfo)
    requires UniqueBy(table, NameOf) && t in table
    requires Plan(info, ftype, args, table).Ok?
    ensures var plan := Plan(info, ftype, args, table).value;
            exists i :: 0 <= i < |plan| && plan[i].name == t.name
                        && forall j :: 0 <= j < |plan| && plan[j].name == t.name ==> j == i
  {
    var sorted, plan := Sort(table, FileOrderLe), Plan(info, ftype, args, table).value;
    SortPermutes(table, FileOrderLe);
    UniqueByPermutes(table, sorted, NameOf);
    PlanCoversTensors(info, ftype, args, FRESH, sorted, plan);
    assert t in multiset(sorted);
    var i :| 0 <= i < |sorted| && sorted[i] == t;
    forall j | 0 <= j < |plan| && plan[j].name == t.name
      ensures j == i
    {
      assert NameOf(sorted[j]) == NameOf(sorted[i]);
    }
  }

  // ---------------------------------------------------------------- what a plan entry promises

  /** Copies keep type and size; encodes have an encoder, whole blocks per row, and the exact
      size modulo 2^64. */
  ghost predicate EntrySound(p: Planned) {
    match p.action
    case Copy => p.dstType == p.srcType && p.dstBytes == p.srcBytes
    case Encode(ty) =>
      && ty == p.dstType && CanEncode(ty)
      && p.dimensions != [] && p.dimensions[0] > 0 && p.dimensions[0] % ty.BlockSize() == 0
      && p.dstBytes == Wrap64(ExactSize(p.dimensions, ty))
  }

  lemma DecisionSound(args: Args, t: TensorInfo, quantizable: bool, target: GgufTensorType)
    requires Decide(args, t, quantizable, target).Ok?
    ensures EntrySound(Decide(args, t, quantizable, target).value)
  {
    hide TryDataSize, ExactSize;
    TryDataSizeExact(t.dimensions, t.tensorType);
    if Decide(args, t, quantizable, target).value.action.Encode? {
      SizesCoincide(t.dimensions, target);
    }
  }

  lemma CandidateEntrySound(info: ModelInfo, ftype: Ftype, args: Args, c: Counters, t: TensorInfo, quantizable: bool)
    requires PlanCandidate(info, ftype, args, c, t, quantizable).Ok?
    ensures EntrySound(PlanCandidate(info, ftype, args, c, t, quantizable).value.0)
  {
    hide TargetOf, Decide, EntrySound;
    DecisionSound(args, t, quantizable, TargetOf(info, ftype, args.pureTypes, c, t, quantizable).value.0);
  }

  lemma {:induction false} PlanEntriesSound(
    info: ModelInfo, ftype: Ftype, args: Args, c: Counters, ts: seq<TensorInfo>, plan: seq<Planned>)
    requires PlanAll(info, ftype, args, c, ts) == Ok(plan)
    ensures forall i :: 0 <= i < |plan| ==> EntrySound(plan[i])
    decreases ts
  {
    hide PlanCandidate, EntrySound;
    if ts != [] {
      ConsPlan(info, ftype, args, c, ts, plan);
      CandidateEntrySound(info, ftype, args, c, ts[0], ShouldQuantize(ts[0].name, |ts[0].dimensions|));
      PlanEntriesSound(info, ftype, args, PlanOne(info, ftype, args, c, ts[0]).value.1, ts[1..], plan[1..]);
      assert forall i :: 0 < i < |plan| ==> plan[i] == plan[1..][i - 1];
    }
  }

  predicate RefusalPossible(args: Args, e: PlanError) {
    && !e.NoEncoder?
    && (args.pureTypes ==> !e.BadLayer? && !e.NeedsIq4NlEncoder? && !e.UnsupportedRow?)
    && (e == BadRow(IndivisibleRow) ==> args.pureTypes)
    && (e.RefusesRequantize? ==> !args.dryRun && !args.MayRequantize())
  }

  lemma TargetEncodesAndFits(info: ModelInfo, ftype: Ftype, pureTypes: bool, c: Counters, t: TensorInfo)
    requires TargetType(info, ftype, pureTypes, c, t).Ok?
    ensures var target := TargetType(info, ftype, pureTypes, c, t).value.0;
            && CanEncode(target)
            && (!pureTypes && t.dimensions != [] ==> t.dimensions[0] % target.BlockSize() == 0)
  {
    var ne0: U64 := if t.dimensions == [] then 0 else t.dimensions[0];
    SelectedTypeEncodes(info, ftype, c, t.name, AsI64(ne0));
    if !pureTypes {
      FallbackFits(SelectStep(info, ftype, c, t.name, AsI64(ne0)).value.0, ne0);
    }
  }

  lemma RefusalOfDecision(args: Args, t: TensorInfo, quantizable: bool, target: GgufTensorType)
    requires Decide(args, t, quantizable, target).Err?
    requires quantizable ==> CanEncode(target)
    requires quantizable && !args.pureTypes && t.dimensions != [] ==> t.dimensions[0] % target.BlockSize() == 0
    ensures RefusalPossible(args, Decide(args, t, quantizable, target).error)
  {
  }

  lemma RefusalOfOne(info: ModelInfo, ftype: Ftype, args: Args, c: Counters, t: TensorInfo, quantizable: bool)
    requires PlanCandidate(info, ftype, args, c, t, quantizable).Err?
    ensures RefusalPossible(args, PlanCandidate(info, ftype, args, c, t, quantizable).error)
  {
    if !quantizable {
      RefusalOfDecision(args, t, false, t.tensorType);
    } else if TargetType(info, ftype, args.pureTypes, c, t).Ok? {
      TargetEncodesAndFits(info, ftype, args.pureTypes, c, t);
      RefusalOfDecision(args, t, true, TargetType(info, ftype, args.pureTypes, c, t).value.0);
    }
  }

  /** Which refusals are possible. The missing-encoder refusal never happens: every type the
      mixture or its fallback picks has an encoder. The layer, IQ4_NL and unsupported-row
      refusals need the mixture, and an indivisible row needs `--pure`, because the mixture's
      fallback has already repaired or refused it. */
  lemma {:induction false} PossibleRefusals(
    info: ModelInfo, ftype: Ftype, args: Args, c: Counters, ts: seq<TensorInfo>)
    requires PlanAll(info, ftype, args, c, ts).Err?
    ensures RefusalPossible(args, PlanAll(info, ftype, args, c, ts).error)
    decreases ts
  {
    var one := PlanOne(info, ftype, args, c, ts[0]);
    if one.Err? {
      RefusalOfOne(info, ftype, args, c, ts[0], ShouldQuantize(ts[0].name, |ts[0].dimensions|));
    } else {
      PossibleRefusals(info, ftype, args, one.value.1, ts[1..]);
    }
  }

  // ---------------------------------------------------------------- dry runs

  predicate NeedsPermission(p: Planned) {
    p.action.Encode? && SourceIsQuantized(p.srcType)
  }

  predicate NothingToPermit(plan: seq<Planned>) {
    plan == [] || (!NeedsPermission(plan[0]) && NothingToPermit(plan[1..]))
  }

  lemma {:induction false} NothingToPermitMeaning(plan: seq<Planned>)
    ensures NothingToPermit(plan) <==> forall p :: p in plan ==> !NeedsPermission(p)
  {
    if plan != [] {
      assert plan == [plan[0]] + plan[1..];
      NothingToPermitMeaning(plan[1..]);
    }
  }

  lemma RealDecisionFromDryDecision(args: Args, t: TensorInfo, quantizable: bool, target: GgufTensorType)
    ensures var dry, actual := Decide(args.(dryRun := true), t, quantizable, target),
                               Decide(args.(dryRun := false), t, quantizable, target);
            if dry.Ok? && (args.MayRequantize() || !NeedsPermission(dry.value)) then actual == dry else actual.Err?
  {
    hide RowBytes, TryDataSize;
  }

  lemma RealStepFromDryStep(info: ModelInfo, ftype: Ftype, args: Args, c: Counters, t: TensorInfo, quantizable: bool)
    ensures var dry, actual := PlanCandidate(info, ftype, args.(dryRun := true), c, t, quantizable),
                               PlanCandidate(info, ftype, args.(dryRun := false), c, t, quantizable);
            if dry.Ok? && (args.MayRequantize() || !NeedsPermission(dry.value.0)) then actual == dry else actual.Err?
  {
    hide TargetOf, Decide;
    var target := TargetOf(info, ftype, args.pureTypes, c, t, quantizable);
    if target.Ok? {
      RealDecisionFromDryDecision(args, t, quantizable, target.value.0);
    }
  }

  lemma {:induction false} DryPlanPredictsRealPlan(
    info: ModelInfo, ftype: Ftype, args: Args, c: Counters, ts: seq<TensorInfo>, plan: seq<Planned>)
    ensures PlanAll(info, ftype, args.(dryRun := false), c, ts) == Ok(plan) <==>
            && PlanAll(info, ftype, args.(dryRun := true), c, ts) == Ok(plan)
            && (args.MayRequantize() || NothingToPermit(plan))
    decreases ts
  {
    hide PlanCandidate, ShouldQuantize;
    var dry, actual := args.(dryRun := true), args.(dryRun := false);
    if ts != [] {
      var one := PlanOne(info, ftype, dry, c, ts[0]);
      RealStepFromDryStep(info, ftype, args, c, ts[0], ShouldQuantize(ts[0].name, |ts[0].dimensions|));
      ConsPlan(info, ftype, dry, c, ts, plan);
      ConsPlan(info, ftype, actual, c, ts, plan);
      if one.Ok? && plan != [] {
        DryPlanPredictsRealPlan(info, ftype, args, one.value.1, ts[1..], plan[1..]);
      }
    }
  }

  /** A real run's planning succeeds with plan `p` exactly when the dry run's does and either
      a requantize flag is set or nothing in the plan re-encodes an already-quantized tensor. */
  lemma DryRunPredictsRealRun(
    info: ModelInfo, ftype: Ftype, args: Args, table: seq<TensorInfo>, plan: seq<Planned>)
    ensures Plan(info, ftype, args.(dryRun := false), table) == Ok(plan) <==>
            && Plan(info, ftype, args.(dryRun := true), table) == Ok(plan)
            && (args.MayRequantize() || forall p :: p in plan ==> !NeedsPermission(p))
  {
    DryPlanPredictsRealPlan(info, ftype, args, FRESH, Sort(table, FileOrderLe), plan);
    NothingToPermitMeaning(plan);
  }
}
