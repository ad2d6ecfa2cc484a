/** Re-quantizing an output again: when the second run changes nothing, and exactly what it
    changes otherwise. */
module FixedPoint {
  import opened Machine
  import opened Text
  import opened Ordering
  import opened GgufTypes
  import opened TypeSelect
  import opened Metadata
  import opened GgufWriter
  import opened Quantize
  import opened Requantize

  // ---------------------------------------------------------------- the second run's inputs

  /** No rewritten key can be one of the hyper-parameter keys. */
  lemma InfoKeyNotRewritten(arch: string, field: string)
    requires field in INFO_FIELDS
    ensures arch + field != FILE_TYPE && arch + field != QUANT_VERSION && arch + field != ALIGNMENT_KEY
    ensures "general.architecture" != FILE_TYPE && "general.architecture" != QUANT_VERSION
    ensures "general.architecture" != ALIGNMENT_KEY
  {
    var key := arch + field;
    var n := |key|;
    assert |field| >= 3;
    assert key[n - 1] == field[|field| - 1] && key[n - 2] == field[|field| - 2] && key[n - 3] == field[|field| - 3];
    assert FILE_TYPE[|FILE_TYPE| - 1] == 'e';
    assert QUANT_VERSION[|QUANT_VERSION| - 1] == 'n';
    assert ALIGNMENT_KEY[|ALIGNMENT_KEY| - 1] == 't' && ALIGNMENT_KEY[|ALIGNMENT_KEY| - 3] == 'e';
    assert "general.architecture"[8] == 'a' && FILE_TYPE[8] == 'f' && QUANT_VERSION[8] == 'q';
    assert ALIGNMENT_KEY[9] == 'l';
  }

  lemma {:induction false} CountByName(a: seq<TensorInfo>, b: seq<TensorInfo>, p: TensorInfo -> bool)
    requires |a| == |b| && forall i :: 0 <= i < |a| ==> a[i].name == b[i].name
    requires forall x: TensorInfo, y: TensorInfo :: x.name == y.name ==> p(x) == p(y)
    ensures CountIf(a, p) == CountIf(b, p)
  {
    if a != [] {
      CountByName(a[1..], b[1..], p);
    }
  }

  /** The second run reads the same hyper-parameters as the first. */
  lemma SameModelInfo(
    f: GgufFile, ftype: Ftype, args: Args, codec: Codec, plan: seq<Planned>, out: GgufFile)
    requires Ran(f, ftype, args, codec, plan, out)
    ensures ModelInfoOf(out.kvs, out.tensors) == ModelInfoOf(f.kvs, f.tensors)
  {
    hide PlanOf, Emit, ModelInfoOf, Rewrite, Sort, Contains;
    var sorted := Sort(f.tensors, FileOrderLe);
    OutNames(f, ftype, args, codec, plan, out);
    EmitFacts(f, ftype, plan, codec, out);
    SortPermutes(f.tensors, FileOrderLe);
    CountIfPermutes(f.tensors, sorted, IsOutputHead);
    CountIfPermutes(f.tensors, sorted, IsValueProjection);
    CountByName(sorted, out.tensors, IsOutputHead);
    CountByName(sorted, out.tensors, IsValueProjection);
    InfoKeyNotRewritten("", ".block_count");
    RewriteMeaning(ftype, f.kvs, "general.architecture");
    forall field | field in INFO_FIELDS
      ensures Get(f.kvs, ArchOf(f.kvs) + field) == Get(out.kvs, ArchOf(f.kvs) + field)
    {
      InfoKeyNotRewritten(ArchOf(f.kvs), field);
      RewriteMeaning(ftype, f.kvs, ArchOf(f.kvs) + field);
    }
    ModelInfoDependsOnLookups(f.kvs, out.kvs, f.tensors, out.tensors);
  }

  // ---------------------------------------------------------------- the second run's order

  /** Wherever an empty tensor is followed by another one, the names are in order. Offsets in
      the output are distinct except behind an empty tensor, and ties are broken by name. */
  predicate EmptyTensorsInNameOrder(plan: seq<Planned>) {
    forall i :: 0 <= i < |plan| - 1 && plan[i].dstBytes == 0 ==> StrLe(plan[i].name, plan[i + 1].name)
  }

  lemma SortedIffEmptyInOrder(table: seq<TensorInfo>, sizes: seq<U64>)
    requires UniqueBy(table, NameOf) && |table| == |sizes|
    requires forall i :: 0 <= i < |table| - 1 ==>
               && table[i].offset <= table[i + 1].offset
               && (table[i].offset == table[i + 1].offset <==> sizes[i] == 0)
    ensures Sorted(table, FileOrderLe) <==>
            forall i :: 0 <= i < |table| - 1 && sizes[i] == 0 ==> StrLe(table[i].name, table[i + 1].name)
  {
    hide StrLe;
    if forall i :: 0 <= i < |table| - 1 && sizes[i] == 0 ==> StrLe(table[i].name, table[i + 1].name) {
      FileOrderTotal(table);
      SortedByNeighbours(table, FileOrderLe);
    } else {
      var i :| 0 <= i < |table| - 1 && sizes[i] == 0 && !StrLe(table[i].name, table[i + 1].name);
      assert !FileOrderLe(table[i], table[i + 1]);
    }
  }

  /** The size a plan states is the size the writer declares. */
  lemma PlannedSizeIsDeclared(p: Planned)
    requires EntrySound(p)
    requires TryDataSize(p.dimensions, p.srcType) == Some(p.srcBytes)
    requires TryDataSize(p.dimensions, p.dstType).Some?
    ensures TryDataSize(p.dimensions, p.dstType) == Some(p.dstBytes)
  {
    hide TryDataSize, ExactSize;
    TryDataSizeExact(p.dimensions, p.dstType);
  }

  lemma PlannedSizesAreDeclared(info: ModelInfo, ftype: Ftype, args: Args, ts: seq<TensorInfo>, plan: seq<Planned>)
    requires PlanAll(info, ftype, args, FRESH, ts) == Ok(plan)
    requires DeclaredSizes(plan).Some?
    ensures |DeclaredSizes(plan).value| == |plan|
    ensures forall i :: 0 <= i < |plan| ==> DeclaredSizes(plan).value[i] == plan[i].dstBytes
  {
    hide PlanAll, TryDataSize, DeclaredSizes, EntrySound;
    PlanEntriesSound(info, ftype, args, FRESH, ts, plan);
    PlanCoversTensors(info, ftype, args, FRESH, ts, plan);
    DeclaredSizesAre(plan);
    forall i | 0 <= i < |plan|
      ensures DeclaredSizes(plan).value[i] == plan[i].dstBytes
    {
      assert EntryAbout(plan[i], ts[i]);
      PlannedSizeIsDeclared(plan[i]);
    }
  }

  /** The output table is already in file order exactly when its empty tensors are. */
  lemma OutputInFileOrderIff(
    f: GgufFile, ftype: Ftype, args: Args, codec: Codec, plan: seq<Planned>, out: GgufFile)
    requires Ran(f, ftype, args, codec, plan, out)
    ensures Sort(out.tensors, FileOrderLe) == out.tensors <==> EmptyTensorsInNameOrder(plan)
  {
    hide Emit, ModelInfoOf, PlanAll, Sort, StrLe, Payloads, HoldsAt, Offsets, Stream, DeclaredSizes, Payload;
    OutNames(f, ftype, args, codec, plan, out);
    LaidOut(f, ftype, plan, codec, out);
    var sizes := SizesOf(Payloads(f, plan, codec));
    var offsets := Offsets(0, sizes).value;
    PlannedSizesAreDeclared(ModelInfoOf(f.kvs, f.tensors), ftype, args, Sort(f.tensors, FileOrderLe), plan);
    assert forall i :: 0 <= i < |plan| ==> out.tensors[i].offset == offsets[i];
    SortedIffEmptyInOrder(out.tensors, sizes);
    FileOrderTotal(out.tensors);
    SortFixedIff(out.tensors, FileOrderLe);
  }

  // ---------------------------------------------------------------- the second run's plan

  /** The entry a tensor of the output gets: copied as it is. */
  function CopyOf(p: Planned): Planned {
    Planned(p.name, p.dimensions, p.dstType, p.dstType, Copy, p.dstBytes, p.dstBytes)
  }

  function CopiesOf(plan: seq<Planned>): (copies: seq<Planned>)
    ensures |copies| == |plan|
  {
    seq(|plan|, i requires 0 <= i < |plan| => CopyOf(plan[i]))
  }

  /** Same shape and name, and the type and size the first run gave it. */
  ghost predicate IsOutputOf(t: TensorInfo, p: Planned) {
    && t.name == p.name && t.dimensions == p.dimensions && t.tensorType == p.dstType
    && TryDataSize(p.dimensions, p.dstType) == Some(p.dstBytes)
  }

  lemma SecondDecisionCopies(
    args: Args, args2: Args, t: TensorInfo, t2: TensorInfo, quantizable: bool, target: GgufTensorType)
    requires Decide(args, t, quantizable, target).Ok? && !args2.forceRequantize
    requires IsOutputOf(t2, Decide(args, t, quantizable, target).value)
    requires !quantizable ==> target == t.tensorType
    ensures Decide(args2, t2, quantizable, if quantizable then target else t2.tensorType)
         == Ok(CopyOf(Decide(args, t, quantizable, target).value))
  {
    hide TryDataSize, RowBytes, CanEncode;
  }

  lemma SecondStepCopies(
    info: ModelInfo, ftype: Ftype, args: Args, args2: Args, c: Counters,
    t: TensorInfo, t2: TensorInfo, quantizable: bool)
    requires args2.pureTypes == args.pureTypes && !args2.forceRequantize
    requires PlanCandidate(info, ftype, args, c, t, quantizable).Ok?
    requires t2.name == t.name && t2.dimensions == t.dimensions
    requires IsOutputOf(t2, PlanCandidate(info, ftype, args, c, t, quantizable).value.0)
    ensures PlanCandidate(info, ftype, args2, c, t2, quantizable)
         == Ok((CopyOf(PlanCandidate(info, ftype, args, c, t, quantizable).value.0),
                PlanCandidate(info, ftype, args, c, t, quantizable).value.1))
  {
    hide Decide, IsOutputOf, SelectStep, FallbackForIncompatibleRow;
    var target := TargetOf(info, ftype, args.pureTypes, c, t, quantizable).value.0;
    SecondDecisionCopies(args, args2, t, t2, quantizable, target);
  }

  /** Planning a plan's own output, in plan order and with the same mixture, copies everything:
      the selector walks through the same states and finds every tensor already at its target. */
  lemma {:induction false} SecondPlanCopies(
    info: ModelInfo, ftype: Ftype, args: Args, args2: Args, c: Counters,
    ts: seq<TensorInfo>, plan: seq<Planned>, outs: seq<TensorInfo>)
    requires args2.pureTypes == args.pureTypes && !args2.forceRequantize
    requires PlanAll(info, ftype, args, c, ts) == Ok(plan)
    requires |ts| == |plan| == |outs|
    requires forall i :: 0 <= i < |plan| ==> IsOutputOf(outs[i], plan[i]) && EntryAbout(plan[i], ts[i])
    ensures PlanAll(info, ftype, args2, c, outs) == Ok(CopiesOf(plan))
    decreases ts
  {
    hide PlanCandidate, ShouldQuantize, TryDataSize;
    if ts != [] {
      ConsPlan(info, ftype, args, c, ts, plan);
      var next := PlanOne(info, ftype, args, c, ts[0]).value.1;
      assert IsOutputOf(outs[0], plan[0]) && EntryAbout(plan[0], ts[0]);
      SecondStepCopies(info, ftype, args, args2, c, ts[0], outs[0], ShouldQuantize(ts[0].name, |ts[0].dimensions|));
      forall i | 0 <= i < |plan| - 1
        ensures IsOutputOf(outs[1..][i], plan[1..][i]) && EntryAbout(plan[1..][i], ts[1..][i])
      {
        assert IsOutputOf(outs[i + 1], plan[i + 1]) && EntryAbout(plan[i + 1], ts[i + 1]);
      }
      SecondPlanCopies(info, ftype, args, args2, next, ts[1..], plan[1..], outs[1..]);
      assert CopiesOf(plan) == [CopyOf(plan[0])] + CopiesOf(plan[1..]);
    }
  }

  lemma OutputsOf(f: GgufFile, ftype: Ftype, args: Args, codec: Codec, plan: seq<Planned>, out: GgufFile)
    requires Ran(f, ftype, args, codec, plan, out)
    ensures |out.tensors| == |plan| == |Sort(f.tensors, FileOrderLe)|
    ensures forall i :: 0 <= i < |plan| ==>
              IsOutputOf(out.tensors[i], plan[i]) && EntryAbout(plan[i], Sort(f.tensors, FileOrderLe)[i])
  {
    hide Emit, ModelInfoOf, PlanAll, Sort, TryDataSize, DeclaredSizes, Offsets, EntryAbout;
    var sorted := Sort(f.tensors, FileOrderLe);
    EmitFacts(f, ftype, plan, codec, out);
    DeclaredSizesAre(plan);
    PlannedSizesAreDeclared(ModelInfoOf(f.kvs, f.tensors), ftype, args, sorted, plan);
    PlanCoversTensors(ModelInfoOf(f.kvs, f.tensors), ftype, args, FRESH, sorted, plan);
  }

  lemma SecondPlan(
    f: GgufFile, ftype: Ftype, args: Args, args2: Args, codec: Codec, plan: seq<Planned>, out: GgufFile)
    requires Ran(f, ftype, args, codec, plan, out)
    requires args2.pureTypes == args.pureTypes && !args2.forceRequantize
    requires EmptyTensorsInNameOrder(plan)
    ensures PlanOf(out, ftype, args2) == Ok(CopiesOf(plan))
  {
    hide Emit, ModelInfoOf, PlanAll, Sort, TryDataSize, EntryAbout, IsOutputOf, CopiesOf, EmptyTensorsInNameOrder;
    SameModelInfo(f, ftype, args, codec, plan, out);
    OutputInFileOrderIff(f, ftype, args, codec, plan, out);
    OutputsOf(f, ftype, args, codec, plan, out);
    SecondPlanCopies(ModelInfoOf(f.kvs, f.tensors), ftype, args, args2, FRESH,
                     Sort(f.tensors, FileOrderLe), plan, out.tensors);
  }

  // ---------------------------------------------------------------- the second run's bytes

  lemma CopiedPayloads(
    f: GgufFile, ftype: Ftype, args: Args, codec: Codec, codec2: Codec, plan: seq<Planned>, out: GgufFile, i: nat)
    requires Ran(f, ftype, args, codec, plan, out) && i < |plan|
    ensures Payload(out, CopiesOf(plan)[i], codec2) == Ok(Payloads(f, plan, codec)[i])
  {
    ReadBack(f, ftype, args, codec, plan, out, i);
    hide Ran, TensorData, Payloads;
  }

  lemma {:induction false} CopiesDeclareTheSame(plan: seq<Planned>)
    ensures DeclaredSizes(CopiesOf(plan)) == DeclaredSizes(plan)
  {
    hide TryDataSize;
    if plan != [] {
      assert CopiesOf(plan)[1..] == CopiesOf(plan[1..]);
      CopiesDeclareTheSame(plan[1..]);
    }
  }

  lemma SecondEmit(
    f: GgufFile, ftype: Ftype, args: Args, codec: Codec, codec2: Codec, plan: seq<Planned>, out: GgufFile)
    requires Ran(f, ftype, args, codec, plan, out)
    ensures Emit(out, ftype, CopiesOf(plan), codec2) == Ok(GgufFile(Rewrite(ftype, out.kvs), out.tensors, out.data))
  {
    hide PlanOf, Payload, Payloads, WriteAll, HoldsAt, Spaced, DeclaredSizes, Offsets, Stream, Rewrite, CopiesOf;
    var copies, datas := CopiesOf(plan), Payloads(f, plan, codec);
    LaidOut(f, ftype, plan, codec, out);
    CopiesDeclareTheSame(plan);
    forall i | 0 <= i < |copies|
      ensures Payload(out, copies[i], codec2) == Ok(datas[i])
    {
      CopiedPayloads(f, ftype, args, codec, codec2, plan, out, i);
    }
    StreamsWriteAll(out, copies, SizesOf(datas), codec2, datas, [], 0, out.data);
    OffsetsLength(0, SizesOf(datas));
    CopiesTable(plan, Offsets(0, SizesOf(datas)).value);
  }

  lemma CopiesTable(plan: seq<Planned>, offsets: seq<U64>)
    requires |plan| == |offsets|
    ensures OutTable(CopiesOf(plan), offsets) == OutTable(plan, offsets)
  {
  }

  // ---------------------------------------------------------------- main results

  /** Quantizing an output again with the same target and mixture and no force, with any codec
      and whether or not re-quantization is permitted, succeeds and reproduces the tensor
      table and the data section byte for byte, and every metadata value; provided empty
      tensors are in name order. */
  lemma SecondRunReproduces(
    f: GgufFile, ftype: Ftype, args: Args, args2: Args, codec: Codec, codec2: Codec,
    plan: seq<Planned>, out: GgufFile, key: string)
    requires Ran(f, ftype, args, codec, plan, out)
    requires args2.pureTypes == args.pureTypes && !args2.forceRequantize
    requires EmptyTensorsInNameOrder(plan)
    ensures Requantized(out, ftype, args2, codec2).Ok?
    ensures var again := Requantized(out, ftype, args2, codec2).value;
            again.tensors == out.tensors && again.data == out.data && Get(again.kvs, key) == Get(out.kvs, key)
  {
    hide PlanOf, Emit, Rewrite, Get, CopiesOf, EmptyTensorsInNameOrder;
    SecondPlan(f, ftype, args, args2, codec, plan, out);
    SecondEmit(f, ftype, args, codec, codec2, plan, out);
    EmitFacts(f, ftype, plan, codec, out);
    RewriteIdempotentAsTable(ftype, f.kvs, key);
  }

  /** The output file is a fixed point of re-quantization exactly when, in the plan, every
      empty tensor's successor has the larger name, and, in the input's header, no key that
      has to be added sorts in front of a key that is already there. */
  lemma FixedPointIff(
    f: GgufFile, ftype: Ftype, args: Args, args2: Args, codec: Codec, codec2: Codec, plan: seq<Planned>, out: GgufFile)
    requires Ran(f, ftype, args, codec, plan, out)
    requires args2.pureTypes == args.pureTypes && !args2.forceRequantize
    ensures Requantized(out, ftype, args2, codec2) == Ok(out) <==>
            EmptyTensorsInNameOrder(plan) && AppendsInOrder(f.kvs)
  {
    hide ModelInfoOf, Plan, Emit, Rewrite, CopiesOf, EmptyTensorsInNameOrder, AppendsInOrder;
    EmitFacts(f, ftype, plan, codec, out);
    HeaderOrderStableIff(ftype, f.kvs);
    if EmptyTensorsInNameOrder(plan) {
      SecondPlan(f, ftype, args, args2, codec, plan, out);
      SecondEmit(f, ftype, args, codec, codec2, plan, out);
    } else if Requantized(out, ftype, args2, codec2) == Ok(out) {
      ReproducedTableIsSorted(f, ftype, args, args2, codec, codec2, plan, out);
    }
  }

  lemma ReproducedTableIsSorted(
    f: GgufFile, ftype: Ftype, args: Args, args2: Args, codec: Codec, codec2: Codec, plan: seq<Planned>, out: GgufFile)
    requires Ran(f, ftype, args, codec, plan, out)
    requires Requantized(out, ftype, args2, codec2) == Ok(out)
    ensures EmptyTensorsInNameOrder(plan)
  {
    hide ModelInfoOf, Plan, Emit, Sort, EmptyTensorsInNameOrder;
    OutNames(f, ftype, args, codec, plan, out);
    var plan2 := PlanOf(out, ftype, args2).value;
    EmitFacts(f, ftype, plan, codec, out);
    EmitFacts(out, ftype, plan2, codec2, out);
    RewriteKeysUnique(ftype, f.kvs);
    OutNames(out, ftype, args2, codec2, plan2, out);
    var sorted := Sort(out.tensors, FileOrderLe);
    SortPermutes(out.tensors, FileOrderLe);
    forall i | 0 <= i < |sorted|
      ensures sorted[i] == out.tensors[i]
    {
      assert sorted[i] in multiset(out.tensors);
      SameNameSameTensor(out.tensors, sorted[i], out.tensors[i]);
    }
    assert sorted == out.tensors;
    OutputInFileOrderIff(f, ftype, args, codec, plan, out);
  }

  // ---------------------------------------------------------------- a run that is not reproduced

  const ZED := TensorInfo("z", [0], F32, 0)
  const AYE := TensorInfo("a", [0], F32, 32)

  /** Two empty tensors, `z` in front of `a`. */
  const TWO_EMPTY := GgufFile([], [ZED, AYE], Zeros(32))

  lemma EmptyTensorPlan(info: ModelInfo, ftype: Ftype, args: Args, c: Counters, t: TensorInfo)
    requires t.dimensions == [0] && t.tensorType == F32
    ensures PlanOne(info, ftype, args, c, t) == Ok((Planned(t.name, [0], F32, F32, Copy, 0, 0), c))
  {
    assert CheckedFold(1, [0]) == CheckedFold(0, []);
    assert !ShouldQuantize(t.name, |t.dimensions|);
  }

  const PLAN_ZED := Planned("z", [0], F32, F32, Copy, 0, 0)
  const PLAN_AYE := Planned("a", [0], F32, F32, Copy, 0, 0)

  lemma TwoEmptyPlan(info: ModelInfo, ftype: Ftype, args: Args)
    ensures Plan(info, ftype, args, TWO_EMPTY.tensors) == Ok([PLAN_ZED, PLAN_AYE])
  {
    hide PlanOne, PlanAll;
    var ts, plan := [ZED, AYE], [PLAN_ZED, PLAN_AYE];
    assert ts[1..] == [AYE] && [AYE][1..] == [] && plan[1..] == [PLAN_AYE] && [PLAN_AYE][1..] == [];
    assert NameOf(ZED) != NameOf(AYE);
    FileOrderTotal(ts);
    SortFixedIff(ts, FileOrderLe);
    EmptyTensorPlan(info, ftype, args, FRESH, ZED);
    EmptyTensorPlan(info, ftype, args, FRESH, AYE);
    assert PlanAll(info, ftype, args, FRESH, []) == Ok([]) by {
      PlanOfNothing(info, ftype, args);
    }
    ConsPlan(info, ftype, args, FRESH, [AYE], [PLAN_AYE]);
    ConsPlan(info, ftype, args, FRESH, ts, plan);
  }

  lemma PlanOfNothing(info: ModelInfo, ftype: Ftype, args: Args)
    ensures PlanAll(info, ftype, args, FRESH, []) == Ok([])
  {
  }

  lemma TwoEmptyPayloads(codec: Codec)
    ensures TryDataSize([0], F32) == Some(0)
    ensures Payload(TWO_EMPTY, PLAN_ZED, codec) == Ok([])
    ensures Payload(TWO_EMPTY, PLAN_AYE, codec) == Ok([])
  {
    assert CheckedFold(1, [0]) == CheckedFold(0, []);
    assert TryDataSize([0], F32) == Some(0);
    var ts := TWO_EMPTY.tensors;
    assert ts[1..] == [AYE];
    assert FindTensor(ts, "z") == Some(ZED);
    assert FindTensor(ts, "a") == Some(AYE);
    assert TWO_EMPTY.data[0..0] == [] && TWO_EMPTY.data[32..32] == [];
  }

  lemma TwoEmptySizes()
    ensures DeclaredSizes([PLAN_ZED, PLAN_AYE]) == Some([0, 0])
    ensures Offsets(0, [0, 0]).Some?
  {
    hide TryDataSize;
    TwoEmptyPayloads((_, _, _, _) => None);
    var plan: seq<Planned>, sizes: seq<U64> := [PLAN_ZED, PLAN_AYE], [0, 0];
    assert plan[1..] == [PLAN_AYE] && [PLAN_AYE][1..] == [] && sizes[1..] == [0] && sizes[1..][1..] == [];
    assert [0] + [] == sizes[1..] && [0] + [0] == sizes;
    assert DeclaredSizes([]) == Some([]);
    assert DeclaredSizes([PLAN_AYE]) == Some(sizes[1..]);
    assert Offsets(0, []) == Some([]);
    assert Offsets(0, sizes[1..]) == Some([0] + []);
  }

  lemma EmptyPayloadWritten(f: GgufFile, plan: seq<Planned>, sizes: seq<U64>, codec: Codec)
    requires |plan| == |sizes| > 0 && sizes[0] == 0 && Payload(f, plan[0], codec) == Ok([])
    ensures WriteAll(f, plan, sizes, codec, [], 0) ==
            if |plan| == 1 then Ok([]) else WriteAll(f, plan[1..], sizes[1..], codec, [], 0)
  {
    hide Payload, Padding, NextStart, Zeros;
    NothingPadded();
    var nothing: Bytes := [];
    assert nothing + nothing == nothing;
    assert WriteAll(f, plan, sizes, codec, nothing, 0) ==
           if |plan| == 1 then Ok(nothing + nothing)
           else WriteAll(f, plan[1..], sizes[1..], codec, nothing + nothing + Zeros(Padding(0 + 0)), NextStart(0, 0));
  }

  lemma NothingPadded()
    ensures NextStart(0, 0) == 0 && Zeros(Padding(0)) == []
  {
  }

  lemma TwoEmptyWritten(codec: Codec)
    ensures WriteAll(TWO_EMPTY, [PLAN_ZED, PLAN_AYE], [0, 0], codec, [], 0) == Ok([])
  {
    hide Payload, WriteAll;
    TwoEmptyPayloads(codec);
    var plan: seq<Planned>, sizes: seq<U64> := [PLAN_ZED, PLAN_AYE], [0, 0];
    EmptyPayloadWritten(TWO_EMPTY, plan, sizes, codec);
    EmptyPayloadWritten(TWO_EMPTY, plan[1..], sizes[1..], codec);
  }

  /** A successful run whose output a second run does not reproduce: the output gives both
      empty tensors offset zero, so the second run visits `a` first. */
  lemma EmptyTensorsNotReproduced(ftype: Ftype, args: Args, args2: Args, codec: Codec, codec2: Codec)
    returns (out: GgufFile)
    requires args2.pureTypes == args.pureTypes && !args2.forceRequantize
    ensures Requantized(TWO_EMPTY, ftype, args, codec) == Ok(out)
    ensures Requantized(out, ftype, args2, codec2) != Ok(out)
  {
    hide Plan, Rewrite, ModelInfoOf, DeclaredSizes, Offsets, WriteAll, Sort;
    TwoEmptyPlan(ModelInfoOf(TWO_EMPTY.kvs, TWO_EMPTY.tensors), ftype, args);
    TwoEmptySizes();
    TwoEmptyWritten(codec);
    out := Requantized(TWO_EMPTY, ftype, args, codec).value;
    var plan := [PLAN_ZED, PLAN_AYE];
    assert !StrLe(plan[0].name, plan[1].name) && plan[0].dstBytes == 0;
    FixedPointIff(TWO_EMPTY, ftype, args, args2, codec, codec2, plan, out);
  }
}
