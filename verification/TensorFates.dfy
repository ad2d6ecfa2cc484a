/** What re-quantization does to each tensor of a file and to the layout of its data, from input
    file to output file. */
module TensorFates {
  import opened Machine
  import opened Ordering
  import opened GgufTypes
  import opened TypeSelect
  import opened Metadata
  import opened GgufWriter
  import opened Quantize
  import opened Requantize
  import opened Decisions
  import FixedPoint

  /** What becomes of tensor `t` behind the tensors `before`: its name and shape stay. A candidate
      ends at its target, and if it was not there yet, or by force, its new bytes are what the
      codec makes of its old bytes, its old type, its shape and its new type. Every other
      tensor keeps its type and its bytes. */
  ghost predicate Fate(
    f: GgufFile, ftype: Ftype, args: Args, codec: Codec, out: GgufFile, before: seq<TensorInfo>, t: TensorInfo)
  {
    var info, there := ModelInfoOf(f.kvs, f.tensors), FindTensor(out.tensors, t.name);
    && there.Some? && there.value.dimensions == t.dimensions
    && TensorData(f, t.name).Some? && TensorData(out, t.name).Some?
    && (IsCandidate(t) ==> IsTarget(info, ftype, args.pureTypes, before, t, there.value.tensorType))
    && (!IsCandidate(t) ==> there.value.tensorType == t.tensorType)
    && TensorData(out, t.name) ==
       if IsCandidate(t) && ToEncode(args, t, there.value.tensorType)
       then codec(TensorData(f, t.name).value, t.tensorType, t.dimensions, there.value.tensorType)
       else TensorData(f, t.name)
  }

  /** Every tensor of every successful run meets its fate, in file order. */
  lemma EveryFate(f: GgufFile, ftype: Ftype, args: Args, codec: Codec, plan: seq<Planned>, out: GgufFile, i: nat)
    requires Ran(f, ftype, args, codec, plan, out) && i < |plan|
    ensures var sorted := Sort(f.tensors, FileOrderLe);
            |sorted| == |plan| && Fate(f, ftype, args, codec, out, sorted[..i], sorted[i])
  {
    hide ModelInfoOf, PlanAll, Emit, Sort, TryDataSize, FindTensor, TensorData, IsTarget, ShouldQuantize, ToEncode;
    var sorted := Sort(f.tensors, FileOrderLe);
    OutNames(f, ftype, args, codec, plan, out);
    EmitFacts(f, ftype, plan, codec, out);
    PlanDecided(ModelInfoOf(f.kvs, f.tensors), ftype, args, f.tensors, plan, i);
    FindTensorIs(out.tensors, i);
    FindInTable(f.tensors, sorted, i);
    OutputHoldsPayloads(f, ftype, args, codec, plan, out, i);
    CopiedWereThere(f, plan[i], codec);
  }

  lemma CopiedWereThere(f: GgufFile, p: Planned, codec: Codec)
    ensures Payload(f, p, codec).Ok? ==> TensorData(f, p.name).Some?
  {
    hide TensorData;
  }

  // ---------------------------------------------------------------- layout

  /** The alignment a reader goes by. */
  function ReaderAlignment(kvs: seq<Pair>): int {
    U32Or(kvs, ALIGNMENT_KEY, 32)
  }

  lemma AlignmentRead(f: GgufFile, ftype: Ftype)
    requires UniqueBy(f.kvs, KeyOf)
    ensures ReaderAlignment(Rewrite(ftype, f.kvs)) == 32
  {
    hide Rewrite, Get;
    RewriteMeaning(ftype, f.kvs, ALIGNMENT_KEY);
    AbsentKey(f.kvs);
  }

  lemma AbsentKey(kvs: seq<Pair>)
    requires UniqueBy(kvs, KeyOf)
    ensures !HasKey(kvs, ALIGNMENT_KEY) ==> Get(kvs, ALIGNMENT_KEY) == None
    ensures ALIGNMENT_KEY != FILE_TYPE && ALIGNMENT_KEY != QUANT_VERSION
  {
    GetIff(kvs, ALIGNMENT_KEY);
    assert ALIGNMENT_KEY[8] == 'a' && FILE_TYPE[8] == 'f' && QUANT_VERSION[8] == 'q';
  }

  function OffsetsOf(ts: seq<TensorInfo>): (offsets: seq<U64>)
    ensures |offsets| == |ts|
  {
    seq(|ts|, i requires 0 <= i < |ts| => ts[i].offset)
  }

  function PlannedSizes(plan: seq<Planned>): (sizes: seq<U64>)
    ensures |sizes| == |plan|
  {
    seq(|plan|, i requires 0 <= i < |plan| => plan[i].dstBytes)
  }

  lemma OutputPadded(f: GgufFile, ftype: Ftype, plan: seq<Planned>, codec: Codec, out: GgufFile)
    requires Emit(f, ftype, plan, codec) == Ok(out) && |out.data| < TWO_64
    ensures DeclaredSizes(plan).Some?
    ensures Padded(out.data, OffsetsOf(out.tensors), DeclaredSizes(plan).value)
  {
    hide Emit, Payload, Payloads, Stream, Offsets, DeclaredSizes, HoldsAt, Padded, Spaced, Rewrite;
    LaidOut(f, ftype, plan, codec, out);
    var datas := Payloads(f, plan, codec);
    StreamPads([], 0, datas, SizesOf(datas), out.data);
    OffsetsLength(0, SizesOf(datas));
    assert OffsetsOf(out.tensors) == Offsets(0, SizesOf(datas)).value;
  }

  lemma PlanSizes(f: GgufFile, ftype: Ftype, args: Args, plan: seq<Planned>)
    requires PlanOf(f, ftype, args) == Ok(plan) && DeclaredSizes(plan).Some?
    ensures |DeclaredSizes(plan).value| == |plan|
    ensures forall i :: 0 <= i < |plan| ==> DeclaredSizes(plan).value[i] == plan[i].dstBytes
  {
    hide ModelInfoOf, PlanAll, Sort, DeclaredSizes;
    FixedPoint.PlannedSizesAreDeclared(
      ModelInfoOf(f.kvs, f.tensors), ftype, args, Sort(f.tensors, FileOrderLe), plan);
  }

  /** The output is laid out by the alignment its own metadata states: every tensor starts at a
      multiple of it, and only zero bytes, fewer than one unit, separate neighbours. */
  lemma OutputAligned(f: GgufFile, ftype: Ftype, args: Args, codec: Codec, plan: seq<Planned>, out: GgufFile)
    requires Ran(f, ftype, args, codec, plan, out)
    ensures ReaderAlignment(out.kvs) == ALIGNMENT
    ensures Padded(out.data, OffsetsOf(out.tensors), PlannedSizes(plan))
  {
    hide PlanOf, Emit, DeclaredSizes, Padded, Rewrite, ReaderAlignment;
    EmitFacts(f, ftype, plan, codec, out);
    AlignmentRead(f, ftype);
    OutputPadded(f, ftype, plan, codec, out);
    PlanSizes(f, ftype, args, plan);
    assert DeclaredSizes(plan).value == PlannedSizes(plan);
  }
}
