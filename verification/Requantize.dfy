/** A whole re-quantization run, from file to file, and what a second run does to its output. */
module Requantize {
  import opened Machine
  import opened Ordering
  import opened GgufTypes
  import opened TypeSelect
  import opened Metadata
  import opened GgufWriter
  import opened Quantize

  /** A GGUF file: metadata pairs and tensor infos in some order, and the data section. */
  datatype GgufFile = GgufFile(kvs: seq<Pair>, tensors: seq<TensorInfo>, data: Bytes)

  /** Decode-then-encode of one tensor: bytes, source type, shape, destination type. */
  type Codec = (Bytes, GgufTensorType, seq<U64>, GgufTensorType) -> Option<Bytes>

  datatype RunError =
    | Planning(e: PlanError)
    | Declaring
    | Layout
    | Reading(name: string)
    | Coding(name: string)
    | Writing(w: WriteError)

  function FindTensor(ts: seq<TensorInfo>, name: string): Option<TensorInfo> {
    if ts == [] then None
    else if ts[0].name == name then Some(ts[0])
    else FindTensor(ts[1..], name)
  }

  /** `tensor_data(name)` on a file whose data section starts at offset zero. */
  function TensorData(f: GgufFile, name: string): Option<Bytes> {
    match FindTensor(f.tensors, name)
    case None => None
    case Some(t) =>
      match TensorDataSlice(f.data, t, 0)
      case Ok(bytes) => Some(bytes)
      case Err(_) => None
  }

  /** The bytes a plan entry contributes. */
  function Payload(f: GgufFile, p: Planned, codec: Codec): Result<Bytes, RunError> {
    match TensorData(f, p.name)
    case None => Err(Reading(p.name))
    case Some(raw) =>
      match p.action
      case Copy => Ok(raw)
      case Encode(ty) =>
        match codec(raw, p.srcType, p.dimensions, ty)
        case None => Err(Coding(p.name))
        case Some(bytes) => Ok(bytes)
  }

  /** The sizes the writer declares, computed from shape and type alone. */
  function DeclaredSizes(plan: seq<Planned>): Option<seq<U64>> {
    if plan == [] then Some([])
    else match TryDataSize(plan[0].dimensions, plan[0].dstType)
      case None => None
      case Some(size) =>
        match DeclaredSizes(plan[1..])
        case None => None
        case Some(rest) => Some([size] + rest)
  }

  /** The streaming loop over the plan, behind `out` bytes already written. */
  function WriteAll(f: GgufFile, plan: seq<Planned>, sizes: seq<U64>, codec: Codec, out: Bytes, cum: U64)
    : Result<Bytes, RunError>
    requires |plan| == |sizes|
    decreases plan
  {
    if plan == [] then Ok(out)
    else match Payload(f, plan[0], codec)
      case Err(e) => Err(e)
      case Ok(data) =>
        if |data| != sizes[0] then Err(Writing(SizeMismatch))
        else if cum + |data| >= TWO_64 then Err(Writing(WriteError.OffsetOverflow))
        else if |plan| == 1 then Ok(out + data)
        else WriteAll(f, plan[1..], sizes[1..], codec,
                      out + data + Zeros(Padding(cum + |data|)), NextStart(cum, |data|))
  }

  function OutTable(plan: seq<Planned>, offsets: seq<U64>): (table: seq<TensorInfo>)
    requires |plan| == |offsets|
    ensures |table| == |plan|
  {
    seq(|plan|, i requires 0 <= i < |plan| =>
      TensorInfo(plan[i].name, plan[i].dimensions, plan[i].dstType, offsets[i]))
  }

  function PlanOf(f: GgufFile, ftype: Ftype, args: Args): Result<seq<Planned>, PlanError> {
    Plan(ModelInfoOf(f.kvs, f.tensors), ftype, args, f.tensors)
  }

  lemma {:induction false} OffsetsLength(start: U64, sizes: seq<U64>)
    requires Offsets(start, sizes).Some?
    ensures |Offsets(start, sizes).value| == |sizes|
    decreases sizes
  {
    if sizes != [] {
      OffsetsLength(NextStart(start, sizes[0]), sizes[1..]);
    }
  }

  lemma {:induction false} DeclaredSizesAre(plan: seq<Planned>)
    requires DeclaredSizes(plan).Some?
    ensures |DeclaredSizes(plan).value| == |plan|
    ensures forall i :: 0 <= i < |plan| ==>
              TryDataSize(plan[i].dimensions, plan[i].dstType) == Some(DeclaredSizes(plan).value[i])
  {
    hide TryDataSize;
    if plan != [] {
      DeclaredSizesAre(plan[1..]);
      assert forall i :: 0 < i < |plan| ==> plan[i] == plan[1..][i - 1];
    }
  }

  /** The writing half of a run. */
  function Emit(f: GgufFile, ftype: Ftype, plan: seq<Planned>, codec: Codec): Result<GgufFile, RunError> {
    match DeclaredSizes(plan)
    case None => Err(Declaring)
    case Some(sizes) =>
      DeclaredSizesAre(plan);
      match Offsets(0, sizes)
      case None => Err(Layout)
      case Some(offsets) =>
        OffsetsLength(0, sizes);
        match WriteAll(f, plan, sizes, codec, [], 0)
        case Err(e) => Err(e)
        case Ok(section) => Ok(GgufFile(Rewrite(ftype, f.kvs), OutTable(plan, offsets), section))
  }

  /** A run that is not a dry run. */
  function Requantized(f: GgufFile, ftype: Ftype, args: Args, codec: Codec): Result<GgufFile, RunError> {
    match PlanOf(f, ftype, args)
    case Err(e) => Err(Planning(e))
    case Ok(plan) => Emit(f, ftype, plan, codec)
  }

  /** `run_quantize`; a dry run plans and writes nothing. */
  method RunQuantize(f: GgufFile, ftype: Ftype, args: Args, codec: Codec)
    returns (r: Result<Option<GgufFile>, RunError>)
    ensures args.dryRun ==>
              r == match PlanOf(f, ftype, args) case Err(e) => Err(Planning(e)) case Ok(_) => Ok(None)
    ensures !args.dryRun ==>
              r == match Requantized(f, ftype, args, codec) case Err(e) => Err(e) case Ok(out) => Ok(Some(out))
  {
    hide ModelInfoOf, Plan, Rewrite, TryDataSize, Payload;
    var info := ReadModelInfo(f.kvs, f.tensors);
    var planned := BuildPlan(info, ftype, args, f.tensors);
    if planned.Err? {
      return Err(Planning(planned.error));
    }
    if args.dryRun {
      return Ok(None);
    }
    var plan := planned.value;
    var kvs := RewriteMetadata(ftype, f.kvs);
    var declared := DeclaredSizes(plan);
    if declared.None? {
      return Err(Declaring);
    }
    var sizes := declared.value;
    DeclaredSizesAre(plan);
    var offsets := Offsets(0, sizes);
    if offsets.None? {
      return Err(Layout);
    }
    OffsetsLength(0, sizes);
    var section := StreamPlan(f, plan, sizes, codec);
    if section.Err? {
      return Err(section.error);
    }
    return Ok(Some(GgufFile(kvs, OutTable(plan, offsets.value), section.value)));
  }

  /** The data loop: read, copy or convert, and hand to the streaming writer. */
  method StreamPlan(f: GgufFile, plan: seq<Planned>, sizes: seq<U64>, codec: Codec) returns (r: Result<Bytes, RunError>)
    requires |plan| == |sizes|
    ensures r == WriteAll(f, plan, sizes, codec, [], 0)
  {
    hide Payload;
    var metas := seq(|plan|, i requires 0 <= i < |plan| => TensorMeta(plan[i].name, sizes[i]));
    var writer := new DataWriter(metas);
    assert plan[0..] == plan && sizes[0..] == sizes;
    for i := 0 to |plan|
      invariant writer.metas == metas && writer.nextIndex == i
      invariant WriteAll(f, plan, sizes, codec, [], 0) ==
                if i < |plan| then WriteAll(f, plan[i..], sizes[i..], codec, writer.out, writer.cumulativeOffset)
                else Ok(writer.out)
    {
      assert plan[i..][0] == plan[i] && plan[i..][1..] == plan[i + 1..];
      assert sizes[i..][0] == sizes[i] && sizes[i..][1..] == sizes[i + 1..];
      var payload := Payload(f, plan[i], codec);
      if payload.Err? {
        return Err(payload.error);
      }
      ghost var before := writer.out;
      var written := writer.WriteTensor(plan[i].name, payload.value);
      if written.Err? {
        return Err(Writing(written.error));
      }
      assert i + 1 == |plan| ==> writer.out == before + payload.value;
    }
    var done := writer.Finish();
    return Ok(done.value);
  }

  // ---------------------------------------------------------------- what a run's output holds

  lemma {:induction false} FindTensorIs(ts: seq<TensorInfo>, i: nat)
    requires UniqueBy(ts, NameOf) && i < |ts|
    ensures FindTensor(ts, ts[i].name) == Some(ts[i])
  {
    if i > 0 {
      assert NameOf(ts[0]) != NameOf(ts[i]);
      FindTensorIs(ts[1..], i - 1);
    }
  }

  /** The payloads of a successful write, as the plain list the stream is made of. */
  function Payloads(f: GgufFile, plan: seq<Planned>, codec: Codec): (datas: seq<Bytes>)
    ensures |datas| == |plan|
  {
    seq(|plan|, i requires 0 <= i < |plan| =>
      match Payload(f, plan[i], codec) case Ok(data) => data case Err(_) => [])
  }

  lemma {:induction false} WriteAllStreams(
    f: GgufFile, plan: seq<Planned>, sizes: seq<U64>, codec: Codec, out: Bytes, cum: U64)
    requires |plan| == |sizes|
    requires WriteAll(f, plan, sizes, codec, out, cum).Ok?
    ensures Stream(out, cum, Payloads(f, plan, codec)) == Some(WriteAll(f, plan, sizes, codec, out, cum).value)
    ensures SizesOf(Payloads(f, plan, codec)) == sizes
    ensures forall i :: 0 <= i < |plan| ==> Payload(f, plan[i], codec) == Ok(Payloads(f, plan, codec)[i])
    decreases plan
  {
    hide Payload, Padding, NextStart, Zeros;
    if plan != [] {
      var datas := Payloads(f, plan, codec);
      var data := datas[0];
      assert datas[1..] == Payloads(f, plan[1..], codec);
      if |plan| > 1 {
        var next := out + data + Zeros(Padding(cum + |data|));
        WriteAllStreams(f, plan[1..], sizes[1..], codec, next, NextStart(cum, |data|));
        assert SizesOf(datas)[1..] == SizesOf(datas[1..]);
      }
      assert SizesOf(datas) == [|data|] + SizesOf(datas[1..]);
      assert sizes == [sizes[0]] + sizes[1..];
      assert forall i :: 0 < i < |plan| ==> plan[i] == plan[1..][i - 1] && datas[i] == datas[1..][i - 1];
    }
  }

  /** Conversely, payloads of the declared sizes are all the streaming loop needs. */
  lemma {:induction false} StreamsWriteAll(
    f: GgufFile, plan: seq<Planned>, sizes: seq<U64>, codec: Codec, datas: seq<Bytes>,
    out: Bytes, cum: U64, section: Bytes)
    requires |plan| == |datas| && sizes == SizesOf(datas)
    requires forall i :: 0 <= i < |plan| ==> Payload(f, plan[i], codec) == Ok(datas[i])
    requires Stream(out, cum, datas) == Some(section)
    ensures WriteAll(f, plan, sizes, codec, out, cum) == Ok(section)
    decreases plan
  {
    hide Payload, Padding, NextStart, Zeros;
    if |plan| > 1 {
      var data := datas[0];
      assert sizes[1..] == SizesOf(datas[1..]);
      StreamsWriteAll(f, plan[1..], sizes[1..], codec, datas[1..],
                      out + data + Zeros(Padding(cum + |data|)), NextStart(cum, |data|), section);
    }
  }

  ghost predicate Ran(f: GgufFile, ftype: Ftype, args: Args, codec: Codec, plan: seq<Planned>, out: GgufFile) {
    && UniqueBy(f.kvs, KeyOf) && UniqueBy(f.tensors, NameOf)
    && PlanOf(f, ftype, args) == Ok(plan)
    && Emit(f, ftype, plan, codec) == Ok(out)
    && |out.data| < TWO_64
  }

  /** The pieces of a successful write. */
  lemma EmitFacts(f: GgufFile, ftype: Ftype, plan: seq<Planned>, codec: Codec, out: GgufFile)
    requires Emit(f, ftype, plan, codec) == Ok(out)
    ensures DeclaredSizes(plan).Some? && |DeclaredSizes(plan).value| == |plan|
    ensures Offsets(0, DeclaredSizes(plan).value).Some?
    ensures |Offsets(0, DeclaredSizes(plan).value).value| == |plan|
    ensures WriteAll(f, plan, DeclaredSizes(plan).value, codec, [], 0) == Ok(out.data)
    ensures out.kvs == Rewrite(ftype, f.kvs)
    ensures out.tensors == OutTable(plan, Offsets(0, DeclaredSizes(plan).value).value)
  {
    hide WriteAll, Rewrite, Offsets, DeclaredSizes;
    DeclaredSizesAre(plan);
    OffsetsLength(0, DeclaredSizes(plan).value);
  }

  lemma PlanNames(info: ModelInfo, ftype: Ftype, args: Args, ts: seq<TensorInfo>, plan: seq<Planned>)
    requires PlanAll(info, ftype, args, FRESH, ts) == Ok(plan)
    ensures |plan| == |ts| && forall i :: 0 <= i < |ts| ==> plan[i].name == ts[i].name
  {
    hide PlanAll, TryDataSize;
    PlanCoversTensors(info, ftype, args, FRESH, ts, plan);
    assert forall i :: 0 <= i < |ts| ==> EntryAbout(plan[i], ts[i]);
  }

  lemma SameNamesUnique(a: seq<TensorInfo>, b: seq<TensorInfo>)
    requires UniqueBy(a, NameOf) && |a| == |b|
    requires forall i :: 0 <= i < |a| ==> a[i].name == b[i].name
    ensures UniqueBy(b, NameOf)
  {
    forall i, j | 0 <= i < j < |b|
      ensures NameOf(b[i]) != NameOf(b[j])
    {
      assert NameOf(a[i]) != NameOf(a[j]);
    }
  }

  /** The output lists the planned tensors, in file order. */
  lemma OutNames(f: GgufFile, ftype: Ftype, args: Args, codec: Codec, plan: seq<Planned>, out: GgufFile)
    requires Ran(f, ftype, args, codec, plan, out)
    ensures |Sort(f.tensors, FileOrderLe)| == |plan| == |out.tensors|
    ensures forall i :: 0 <= i < |plan| ==>
              out.tensors[i].name == plan[i].name == Sort(f.tensors, FileOrderLe)[i].name
    ensures UniqueBy(out.tensors, NameOf)
  {
    hide ModelInfoOf, Emit, PlanAll;
    var sorted := Sort(f.tensors, FileOrderLe);
    SortPermutes(f.tensors, FileOrderLe);
    UniqueByPermutes(f.tensors, sorted, NameOf);
    PlanNames(ModelInfoOf(f.kvs, f.tensors), ftype, args, sorted, plan);
    EmitFacts(f, ftype, plan, codec, out);
    SameNamesUnique(sorted, out.tensors);
  }

  /** The layout facts of a run's output. */
  lemma LaidOut(f: GgufFile, ftype: Ftype, plan: seq<Planned>, codec: Codec, out: GgufFile)
    requires Emit(f, ftype, plan, codec) == Ok(out) && |out.data| < TWO_64
    ensures |plan| == |out.tensors|
    ensures DeclaredSizes(plan) == Some(SizesOf(Payloads(f, plan, codec)))
    ensures Stream([], 0, Payloads(f, plan, codec)) == Some(out.data)
    ensures forall i :: 0 <= i < |plan| ==>
              && Payload(f, plan[i], codec) == Ok(Payloads(f, plan, codec)[i])
              && HoldsAt(out.data, out.tensors[i].offset, Payloads(f, plan, codec)[i])
    ensures Offsets(0, SizesOf(Payloads(f, plan, codec))).Some?
    ensures Spaced(Offsets(0, SizesOf(Payloads(f, plan, codec))).value, SizesOf(Payloads(f, plan, codec)))
    ensures out.tensors == OutTable(plan, Offsets(0, SizesOf(Payloads(f, plan, codec))).value)
  {
    hide Emit, Payload, Payloads, WriteAll, HoldsAt, Spaced, DeclaredSizes, Offsets, Stream;
    EmitFacts(f, ftype, plan, codec, out);
    var sizes := DeclaredSizes(plan).value;
    WriteAllStreams(f, plan, sizes, codec, [], 0);
    StreamMatchesOffsets([], 0, Payloads(f, plan, codec), sizes, out.data);
  }

  lemma ReadAt(f: GgufFile, i: nat, data: Bytes)
    requires UniqueBy(f.tensors, NameOf) && i < |f.tensors| && |f.data| < TWO_64
    requires TryDataSize(f.tensors[i].dimensions, f.tensors[i].tensorType) == Some(|data|)
    requires HoldsAt(f.data, f.tensors[i].offset, data)
    ensures TensorData(f, f.tensors[i].name) == Some(data)
  {
    hide TryDataSize;
    FindTensorIs(f.tensors, i);
  }

  /** What a run leaves behind: reading any planned tensor back from the output gives exactly
      its payload, so copied tensors are byte-identical to the input's and encoded ones are
      the encoder's bytes. */
  lemma OutputHoldsPayloads(
    f: GgufFile, ftype: Ftype, args: Args, codec: Codec, plan: seq<Planned>, out: GgufFile, i: nat)
    requires Ran(f, ftype, args, codec, plan, out) && i < |plan|
    ensures TensorData(out, plan[i].name).Some?
    ensures Payload(f, plan[i], codec) == Ok(TensorData(out, plan[i].name).value)
    ensures plan[i].action == Copy ==> TensorData(out, plan[i].name) == TensorData(f, plan[i].name)
    ensures plan[i].action.Encode? ==>
              && FindTensor(f.tensors, plan[i].name).Some? && TensorData(f, plan[i].name).Some?
              && FindTensor(out.tensors, plan[i].name).Some?
              && var t := FindTensor(f.tensors, plan[i].name).value;
              TensorData(out, plan[i].name) ==
              codec(TensorData(f, plan[i].name).value, t.tensorType, t.dimensions,
                    FindTensor(out.tensors, plan[i].name).value.tensorType)
  {
    ReadBack(f, ftype, args, codec, plan, out, i);
    if plan[i].action.Encode? {
      EncodedTypes(f, ftype, args, codec, plan, out, i);
    }
    hide Ran, TensorData, Payloads, FindTensor;
  }

  lemma EncodedTypes(
    f: GgufFile, ftype: Ftype, args: Args, codec: Codec, plan: seq<Planned>, out: GgufFile, i: nat)
    requires Ran(f, ftype, args, codec, plan, out) && i < |plan| && plan[i].action.Encode?
    ensures FindTensor(f.tensors, plan[i].name).Some? && FindTensor(out.tensors, plan[i].name).Some?
    ensures FindTensor(f.tensors, plan[i].name).value.tensorType == plan[i].srcType
    ensures FindTensor(f.tensors, plan[i].name).value.dimensions == plan[i].dimensions
    ensures plan[i].action == Encode(FindTensor(out.tensors, plan[i].name).value.tensorType)
  {
    hide ModelInfoOf, Emit, PlanAll, Sort, TryDataSize, FindTensor, ExactSize;
    var info, sorted := ModelInfoOf(f.kvs, f.tensors), Sort(f.tensors, FileOrderLe);
    OutNames(f, ftype, args, codec, plan, out);
    EmitFacts(f, ftype, plan, codec, out);
    PlanCoversTensors(info, ftype, args, FRESH, sorted, plan);
    PlanEntriesSound(info, ftype, args, FRESH, sorted, plan);
    assert EntryAbout(plan[i], sorted[i]) && EntrySound(plan[i]);
    FindTensorIs(out.tensors, i);
    FindInTable(f.tensors, sorted, i);
  }

  /** A tensor of the sorted table is found in the table by its name. */
  lemma FindInTable(table: seq<TensorInfo>, sorted: seq<TensorInfo>, i: nat)
    requires UniqueBy(table, NameOf) && sorted == Sort(table, FileOrderLe) && i < |sorted|
    ensures FindTensor(table, sorted[i].name) == Some(sorted[i])
  {
    SortPermutes(table, FileOrderLe);
    assert sorted[i] in multiset(table);
    var j :| 0 <= j < |table| && table[j] == sorted[i];
    FindTensorIs(table, j);
  }

  lemma ReadBack(f: GgufFile, ftype: Ftype, args: Args, codec: Codec, plan: seq<Planned>, out: GgufFile, i: nat)
    requires Ran(f, ftype, args, codec, plan, out) && i < |plan|
    ensures TensorData(out, plan[i].name) == Some(Payloads(f, plan, codec)[i])
    ensures Payload(f, plan[i], codec) == Ok(Payloads(f, plan, codec)[i])
  {
    hide PlanOf, Emit, Payload, Payloads, HoldsAt, Spaced, DeclaredSizes, Offsets, Stream, TryDataSize, TensorData,
      Sort;
    OutNames(f, ftype, args, codec, plan, out);
    LaidOut(f, ftype, plan, codec, out);
    DeclaredSizesAre(plan);
    ReadAt(out, i, Payloads(f, plan, codec)[i]);
  }
}
