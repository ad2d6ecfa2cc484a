/** `oxillama verify`: the bounds and size checks over a file's tensors. */
module Verify {
  import opened Machine
  import opened Ordering
  import opened GgufTypes
  import opened TypeSelect
  import opened GgufWriter
  import opened Quantize
  import opened Requantize
  import Integrity

  /** `SizePanic` is the arithmetic panic of a size that does not fit in 64 bits. */
  datatype VerifyError =
    | SizePanic(name: string) | StartOverflow(name: string) | EndOverflow(name: string)
    | OutOfFile(name: string) | ShapeMismatch(name: string)

  /** The size the shape implies, computed apart from the declared one, in wrapping arithmetic. */
  function ImpliedSize(t: TensorInfo): U64
    requires t.dimensions == [] || CheckedFold(1, t.dimensions).Some?
  {
    var n := if t.dimensions == [] then 0 else CheckedFold(1, t.dimensions).value;
    Wrap64(CeilDiv(n, t.tensorType.BlockSize()) * t.tensorType.BlockBytes())
  }

  /** The first complaint about one tensor. */
  function Complaint(data: Bytes, base: U64, t: TensorInfo): Option<VerifyError> {
    match TryDataSize(t.dimensions, t.tensorType)
    case None => Some(SizePanic(t.name))
    case Some(size) =>
      match CheckedAdd(base, t.offset)
      case None => Some(StartOverflow(t.name))
      case Some(start) =>
        match CheckedAdd(start, size)
        case None => Some(VerifyError.EndOverflow(t.name))
        case Some(end) =>
          TryDataSizeExact(t.dimensions, t.tensorType);
          if end > |data| then Some(OutOfFile(t.name))
          else if ImpliedSize(t) != size then Some(ShapeMismatch(t.name))
          else None
  }

  function FirstComplaint(data: Bytes, base: U64, ts: seq<TensorInfo>): Option<VerifyError> {
    if ts == [] then None
    else if Complaint(data, base, ts[0]).Some? then Complaint(data, base, ts[0])
    else FirstComplaint(data, base, ts[1..])
  }

  /** The tensor loop of `run_verify`, in the order the table iterates. */
  method VerifyTensors(data: Bytes, base: U64, ts: seq<TensorInfo>) returns (r: Option<VerifyError>)
    ensures r == FirstComplaint(data, base, ts)
  {
    hide Complaint;
    assert ts[0..] == ts;
    for i := 0 to |ts|
      invariant FirstComplaint(data, base, ts) == FirstComplaint(data, base, ts[i..])
    {
      assert ts[i..][0] == ts[i] && ts[i..][1..] == ts[i + 1..];
      var c := Complaint(data, base, ts[i]);
      if c.Some? {
        return c;
      }
    }
    return None;
  }

  /** The tensor lies inside the file, in exact arithmetic. */
  ghost predicate InFile(data: Bytes, base: U64, t: TensorInfo) {
    && TryDataSize(t.dimensions, t.tensorType).Some?
    && base + t.offset + ExactSize(t.dimensions, t.tensorType) < TWO_64
    && base + t.offset + ExactSize(t.dimensions, t.tensorType) <= |data|
  }

  /** The size cross-check never fires: both sides are the same formula on the same shape. A
      tensor passes exactly when it lies inside the file. */
  lemma ComplaintIff(data: Bytes, base: U64, t: TensorInfo)
    ensures Complaint(data, base, t) != Some(ShapeMismatch(t.name))
    ensures Complaint(data, base, t).None? <==> InFile(data, base, t)
  {
    hide TryDataSize, ImpliedSize, ExactSize;
    if TryDataSize(t.dimensions, t.tensorType).Some? {
      TryDataSizeExact(t.dimensions, t.tensorType);
      ImpliedIsDeclared(t);
    }
  }

  lemma ImpliedIsDeclared(t: TensorInfo)
    requires TryDataSize(t.dimensions, t.tensorType).Some?
    ensures t.dimensions == [] || CheckedFold(1, t.dimensions).Some?
    ensures ImpliedSize(t) == TryDataSize(t.dimensions, t.tensorType).value
  {
    hide CeilDiv;
  }

  lemma {:induction false} AcceptsIff(data: Bytes, base: U64, ts: seq<TensorInfo>)
    ensures FirstComplaint(data, base, ts).None? <==> forall t :: t in ts ==> InFile(data, base, t)
  {
    hide Complaint, InFile;
    if ts != [] {
      ComplaintIff(data, base, ts[0]);
      AcceptsIff(data, base, ts[1..]);
      assert ts == [ts[0]] + ts[1..];
    }
  }

  // ---------------------------------------------------------------- against the other checkers

  lemma SliceIff(data: Bytes, base: U64, t: TensorInfo)
    ensures TensorDataSlice(data, t, base).Ok? <==> InFile(data, base, t)
  {
    if TryDataSize(t.dimensions, t.tensorType).Some? {
      TryDataSizeExact(t.dimensions, t.tensorType);
    }
    hide ExactSize, TryDataSize;
  }

  lemma {:induction false} HashAllIff(hash: Integrity.Hasher, data: Bytes, base: U64, ts: seq<TensorInfo>)
    ensures Integrity.HashAll(hash, data, base, ts).Ok? <==> forall t :: t in ts ==> InFile(data, base, t)
  {
    hide InFile, TensorDataSlice, Integrity.HashTensor;
    if ts != [] {
      SliceIff(data, base, ts[0]);
      Integrity.HashedSizeIsDataSize(hash, data, ts[0], base);
      HashAllIff(hash, data, base, ts[1..]);
      assert ts == [ts[0]] + ts[1..];
    }
  }

  /** The two integrity commands accept the same files: the bounds checks pass, in whatever
      order the table iterates, exactly when a hash manifest can be computed. */
  lemma VerifiesIffManifest(hash: Integrity.Hasher, data: Bytes, store: Integrity.TensorStore)
    ensures FirstComplaint(data, store.dataOffset, store.infos).None? <==>
            Integrity.ManifestOf(hash, data, store).Ok?
  {
    hide InFile, FirstComplaint, Integrity.HashAll;
    var sorted := Sort(store.infos, Integrity.NameLe);
    SortPermutes(store.infos, Integrity.NameLe);
    AcceptsIff(data, store.dataOffset, store.infos);
    HashAllIff(hash, data, store.dataOffset, sorted);
    assert forall t :: t in store.infos <==> t in multiset(sorted);
  }

  lemma TensorInFile(f: GgufFile, ftype: Ftype, plan: seq<Planned>, codec: Codec, out: GgufFile, header: Bytes, i: nat)
    requires Emit(f, ftype, plan, codec) == Ok(out) && |header| + |out.data| < TWO_64
    requires i < |out.tensors|
    ensures InFile(header + out.data, |header|, out.tensors[i])
  {
    hide Emit, Payloads, Payload, Stream, Spaced, Offsets, DeclaredSizes;
    LaidOut(f, ftype, plan, codec, out);
    DeclaredSizesAre(plan);
    var size := DeclaredSizes(plan).value[i];
    assert HoldsAt(out.data, out.tensors[i].offset, Payloads(f, plan, codec)[i]);
    assert TryDataSize(out.tensors[i].dimensions, out.tensors[i].tensorType) == Some(size);
    TryDataSizeExact(out.tensors[i].dimensions, out.tensors[i].tensorType);
    hide TryDataSize, ExactSize;
  }

  /** What re-quantization writes passes verification, behind any header. */
  lemma RequantizedFileVerifies(f: GgufFile, ftype: Ftype, args: Args, codec: Codec, out: GgufFile, header: Bytes)
    requires Requantized(f, ftype, args, codec) == Ok(out) && |header| + |out.data| < TWO_64
    ensures FirstComplaint(header + out.data, |header|, out.tensors) == None
  {
    hide Emit, InFile;
    var plan := PlanOf(f, ftype, args).value;
    forall t | t in out.tensors
      ensures InFile(header + out.data, |header|, t)
    {
      var i :| 0 <= i < |out.tensors| && out.tensors[i] == t;
      TensorInFile(f, ftype, plan, codec, out, header, i);
    }
    AcceptsIff(header + out.data, |header|, out.tensors);
  }
}
