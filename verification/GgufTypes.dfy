/** Tensor types and the size arithmetic of `TensorInfo`. */
module GgufTypes {
  import opened Machine

  datatype GgufTensorType =
    | F32 | F16 | Q4_0 | Q4_1 | Q5_0 | Q5_1 | Q8_0 | Q8_1
    | Q2K | Q3K | Q4K | Q5K | Q6K | Q8K
    | Iq2Xxs | Iq2Xs | Iq3Xxs | Iq1S | Iq4Nl | Iq3S | Iq2S | Iq4Xs
    | I8 | I16 | I32 | I64 | F64 | Iq1M | Bf16
    | Q4_0_4_4 | Q4_0_4_8 | Q4_0_8_8 | Tq1_0 | Tq2_0
    | Iq4Nl4x4 | Iq4Nl4x8 | Iq4Nl8x8 | Q1_0G128
  {
    /** Weights per block. */
    function BlockSize(): (n: nat)
      ensures n in {1, 32, 128, 256}
    {
      match this
      case F32 | F16 | Bf16 | F64 | I8 | I16 | I32 | I64 => 1
      case Q4_0 | Q4_1 | Q5_0 | Q5_1 | Q8_0 | Q8_1 | Iq4Nl => 32
      case Q4_0_4_4 | Q4_0_4_8 | Q4_0_8_8 | Iq4Nl4x4 | Iq4Nl4x8 | Iq4Nl8x8 => 32
      case Q1_0G128 => 128
      case _ => 256
    }

    /** Bytes per block. */
    function BlockBytes(): (n: nat)
      ensures 0 < n < 300
    {
      match this
      case F32 | I32 => 4
      case F16 | Bf16 | I16 => 2
      case F64 | I64 => 8
      case I8 => 1
      case Q4_0 | Iq4Nl | Q4_0_4_4 | Q4_0_4_8 | Q4_0_8_8 | Q1_0G128 => 18
      case Q4_1 => 20
      case Q5_0 => 22
      case Q5_1 => 24
      case Q8_0 | Iq4Nl4x4 | Iq4Nl4x8 | Iq4Nl8x8 => 34
      case Q8_1 => 36
      case Q2K => 84
      case Q3K | Iq3S => 110
      case Q4K => 144
      case Q5K => 176
      case Q6K => 210
      case Q8K => 292
      case Iq2Xxs | Tq2_0 => 66
      case Iq2Xs => 74
      case Iq2S => 82
      case Iq3Xxs => 98
      case Iq1S => 50
      case Iq1M => 56
      case Iq4Xs => 136
      case Tq1_0 => 54
    }
  }

  datatype TensorInfo = TensorInfo(name: string, dimensions: seq<U64>, tensorType: GgufTensorType, offset: U64)

  function NameOf(t: TensorInfo): string {
    t.name
  }

  /** The exact number of elements of a shape, as an unbounded integer. */
  function Product(dims: seq<U64>): nat {
    if dims == [] then 1 else dims[0] * Product(dims[1..])
  }

  /** `try_fold(acc, checked_mul)`. */
  function CheckedFold(acc: U64, dims: seq<U64>): Option<U64>
    decreases dims
  {
    if dims == [] then Some(acc)
    else if acc * dims[0] < TWO_64 then CheckedFold(acc * dims[0], dims[1..])
    else None
  }

  /** `iter().product()` in a crate built without overflow checks. */
  function WrappingFold(acc: U64, dims: seq<U64>): U64
    decreases dims
  {
    if dims == [] then acc else WrappingFold(Wrap64(acc * dims[0]), dims[1..])
  }

  /** `TensorInfo::try_data_size`; no tensor type has a zero block size. */
  function TryDataSize(dims: seq<U64>, ty: GgufTensorType): Option<U64> {
    match if dims == [] then Some(0) else CheckedFold(1, dims)
    case None => None
    case Some(n) =>
      var size := CeilDiv(n, ty.BlockSize()) * ty.BlockBytes();
      if size < TWO_64 then Some(size) else None
  }

  /** The exact byte size of a tensor. */
  function ExactSize(dims: seq<U64>, ty: GgufTensorType): nat {
    if dims == [] then 0 else CeilDiv(Product(dims), ty.BlockSize()) * ty.BlockBytes()
  }

  datatype RowError = ZeroFirstDimension | IndivisibleRow

  /** `row_bytes` of the quantizer: `nrows * row_size`, in wrapping `u64` arithmetic. */
  function RowBytes(dims: seq<U64>, ty: GgufTensorType): Result<U64, RowError> {
    var perRow := if dims == [] then 0 else dims[0];
    if perRow == 0 then Err(ZeroFirstDimension)
    else
      var block := ty.BlockSize();
      if perRow % block != 0 then Err(IndivisibleRow)
      else
        var rows := WrappingFold(1, dims) / perRow;
        Ok(WrappingBytes(rows, perRow / block, ty.BlockBytes()))
  }

  function WrappingBytes(rows: nat, blocksPerRow: nat, blockBytes: nat): U64 {
    Wrap64(Wrap64(rows * blocksPerRow) * blockBytes)
  }

  lemma {:induction false} MulAssociates(a: int, b: int, c: int)
    ensures (a * b) * c == a * (b * c)
  {
  }

  lemma ProductCons(dims: seq<U64>)
    ensures Product(dims) == if dims == [] then 1 else dims[0] * Product(dims[1..])
  {
  }

  lemma FoldsCons(acc: U64, dims: seq<U64>)
    requires dims != [] && CheckedFold(acc, dims).Some?
    ensures acc * dims[0] < TWO_64
    ensures CheckedFold(acc, dims) == CheckedFold(acc * dims[0], dims[1..])
    ensures WrappingFold(acc, dims) == WrappingFold(acc * dims[0], dims[1..])
  {
    hide Wrap64;
    FitsUnwrapped(acc * dims[0]);
  }

  lemma FitsUnwrapped(x: nat)
    requires x < TWO_64
    ensures Wrap64(x) == x
  {
  }

  /** A checked product that succeeds is exact, and then the wrapping product is exact too. */
  lemma {:induction false} CheckedFoldExact(acc: U64, dims: seq<U64>)
    requires CheckedFold(acc, dims).Some?
    ensures CheckedFold(acc, dims).value == acc * Product(dims) == WrappingFold(acc, dims)
    decreases dims
  {
    hide Product;
    ProductCons(dims);
    if dims != [] {
      var next := acc * dims[0];
      FoldsCons(acc, dims);
      CheckedFoldExact(next, dims[1..]);
      MulAssociates(acc, dims[0], Product(dims[1..]));
    }
  }

  /** The checked product succeeds exactly when every prefix product fits in 64 bits. */
  lemma {:induction false} CheckedFoldIff(acc: U64, dims: seq<U64>)
    ensures CheckedFold(acc, dims).Some? <==>
            forall k :: 0 <= k <= |dims| ==> acc * Product(dims[..k]) < TWO_64
    decreases dims
  {
    if dims == [] {
      assert forall k :: 0 <= k <= |dims| ==> dims[..k] == [];
    } else {
      assert acc * Product(dims[..0]) == acc;
      forall k | 0 < k <= |dims|
        ensures acc * Product(dims[..k]) == (acc * dims[0]) * Product(dims[1..][..k - 1])
      {
        assert dims[..k][1..] == dims[1..][..k - 1];
        MulAssociates(acc, dims[0], Product(dims[1..][..k - 1]));
      }
      assert dims[1..][..0] == [];
      assert (acc * dims[0]) * Product(dims[1..][..0]) == acc * dims[0];
      if acc * dims[0] < TWO_64 {
        CheckedFoldIff(acc * dims[0], dims[1..]);
        if forall k :: 0 <= k <= |dims| ==> acc * Product(dims[..k]) < TWO_64 {
          forall k | 0 <= k <= |dims| - 1
            ensures (acc * dims[0]) * Product(dims[1..][..k]) < TWO_64
          {
            assert acc * Product(dims[..k + 1]) < TWO_64;
          }
        }
      } else {
        assert acc * Product(dims[..1]) >= TWO_64;
      }
    }
  }

  lemma DivisibleBlocks(perRow: nat, rest: nat, block: nat)
    requires perRow > 0 && block > 0 && perRow % block == 0
    ensures (perRow * rest) / perRow == rest
    ensures rest * (perRow / block) == CeilDiv(perRow * rest, block)
    ensures rest * (perRow / block) <= perRow * rest
  {
    var q := perRow / block;
    var m := rest * q;
    MulAssociates(rest, q, block);
    assert perRow * rest == m * block;
    QuotientUnique(m, block, block - 1);
    assert m <= m * block;
    QuotientUnique(rest, perRow, 0);
  }

  /** The quantizer's `row_bytes` and the file format's size formula agree: whenever
      `row_bytes` succeeds on a shape whose element count fits in 64 bits, for any number of
      dimensions, it is the exact size reduced modulo 2^64, and it is the size the writer
      will declare unless the writer refuses the tensor. */
  lemma SizesCoincide(dims: seq<U64>, ty: GgufTensorType)
    requires RowBytes(dims, ty).Ok?
    requires CheckedFold(1, dims).Some?
    ensures RowBytes(dims, ty).value == Wrap64(ExactSize(dims, ty))
    ensures TryDataSize(dims, ty) == if ExactSize(dims, ty) < TWO_64 then Some(ExactSize(dims, ty)) else None
  {
    CheckedFoldExact(1, dims);
    var n, block := Product(dims), ty.BlockSize();
    var rows, blocks := n / dims[0] * (dims[0] / block), CeilDiv(n, block);
    DivisibleBlocks(dims[0], Product(dims[1..]), block);
    assert rows == blocks <= n;
    WrapsOnce(n / dims[0], dims[0] / block, ty.BlockBytes());
  }

  lemma WrapsOnce(rows: nat, blocksPerRow: nat, blockBytes: nat)
    requires rows * blocksPerRow < TWO_64
    ensures WrappingBytes(rows, blocksPerRow, blockBytes) == Wrap64(rows * blocksPerRow * blockBytes)
  {
    assert Wrap64(rows * blocksPerRow) == rows * blocksPerRow;
  }

  /** Where a size is defined it is the exact one. */
  lemma TryDataSizeExact(dims: seq<U64>, ty: GgufTensorType)
    requires TryDataSize(dims, ty).Some?
    ensures TryDataSize(dims, ty).value == ExactSize(dims, ty)
    ensures dims != [] ==> CheckedFold(1, dims).Some?
  {
    if dims != [] {
      CheckedFoldExact(1, dims);
    }
  }

  // ---------------------------------------------------------------- the bytes of a tensor

  /** `SizeOverflow` is a size that does not fit in 64 bits: a typed error of `try_data_size`,
      an arithmetic panic of `data_size`. */
  datatype SliceError =
    | OffsetOverflow(name: string) | SizeOverflow(name: string) | EndOverflow(name: string) | OutOfBounds(name: string)

  /** `tensor_data_slice`: the tensor's bytes in a file whose data section starts at `base`. */
  function TensorDataSlice(data: Bytes, t: TensorInfo, base: U64): Result<Bytes, SliceError> {
    match CheckedAdd(base, t.offset)
    case None => Err(OffsetOverflow(t.name))
    case Some(start) =>
      match TryDataSize(t.dimensions, t.tensorType)
      case None => Err(SizeOverflow(t.name))
      case Some(size) =>
        match CheckedAdd(start, size)
        case None => Err(EndOverflow(t.name))
        case Some(end) => if end > |data| then Err(OutOfBounds(t.name)) else Ok(data[start..end])
  }
}
