/** The streaming GGUF writer: tensor offsets fixed up front, tensor bytes streamed after. */
module GgufWriter {
  import opened Machine
  import opened Ordering

  const ALIGNMENT: nat := 32

  /** `alignment_padding`; no alignment needs no padding. */
  function AlignmentPadding(offset: nat, alignment: nat): (pad: nat)
    ensures alignment == 0 ==> pad == 0
    ensures alignment > 0 ==> pad < alignment && (offset + pad) % alignment == 0
  {
    if alignment == 0 then 0
    else
      var rem := offset % alignment;
      NextMultiple(offset, alignment);
      if rem == 0 then 0 else alignment - rem
  }

  lemma NextMultiple(offset: nat, alignment: nat)
    requires alignment > 0
    ensures (offset + (alignment - offset % alignment)) % alignment == 0
  {
    var q, rem := offset / alignment, offset % alignment;
    assert offset + (alignment - rem) == (q + 1) * alignment;
    QuotientUnique(q + 1, alignment, 0);
  }

  function Padding(offset: nat): (pad: nat)
    ensures pad < ALIGNMENT && (offset + pad) % ALIGNMENT == 0
  {
    AlignmentPadding(offset, ALIGNMENT)
  }

  function Zeros(n: nat): (b: Bytes)
    ensures |b| == n && forall i :: 0 <= i < n ==> b[i] == 0
  {
    seq(n, _ => 0)
  }

  /** Where the stream continues after a tensor of `size` bytes; the padding saturates. */
  function NextStart(start: U64, size: nat): U64 {
    Saturate64(start + size + Padding(start + size))
  }

  /** The offsets the tensor-info section states, computed from the declared sizes alone. */
  function Offsets(start: U64, sizes: seq<U64>): Option<seq<U64>>
    decreases sizes
  {
    if sizes == [] then Some([])
    else if start + sizes[0] >= TWO_64 then None
    else match Offsets(NextStart(start, sizes[0]), sizes[1..])
      case None => None
      case Some(rest) => Some([start] + rest)
  }

  datatype TensorMeta = TensorMeta(name: string, dataSize: U64)

  datatype WriteError = AllWritten | OutOfOrder | SizeMismatch | OffsetOverflow | Unfinished

  /** The bytes on the wire after streaming `datas`, starting behind `out` at position `cum`. */
  function Stream(out: Bytes, cum: U64, datas: seq<Bytes>): Option<Bytes>
    decreases datas
  {
    if datas == [] then Some(out)
    else
      var end := cum + |datas[0]|;
      if end >= TWO_64 then None
      else if |datas| == 1 then Some(out + datas[0])
      else Stream(out + datas[0] + Zeros(Padding(end)), NextStart(cum, |datas[0]|), datas[1..])
  }

  class DataWriter {
    const metas: seq<TensorMeta>
    var out: Bytes
    var nextIndex: nat
    var cumulativeOffset: U64

    constructor (metas: seq<TensorMeta>)
      ensures this.metas == metas && out == [] && nextIndex == 0 && cumulativeOffset == 0
    {
      this.metas := metas;
      out, nextIndex, cumulativeOffset := [], 0, 0;
    }

    /** Writes the next declared tensor; a wrong name, order or length is refused before a byte
        is written, an offset that overflows only behind the data. */
    method WriteTensor(name: string, data: Bytes) returns (r: Result<(), WriteError>)
      modifies this
      ensures r.Ok? <==>
              && old(nextIndex) < |metas|
              && metas[old(nextIndex)].name == name
              && metas[old(nextIndex)].dataSize == |data|
              && old(cumulativeOffset) + |data| < TWO_64
      ensures r.Ok? ==>
                && nextIndex == old(nextIndex) + 1
                && out == old(out) + data
                          + (if nextIndex < |metas| then Zeros(Padding(old(cumulativeOffset) + |data|)) else [])
                && (nextIndex < |metas| ==> cumulativeOffset == NextStart(old(cumulativeOffset), |data|))
      ensures r.Err? ==>
                && nextIndex == old(nextIndex) && cumulativeOffset == old(cumulativeOffset)
                && out == (if r.error == OffsetOverflow then old(out) + data else old(out))
                && r.error == (if nextIndex >= |metas| then AllWritten
                               else if metas[nextIndex].name != name then OutOfOrder
                               else if metas[nextIndex].dataSize != |data| then SizeMismatch
                               else OffsetOverflow)
    {
      if nextIndex >= |metas| {
        return Err(AllWritten);
      }
      if metas[nextIndex].name != name {
        return Err(OutOfOrder);
      }
      if metas[nextIndex].dataSize != |data| {
        return Err(SizeMismatch);
      }
      out := out + data;
      if cumulativeOffset + |data| >= TWO_64 {
        return Err(OffsetOverflow);
      }
      cumulativeOffset := cumulativeOffset + |data|;
      nextIndex := nextIndex + 1;
      if nextIndex < |metas| {
        var pad := Padding(cumulativeOffset);
        out := out + Zeros(pad);
        cumulativeOffset := Saturate64(cumulativeOffset + pad);
      }
      return Ok(());
    }

    method Finish() returns (r: Result<Bytes, WriteError>)
      ensures r == if nextIndex == |metas| then Ok(out) else Err(Unfinished)
    {
      if nextIndex != |metas| {
        return Err(Unfinished);
      }
      return Ok(out);
    }
  }

  function SizesOf(datas: seq<Bytes>): (sizes: seq<nat>)
    ensures |sizes| == |datas|
  {
    seq(|datas|, i requires 0 <= i < |datas| => |datas[i]|)
  }

  /** Slice of a data section at a stated offset. */
  predicate HoldsAt(section: Bytes, offset: nat, data: Bytes) {
    offset + |data| <= |section| && section[offset..offset + |data|] == data
  }

  /** The up-front offsets and the streamed bytes agree: in every data section shorter than
      2^64 bytes each tensor sits exactly where the tensor-info section says, and nothing
      written earlier moves. */
  lemma {:induction false} StreamMatchesOffsets(
    out: Bytes, cum: U64, datas: seq<Bytes>, sizes: seq<U64>, section: Bytes)
    requires sizes == SizesOf(datas)
    requires Stream(out, cum, datas) == Some(section)
    requires |section| < TWO_64 && cum == |out|
    ensures out <= section
    ensures Offsets(cum, sizes).Some? && |Offsets(cum, sizes).value| == |datas|
    ensures forall i :: 0 <= i < |datas| ==> HoldsAt(section, Offsets(cum, sizes).value[i], datas[i])
    ensures cum % ALIGNMENT == 0 ==> Spaced(Offsets(cum, sizes).value, sizes)
    decreases datas
  {
    hide HoldsAt, Padding, Zeros;
    if |datas| == 1 {
      HoldsLast(section, out, datas[0]);
      assert sizes[1..] == [];
      assert Offsets(cum, sizes) == Some([cum] + []);
    } else if datas != [] {
      var end := cum + |datas[0]|;
      var out' := out + datas[0] + Zeros(Padding(end));
      assert sizes[1..] == SizesOf(datas[1..]);
      StreamGrows(out', NextStart(cum, |datas[0]|), datas[1..]);
      StreamMatchesOffsets(out', NextStart(cum, |datas[0]|), datas[1..], sizes[1..], section);
      var rest := Offsets(NextStart(cum, sizes[0]), sizes[1..]).value;
      HeldByPrefix(out, datas[0], Zeros(Padding(end)), section);
      HoldsCons(section, cum, datas[0], rest, datas[1..]);
      HeadAndTail(datas);
      HeadAndTail(sizes);
      if cum % ALIGNMENT == 0 {
        assert rest[0] == NextStart(cum, sizes[0]);
        SpacedCons(cum, sizes[0], rest, sizes[1..]);
      }
    }
  }

  lemma HeldByPrefix(out: Bytes, data: Bytes, pad: Bytes, section: Bytes)
    requires out + data + pad <= section
    ensures out <= section && HoldsAt(section, |out|, data)
  {
    var written := out + data + pad;
    assert written[|out|..|out| + |data|] == data;
    assert section[..|written|] == written;
    assert section[|out|..|out| + |data|] == section[..|written|][|out|..|out| + |data|];
  }

  lemma HoldsLast(section: Bytes, out: Bytes, data: Bytes)
    requires section == out + data
    ensures HoldsAt(section, |out|, data)
  {
  }

  lemma HoldsCons(section: Bytes, start: U64, data: Bytes, offsets: seq<U64>, datas: seq<Bytes>)
    requires |offsets| == |datas| && HoldsAt(section, start, data)
    requires forall i :: 0 <= i < |datas| ==> HoldsAt(section, offsets[i], datas[i])
    ensures forall i :: 0 <= i <= |datas| ==> HoldsAt(section, ([start] + offsets)[i], ([data] + datas)[i])
  {
  }

  lemma {:induction false} StreamGrows(out: Bytes, cum: U64, datas: seq<Bytes>)
    requires Stream(out, cum, datas).Some?
    ensures |out| <= |Stream(out, cum, datas).value|
    decreases datas
  {
    if |datas| > 1 {
      StreamGrows(out + datas[0] + Zeros(Padding(cum + |datas[0]|)), NextStart(cum, |datas[0]|), datas[1..]);
    }
  }

  /** Consecutive offsets leave exactly room for the tensor between them: the next one is
      never before the end of this one, and coincides with its start only if it is empty. */
  ghost predicate Spaced(offsets: seq<U64>, sizes: seq<U64>) {
    && |offsets| == |sizes|
    && forall i :: 0 <= i < |offsets| - 1 ==>
         && offsets[i] as int + sizes[i] <= offsets[i + 1]
         && (offsets[i] == offsets[i + 1] <==> sizes[i] == 0)
  }

  lemma SpacedCons(start: U64, size: U64, rest: seq<U64>, sizes: seq<U64>)
    requires start % ALIGNMENT == 0 && start + size + Padding(start + size) < TWO_64
    requires rest != [] && rest[0] == NextStart(start, size)
    requires Spaced(rest, sizes)
    ensures Spaced([start] + rest, [size] + sizes)
  {
  }

  /** Less than one alignment unit of zero bytes. */
  ghost predicate ZeroGap(section: Bytes, from: nat, to: nat) {
    from <= to <= |section| && to - from < ALIGNMENT && forall p :: from <= p < to ==> section[p] == 0
  }

  /** Every tensor starts aligned, only zero bytes lie between neighbours, and nothing follows
      the last one. */
  ghost predicate Padded(section: Bytes, offsets: seq<U64>, sizes: seq<U64>) {
    && |offsets| == |sizes|
    && (forall i :: 0 <= i < |offsets| ==> offsets[i] % ALIGNMENT == 0)
    && (forall i :: 0 <= i < |offsets| - 1 ==> ZeroGap(section, offsets[i] as int + sizes[i], offsets[i + 1]))
    && (offsets != [] ==> |section| == offsets[|offsets| - 1] as int + sizes[|sizes| - 1])
  }

  lemma PaddedCons(section: Bytes, start: U64, size: U64, rest: seq<U64>, sizes: seq<U64>)
    requires start % ALIGNMENT == 0 && rest != [] && ZeroGap(section, start as int + size, rest[0])
    requires Padded(section, rest, sizes)
    ensures Padded(section, [start] + rest, [size] + sizes)
  {
    hide ZeroGap;
    var offsets, all := [start] + rest, [size] + sizes;
    forall i | 0 <= i < |offsets| - 1
      ensures ZeroGap(section, offsets[i] as int + all[i], offsets[i + 1])
    {
      assert i > 0 ==> offsets[i] == rest[i - 1] && all[i] == sizes[i - 1] && offsets[i + 1] == rest[i];
    }
  }

  lemma WrittenGap(out: Bytes, data: Bytes, section: Bytes)
    requires out + data + Zeros(Padding(|out| + |data|)) <= section
    ensures ZeroGap(section, |out| + |data|, |out| + |data| + Padding(|out| + |data|))
  {
    var end, written := |out| + |data|, out + data + Zeros(Padding(|out| + |data|));
    forall p | end <= p < |written|
      ensures section[p] == 0
    {
      assert section[p] == written[p] == Zeros(Padding(end))[p - end];
    }
  }

  lemma StreamCons(out: Bytes, cum: U64, datas: seq<Bytes>, sizes: seq<U64>, section: Bytes)
    requires sizes == SizesOf(datas) && |datas| > 1 && Stream(out, cum, datas) == Some(section)
    requires cum == |out| && |section| < TWO_64
    ensures var out' := out + datas[0] + Zeros(Padding(cum + |datas[0]|));
            && cum + |datas[0]| < TWO_64
            && Stream(out', NextStart(cum, |datas[0]|), datas[1..]) == Some(section)
            && out' <= section && NextStart(cum, |datas[0]|) == |out'| && |out'| % ALIGNMENT == 0
  {
    hide Padding, HoldsAt, Spaced;
    var out' := out + datas[0] + Zeros(Padding(cum + |datas[0]|));
    StreamGrows(out', NextStart(cum, |datas[0]|), datas[1..]);
    assert sizes[1..] == SizesOf(datas[1..]);
    StreamMatchesOffsets(out', NextStart(cum, |datas[0]|), datas[1..], sizes[1..], section);
  }

  lemma OffsetsCons(start: U64, sizes: seq<U64>)
    requires |sizes| > 1 && start + sizes[0] < TWO_64 && Offsets(NextStart(start, sizes[0]), sizes[1..]).Some?
    ensures var rest := Offsets(NextStart(start, sizes[0]), sizes[1..]).value;
            && Offsets(start, sizes) == Some([start] + rest)
            && rest != [] && rest[0] == NextStart(start, sizes[0])
  {
  }

  /** What lies between the tensors of a data section. */
  lemma {:induction false} StreamPads(out: Bytes, cum: U64, datas: seq<Bytes>, sizes: seq<U64>, section: Bytes)
    requires sizes == SizesOf(datas) && Stream(out, cum, datas) == Some(section)
    requires |section| < TWO_64 && cum == |out| && cum % ALIGNMENT == 0
    ensures Offsets(cum, sizes).Some? && Padded(section, Offsets(cum, sizes).value, sizes)
    decreases datas
  {
    hide Padding, Zeros, Padded, ZeroGap, HoldsAt, Spaced, Stream, Offsets;
    if |datas| <= 1 {
      LastUnpadded(out, cum, datas, sizes, section);
    } else {
      var end := cum + |datas[0]|;
      var out' := out + datas[0] + Zeros(Padding(end));
      assert sizes[1..] == SizesOf(datas[1..]);
      StreamCons(out, cum, datas, sizes, section);
      StreamGrows(out', NextStart(cum, |datas[0]|), datas[1..]);
      StreamMatchesOffsets(out', NextStart(cum, |datas[0]|), datas[1..], sizes[1..], section);
      StreamPads(out', NextStart(cum, |datas[0]|), datas[1..], sizes[1..], section);
      WrittenGap(out, datas[0], section);
      var rest := Offsets(NextStart(cum, sizes[0]), sizes[1..]).value;
      OffsetsCons(cum, sizes);
      HeadAndTail(sizes);
      PaddedCons(section, cum, sizes[0], rest, sizes[1..]);
    }
  }

  lemma LastUnpadded(out: Bytes, cum: U64, datas: seq<Bytes>, sizes: seq<U64>, section: Bytes)
    requires |datas| <= 1 && sizes == SizesOf(datas) && Stream(out, cum, datas) == Some(section)
    requires |section| < TWO_64 && cum == |out| && cum % ALIGNMENT == 0
    ensures Offsets(cum, sizes).Some? && Padded(section, Offsets(cum, sizes).value, sizes)
  {
    if datas != [] {
      assert sizes[1..] == [];
      assert Offsets(cum, sizes) == Some([cum] + []);
    }
  }

  /** A stream over declared sizes never overflows once the offsets were computable. */
  lemma {:induction false} StreamSucceeds(out: Bytes, cum: U64, datas: seq<Bytes>, sizes: seq<U64>)
    requires sizes == SizesOf(datas)
    requires Offsets(cum, sizes).Some?
    ensures Stream(out, cum, datas).Some?
    decreases datas
  {
    if |datas| > 1 {
      assert sizes[1..] == SizesOf(datas[1..]);
      var next := out + datas[0] + Zeros(Padding(cum + |datas[0]|));
      StreamSucceeds(next, NextStart(cum, |datas[0]|), datas[1..], sizes[1..]);
    }
  }
}
