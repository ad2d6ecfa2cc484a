/** Who gets more bits: what the mixtures promise over a whole run of the type selector, tensor
    by tensor, in terms of names, layers and how many tensors of a kind came before. */
module Mixtures {
  import opened Machine
  import opened Text
  import opened GgufTypes
  import opened TypeSelect

  /** The type a fresh selector picks for the `i`-th tensor of a run. */
  function Picked(info: ModelInfo, ftype: Ftype, calls: Calls, i: nat): Option<GgufTensorType> {
    match RunSelector(info, ftype, calls)
    case Err(_) => None
    case Ok((types, _)) => if i < |types| then Some(types[i]) else None
  }

  /** How many tensors of the same arm come before the `i`-th. */
  function Order(info: ModelInfo, calls: Calls, i: nat): nat
    requires i < |calls|
  {
    CountBranch(info, calls[..i], BranchOf(info, calls[i].0))
  }

  /** The `i`-th tensor of a successful run, on the arm `b`, before the counters wrap. */
  ghost predicate Reaches(info: ModelInfo, ftype: Ftype, calls: Calls, i: nat, b: Branch) {
    && RunSelector(info, ftype, calls).Ok? && i < |calls|
    && BranchOf(info, calls[i].0) == b && Order(info, calls, i) < TWO_31
  }

  // ---------------------------------------------------------------- which layers are promoted

  /** The first eighth of the layers, the last eighth, and every third one in between. */
  predicate PromotedLayer(k: nat, n: nat) {
    k < n / 8 || k >= 7 * n / 8 || (k - n / 8) % 3 == 2
  }

  /** So exactly one of any three consecutive layers in between. */
  lemma PromotedLayers(k: nat, n: nat)
    ensures k < n / 8 || k >= 7 * n / 8 ==> PromotedLayer(k, n)
    ensures n / 8 <= k && k + 2 < 7 * n / 8 ==>
              ExactlyOne(PromotedLayer(k, n), PromotedLayer(k + 1, n), PromotedLayer(k + 2, n))
  {
    if n / 8 <= k && k + 2 < 7 * n / 8 {
      var d := k - n / 8;
      ThreeResidues(d);
      assert k + 1 - n / 8 == d + 1 && k + 2 - n / 8 == d + 2;
    }
  }

  /** A layer count whose sevenfold fits in an `i32`. */
  predicate ModestLayers(n: int) {
    0 <= n && 7 * n < TWO_31
  }

  lemma PickedByStep(info: ModelInfo, ftype: Ftype, calls: Calls, i: nat, b: Branch)
    requires Reaches(info, ftype, calls, i, b)
    ensures var r := SelectStep(info, ftype, CountedBranches(info, calls[..i]), calls[i].0, calls[i].1);
            r.Ok? && Picked(info, ftype, calls, i) == Some(r.value.0)
    ensures AsI32(Order(info, calls, i)) == Order(info, calls, i)
  {
    hide SelectStep, CountedBranches, BranchOf;
    RunAt(info, ftype, calls, i);
  }

  // ---------------------------------------------------------------- ffn_down

  /** The type of an `ffn_down` tensor of layer `k`. */
  ghost predicate FfnDownRule(info: ModelInfo, ftype: Ftype, k: nat, ty: GgufTensorType)
    requires ModestLayers(info.nLayer)
  {
    var n: nat := info.nLayer;
    match ftype
    case FtQ4KM =>
      if info.arch != "falcon" then ty == if PromotedLayer(k, n) then Q6K else Q4K
      else ty == if k < n / 16 then Q6K else if PromotedLayer(k, n) then Q5K else Q4K
    case FtQ5KM => ty == if PromotedLayer(k, n) then Q6K else Q5K
    case FtQ4KS => ty == if k < n / 8 && info.arch != "falcon" then Q5K else Q4K
    case FtQ3KM =>
      if info.arch != "falcon" then ty == if k < n / 16 then Q5K else Q4K
      else ty == if k < n / 16 then Q5K else if PromotedLayer(k, n) then Q4K else Q3K
    case FtQ3KL => ty == if info.arch == "falcon" then Q4K else Q5K
    case FtQ2K => ty == Q3K
    case _ => ty == ftype.DefaultType()
  }

  lemma FfnDownTypeRule(info: ModelInfo, ftype: Ftype, k: nat)
    requires ModestLayers(info.nLayer) && k < TWO_31
    ensures FfnDownRule(info, ftype, k, FfnDownType(info, ftype, k))
  {
    UseMoreBitsUnwrapped(k, info.nLayer);
    hide UseMoreBits;
  }

  /** In a dense model the `k`-th `ffn_down` tensor of the file is that of layer `k`. With
      Q4_K_M and Q5_K_M it gets Q6_K in the promoted layers and the default type elsewhere. */
  lemma DenseFfnDown(info: ModelInfo, ftype: Ftype, calls: Calls, i: nat)
    requires Reaches(info, ftype, calls, i, FfnDown) && info.nExpert <= 1 && ModestLayers(info.nLayer)
    ensures Picked(info, ftype, calls, i).Some?
    ensures FfnDownRule(info, ftype, Order(info, calls, i), Picked(info, ftype, calls, i).value)
  {
    hide BranchOf, FfnDownType, FfnDownRule, AsI32, RunSelector, CountBranch;
    PickedByStep(info, ftype, calls, i, FfnDown);
    FfnDownTypeRule(info, ftype, Order(info, calls, i));
  }

  lemma {:induction false} UpToDotOf(digits: string, rest: string)
    requires '.' !in digits
    ensures UpToDot(digits + "." + rest) == digits
  {
    var s := digits + "." + rest;
    if digits == "" {
      assert s[0] == '.';
    } else {
      assert digits[0] in digits && forall c :: c in digits[1..] ==> c in digits;
      assert s[1..] == digits[1..] + "." + rest;
      UpToDotOf(digits[1..], rest);
      assert [digits[0]] + digits[1..] == digits;
    }
  }

  lemma ParseI32OfDecimal(k: nat)
    ensures ParseI32(Decimal(k)) == if k < TWO_31 then Some(k) else None
  {
    NumeralOfDecimal(k);
    assert Decimal(k)[0] in Decimal(k);
  }

  function LayerName(k: nat, rest: string): string {
    "blk." + Decimal(k) + "." + rest
  }

  /** In a mixture-of-experts model the layer is read off the name, for every layer number. */
  lemma LayerFromName(info: ModelInfo, counter: int, k: nat, rest: string)
    requires info.nExpert > 1 && info.nLayer < TWO_31
    ensures LayerInfo(info, counter, LayerName(k, rest)) ==
            if k < info.nLayer then Ok(k) else Err(LayerError(LayerName(k, rest)))
  {
    var name := LayerName(k, rest);
    assert name[..4] == "blk." && name[4..] == Decimal(k) + "." + rest;
    UpToDotOf(Decimal(k), rest);
    ParseI32OfDecimal(k);
  }

  lemma MoeFfnDown(info: ModelInfo, ftype: Ftype, calls: Calls, i: nat, k: nat, rest: string)
    requires Reaches(info, ftype, calls, i, FfnDown) && info.nExpert > 1 && ModestLayers(info.nLayer)
    requires calls[i].0 == LayerName(k, rest)
    ensures k < info.nLayer && Picked(info, ftype, calls, i).Some?
    ensures FfnDownRule(info, ftype, k, Picked(info, ftype, calls, i).value)
  {
    hide BranchOf, FfnDownType, FfnDownRule, LayerInfo, LayerName, RunSelector, CountBranch;
    PickedByStep(info, ftype, calls, i, FfnDown);
    LayerFromName(info, CountedBranches(info, calls[..i]).ffnDown, k, rest);
    FfnDownTypeRule(info, ftype, k);
  }

  // ---------------------------------------------------------------- attn_v

  /** The 80-layer llama with grouped heads. */
  predicate IsLlama70b(info: ModelInfo) {
    info.arch == "llama" && info.nLayer == 80 && info.nHead != info.nHeadKv
  }

  /** The type of the `k`-th `attn_v` tensor of the file, apart from 70B and 8-expert models. */
  ghost predicate AttnVRule(info: ModelInfo, ftype: Ftype, k: nat, ty: GgufTensorType)
    requires ModestLayers(info.nAttentionWv)
  {
    match ftype
    case FtQ4KM => ty == if PromotedLayer(k, info.nAttentionWv) then Q6K else Q4K
    case FtQ5KM => ty == if PromotedLayer(k, info.nAttentionWv) then Q6K else Q5K
    case FtQ4KS => ty == if k < 4 then Q5K else Q4K
    case FtQ3KM => ty == if k < 2 then Q5K else Q4K
    case FtQ3KL => ty == Q5K
    case FtQ2K => ty == if info.nHeadKv > 0 && info.nHead >= 4 * info.nHeadKv then Q4K else Q3K
    case _ => ty == ftype.DefaultType()
  }

  /** With Q4_K_M and Q5_K_M the promoted `attn_v` tensors are counted against the number of
      value projections. 70B models raise the 3- and 4-bit types to Q5_K, and 8-expert models
      keep `attn_v` at Q8_0 whatever the target. */
  lemma AttnVPicked(info: ModelInfo, ftype: Ftype, calls: Calls, i: nat)
    requires Reaches(info, ftype, calls, i, AttnV) && ModestLayers(info.nAttentionWv)
    ensures info.nExpert == 8 ==> Picked(info, ftype, calls, i) == Some(Q8_0)
    ensures info.nExpert != 8 ==>
              exists ty :: AttnVRule(info, ftype, Order(info, calls, i), ty) &&
                           Picked(info, ftype, calls, i)
                           == Some(if IsLlama70b(info) && ty in {Q3K, Q4K} then Q5K else ty)
  {
    hide BranchOf, AttnVType, AttnVRule, AsI32, RunSelector, CountBranch;
    var k := Order(info, calls, i);
    PickedByStep(info, ftype, calls, i, AttnV);
    AttnVTypeRule(info, ftype, k);
  }

  lemma GroupedQueries(info: ModelInfo)
    ensures info.NGqa() >= 4 <==> info.nHeadKv > 0 && info.nHead >= 4 * info.nHeadKv
  {
    if info.nHeadKv > 0 {
      var q, r := info.nHead / info.nHeadKv, info.nHead % info.nHeadKv;
      assert info.nHead == q * info.nHeadKv + r;
      Multiples(q - 4, info.nHeadKv);
      Multiples(q - 3, info.nHeadKv);
      assert (q - 4) * info.nHeadKv == q * info.nHeadKv - 4 * info.nHeadKv;
    }
  }

  lemma AttnVTypeRule(info: ModelInfo, ftype: Ftype, k: nat)
    requires ModestLayers(info.nAttentionWv) && k < TWO_31
    ensures info.nExpert == 8 ==> AttnVType(info, ftype, k) == Q8_0
    ensures info.nExpert != 8 ==>
              exists ty :: AttnVRule(info, ftype, k, ty) &&
                           AttnVType(info, ftype, k) == (if IsLlama70b(info) && ty in {Q3K, Q4K} then Q5K else ty)
  {
    UseMoreBitsUnwrapped(k, info.nAttentionWv);
    GroupedQueries(info);
    hide UseMoreBits;
    var promoted := PromotedLayer(k, info.nAttentionWv);
    var ty :=
      match ftype
      case FtQ4KM | FtQ5KM => if promoted then Q6K else ftype.DefaultType()
      case FtQ4KS => if k < 4 then Q5K else Q4K
      case FtQ3KM => if k < 2 then Q5K else Q4K
      case FtQ3KL => Q5K
      case FtQ2K => if info.NGqa() >= 4 then Q4K else Q3K
      case _ => ftype.DefaultType();
    assert AttnVRule(info, ftype, k, ty);
  }

  // ---------------------------------------------------------------- the other arms

  /** The output head, and the token embedding of a model without one: 6 bits, or Q8_0 for
      falcon, for rows that are no whole number of the target's blocks, and for a Q8_0 target. */
  lemma OutputHeadPicked(info: ModelInfo, ftype: Ftype, calls: Calls, i: nat)
    requires Reaches(info, ftype, calls, i, OutputHead) && calls[i].1 >= 0
    ensures Picked(info, ftype, calls, i) == Some(
              if info.arch == "falcon" || calls[i].1 % ftype.DefaultType().BlockSize() != 0 || ftype == FtQ8_0
              then Q8_0 else Q6K)
    ensures calls[i].0 == "output.weight" || (calls[i].0 == "token_embd.weight" && !info.hasOutput)
  {
    hide RunSelector, CountBranch;
    PickedByStep(info, ftype, calls, i, OutputHead);
  }

  /** `attn_k` differs from the default only in 8-expert models; the fused projection is raised
      by the medium and large mixtures; everything the mixtures do not name stays at the
      default type. */
  lemma OtherArmsPicked(info: ModelInfo, ftype: Ftype, calls: Calls, i: nat, b: Branch)
    requires Reaches(info, ftype, calls, i, b)
    ensures b == AttnK ==>
              Picked(info, ftype, calls, i) == Some(if info.nExpert == 8 then Q8_0 else ftype.DefaultType())
    ensures b == AttnQkv ==> Picked(info, ftype, calls, i) == Some(
              match ftype
              case FtQ3KM | FtQ3KL => Q4K
              case FtQ4KM => Q5K
              case FtQ5KM => Q6K
              case _ => ftype.DefaultType())
    ensures b in {Embedding, AttnQ, FfnGate, FfnUp, Bulk} ==>
              Picked(info, ftype, calls, i) == Some(ftype.DefaultType())
  {
    hide BranchOf, LayerInfo, AttnVType, FfnDownType, RunSelector, CountBranch;
    PickedByStep(info, ftype, calls, i, b);
  }

  /** The attention output: raised by the 2- and 3-bit mixtures, and to Q5_K by every mixture of
      at most four bits, Q3_K_L excepted, in 8-expert models; falcon only follows Q3_K_L. */
  lemma AttnOutputPicked(info: ModelInfo, ftype: Ftype, calls: Calls, i: nat)
    requires Reaches(info, ftype, calls, i, AttnOutput)
    ensures Picked(info, ftype, calls, i) == Some(
              if info.arch == "falcon" then (if ftype == FtQ3KL then Q4K else ftype.DefaultType())
              else if info.nExpert == 8 then
                (if ftype in {FtQ2K, FtQ3KS, FtQ3KM, FtQ4KS, FtQ4KM} then Q5K else ftype.DefaultType())
              else if ftype == FtQ2K then Q3K
              else if ftype == FtQ3KM then Q4K
              else if ftype == FtQ3KL then Q5K
              else ftype.DefaultType())
  {
    hide BranchOf, LayerInfo, AttnVType, FfnDownType, RunSelector, CountBranch;
    PickedByStep(info, ftype, calls, i, AttnOutput);
  }

  // ---------------------------------------------------------------- never fewer bits

  /** Bits spent on 256 weights. */
  function BitsOf256(ty: GgufTensorType): nat {
    8 * ty.BlockBytes() * 256 / ty.BlockSize()
  }

  /** A mixture only ever adds: no tensor gets fewer bits per weight than the target's default
      type spends, whatever its name, its row length, the model and the visit order. */
  lemma MixturesOnlyAdd(info: ModelInfo, ftype: Ftype, calls: Calls, i: nat)
    requires RunSelector(info, ftype, calls).Ok? && i < |calls|
    ensures Picked(info, ftype, calls, i).Some?
    ensures BitsOf256(Picked(info, ftype, calls, i).value) >= BitsOf256(ftype.DefaultType())
  {
    hide SelectStep, BitsOf256, RunSelector, CountedBranches;
    RunAt(info, ftype, calls, i);
    StepOnlyAdds(info, ftype, CountedBranches(info, calls[..i]), calls[i].0, calls[i].1);
  }

  lemma BitsTable()
    ensures BitsOf256(Q2K) == 672 && BitsOf256(Q3K) == 880
    ensures BitsOf256(Q4_0) == BitsOf256(Q4K) == 1152 && BitsOf256(Q5_0) == BitsOf256(Q5K) == 1408
    ensures BitsOf256(Q5_1) == 1536 && BitsOf256(Q6K) == 1680 && BitsOf256(Q8_0) == 2176
  {
  }

  lemma AttnVOnlyAdds(info: ModelInfo, ftype: Ftype, counter: int)
    ensures BitsOf256(AttnVType(info, ftype, counter)) >= BitsOf256(ftype.DefaultType())
  {
    hide UseMoreBits, BitsOf256;
    BitsTable();
  }

  lemma FfnDownOnlyAdds(info: ModelInfo, ftype: Ftype, layer: int)
    ensures BitsOf256(FfnDownType(info, ftype, layer)) >= BitsOf256(ftype.DefaultType())
  {
    hide UseMoreBits, TruncDiv, BitsOf256;
    BitsTable();
  }

  lemma SimpleArmsOnlyAdd(info: ModelInfo, ftype: Ftype, ne0: int)
    ensures BitsOf256(OutputType(info, ftype, ne0)) >= BitsOf256(ftype.DefaultType())
    ensures BitsOf256(AttnOutputType(info, ftype)) >= BitsOf256(ftype.DefaultType())
    ensures BitsOf256(AttnQkvType(ftype)) >= BitsOf256(ftype.DefaultType())
    ensures BitsOf256(Q8_0) >= BitsOf256(ftype.DefaultType())
  {
    hide TruncMod, BitsOf256;
    BitsTable();
  }

  lemma StepOnlyAdds(info: ModelInfo, ftype: Ftype, c: Counters, name: string, ne0: int)
    requires SelectStep(info, ftype, c, name, ne0).Ok?
    ensures BitsOf256(SelectStep(info, ftype, c, name, ne0).value.0) >= BitsOf256(ftype.DefaultType())
  {
    hide BranchOf, LayerInfo, OutputType, AttnVType, FfnDownType, AttnOutputType, AttnQkvType, BitsOf256;
    SimpleArmsOnlyAdd(info, ftype, ne0);
    AttnVOnlyAdds(info, ftype, c.attentionWv);
    var layer := LayerInfo(info, c.ffnDown, name);
    if layer.Ok? {
      FfnDownOnlyAdds(info, ftype, layer.value);
    }
  }

  /** A reader can tell the targets apart by their file type, which is the number that
      llama.cpp gives them. */
  lemma FileTypesDistinct(a: Ftype, b: Ftype)
    ensures a.FileTypeValue() == b.FileTypeValue() <==> a == b
    ensures FtQ4_0.FileTypeValue() == 2 && FtQ8_0.FileTypeValue() == 7
    ensures FtQ5_0.FileTypeValue() == 8 && FtQ5_1.FileTypeValue() == 9 && FtQ2K.FileTypeValue() == 10
    ensures FtQ3KS.FileTypeValue() == 11 && FtQ3KM.FileTypeValue() == 12 && FtQ3KL.FileTypeValue() == 13
    ensures FtQ4KS.FileTypeValue() == 14 && FtQ4KM.FileTypeValue() == 15
    ensures FtQ5KS.FileTypeValue() == 16 && FtQ5KM.FileTypeValue() == 17 && FtQ6K.FileTypeValue() == 18
  {
  }
}
