/** Per-tensor type selection: a stateful port of llama.cpp's mixture rules. */
module TypeSelect {
  import opened Machine
  import opened Text
  import opened GgufTypes

  datatype Ftype = FtQ4_0 | FtQ5_0 | FtQ5_1 | FtQ8_0 | FtQ2K | FtQ3KS | FtQ3KM | FtQ3KL
                 | FtQ4KS | FtQ4KM | FtQ5KS | FtQ5KM | FtQ6K
  {
    function FileTypeValue(): U32 {
      match this
      case FtQ4_0 => 2
      case FtQ8_0 => 7
      case FtQ5_0 => 8
      case FtQ5_1 => 9
      case FtQ2K => 10
      case FtQ3KS => 11
      case FtQ3KM => 12
      case FtQ3KL => 13
      case FtQ4KS => 14
      case FtQ4KM => 15
      case FtQ5KS => 16
      case FtQ5KM => 17
      case FtQ6K => 18
    }

    function DefaultType(): GgufTensorType {
      match this
      case FtQ4_0 => Q4_0
      case FtQ5_0 => Q5_0
      case FtQ5_1 => Q5_1
      case FtQ8_0 => Q8_0
      case FtQ2K => Q2K
      case FtQ3KS | FtQ3KM | FtQ3KL => Q3K
      case FtQ4KS | FtQ4KM => Q4K
      case FtQ5KS | FtQ5KM => Q5K
      case FtQ6K => Q6K
    }
  }

  datatype ModelInfo = ModelInfo(
    arch: string, nLayer: int, nHead: U32, nHeadKv: U32, nExpert: U32, hasOutput: bool, nAttentionWv: int)
  {
    function NGqa(): nat {
      if nHeadKv == 0 then 0 else nHead / nHeadKv
    }

    predicate Is70b() {
      arch == "llama" && nLayer == 80 && nHead != nHeadKv
    }

    predicate IsFalcon() {
      arch == "falcon"
    }
  }

  /** The types the quantizer has an encoder for. */
  predicate CanEncode(ty: GgufTensorType) {
    ty in {F32, F16, Q4_0, Q5_0, Q5_1, Q8_0, Q2K, Q3K, Q4K, Q5K, Q6K}
  }

  /** Which layers get more bits, in `i32` arithmetic. */
  predicate UseMoreBits(layer: int, nLayers: int) {
    || layer < TruncDiv(nLayers, 8)
    || layer >= TruncDiv(AsI32(7 * nLayers), 8)
    || TruncMod(AsI32(layer - TruncDiv(nLayers, 8)), 3) == 2
  }

  lemma UseMoreBitsUnwrapped(layer: nat, nLayers: nat)
    requires 7 * nLayers < TWO_31 && layer < TWO_31
    ensures UseMoreBits(layer, nLayers) <==>
            layer < nLayers / 8 || layer >= 7 * nLayers / 8 || (layer - nLayers / 8) % 3 == 2
  {
    assert AsI32(7 * nLayers) == 7 * nLayers;
    assert AsI32(layer - nLayers / 8) == layer - nLayers / 8;
  }

  predicate ExactlyOne(a: bool, b: bool, c: bool) {
    (a && !b && !c) || (!a && b && !c) || (!a && !b && c)
  }

  lemma ThreeResidues(k: int)
    ensures ExactlyOne(k % 3 == 2, (k + 1) % 3 == 2, (k + 2) % 3 == 2)
  {
  }

  /** The intended pattern: all of the first and the last eighth of the layers, and exactly one
      of any three consecutive layers in between. */
  ghost predicate FollowsPattern(nLayers: nat) {
    forall layer: nat :: layer < TWO_31 ==> LayerFollowsPattern(layer, nLayers)
  }

  predicate LayerFollowsPattern(layer: nat, nLayers: nat) {
    && (layer < nLayers / 8 || layer >= 7 * nLayers / 8 ==> UseMoreBits(layer, nLayers))
    && (nLayers / 8 <= layer && layer + 2 < 7 * nLayers / 8 ==>
          ExactlyOne(UseMoreBits(layer, nLayers), UseMoreBits(layer + 1, nLayers), UseMoreBits(layer + 2, nLayers)))
  }

  lemma PatternWhileUnwrapped(layer: nat, nLayers: nat)
    requires 7 * nLayers < TWO_31 && layer < TWO_31
    ensures LayerFollowsPattern(layer, nLayers)
  {
    UseMoreBitsUnwrapped(layer, nLayers);
    var eighth := nLayers / 8;
    if eighth <= layer && layer + 2 < 7 * nLayers / 8 {
      UseMoreBitsUnwrapped(layer + 1, nLayers);
      UseMoreBitsUnwrapped(layer + 2, nLayers);
      ThreeResidues(layer - eighth);
      assert layer + 1 - eighth == (layer - eighth) + 1 && layer + 2 - eighth == (layer - eighth) + 2;
    }
  }

  /** The pattern holds exactly while `7 * n` fits in an `i32`; beyond that the product wraps
      and the last layers before the final eighth are promoted too. */
  lemma UseMoreBitsPatternIff(nLayers: nat)
    requires nLayers < TWO_31
    ensures FollowsPattern(nLayers) <==> 7 * nLayers < TWO_31
  {
    if 7 * nLayers < TWO_31 {
      forall layer: nat | layer < TWO_31
        ensures LayerFollowsPattern(layer, nLayers)
      {
        PatternWhileUnwrapped(layer, nLayers);
      }
    } else {
      var layer := 7 * nLayers / 8 - 3;
      WrappedThreshold(nLayers);
      assert !LayerFollowsPattern(layer, nLayers);
    }
  }

  /** Once wrapped, the threshold is at most an eighth of the `i32` range. */
  lemma WrappedThreshold(nLayers: nat)
    requires nLayers < TWO_31 && 7 * nLayers >= TWO_31
    ensures TruncDiv(AsI32(7 * nLayers), 8) <= 7 * nLayers / 8 - 3
  {
    var wrapped := AsI32(7 * nLayers);
    assert wrapped <= 7 * nLayers - TWO_32;
    assert TruncDiv(wrapped, 8) <= if wrapped >= 0 then wrapped / 8 else 0;
  }

  datatype LayerError = LayerError(tensor: string)

  /** `rest.split('.').next()`. */
  function UpToDot(s: string): string {
    if s == "" || s[0] == '.' then "" else [s[0]] + UpToDot(s[1..])
  }

  /** The layer index: the running counter for dense models, the `blk.N.` index otherwise. */
  function LayerInfo(info: ModelInfo, counter: int, name: string): Result<int, LayerError> {
    if info.nExpert <= 1 then Ok(counter)
    else if !StartsWith(name, "blk.") then Err(LayerError(name))
    else match ParseI32(UpToDot(name[4..]))
      case None => Err(LayerError(name))
      case Some(index) => if 0 <= index < info.nLayer then Ok(index) else Err(LayerError(name))
  }

  /** The arm of the selection a tensor name takes. */
  datatype Branch = OutputHead | Embedding | AttnV | AttnK | AttnQ | FfnDown
                  | AttnOutput | AttnQkv | FfnGate | FfnUp | Bulk

  function BranchOf(info: ModelInfo, name: string): Branch {
    if name == "output.weight" || (!info.hasOutput && name == "token_embd.weight") then OutputHead
    else if name == "token_embd.weight" || name == "per_layer_token_embd.weight" then Embedding
    else if Contains(name, "attn_v.weight") then AttnV
    else if Contains(name, "attn_k.weight") then AttnK
    else if Contains(name, "attn_q.weight") then AttnQ
    else if Contains(name, "ffn_down") then FfnDown
    else if Contains(name, "attn_output.weight") then AttnOutput
    else if Contains(name, "attn_qkv.weight") then AttnQkv
    else if Contains(name, "ffn_gate") then FfnGate
    else if Contains(name, "ffn_up") then FfnUp
    else Bulk
  }

  function OutputType(info: ModelInfo, ftype: Ftype, ne0: int): GgufTensorType {
    var ty := ftype.DefaultType();
    if info.IsFalcon() || TruncMod(ne0, ty.BlockSize()) != 0 then Q8_0
    else if ty != Q8_0 then Q6K
    else ty
  }

  function AttnVType(info: ModelInfo, ftype: Ftype, counter: int): GgufTensorType {
    var ty :=
      match ftype
      case FtQ2K => if info.NGqa() >= 4 then Q4K else Q3K
      case FtQ3KM => if counter < 2 then Q5K else Q4K
      case FtQ3KL => Q5K
      case FtQ4KM | FtQ5KM =>
        if UseMoreBits(counter, info.nAttentionWv) then Q6K else ftype.DefaultType()
      case FtQ4KS => if counter < 4 then Q5K else ftype.DefaultType()
      case _ => ftype.DefaultType();
    var grouped := if info.Is70b() && (ty == Q3K || ty == Q4K) then Q5K else ty;
    if info.nExpert == 8 then Q8_0 else grouped
  }

  function FfnDownType(info: ModelInfo, ftype: Ftype, layer: int): GgufTensorType {
    var n := info.nLayer;
    match ftype
    case FtQ2K => Q3K
    case FtQ3KM =>
      if layer < TruncDiv(n, 16) then Q5K
      else if !info.IsFalcon() || UseMoreBits(layer, n) then Q4K
      else Q3K
    case FtQ3KL => if info.IsFalcon() then Q4K else Q5K
    case FtQ4KM =>
      if info.IsFalcon() then
        if layer < TruncDiv(n, 16) then Q6K else if UseMoreBits(layer, n) then Q5K else Q4K
      else if UseMoreBits(layer, n) then Q6K
      else ftype.DefaultType()
    case FtQ5KM => if UseMoreBits(layer, n) then Q6K else ftype.DefaultType()
    case FtQ4KS => if !info.IsFalcon() && layer < TruncDiv(n, 8) then Q5K else ftype.DefaultType()
    case _ => ftype.DefaultType()
  }

  function AttnOutputType(info: ModelInfo, ftype: Ftype): GgufTensorType {
    if info.IsFalcon() then
      if ftype == FtQ3KL then Q4K else ftype.DefaultType()
    else if info.nExpert == 8 then
      if ftype in {FtQ2K, FtQ3KS, FtQ3KM, FtQ4KS, FtQ4KM} then Q5K else ftype.DefaultType()
    else
      match ftype
      case FtQ2K => Q3K
      case FtQ3KM => Q4K
      case FtQ3KL => Q5K
      case _ => ftype.DefaultType()
  }

  function AttnQkvType(ftype: Ftype): GgufTensorType {
    match ftype
    case FtQ3KM | FtQ3KL => Q4K
    case FtQ4KM => Q5K
    case FtQ5KM => Q6K
    case _ => ftype.DefaultType()
  }

  /** The running counters. */
  datatype Counters = Counters(attentionWv: int, ffnDown: int, ffnGate: int, ffnUp: int)

  const FRESH := Counters(0, 0, 0, 0)

  /** One selection: the type for `name` and the counters after it. */
  function SelectStep(info: ModelInfo, ftype: Ftype, c: Counters, name: string, ne0: int)
    : Result<(GgufTensorType, Counters), LayerError>
  {
    match BranchOf(info, name)
    case OutputHead => Ok((OutputType(info, ftype, ne0), c))
    case AttnV =>
      Ok((AttnVType(info, ftype, c.attentionWv), c.(attentionWv := AsI32(c.attentionWv + 1))))
    case AttnK => Ok((if info.nExpert == 8 then Q8_0 else ftype.DefaultType(), c))
    case FfnDown => (
      match LayerInfo(info, c.ffnDown, name)
      case Err(e) => Err(e)
      case Ok(layer) =>
        Ok((FfnDownType(info, ftype, layer), c.(ffnDown := AsI32(c.ffnDown + 1)))))
    case AttnOutput => Ok((AttnOutputType(info, ftype), c))
    case AttnQkv => Ok((AttnQkvType(ftype), c))
    case FfnGate => (
      match LayerInfo(info, c.ffnGate, name)
      case Err(e) => Err(e)
      case Ok(_) => Ok((ftype.DefaultType(), c.(ffnGate := AsI32(c.ffnGate + 1)))))
    case FfnUp => (
      match LayerInfo(info, c.ffnUp, name)
      case Err(e) => Err(e)
      case Ok(_) => Ok((ftype.DefaultType(), c.(ffnUp := AsI32(c.ffnUp + 1)))))
    case _ => Ok((ftype.DefaultType(), c))
  }

  /** The stateful chooser: one per output file, called once per tensor in file order. */
  class TypeSelector {
    const info: ModelInfo
    const ftype: Ftype
    var attentionWv: int
    var ffnDown: int
    var ffnGate: int
    var ffnUp: int

    constructor (info: ModelInfo, ftype: Ftype)
      ensures this.info == info && this.ftype == ftype
      ensures State() == FRESH
    {
      this.info, this.ftype := info, ftype;
      attentionWv, ffnDown, ffnGate, ffnUp := 0, 0, 0, 0;
    }

    function State(): Counters
      reads this
    {
      Counters(attentionWv, ffnDown, ffnGate, ffnUp)
    }

    method Select(name: string, ne0: int) returns (r: Result<GgufTensorType, LayerError>)
      modifies this
      ensures match SelectStep(info, ftype, old(State()), name, ne0)
              case Ok((ty, next)) => r == Ok(ty) && State() == next
              case Err(e) => r == Err(e) && State() == old(State())
    {
      var newType := ftype.DefaultType();
      var branch := BranchOf(info, name);
      if branch == OutputHead {
        newType := OutputType(info, ftype, ne0);
      } else if branch == AttnV {
        newType := AttnVType(info, ftype, attentionWv);
        attentionWv := AsI32(attentionWv + 1);
      } else if branch == AttnK {
        if info.nExpert == 8 {
          newType := Q8_0;
        }
      } else if branch == FfnDown {
        var layer := LayerInfo(info, ffnDown, name);
        if layer.Err? {
          return Err(layer.error);
        }
        newType := FfnDownType(info, ftype, layer.value);
        ffnDown := AsI32(ffnDown + 1);
      } else if branch == AttnOutput {
        newType := AttnOutputType(info, ftype);
      } else if branch == AttnQkv {
        newType := AttnQkvType(ftype);
      } else if branch == FfnGate {
        var layer := LayerInfo(info, ffnGate, name);
        if layer.Err? {
          return Err(layer.error);
        }
        ffnGate := AsI32(ffnGate + 1);
      } else if branch == FfnUp {
        var layer := LayerInfo(info, ffnUp, name);
        if layer.Err? {
          return Err(layer.error);
        }
        ffnUp := AsI32(ffnUp + 1);
      }
      return Ok(newType);
    }
  }

  /** A whole run of selections: name and row length of each tensor, in order. */
  type Calls = seq<(string, int)>

  /** The types a fresh selector picks and the counters after, if every selection succeeds. */
  function RunSelector(info: ModelInfo, ftype: Ftype, calls: Calls)
    : Result<(seq<GgufTensorType>, Counters), LayerError>
  {
    if calls == [] then Ok(([], FRESH))
    else
      var n := |calls| - 1;
      match RunSelector(info, ftype, calls[..n])
      case Err(e) => Err(e)
      case Ok((types, c)) =>
        match SelectStep(info, ftype, c, calls[n].0, calls[n].1)
        case Err(e) => Err(e)
        case Ok((ty, next)) => Ok((types + [ty], next))
  }

  /** How many of the tensors take the arm `b`. */
  function CountBranch(info: ModelInfo, calls: Calls, b: Branch): nat {
    if calls == [] then 0
    else
      var n := |calls| - 1;
      CountBranch(info, calls[..n], b) + if BranchOf(info, calls[n].0) == b then 1 else 0
  }

  /** The counters a run should have reached. */
  function CountedBranches(info: ModelInfo, calls: Calls): Counters {
    Counters(AsI32(CountBranch(info, calls, AttnV)), AsI32(CountBranch(info, calls, FfnDown)),
             AsI32(CountBranch(info, calls, FfnGate)), AsI32(CountBranch(info, calls, FfnUp)))
  }

  /** The counters are bookkeeping of the visit order and nothing else: after any run of
      calls each one is the number of tensors of its own arm seen so far, in `i32`. The type
      a tensor gets therefore depends only on its name, its row length and how many tensors
      of its arm precede it. */
  lemma {:induction false} CountersCountBranches(info: ModelInfo, ftype: Ftype, calls: Calls)
    requires RunSelector(info, ftype, calls).Ok?
    ensures RunSelector(info, ftype, calls).value.1 == CountedBranches(info, calls)
  {
    hide SelectStep, BranchOf, AsI32;
    if calls == [] {
      AsI32Steps(0);
    } else {
      var n := |calls| - 1;
      var init := calls[..n];
      CountersCountBranches(info, ftype, init);
      StepCountsItsBranch(
        info, ftype, calls[n].0, calls[n].1, CountBranch(info, init, AttnV), CountBranch(info, init, FfnDown),
        CountBranch(info, init, FfnGate), CountBranch(info, init, FfnUp));
    }
  }

  /** A successful run picks one type per tensor, each by one step from the counters of the
      tensors before it. */
  lemma {:induction false} RunAt(info: ModelInfo, ftype: Ftype, calls: Calls, i: nat)
    requires RunSelector(info, ftype, calls).Ok? && i < |calls|
    ensures RunSelector(info, ftype, calls[..i]).Ok?
    ensures |RunSelector(info, ftype, calls).value.0| == |calls|
    ensures var r := SelectStep(info, ftype, CountedBranches(info, calls[..i]), calls[i].0, calls[i].1);
            r.Ok? && r.value.0 == RunSelector(info, ftype, calls).value.0[i]
  {
    hide SelectStep, BranchOf, CountedBranches;
    var n := |calls| - 1;
    RunLength(info, ftype, calls);
    RunLength(info, ftype, calls[..n]);
    if i == n {
      CountersCountBranches(info, ftype, calls[..n]);
    } else {
      RunAt(info, ftype, calls[..n], i);
      assert calls[..n][..i] == calls[..i];
    }
  }

  lemma {:induction false} RunLength(info: ModelInfo, ftype: Ftype, calls: Calls)
    requires RunSelector(info, ftype, calls).Ok?
    ensures |RunSelector(info, ftype, calls).value.0| == |calls|
  {
    hide SelectStep;
    if calls != [] {
      RunLength(info, ftype, calls[..|calls| - 1]);
    }
  }

  lemma StepCountsItsBranch(info: ModelInfo, ftype: Ftype, name: string, ne0: int, v: nat, d: nat, g: nat, u: nat)
    ensures var r := SelectStep(info, ftype, Counters(AsI32(v), AsI32(d), AsI32(g), AsI32(u)), name, ne0);
            var b := BranchOf(info, name);
            r.Ok? ==> r.value.1 == Counters(
              AsI32(if b == AttnV then v + 1 else v), AsI32(if b == FfnDown then d + 1 else d),
              AsI32(if b == FfnGate then g + 1 else g), AsI32(if b == FfnUp then u + 1 else u))
  {
    hide BranchOf, LayerInfo, AttnVType, FfnDownType;
    AsI32Steps(v);
    AsI32Steps(d);
    AsI32Steps(g);
    AsI32Steps(u);
  }

  lemma AttnVEncodes(info: ModelInfo, ftype: Ftype, counter: int)
    ensures CanEncode(AttnVType(info, ftype, counter))
  {
    hide UseMoreBits;
  }

  lemma FfnDownEncodes(info: ModelInfo, ftype: Ftype, layer: int)
    ensures CanEncode(FfnDownType(info, ftype, layer))
  {
    hide UseMoreBits, TruncDiv;
  }

  lemma SimpleArmsEncode(info: ModelInfo, ftype: Ftype, ne0: int)
    ensures CanEncode(ftype.DefaultType()) && CanEncode(OutputType(info, ftype, ne0))
    ensures CanEncode(AttnOutputType(info, ftype)) && CanEncode(AttnQkvType(ftype))
  {
    hide TruncMod;
  }

  /** Whatever the mixture picks has an encoder. */
  lemma SelectedTypeEncodes(info: ModelInfo, ftype: Ftype, c: Counters, name: string, ne0: int)
    ensures CanEncode(ftype.DefaultType())
    ensures var r := SelectStep(info, ftype, c, name, ne0);
            r.Ok? ==> CanEncode(r.value.0)
  {
    hide BranchOf, LayerInfo, OutputType, AttnVType, FfnDownType, AttnOutputType, AttnQkvType;
    SimpleArmsEncode(info, ftype, ne0);
    AttnVEncodes(info, ftype, c.attentionWv);
    var layer := LayerInfo(info, c.ffnDown, name);
    if layer.Ok? {
      FfnDownEncodes(info, ftype, layer.value);
    }
  }

  datatype Fallback = Use(ty: GgufTensorType) | NeedsIq4Nl | Unsupported

  /** What to do with a row that is not a whole number of blocks; `None` if it is one. */
  function FallbackForIncompatibleRow(newType: GgufTensorType, ne0: int): Option<Fallback> {
    if TruncMod(ne0, newType.BlockSize()) == 0 then None
    else match newType
      case Q2K | Q3K => Some(NeedsIq4Nl)
      case Q4K | Q5K | Q6K =>
        var fallback := if newType == Q4K then Q5_0 else if newType == Q5K then Q5_1 else Q8_0;
        if TruncMod(ne0, fallback.BlockSize()) != 0 then Some(Use(F16)) else Some(Use(fallback))
      case _ => Some(Unsupported)
  }

  /** The type actually used after the fallback always fits the row, reading the row length
      back as unsigned, and is encodable whenever the picked type was. */
  lemma FallbackFits(newType: GgufTensorType, dim: U64)
    requires CanEncode(newType)
    ensures match FallbackForIncompatibleRow(newType, AsI64(dim))
            case None => dim % newType.BlockSize() == 0
            case Some(Use(ty)) => CanEncode(ty) && dim % ty.BlockSize() == 0
            case Some(_) => dim % newType.BlockSize() != 0
  {
    TruncModOfAsI64(dim, 256);
    TruncModOfAsI64(dim, 32);
    TruncModOfAsI64(dim, 1);
  }

  lemma TruncModOfAsI64(dim: U64, b: nat)
    requires b in {1, 32, 256}
    ensures TruncMod(AsI64(dim), b) == 0 <==> dim % b == 0
  {
  }

  /** Is this tensor a candidate for quantization at all? */
  predicate ShouldQuantize(name: string, nDims: nat) {
    && EndsWith(name, "weight")
    && nDims >= 2
    && !Contains(name, "_norm.weight")
    && !Contains(name, "ffn_gate_inp.weight")
    && !Contains(name, "altup") && !Contains(name, "laurel")
    && !Contains(name, "per_layer_model_proj")
    && name != "position_embd.weight" && name != "token_types.weight"
    && !Contains(name, "ssm_conv1d") && !Contains(name, "shortconv.conv.weight")
    && (forall i :: 0 <= i < |RWKV_SMALL_2D| ==> !Contains(name, RWKV_SMALL_2D[i]))
    && !Contains(name, "attn_rel_b.weight")
    && !Contains(name, ".position_embd.")
  }

  const RWKV_SMALL_2D: seq<string> := [
    "time_mix_first.weight", "time_mix_w0.weight", "time_mix_w1.weight", "time_mix_w2.weight",
    "time_mix_v0.weight", "time_mix_v1.weight", "time_mix_v2.weight", "time_mix_a0.weight",
    "time_mix_a1.weight", "time_mix_a2.weight", "time_mix_g1.weight", "time_mix_g2.weight",
    "time_mix_decay_w1.weight", "time_mix_decay_w2.weight", "time_mix_lerp_fused.weight"
  ]
}
