/** The tensor names of the usual transformer files: each is a candidate, and takes its own arm
    of the type selection, in every layer. */
module StandardNames {
  import opened Machine
  import opened Text
  import opened GgufTypes
  import opened TypeSelect
  import opened Mixtures

  /** The weights of a layer. */
  datatype Part = Value | Key | Query | Fused | Output | Down | Gate | Up
  {
    function Suffix(): string {
      match this
      case Value => "attn_v.weight"
      case Key => "attn_k.weight"
      case Query => "attn_q.weight"
      case Fused => "attn_qkv.weight"
      case Output => "attn_output.weight"
      case Down => "ffn_down.weight"
      case Gate => "ffn_gate.weight"
      case Up => "ffn_up.weight"
    }

    function Arm(): Branch {
      match this
      case Value => AttnV
      case Key => AttnK
      case Query => AttnQ
      case Fused => AttnQkv
      case Output => AttnOutput
      case Down => FfnDown
      case Gate => FfnGate
      case Up => FfnUp
    }
  }

  /** What follows the only underscore of a part. */
  function Letter(part: Part): char {
    match part
    case Value => 'v'
    case Key => 'k'
    case Query | Fused => 'q'
    case Output => 'o'
    case Down => 'd'
    case Gate => 'g'
    case Up => 'u'
  }

  function NameOfPart(layer: nat, part: Part): string {
    LayerName(layer, part.Suffix())
  }

  // ---------------------------------------------------------------- what a name does not contain

  lemma {:induction false} ContainsChars(s: string, needle: string, j: nat)
    requires Contains(s, needle) && j < |needle|
    ensures needle[j] in s
  {
    if needle <= s {
      assert s[j] == needle[j];
    } else {
      ContainsChars(s[1..], needle, j);
    }
  }

  /** `c` never comes directly behind `b`. */
  predicate NeverAfter(s: string, b: char, c: char) {
    forall i :: 0 <= i < |s| - 1 && s[i] == b ==> s[i + 1] != c
  }

  lemma {:induction false} ContainsPairs(s: string, needle: string, j: nat)
    requires Contains(s, needle) && j + 1 < |needle|
    ensures !NeverAfter(s, needle[j], needle[j + 1])
  {
    if needle <= s {
      assert s[j] == needle[j] && s[j + 1] == needle[j + 1];
    } else {
      ContainsPairs(s[1..], needle, j);
      var i :| 0 <= i < |s[1..]| - 1 && s[1..][i] == needle[j] && s[1..][i + 1] == needle[j + 1];
      assert s[i + 1] == needle[j] && s[i + 2] == needle[j + 1];
    }
  }

  lemma {:induction false} ContainsBehind(prefix: string, needle: string)
    ensures Contains(prefix + needle, needle)
  {
    if prefix == "" {
      assert prefix + needle == needle;
    } else {
      assert (prefix + needle)[1..] == prefix[1..] + needle;
      ContainsBehind(prefix[1..], needle);
    }
  }

  lemma NameAt(layer: nat, part: Part, i: nat)
    requires i < |NameOfPart(layer, part)|
    ensures var c, n, suffix := NameOfPart(layer, part)[i], 5 + |Decimal(layer)|, part.Suffix();
            && |NameOfPart(layer, part)| == n + |suffix|
            && (if i < 4 then c == "blk."[i] else if i < n - 1 then IsDigit(c)
                else if i == n - 1 then c == '.' else c == suffix[i - n])
  {
    var name, d, suffix := NameOfPart(layer, part), Decimal(layer), part.Suffix();
    assert name == "blk." + d + "." + suffix;
    if 4 <= i < 4 + |d| {
      assert name[i] == d[i - 4] && d[i - 4] in d;
    }
  }

  lemma NameLacksChar(layer: nat, part: Part, c: char)
    requires c !in "blk." && !IsDigit(c) && c !in part.Suffix()
    ensures c !in NameOfPart(layer, part)
  {
    hide NameOfPart;
    assert "blk."[3] == '.';
    forall i | 0 <= i < |NameOfPart(layer, part)|
      ensures NameOfPart(layer, part)[i] != c
    {
      NameAt(layer, part, i);
    }
  }

  lemma NameLacksPair(layer: nat, part: Part, b: char, c: char)
    requires NeverAfter("blk.", b, c) && !IsDigit(b) && b != '.' && NeverAfter(part.Suffix(), b, c)
    ensures NeverAfter(NameOfPart(layer, part), b, c)
  {
    hide NameOfPart, Part.Suffix;
    var name, n, suffix := NameOfPart(layer, part), 5 + |Decimal(layer)|, part.Suffix();
    forall i | 0 <= i < |name| - 1 && name[i] == b
      ensures name[i + 1] != c
    {
      NameAt(layer, part, i);
      NameAt(layer, part, i + 1);
      if i < 3 {
        assert "blk."[i] == b && "blk."[i + 1] == name[i + 1];
      } else {
        assert "blk."[3] == '.';
        assert i >= n && suffix[i - n] == b && suffix[i + 1 - n] == name[i + 1];
      }
    }
  }

  /** The suffix has one underscore, the fifth or fourth character. */
  lemma SuffixUnderscore(part: Part, c: char)
    requires c != Letter(part)
    ensures NeverAfter(part.Suffix(), '_', c) && NeverAfter("blk.", '_', c)
  {
    var s := part.Suffix();
    var u := if part in {Down, Gate, Up} then 3 else 4;
    assert s[u] == '_' && s[u + 1] == Letter(part);
    forall i | 0 <= i < |s| && s[i] == '_'
      ensures i == u
    {
    }
  }

  lemma LacksAfterUnderscore(layer: nat, part: Part, needle: string, j: nat)
    requires j + 1 < |needle| && needle[j] == '_' && needle[j + 1] != Letter(part)
    ensures !Contains(NameOfPart(layer, part), needle)
  {
    hide NameOfPart, Letter;
    SuffixUnderscore(part, needle[j + 1]);
    LacksPair(layer, part, needle, j);
  }

  /** A part's name lacks every needle with this character in it. */
  lemma Lacks(layer: nat, part: Part, needle: string, j: nat)
    requires j < |needle|
    requires needle[j] !in "blk." && !IsDigit(needle[j]) && needle[j] !in part.Suffix()
    ensures !Contains(NameOfPart(layer, part), needle)
  {
    hide NameOfPart;
    if Contains(NameOfPart(layer, part), needle) {
      ContainsChars(NameOfPart(layer, part), needle, j);
      NameLacksChar(layer, part, needle[j]);
    }
  }

  /** A part's name lacks every needle with these two characters in a row in it. */
  lemma LacksPair(layer: nat, part: Part, needle: string, j: nat)
    requires j + 1 < |needle| && !IsDigit(needle[j]) && needle[j] != '.'
    requires NeverAfter("blk.", needle[j], needle[j + 1]) && NeverAfter(part.Suffix(), needle[j], needle[j + 1])
    ensures !Contains(NameOfPart(layer, part), needle)
  {
    hide NameOfPart;
    if Contains(NameOfPart(layer, part), needle) {
      ContainsPairs(NameOfPart(layer, part), needle, j);
      NameLacksPair(layer, part, needle[j], needle[j + 1]);
    }
  }

  lemma AttentionIsWeight(part: Part)
    requires part in {Value, Key, Query, Fused, Output}
    ensures |part.Suffix()| >= 6 && part.Suffix()[|part.Suffix()| - 6..] == "weight"
  {
  }

  lemma FeedForwardIsWeight(part: Part)
    requires part in {Down, Gate, Up}
    ensures |part.Suffix()| >= 6 && part.Suffix()[|part.Suffix()| - 6..] == "weight"
  {
  }

  lemma SuffixIsWeight(part: Part)
    ensures |part.Suffix()| >= 6 && part.Suffix()[|part.Suffix()| - 6..] == "weight"
  {
    hide Part.Suffix;
    if part in {Down, Gate, Up} {
      FeedForwardIsWeight(part);
    } else {
      AttentionIsWeight(part);
    }
  }

  lemma HasItsSuffix(layer: nat, part: Part)
    ensures Contains(NameOfPart(layer, part), part.Suffix())
    ensures EndsWith(NameOfPart(layer, part), "weight")
    ensures NameOfPart(layer, part)[0] == 'b'
  {
    hide Contains, Part.Suffix;
    var head, suffix := "blk." + Decimal(layer) + ".", part.Suffix();
    assert NameOfPart(layer, part) == head + suffix;
    ContainsBehind(head, suffix);
    SuffixIsWeight(part);
    assert (head + suffix)[|head| + |suffix| - 6..] == suffix[|suffix| - 6..];
  }

  // ---------------------------------------------------------------- the arm of each part

  /** No part's name has the needle of another part in it. */
  lemma OtherNeedles(layer: nat, part: Part)
    ensures part != Value ==> !Contains(NameOfPart(layer, part), "attn_v.weight")
    ensures part != Key ==> !Contains(NameOfPart(layer, part), "attn_k.weight")
    ensures part !in {Query, Fused} ==> !Contains(NameOfPart(layer, part), "attn_q.weight")
    ensures part !in {Query, Fused} ==> !Contains(NameOfPart(layer, part), "attn_qkv.weight")
    ensures part != Output ==> !Contains(NameOfPart(layer, part), "attn_output.weight")
    ensures part != Down ==> !Contains(NameOfPart(layer, part), "ffn_down")
    ensures part != Gate ==> !Contains(NameOfPart(layer, part), "ffn_gate")
    ensures part != Up ==> !Contains(NameOfPart(layer, part), "ffn_up")
  {
    hide NameOfPart, Contains;
    if part != Value { LacksAfterUnderscore(layer, part, "attn_v.weight", 4); }
    if part != Key { LacksAfterUnderscore(layer, part, "attn_k.weight", 4); }
    if part !in {Query, Fused} {
      LacksAfterUnderscore(layer, part, "attn_q.weight", 4);
      LacksAfterUnderscore(layer, part, "attn_qkv.weight", 4);
    }
    if part != Output { LacksAfterUnderscore(layer, part, "attn_output.weight", 4); }
    if part != Down { LacksAfterUnderscore(layer, part, "ffn_down", 3); }
    if part != Gate { LacksAfterUnderscore(layer, part, "ffn_gate", 3); }
    if part != Up { LacksAfterUnderscore(layer, part, "ffn_up", 3); }
  }

  lemma FusedIsNotQuery(layer: nat)
    ensures !Contains(NameOfPart(layer, Fused), "attn_q.weight")
  {
    LacksPair(layer, Fused, "attn_q.weight", 5);
  }

  lemma ShorterNeedles(layer: nat, part: Part)
    ensures part == Down ==> Contains(NameOfPart(layer, part), "ffn_down")
    ensures part == Gate ==> Contains(NameOfPart(layer, part), "ffn_gate")
    ensures part == Up ==> Contains(NameOfPart(layer, part), "ffn_up")
  {
    var needle := if part == Down then "ffn_down" else if part == Gate then "ffn_gate" else "ffn_up";
    if part in {Down, Gate, Up} {
      var head := "blk." + Decimal(layer) + ".";
      assert NameOfPart(layer, part) == head + part.Suffix();
      assert needle <= part.Suffix();
      ContainsPrefixBehind(head, needle, part.Suffix());
    }
  }

  lemma {:induction false} ContainsPrefixBehind(head: string, needle: string, tail: string)
    requires needle <= tail
    ensures Contains(head + tail, needle)
  {
    if head == "" {
      assert head + tail == tail;
    } else {
      assert (head + tail)[1..] == head[1..] + tail;
      ContainsPrefixBehind(head[1..], needle, tail);
    }
  }

  /** Every layer weight takes its own arm, for every layer number and every model. */
  lemma PartTakesItsArm(info: ModelInfo, layer: nat, part: Part)
    ensures BranchOf(info, NameOfPart(layer, part)) == part.Arm()
  {
    hide Contains, NameOfPart;
    HasItsSuffix(layer, part);
    OtherNeedles(layer, part);
    FusedIsNotQuery(layer);
    ShorterNeedles(layer, part);
  }

  // ---------------------------------------------------------------- candidates

  lemma NoRwkvName(layer: nat, part: Part, i: nat)
    requires i < |RWKV_SMALL_2D|
    ensures !Contains(NameOfPart(layer, part), RWKV_SMALL_2D[i])
  {
    hide NameOfPart, Contains;
    assert RWKV_SMALL_2D[i][4] == '_' && RWKV_SMALL_2D[i][5] == 'm';
    LacksAfterUnderscore(layer, part, RWKV_SMALL_2D[i], 4);
  }

  lemma AttentionLacks(part: Part, c: char)
    requires part in {Value, Key, Query, Fused, Output} && c in {'r', 's', 'l'}
    ensures c !in part.Suffix()
  {
    forall i | 0 <= i < |part.Suffix()|
      ensures part.Suffix()[i] != c
    {
    }
  }

  lemma FeedForwardLacks(part: Part, c: char)
    requires part in {Down, Gate, Up} && c in {'r', 's', 'l'}
    ensures c !in part.Suffix()
  {
    forall i | 0 <= i < |part.Suffix()|
      ensures part.Suffix()[i] != c
    {
    }
  }

  lemma SuffixLacks(part: Part, c: char)
    requires c in {'r', 's', 'l'}
    ensures c !in part.Suffix()
  {
    hide Part.Suffix;
    if part in {Down, Gate, Up} {
      FeedForwardLacks(part, c);
    } else {
      AttentionLacks(part, c);
    }
  }

  lemma NoOddNames(layer: nat, part: Part)
    ensures !Contains(NameOfPart(layer, part), "altup") && !Contains(NameOfPart(layer, part), "laurel")
    ensures !Contains(NameOfPart(layer, part), "shortconv.conv.weight")
  {
    hide NameOfPart, Contains, Part.Suffix;
    SuffixLacks(part, 'r');
    SuffixLacks(part, 's');
    SuffixLacks(part, 'l');
    assert forall i :: 0 <= i < |part.Suffix()| ==> part.Suffix()[i] in part.Suffix();
    Lacks(layer, part, "laurel", 3);
    LacksPair(layer, part, "altup", 1);
    Lacks(layer, part, "shortconv.conv.weight", 0);
  }

  /** Every layer weight of two or more dimensions is a candidate, in every layer. */
  lemma PartIsCandidate(layer: nat, part: Part, nDims: nat)
    ensures ShouldQuantize(NameOfPart(layer, part), nDims) <==> nDims >= 2
  {
    hide Contains, NameOfPart;
    HasItsSuffix(layer, part);
    NoOddNames(layer, part);
    LacksAfterUnderscore(layer, part, "_norm.weight", 0);
    LacksAfterUnderscore(layer, part, "ffn_gate_inp.weight", 8);
    LacksAfterUnderscore(layer, part, "per_layer_model_proj", 3);
    LacksAfterUnderscore(layer, part, "ssm_conv1d", 3);
    LacksAfterUnderscore(layer, part, "attn_rel_b.weight", 4);
    LacksAfterUnderscore(layer, part, ".position_embd.", 9);
    forall i | 0 <= i < |RWKV_SMALL_2D|
      ensures !Contains(NameOfPart(layer, part), RWKV_SMALL_2D[i])
    {
      NoRwkvName(layer, part, i);
    }
  }

  // ---------------------------------------------------------------- what is never a candidate

  /** Names that contain one of these are left alone. */
  const LEFT_ALONE: seq<string> := [
    "_norm.weight", "ffn_gate_inp.weight", "altup", "laurel", "per_layer_model_proj", "ssm_conv1d",
    "shortconv.conv.weight", "attn_rel_b.weight", ".position_embd."
  ] + RWKV_SMALL_2D

  lemma {:induction false} ContainsInside(head: string, needle: string, tail: string)
    ensures Contains(head + needle + tail, needle)
  {
    assert head + needle + tail == head + (needle + tail);
    ContainsPrefixBehind(head, needle, needle + tail);
  }

  /** Norms, gates and the small helper weights stay as they are wherever their name occurs,
      and so does everything with fewer than two dimensions. */
  lemma LeftAlone(i: nat, head: string, tail: string, nDims: nat)
    requires i < |LEFT_ALONE|
    ensures !ShouldQuantize(head + LEFT_ALONE[i] + tail, nDims)
    ensures nDims < 2 ==> !ShouldQuantize(head, nDims)
    ensures !EndsWith(head, "weight") ==> !ShouldQuantize(head, nDims)
    ensures !ShouldQuantize("position_embd.weight", nDims) && !ShouldQuantize("token_types.weight", nDims)
  {
    hide Contains;
    ContainsInside(head, LEFT_ALONE[i], tail);
    if i >= 9 {
      assert LEFT_ALONE[i] == RWKV_SMALL_2D[i - 9];
    }
  }

  // ---------------------------------------------------------------- a whole ordinary model

  /** In a run over the tensors of a dense model, the `ffn_down` of layer `k`, if the tensors
      come in layer order, gets 6 bits with Q4_K_M exactly in the promoted layers. */
  lemma LayerDown(info: ModelInfo, calls: Calls, i: nat, layer: nat)
    requires RunSelector(info, FtQ4KM, calls).Ok? && i < |calls| && calls[i].0 == NameOfPart(layer, Down)
    requires info.nExpert <= 1 && info.arch != "falcon" && ModestLayers(info.nLayer)
    requires CountBranch(info, calls[..i], FfnDown) == layer < TWO_31
    ensures Picked(info, FtQ4KM, calls, i) == Some(if PromotedLayer(layer, info.nLayer) then Q6K else Q4K)
  {
    hide BranchOf, RunSelector, CountBranch, NameOfPart;
    PartTakesItsArm(info, layer, Down);
    DenseFfnDown(info, FtQ4KM, calls, i);
  }
}
