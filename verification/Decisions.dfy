/** What a plan decides, told without the planner: which type each tensor should end up with,
    when it is re-encoded, and why planning is refused. */
module Decisions {
  import opened Machine
  import opened Ordering
  import opened GgufTypes
  import opened TypeSelect
  import opened Mixtures
  import opened Quantize

  predicate IsCandidate(t: TensorInfo) {
    ShouldQuantize(t.name, |t.dimensions|)
  }

  /** The unsigned row length. */
  function Row(t: TensorInfo): U64 {
    if t.dimensions == [] then 0 else t.dimensions[0]
  }

  function CallFor(t: TensorInfo): (string, int) {
    (t.name, AsI64(Row(t)))
  }

  /** The selections made for some tensors in file order: one for each candidate. */
  function Selections(ts: seq<TensorInfo>): Calls {
    if ts == [] then []
    else
      var n := |ts| - 1;
      Selections(ts[..n]) + if IsCandidate(ts[n]) then [CallFor(ts[n])] else []
  }

  /** What the mixture says about a candidate behind the tensors `before`. */
  function MixturePick(info: ModelInfo, ftype: Ftype, before: seq<TensorInfo>, t: TensorInfo): Option<GgufTensorType> {
    Picked(info, ftype, Selections(before) + [CallFor(t)], |Selections(before)|)
  }

  predicate WholeBlocks(row: U64, ty: GgufTensorType) {
    row % ty.BlockSize() == 0
  }

  /** Rows that are no whole number of blocks: the 4-, 5- and 6-bit K types give way to their
      32-weight relatives, or to F16 where even those do not fit. */
  predicate Adjusted(picked: GgufTensorType, row: U64, target: GgufTensorType) {
    if WholeBlocks(row, picked) then target == picked
    else
      && picked in {Q4K, Q5K, Q6K}
      && target == if row % 32 != 0 then F16 else if picked == Q4K then Q5_0 else if picked == Q5K then Q5_1 else Q8_0
  }

  /** The type a candidate should end up with. */
  ghost predicate IsTarget(
    info: ModelInfo, ftype: Ftype, pureTypes: bool, before: seq<TensorInfo>, t: TensorInfo, target: GgufTensorType)
  {
    if pureTypes then target == ftype.DefaultType()
    else
      var picked := MixturePick(info, ftype, before, t);
      picked.Some? && Adjusted(picked.value, Row(t), target)
  }

  predicate ToEncode(args: Args, t: TensorInfo, target: GgufTensorType) {
    t.tensorType != target || args.forceRequantize
  }

  /** The entry of tensor `t` behind the tensors `before`: a candidate ends at its target, and is
      re-encoded exactly if it is not there yet or force is set; everything else is copied. */
  ghost predicate Decided(
    info: ModelInfo, ftype: Ftype, args: Args, before: seq<TensorInfo>, t: TensorInfo, p: Planned)
  {
    && EntryAbout(p, t)
    && if !IsCandidate(t) then p.action == Copy && p.dstType == t.tensorType
       else exists target :: IsTarget(info, ftype, args.pureTypes, before, t, target) && p.dstType == target
                             && p.action == if ToEncode(args, t, target) then Encode(target) else Copy
  }

  // ---------------------------------------------------------------- the selector behind some tensors

  /** The selector's counters after the tensors `before`. */
  ghost predicate Reached(info: ModelInfo, ftype: Ftype, pureTypes: bool, before: seq<TensorInfo>, c: Counters) {
    !pureTypes ==>
      RunSelector(info, ftype, Selections(before)).Ok? && RunSelector(info, ftype, Selections(before)).value.1 == c
  }

  lemma RunNext(info: ModelInfo, ftype: Ftype, calls: Calls, call: (string, int))
    requires RunSelector(info, ftype, calls).Ok?
    ensures var step := SelectStep(info, ftype, RunSelector(info, ftype, calls).value.1, call.0, call.1);
            match step
            case Err(e) =>
              && RunSelector(info, ftype, calls + [call]) == Err(e)
              && Picked(info, ftype, calls + [call], |calls|) == None
            case Ok((ty, next)) =>
              && RunSelector(info, ftype, calls + [call]).Ok?
              && RunSelector(info, ftype, calls + [call]).value.1 == next
              && Picked(info, ftype, calls + [call], |calls|) == Some(ty)
  {
    hide SelectStep;
    assert (calls + [call])[..|calls|] == calls;
    RunLength(info, ftype, calls);
  }

  lemma FallbackRule(picked: GgufTensorType, row: U64)
    ensures match FallbackForIncompatibleRow(picked, AsI64(row))
            case None => WholeBlocks(row, picked)
            case Some(Use(ty)) => !WholeBlocks(row, picked) && Adjusted(picked, row, ty)
            case Some(NeedsIq4Nl) => !WholeBlocks(row, picked) && picked in {Q2K, Q3K}
            case Some(Unsupported) => !WholeBlocks(row, picked) && picked !in {Q2K, Q3K, Q4K, Q5K, Q6K}
  {
    hide TruncMod;
    RowFits(row, picked.BlockSize());
    RowFits(row, 32);
  }

  lemma RowFits(row: U64, b: nat)
    requires b in {1, 32, 128, 256}
    ensures TruncMod(AsI64(row), b) == 0 <==> row % b == 0
  {
  }

  /** The planner's target is the described one, and it leaves the counters of the run. */
  lemma TargetDescribed(
    info: ModelInfo, ftype: Ftype, pureTypes: bool, before: seq<TensorInfo>, c: Counters, t: TensorInfo)
    requires Reached(info, ftype, pureTypes, before, c) && IsCandidate(t)
    ensures var r := TargetType(info, ftype, pureTypes, c, t);
            && (forall target :: IsTarget(info, ftype, pureTypes, before, t, target) <==> r.Ok? && r.value.0 == target)
            && (r.Ok? ==> Reached(info, ftype, pureTypes, before + [t], r.value.1))
  {
    hide RunSelector, Picked, SelectStep, FallbackForIncompatibleRow, Adjusted, IsCandidate;
    assert (before + [t])[..|before|] == before;
    if !pureTypes {
      RunNext(info, ftype, Selections(before), CallFor(t));
      var step := SelectStep(info, ftype, c, t.name, AsI64(Row(t)));
      if step.Ok? {
        FallbackRule(step.value.0, Row(t));
        AdjustedOnce(step.value.0, Row(t));
      }
    }
  }

  lemma AdjustedOnce(picked: GgufTensorType, row: U64)
    ensures forall a, b :: Adjusted(picked, row, a) && Adjusted(picked, row, b) ==> a == b
    ensures WholeBlocks(row, picked) ==> Adjusted(picked, row, picked)
    ensures !WholeBlocks(row, picked) && picked !in {Q4K, Q5K, Q6K} ==> forall ty :: !Adjusted(picked, row, ty)
  {
  }

  lemma NonCandidateSkipped(
    info: ModelInfo, ftype: Ftype, pureTypes: bool, before: seq<TensorInfo>, c: Counters, t: TensorInfo)
    requires Reached(info, ftype, pureTypes, before, c) && !IsCandidate(t)
    ensures Reached(info, ftype, pureTypes, before + [t], c)
  {
    assert (before + [t])[..|before|] == before;
    assert Selections(before) + [] == Selections(before);
  }

  /** One step of planning. */
  lemma StepDecided(info: ModelInfo, ftype: Ftype, args: Args, before: seq<TensorInfo>, c: Counters, t: TensorInfo)
    requires Reached(info, ftype, args.pureTypes, before, c) && PlanOne(info, ftype, args, c, t).Ok?
    ensures var (p, next) := PlanOne(info, ftype, args, c, t).value;
            Decided(info, ftype, args, before, t, p) && Reached(info, ftype, args.pureTypes, before + [t], next)
  {
    hide TargetType, Reached, IsTarget, RowBytes, TryDataSize, CanEncode, ShouldQuantize;
    if IsCandidate(t) {
      TargetDescribed(info, ftype, args.pureTypes, before, c, t);
      var target := TargetType(info, ftype, args.pureTypes, c, t).value.0;
      assert IsTarget(info, ftype, args.pureTypes, before, t, target);
    } else {
      NonCandidateSkipped(info, ftype, args.pureTypes, before, c, t);
    }
  }

  lemma PrefixShift(before: seq<TensorInfo>, ts: seq<TensorInfo>, i: nat)
    requires 0 < i <= |ts|
    ensures before + ts[..i] == before + [ts[0]] + ts[1..][..i - 1]
  {
    assert ts[..i] == [ts[0]] + ts[1..][..i - 1];
  }

  /** Planning from the middle of the file. */
  lemma {:induction false} TailDecided(
    info: ModelInfo, ftype: Ftype, args: Args, before: seq<TensorInfo>, c: Counters, ts: seq<TensorInfo>,
    plan: seq<Planned>, i: nat)
    requires Reached(info, ftype, args.pureTypes, before, c)
    requires PlanAll(info, ftype, args, c, ts) == Ok(plan) && i < |ts|
    ensures |plan| == |ts| && Decided(info, ftype, args, before + ts[..i], ts[i], plan[i])
    decreases i
  {
    hide PlanOne, Reached, Decided, EntryAbout;
    PlanCoversTensors(info, ftype, args, c, ts, plan);
    ConsPlan(info, ftype, args, c, ts, plan);
    StepDecided(info, ftype, args, before, c, ts[0]);
    if i == 0 {
      assert before + ts[..0] == before;
    } else {
      var next := PlanOne(info, ftype, args, c, ts[0]).value.1;
      TailDecided(info, ftype, args, before + [ts[0]], next, ts[1..], plan[1..], i - 1);
      PrefixShift(before, ts, i);
    }
  }

  lemma NothingReached(info: ModelInfo, ftype: Ftype, pureTypes: bool)
    ensures Reached(info, ftype, pureTypes, [], FRESH)
  {
  }

  /** Every entry of every plan is decided as described, behind the tensors that precede it in
      the file. */
  lemma PlanDecided(info: ModelInfo, ftype: Ftype, args: Args, table: seq<TensorInfo>, plan: seq<Planned>, i: nat)
    requires Plan(info, ftype, args, table) == Ok(plan) && i < |plan|
    ensures var sorted := Sort(table, FileOrderLe);
            |sorted| == |plan| && Decided(info, ftype, args, sorted[..i], sorted[i], plan[i])
  {
    hide Reached, Decided, PlanAll, Sort;
    var sorted := Sort(table, FileOrderLe);
    PlanCoversTensors(info, ftype, args, FRESH, sorted, plan);
    NothingReached(info, ftype, args.pureTypes);
    TailDecided(info, ftype, args, [], FRESH, sorted, plan, i);
    assert [] + sorted[..i] == sorted[..i];
  }

  /** The file order is by offset, and by name where offsets coincide. */
  lemma FileOrder(table: seq<TensorInfo>, i: nat, j: nat)
    requires UniqueBy(table, NameOf) && i < j < |table|
    ensures |Sort(table, FileOrderLe)| == |table|
    ensures var a, b := Sort(table, FileOrderLe)[i], Sort(table, FileOrderLe)[j];
            a in table && b in table && a.name != b.name && FileOrderLe(a, b)
  {
    hide FileOrderLe, Sort;
    var sorted := Sort(table, FileOrderLe);
    SortPermutes(table, FileOrderLe);
    FileOrderTotal(table);
    SortSorts(table, FileOrderLe);
    UniqueByPermutes(table, sorted, NameOf);
    assert sorted[i] in multiset(table) && sorted[j] in multiset(table);
    assert NameOf(sorted[i]) != NameOf(sorted[j]);
  }

  /** With `--pure` every candidate ends at the target's default type, and a tensor already there
      is re-encoded only by force. */
  lemma PureEndsAtDefault(info: ModelInfo, ftype: Ftype, args: Args, table: seq<TensorInfo>, plan: seq<Planned>, i: nat)
    requires Plan(info, ftype, args, table) == Ok(plan) && i < |plan| && args.pureTypes
    requires ShouldQuantize(plan[i].name, |plan[i].dimensions|)
    ensures plan[i].dstType == ftype.DefaultType()
    ensures plan[i].action == Copy <==> plan[i].srcType == ftype.DefaultType() && !args.forceRequantize
  {
    hide Plan, Sort, ShouldQuantize, TryDataSize;
    PlanDecided(info, ftype, args, table, plan, i);
  }

  // ---------------------------------------------------------------- refusals

  /** Why planning stops at tensor `t` behind the tensors `before`. */
  ghost predicate RefusedBecause(
    info: ModelInfo, ftype: Ftype, args: Args, before: seq<TensorInfo>, t: TensorInfo, e: PlanError)
  {
    match e
    case BadLayer(name) =>
      && name == t.name && IsCandidate(t) && !args.pureTypes
      && RunSelector(info, ftype, Selections(before) + [CallFor(t)]).Err?
    case NeedsIq4NlEncoder(name) =>
      && name == t.name && IsCandidate(t) && !args.pureTypes
      && MixturePick(info, ftype, before, t) in {Some(Q2K), Some(Q3K)} && Row(t) % 256 != 0
    case UnsupportedRow(name) =>
      && name == t.name && IsCandidate(t) && !args.pureTypes
      && var picked := MixturePick(info, ftype, before, t);
      picked.Some? && picked.value !in {Q2K, Q3K, Q4K, Q5K, Q6K} && !WholeBlocks(Row(t), picked.value)
    case RefusesRequantize(name) =>
      && name == t.name && IsCandidate(t) && !args.dryRun && !args.MayRequantize() && t.tensorType !in {F32, F16, Bf16}
      && exists target :: IsTarget(info, ftype, args.pureTypes, before, t, target) && ToEncode(args, t, target)
    case SourceSizeOverflow(name) => name == t.name && TryDataSize(t.dimensions, t.tensorType).None?
    case BadRow(reason) =>
      && IsCandidate(t)
      && exists target :: IsTarget(info, ftype, args.pureTypes, before, t, target) && ToEncode(args, t, target)
           && if Row(t) == 0 then reason == ZeroFirstDimension
              else reason == IndivisibleRow && !WholeBlocks(Row(t), target)
    case NoEncoder(_) => false
  }

  ghost predicate Refusable(info: ModelInfo, ftype: Ftype, args: Args, before: seq<TensorInfo>, t: TensorInfo) {
    exists e :: RefusedBecause(info, ftype, args, before, t, e)
  }

  lemma TargetRefused(info: ModelInfo, ftype: Ftype, args: Args, before: seq<TensorInfo>, c: Counters, t: TensorInfo)
    requires Reached(info, ftype, args.pureTypes, before, c) && IsCandidate(t)
    ensures var r := TargetType(info, ftype, args.pureTypes, c, t);
            && (r.Err? ==> RefusedBecause(info, ftype, args, before, t, r.error))
            && (r.Ok? ==> forall e: PlanError :: e.BadLayer? || e.NeedsIq4NlEncoder? || e.UnsupportedRow? ==>
                  !RefusedBecause(info, ftype, args, before, t, e))
  {
    hide RunSelector, Picked, SelectStep, FallbackForIncompatibleRow, Adjusted, IsCandidate, IsTarget, TryDataSize;
    if !args.pureTypes {
      RunNext(info, ftype, Selections(before), CallFor(t));
      var step := SelectStep(info, ftype, c, t.name, AsI64(Row(t)));
      if step.Ok? {
        FallbackRule(step.value.0, Row(t));
        AdjustedOnce(step.value.0, Row(t));
      }
    }
  }

  lemma RowErrors(t: TensorInfo, target: GgufTensorType)
    ensures RowBytes(t.dimensions, target).Ok? <==> Row(t) != 0 && WholeBlocks(Row(t), target)
    ensures RowBytes(t.dimensions, target).Err? ==>
              RowBytes(t.dimensions, target).error == if Row(t) == 0 then ZeroFirstDimension else IndivisibleRow
  {
    hide WrappingFold, WrappingBytes;
  }

  /** The target of `t` is `target` and nothing else. */
  ghost predicate OnlyTarget(
    info: ModelInfo, ftype: Ftype, pureTypes: bool, before: seq<TensorInfo>, t: TensorInfo, target: GgufTensorType)
  {
    forall ty :: IsTarget(info, ftype, pureTypes, before, t, ty) <==> ty == target
  }

  lemma RequantizeReason(
    info: ModelInfo, ftype: Ftype, args: Args, before: seq<TensorInfo>, t: TensorInfo, target: GgufTensorType,
    name: string)
    requires OnlyTarget(info, ftype, args.pureTypes, before, t, target)
    ensures RefusedBecause(info, ftype, args, before, t, RefusesRequantize(name)) <==>
            && name == t.name && IsCandidate(t) && !args.dryRun && !args.MayRequantize()
            && SourceIsQuantized(t.tensorType) && ToEncode(args, t, target)
  {
    hide IsTarget, IsCandidate;
    assert IsTarget(info, ftype, args.pureTypes, before, t, target);
  }

  lemma RowReason(
    info: ModelInfo, ftype: Ftype, args: Args, before: seq<TensorInfo>, t: TensorInfo, target: GgufTensorType,
    reason: RowError)
    requires OnlyTarget(info, ftype, args.pureTypes, before, t, target)
    ensures RefusedBecause(info, ftype, args, before, t, BadRow(reason)) <==>
            IsCandidate(t) && ToEncode(args, t, target) && RowBytes(t.dimensions, target) == Err(reason)
  {
    hide IsTarget, IsCandidate, RowBytes, WholeBlocks, ToEncode;
    RowErrors(t, target);
    assert IsTarget(info, ftype, args.pureTypes, before, t, target);
  }

  lemma OtherReasons(info: ModelInfo, ftype: Ftype, args: Args, before: seq<TensorInfo>, t: TensorInfo, name: string)
    ensures RefusedBecause(info, ftype, args, before, t, SourceSizeOverflow(name)) <==>
            name == t.name && TryDataSize(t.dimensions, t.tensorType).None?
    ensures !RefusedBecause(info, ftype, args, before, t, NoEncoder(name))
  {
  }

  /** What the decision itself can still refuse, once a candidate's target is known. */
  lemma DecisionRefused(
    info: ModelInfo, ftype: Ftype, args: Args, before: seq<TensorInfo>, t: TensorInfo, target: GgufTensorType)
    requires IsCandidate(t) && CanEncode(target) && OnlyTarget(info, ftype, args.pureTypes, before, t, target)
    ensures var r := Decide(args, t, true, target);
            r.Err? ==> RefusedBecause(info, ftype, args, before, t, r.error)
  {
    hide OnlyTarget, RefusedBecause, IsCandidate, TryDataSize, CanEncode, RowBytes;
    RequantizeReason(info, ftype, args, before, t, target, t.name);
    OtherReasons(info, ftype, args, before, t, t.name);
    if RowBytes(t.dimensions, target).Err? {
      RowReason(info, ftype, args, before, t, target, RowBytes(t.dimensions, target).error);
    }
  }

  lemma DecisionUnrefused(
    info: ModelInfo, ftype: Ftype, args: Args, before: seq<TensorInfo>, t: TensorInfo, target: GgufTensorType,
    e: PlanError)
    requires IsCandidate(t) && CanEncode(target) && OnlyTarget(info, ftype, args.pureTypes, before, t, target)
    requires Decide(args, t, true, target).Ok?
    requires e.RefusesRequantize? || e.SourceSizeOverflow? || e.BadRow? || e.NoEncoder?
    ensures !RefusedBecause(info, ftype, args, before, t, e)
  {
    hide OnlyTarget, RefusedBecause, IsCandidate, TryDataSize, CanEncode, RowBytes;
    match e {
      case RefusesRequantize(name) => RequantizeReason(info, ftype, args, before, t, target, name);
      case BadRow(reason) => RowReason(info, ftype, args, before, t, target, reason);
      case SourceSizeOverflow(name) => OtherReasons(info, ftype, args, before, t, name);
      case NoEncoder(name) => OtherReasons(info, ftype, args, before, t, name);
      case _ =>
    }
  }

  lemma CopyRefused(info: ModelInfo, ftype: Ftype, args: Args, before: seq<TensorInfo>, t: TensorInfo)
    requires !IsCandidate(t)
    ensures var r := Decide(args, t, false, t.tensorType);
            && (r.Err? ==> RefusedBecause(info, ftype, args, before, t, r.error))
            && (r.Ok? ==> !Refusable(info, ftype, args, before, t))
  {
    hide IsCandidate, TryDataSize, CanEncode;
  }

  /** A tensor is refused, for a described reason, exactly if there is one. */
  lemma StepRefusedIff(info: ModelInfo, ftype: Ftype, args: Args, before: seq<TensorInfo>, c: Counters, t: TensorInfo)
    requires Reached(info, ftype, args.pureTypes, before, c)
    ensures var r := PlanOne(info, ftype, args, c, t);
            && (r.Err? ==> RefusedBecause(info, ftype, args, before, t, r.error))
            && (r.Ok? ==> !Refusable(info, ftype, args, before, t))
  {
    hide TargetType, Decide, RefusedBecause, IsTarget, Reached, CanEncode, ShouldQuantize;
    if IsCandidate(t) {
      TargetDescribed(info, ftype, args.pureTypes, before, c, t);
      TargetRefused(info, ftype, args, before, c, t);
      var r := TargetType(info, ftype, args.pureTypes, c, t);
      if r.Ok? {
        TargetEncodesAndFits(info, ftype, args.pureTypes, c, t);
        var target := r.value.0;
        DecisionRefused(info, ftype, args, before, t, target);
        if Decide(args, t, true, target).Ok? {
          forall e: PlanError | e.RefusesRequantize? || e.SourceSizeOverflow? || e.BadRow? || e.NoEncoder?
            ensures !RefusedBecause(info, ftype, args, before, t, e)
          {
            DecisionUnrefused(info, ftype, args, before, t, target, e);
          }
        }
      }
    } else {
      CopyRefused(info, ftype, args, before, t);
    }
  }

  lemma {:induction false} TailRefusedIff(
    info: ModelInfo, ftype: Ftype, args: Args, before: seq<TensorInfo>, c: Counters, ts: seq<TensorInfo>)
    requires Reached(info, ftype, args.pureTypes, before, c)
    ensures var r := PlanAll(info, ftype, args, c, ts);
            && (r.Err? ==> exists i ::
                  0 <= i < |ts| && RefusedBecause(info, ftype, args, before + ts[..i], ts[i], r.error))
            && (r.Ok? ==> forall i :: 0 <= i < |ts| ==> !Refusable(info, ftype, args, before + ts[..i], ts[i]))
    decreases ts
  {
    hide PlanOne, Reached, RefusedBecause, Refusable;
    if ts != [] {
      StepRefusedIff(info, ftype, args, before, c, ts[0]);
      assert before + ts[..0] == before;
      var one := PlanOne(info, ftype, args, c, ts[0]);
      if one.Err? {
        assert RefusedBecause(info, ftype, args, before + ts[..0], ts[0], one.error);
      } else {
        StepDecided(info, ftype, args, before, c, ts[0]);
        TailRefusedIff(info, ftype, args, before + [ts[0]], one.value.1, ts[1..]);
        forall i | 0 < i < |ts|
          ensures before + ts[..i] == before + [ts[0]] + ts[1..][..i - 1] && ts[i] == ts[1..][i - 1]
        {
          PrefixShift(before, ts, i);
        }
        var rest := PlanAll(info, ftype, args, one.value.1, ts[1..]);
        if rest.Err? {
          var i :| 0 <= i < |ts[1..]|
                   && RefusedBecause(info, ftype, args, before + [ts[0]] + ts[1..][..i], ts[1..][i], rest.error);
          PrefixShift(before, ts, i + 1);
          assert RefusedBecause(info, ftype, args, before + ts[..i + 1], ts[i + 1], rest.error);
        }
      }
    }
  }

  /** Planning fails exactly if some tensor gives a reason to, and then with the reason of a
      tensor in the file. */
  lemma PlanRefusedIff(info: ModelInfo, ftype: Ftype, args: Args, table: seq<TensorInfo>)
    ensures var r, sorted := Plan(info, ftype, args, table), Sort(table, FileOrderLe);
            && (r.Err? <==> exists i :: 0 <= i < |sorted| && Refusable(info, ftype, args, sorted[..i], sorted[i]))
            && (r.Err? ==> exists i ::
                  0 <= i < |sorted| && RefusedBecause(info, ftype, args, sorted[..i], sorted[i], r.error))
  {
    hide PlanAll, Sort, RefusedBecause, Reached;
    var r, sorted := Plan(info, ftype, args, table), Sort(table, FileOrderLe);
    NothingReached(info, ftype, args.pureTypes);
    TailRefusedIff(info, ftype, args, [], FRESH, sorted);
    assert forall i :: 0 <= i <= |sorted| ==> [] + sorted[..i] == sorted[..i];
    if r.Err? {
      var i :| 0 <= i < |sorted| && RefusedBecause(info, ftype, args, [] + sorted[..i], sorted[i], r.error);
      assert Refusable(info, ftype, args, sorted[..i], sorted[i]);
    }
  }
}
