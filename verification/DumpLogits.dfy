/** The per-step logit dump: prefill, a decode loop with teacher forcing, one file per step. */
module DumpLogits {
  import opened Machine
  import opened Text
  import opened Float32

  /** A call of the engine. A forward pass names the tokens it adds and the position of the
      first of them. */
  datatype Call = Reset | Prefill(batch: seq<U32>, pos: nat) | Decode(token: U32, pos: nat)

  /** The forward pass is deterministic in the calls made since the engine was reset. It may
      depend on how tokens were batched: floats are not summed in the same order. */
  datatype Model = Model(vocabSize: nat, forward: seq<Call> -> Option<seq<F32>>, isEog: U32 -> bool)

  /** An appending inference engine. Both passes must be told the position they start at, the
      number of tokens consumed so far; they do not check it. */
  class Engine {
    const model: Model
    var context: seq<U32>
    var history: seq<Call>
    var resets: nat

    constructor (model: Model)
      ensures this.model == model && context == [] && history == [] && resets == 0
    {
      this.model := model;
      context, history, resets := [], [], 0;
    }

    method ResetContext()
      modifies this
      ensures context == [] && history == [] && resets == old(resets) + 1
    {
      context, history, resets := [], [], resets + 1;
    }

    method ForwardPrefill(batch: seq<U32>, pos: nat) returns (r: Option<seq<F32>>)
      requires pos == |context| && batch != []
      modifies this`context, this`history
      ensures history == old(history) + [Prefill(batch, pos)]
      ensures context == old(context) + batch && r == model.forward(history)
    {
      history := history + [Prefill(batch, pos)];
      context := context + batch;
      r := model.forward(history);
    }

    method ForwardDecode(token: U32, pos: nat) returns (r: Option<seq<F32>>)
      requires pos == |context|
      modifies this`context, this`history
      ensures history == old(history) + [Decode(token, pos)]
      ensures context == old(context) + [token] && r == model.forward(history)
    {
      history := history + [Decode(token, pos)];
      context := context + [token];
      r := model.forward(history);
    }
  }

  // ---------------------------------------------------------------- chunked prefill

  /** Batch length; zero configures a single batch. */
  function ChunkLength(configured: nat, n: nat): nat {
    if configured == 0 then n else if configured < n then configured else n
  }

  /** `chunks(chunk)` */
  function Batches(tokens: seq<U32>, chunk: nat): seq<seq<U32>>
    requires chunk > 0
  {
    if tokens == [] then []
    else if |tokens| <= chunk then [tokens]
    else [tokens[..chunk]] + Batches(tokens[chunk..], chunk)
  }

  function Concat(batches: seq<seq<U32>>): seq<U32> {
    if batches == [] then [] else batches[0] + Concat(batches[1..])
  }

  function PrefillCalls(batches: seq<seq<U32>>, pos: nat): seq<Call> {
    if batches == [] then [] else [Prefill(batches[0], pos)] + PrefillCalls(batches[1..], pos + |batches[0]|)
  }

  /** The logits the last batch returns, if every batch succeeds. */
  function PrefillLogits(model: Model, history: seq<Call>, batches: seq<seq<U32>>, pos: nat, last: seq<F32>)
    : Option<seq<F32>>
    decreases batches
  {
    if batches == [] then Some(last)
    else
      var next := history + [Prefill(batches[0], pos)];
      match model.forward(next)
      case None => None
      case Some(logits) => PrefillLogits(model, next, batches[1..], pos + |batches[0]|, logits)
  }

  /** Where the prefill loop stands: `rest` is still to come. */
  ghost predicate Prefilling(
    model: Model, all: seq<seq<U32>>, tokens: seq<U32>,
    rest: seq<seq<U32>>, context: seq<U32>, history: seq<Call>, logits: seq<F32>)
  {
    && context + Concat(rest) == tokens
    && PrefillLogits(model, [], all, 0, []) == PrefillLogits(model, history, rest, |context|, logits)
    && PrefillCalls(all, 0) == history + PrefillCalls(rest, |context|)
  }

  /** `EngineSource::prefill` on a freshly reset engine. */
  method PrefillPrompt(engine: Engine, configured: nat, tokens: seq<U32>) returns (r: Option<seq<F32>>)
    requires tokens != [] && engine.context == [] && engine.history == []
    modifies engine`context, engine`history
    ensures var batches := Batches(tokens, ChunkLength(configured, |tokens|));
            && r == PrefillLogits(engine.model, [], batches, 0, [])
            && (r.Some? ==> engine.context == tokens && engine.history == PrefillCalls(batches, 0))
  {
    hide Batches, ChunkLength, Prefilling, PrefillLogits, PrefillCalls, Concat;
    var chunk := LengthOfChunks(configured, tokens);
    var batches := Batches(tokens, chunk);
    BatchesConcat(tokens, chunk);
    var logits: seq<F32> := [];
    var pos := 0;
    PrefillStarts(engine.model, batches, tokens);
    for i := 0 to |batches|
      invariant pos == |engine.context|
      invariant Prefilling(engine.model, batches, tokens, batches[i..], engine.context, engine.history, logits)
    {
      var batch := batches[i];
      assert batches[i..] == [batch] + batches[i + 1..] && batch in batches;
      PrefillContinues(
        engine.model, batches, tokens, batch, batches[i + 1..], engine.context, engine.history, logits);
      var out := engine.ForwardPrefill(batch, pos);
      if out.None? {
        return None;
      }
      logits := out.value;
      pos := pos + |batch|;
    }
    assert batches[|batches|..] == [];
    PrefillEnds(engine.model, batches, tokens, engine.context, engine.history, logits);
    return Some(logits);
  }

  method LengthOfChunks(configured: nat, tokens: seq<U32>) returns (chunk: nat)
    requires tokens != []
    ensures chunk == ChunkLength(configured, |tokens|) > 0
  {
    chunk := if configured == 0 then |tokens| else if configured < |tokens| then configured else |tokens|;
  }

  lemma PrefillStarts(model: Model, all: seq<seq<U32>>, tokens: seq<U32>)
    requires Concat(all) == tokens
    ensures Prefilling(model, all, tokens, all[0..], [], [], [])
  {
    assert all[0..] == all && [] + tokens == tokens && [] + PrefillCalls(all, 0) == PrefillCalls(all, 0);
  }

  lemma PrefillContinues(
    model: Model, all: seq<seq<U32>>, tokens: seq<U32>,
    batch: seq<U32>, rest: seq<seq<U32>>, context: seq<U32>, history: seq<Call>, logits: seq<F32>)
    requires Prefilling(model, all, tokens, [batch] + rest, context, history, logits)
    ensures var next := history + [Prefill(batch, |context|)];
            match model.forward(next)
            case None => PrefillLogits(model, [], all, 0, []) == None
            case Some(out) => Prefilling(model, all, tokens, rest, context + batch, next, out)
  {
    hide PrefillLogits, PrefillCalls, Concat;
    UnfoldBatches(model, history, batch, rest, logits, |context|);
    var call, tail := [Prefill(batch, |context|)], PrefillCalls(rest, |context| + |batch|);
    assert history + (call + tail) == (history + call) + tail;
    assert context + (batch + Concat(rest)) == (context + batch) + Concat(rest);
  }

  lemma PrefillEnds(
    model: Model, all: seq<seq<U32>>, tokens: seq<U32>, context: seq<U32>, history: seq<Call>, logits: seq<F32>)
    requires Prefilling(model, all, tokens, [], context, history, logits)
    ensures context == tokens && PrefillLogits(model, [], all, 0, []) == Some(logits)
    ensures history == PrefillCalls(all, 0)
  {
  }

  lemma UnfoldBatches(
    model: Model, history: seq<Call>, batch: seq<U32>, rest: seq<seq<U32>>, last: seq<F32>, pos: nat)
    ensures var batches, next := [batch] + rest, history + [Prefill(batch, pos)];
            && Concat(batches) == batch + Concat(rest)
            && PrefillCalls(batches, pos) == [Prefill(batch, pos)] + PrefillCalls(rest, pos + |batch|)
            && PrefillLogits(model, history, batches, pos, last) ==
               match model.forward(next)
               case None => None
               case Some(logits) => PrefillLogits(model, next, rest, pos + |batch|, logits)
  {
    var batches := [batch] + rest;
    assert batches[1..] == rest;
  }

  predicate NoneEmpty(batches: seq<seq<U32>>) {
    forall b :: b in batches ==> b != []
  }

  /** Batches are non-empty and concatenate to the prompt. */
  lemma {:induction false} BatchesConcat(tokens: seq<U32>, chunk: nat)
    requires chunk > 0
    ensures Concat(Batches(tokens, chunk)) == tokens
    ensures forall b :: b in Batches(tokens, chunk) ==> 0 < |b| <= chunk
    ensures NoneEmpty(Batches(tokens, chunk))
    ensures tokens != [] ==> Batches(tokens, chunk) != []
  {
    if |tokens| > chunk {
      var rest := Batches(tokens[chunk..], chunk);
      BatchesConcat(tokens[chunk..], chunk);
      assert Batches(tokens, chunk) == [tokens[..chunk]] + rest;
      assert ([tokens[..chunk]] + rest)[1..] == rest;
      assert tokens[..chunk] + tokens[chunk..] == tokens;
    } else if tokens != [] {
      assert Batches(tokens, chunk) == [tokens];
      assert [tokens][1..] == [];
      assert Concat([tokens]) == tokens + Concat([]);
    }
  }

  /** Each batch is handed over at the position of its first token. */
  lemma {:induction false} BatchPositions(batches: seq<seq<U32>>, pos: nat, i: nat)
    requires i < |batches|
    ensures |PrefillCalls(batches, pos)| == |batches|
    ensures PrefillCalls(batches, pos)[i] == Prefill(batches[i], pos + |Concat(batches[..i])|)
  {
    if i == 0 {
      if |batches| > 1 {
        BatchPositions(batches[1..], pos + |batches[0]|, 0);
      }
    } else {
      BatchPositions(batches[1..], pos + |batches[0]|, i - 1);
      assert batches[..i][1..] == batches[1..][..i - 1];
    }
  }

  /** The first `i` batches can be evaluated. */
  ghost predicate Evaluates(model: Model, history: seq<Call>, batches: seq<seq<U32>>, pos: nat, i: nat)
    requires i <= |batches|
  {
    model.forward(history + PrefillCalls(batches[..i], pos)).Some?
  }

  lemma PrefixCalls(history: seq<Call>, batches: seq<seq<U32>>, pos: nat, i: nat)
    requires 0 < i <= |batches|
    ensures history + PrefillCalls(batches[..i], pos)
         == (history + [Prefill(batches[0], pos)]) + PrefillCalls(batches[1..][..i - 1], pos + |batches[0]|)
  {
    assert batches[..i][1..] == batches[1..][..i - 1];
  }

  /** What a chunked prefill returns, for every model: the answer to all of its batches, if
      each batch boundary can be evaluated, and nothing exactly when one cannot. */
  lemma {:induction false} PrefillAnswersLastBatch(
    model: Model, history: seq<Call>, batches: seq<seq<U32>>, pos: nat, last: seq<F32>)
    requires batches != []
    ensures PrefillLogits(model, history, batches, pos, last).Some? <==>
            forall i :: 0 < i <= |batches| ==> Evaluates(model, history, batches, pos, i)
    ensures PrefillLogits(model, history, batches, pos, last).Some? ==>
              PrefillLogits(model, history, batches, pos, last) == model.forward(history + PrefillCalls(batches, pos))
    decreases batches
  {
    hide PrefillCalls, PrefillLogits, Evaluates;
    var rest, n := batches[1..], |batches|;
    var next, pos' := history + [Prefill(batches[0], pos)], pos + |batches[0]|;
    assert batches == [batches[0]] + rest && batches[..n] == batches && rest[..n - 1] == rest;
    UnfoldBatches(model, history, batches[0], rest, last, pos);
    forall i | 0 < i <= n
      ensures Evaluates(model, history, batches, pos, i) <==> Evaluates(model, next, rest, pos', i - 1)
    {
      EvaluatesNext(model, history, batches, pos, i);
    }
    PrefixCalls(history, batches, pos, n);
    NothingPrefilled(model, next, rest, pos', []);
    if model.forward(next).Some? {
      if rest == [] {
        NothingPrefilled(model, next, rest, pos', model.forward(next).value);
      } else {
        PrefillAnswersLastBatch(model, next, rest, pos', model.forward(next).value);
        if forall i :: 0 < i <= n ==> Evaluates(model, history, batches, pos, i) {
          forall i | 0 < i <= |rest|
            ensures Evaluates(model, next, rest, pos', i)
          {
            EvaluatesNext(model, history, batches, pos, i + 1);
          }
        }
      }
    } else {
      assert !Evaluates(model, history, batches, pos, 1);
    }
  }

  lemma EvaluatesNext(model: Model, history: seq<Call>, batches: seq<seq<U32>>, pos: nat, i: nat)
    requires 0 < i <= |batches|
    ensures Evaluates(model, history, batches, pos, i) <==>
            Evaluates(model, history + [Prefill(batches[0], pos)], batches[1..], pos + |batches[0]|, i - 1)
  {
    PrefixCalls(history, batches, pos, i);
  }

  lemma NothingPrefilled(model: Model, history: seq<Call>, batches: seq<seq<U32>>, pos: nat, last: seq<F32>)
    ensures Evaluates(model, history, batches, pos, 0) <==> model.forward(history).Some?
    ensures batches == [] ==> PrefillLogits(model, history, batches, pos, last) == Some(last)
    ensures history + PrefillCalls([], pos) == history
  {
    assert batches[..0] == [] && history + PrefillCalls([], pos) == history;
  }

  // ---------------------------------------------------------------- when batching does not show

  /** Handing over two neighbouring batches as one changes no answer. */
  ghost predicate MergesAlike(
    model: Model, before: seq<Call>, a: seq<U32>, b: seq<U32>, pos: nat, after: seq<Call>)
  {
    model.forward(before + [Prefill(a, pos), Prefill(b, pos + |a|)] + after)
    == model.forward(before + [Prefill(a + b, pos)] + after)
  }

  /** The model gives the same logits, then and later, however neighbouring tokens are batched. */
  ghost predicate BatchInvariant(model: Model) {
    forall before: seq<Call>, a: seq<U32>, b: seq<U32>, pos: nat, after: seq<Call> ::
      a != [] && b != [] ==> MergesAlike(model, before, a, b, pos, after)
  }

  /** Any split of a batch gives the same answer as the whole batch. */
  ghost predicate SplitsAlike(
    model: Model, before: seq<Call>, batches: seq<seq<U32>>, pos: nat, after: seq<Call>)
  {
    model.forward(before + PrefillCalls(batches, pos) + after)
    == model.forward(before + [Prefill(Concat(batches), pos)] + after)
  }

  lemma OneBatchSplitsAlike(model: Model, before: seq<Call>, batches: seq<seq<U32>>, pos: nat, after: seq<Call>)
    requires |batches| == 1
    ensures SplitsAlike(model, before, batches, pos, after) && Concat(batches) == batches[0]
  {
    var a, rest := batches[0], batches[1..];
    assert Concat(rest) == [] && PrefillCalls(rest, pos + |a|) == [];
    assert Concat(batches) == a + [] && PrefillCalls(batches, pos) == [Prefill(a, pos)] + [];
    assert a + [] == a && [Prefill(a, pos)] + [] == [Prefill(a, pos)];
  }

  lemma InvariantMergesAlike(model: Model, before: seq<Call>, a: seq<U32>, b: seq<U32>, pos: nat, after: seq<Call>)
    requires BatchInvariant(model) && a != [] && b != []
    ensures MergesAlike(model, before, a, b, pos, after)
  {
    hide MergesAlike;
  }

  /** A batch in front of a split that shows as little as the merge with it. */
  lemma ConsSplitsAlike(
    model: Model, before: seq<Call>, a: seq<U32>, rest: seq<seq<U32>>, pos: nat, after: seq<Call>)
    requires SplitsAlike(model, before + [Prefill(a, pos)], rest, pos + |a|, after)
    requires MergesAlike(model, before, a, Concat(rest), pos, after)
    ensures SplitsAlike(model, before, [a] + rest, pos, after)
    ensures Concat([a] + rest) == a + Concat(rest)
  {
    var batches, call, b, next := [a] + rest, Prefill(a, pos), Concat(rest), pos + |a|;
    assert batches[1..] == rest;
    var tail := PrefillCalls(rest, next);
    hide PrefillCalls, Concat;
    calc {
      model.forward(before + PrefillCalls(batches, pos) + after);
      { ConsCalls(a, rest, pos); assert before + ([call] + tail) + after == (before + [call]) + tail + after; }
      model.forward((before + [call]) + tail + after);
      model.forward((before + [call]) + [Prefill(b, next)] + after);
      { assert (before + [call]) + [Prefill(b, next)] + after == before + [call, Prefill(b, next)] + after; }
      model.forward(before + [call, Prefill(b, next)] + after);
      model.forward(before + [Prefill(a + b, pos)] + after);
    }
    ConsCalls(a, rest, pos);
  }

  lemma ConsCalls(a: seq<U32>, rest: seq<seq<U32>>, pos: nat)
    ensures PrefillCalls([a] + rest, pos) == [Prefill(a, pos)] + PrefillCalls(rest, pos + |a|)
    ensures Concat([a] + rest) == a + Concat(rest)
  {
    assert ([a] + rest)[1..] == rest;
  }

  lemma {:induction false} InvariantSplitsAlike(
    model: Model, before: seq<Call>, batches: seq<seq<U32>>, pos: nat, after: seq<Call>)
    requires BatchInvariant(model) && batches != [] && NoneEmpty(batches)
    ensures SplitsAlike(model, before, batches, pos, after)
    ensures Concat(batches) != []
    decreases batches
  {
    hide BatchInvariant, SplitsAlike, MergesAlike, Concat;
    var a, rest := batches[0], batches[1..];
    assert a in batches;
    if rest == [] {
      OneBatchSplitsAlike(model, before, batches, pos, after);
    } else {
      assert batches == [a] + rest && forall x :: x in rest ==> x in batches;
      InvariantSplitsAlike(model, before + [Prefill(a, pos)], rest, pos + |a|, after);
      InvariantMergesAlike(model, before, a, Concat(rest), pos, after);
      ConsSplitsAlike(model, before, a, rest, pos, after);
    }
  }

  lemma TwoBatches(a: seq<U32>, b: seq<U32>, pos: nat)
    ensures Concat([a, b]) == a + b
    ensures PrefillCalls([a, b], pos) == [Prefill(a, pos), Prefill(b, pos + |a|)]
  {
    assert [a, b][1..] == [b] && [b][1..] == [];
    assert Concat([b]) == b + [] && PrefillCalls([b], pos + |a|) == [Prefill(b, pos + |a|)] + [];
  }

  /** A model ignores how tokens are batched, in every split of every batch anywhere in a run,
      exactly when it ignores each single boundary between two batches. */
  lemma BatchInvariantIff(model: Model)
    ensures BatchInvariant(model) <==>
            forall before: seq<Call>, batches: seq<seq<U32>>, pos: nat, after: seq<Call> ::
              batches != [] && NoneEmpty(batches) ==> SplitsAlike(model, before, batches, pos, after)
  {
    if BatchInvariant(model) {
      forall before: seq<Call>, batches: seq<seq<U32>>, pos: nat, after: seq<Call>
        | batches != [] && NoneEmpty(batches)
        ensures SplitsAlike(model, before, batches, pos, after)
      {
        InvariantSplitsAlike(model, before, batches, pos, after);
      }
    } else {
      var before: seq<Call>, a: seq<U32>, b: seq<U32>, pos: nat, after: seq<Call> :|
        a != [] && b != [] && !MergesAlike(model, before, a, b, pos, after);
      TwoBatches(a, b, pos);
      assert NoneEmpty([a, b]) && !SplitsAlike(model, before, [a, b], pos, after);
    }
  }

  /** For a batch-invariant model, and any prompt and chunk size, a chunked prefill returns
      what one pass over the whole prompt returns, unless some prefix of whole batches cannot
      be evaluated; then it fails. */
  lemma ChunkedPrefillIsOneShot(model: Model, prompt: seq<U32>, configured: nat)
    requires BatchInvariant(model) && prompt != []
    ensures var batches := Batches(prompt, ChunkLength(configured, |prompt|));
            var r := PrefillLogits(model, [], batches, 0, []);
            && (r.Some? <==> forall i :: 0 < i <= |batches| ==>
                               model.forward([Prefill(Concat(batches[..i]), 0)]).Some?)
            && (r.Some? ==> r == model.forward([Prefill(prompt, 0)]))
  {
    hide BatchInvariant, Batches;
    var batches := Batches(prompt, ChunkLength(configured, |prompt|));
    BatchesConcat(prompt, ChunkLength(configured, |prompt|));
    PrefillAnswersLastBatch(model, [], batches, 0, []);
    forall i | 0 < i <= |batches|
      ensures Evaluates(model, [], batches, 0, i) <==> model.forward([Prefill(Concat(batches[..i]), 0)]).Some?
    {
      OneShotAnswer(model, batches[..i]);
    }
    OneShotAnswer(model, batches);
  }

  lemma OneShotAnswer(model: Model, batches: seq<seq<U32>>)
    requires BatchInvariant(model) && batches != [] && NoneEmpty(batches)
    ensures model.forward([] + PrefillCalls(batches, 0)) == model.forward([Prefill(Concat(batches), 0)])
  {
    InvariantSplitsAlike(model, [], batches, 0, []);
    var calls, whole := PrefillCalls(batches, 0), [Prefill(Concat(batches), 0)];
    assert [] + calls + [] == [] + calls && [] + whole + [] == whole;
  }

  // ---------------------------------------------------------------- one step

  datatype StepRecord = StepRecord(
    step: nat, position: nat, file: string, argmaxTokenId: U32, maxLogit: F32, nArgmaxTies: nat,
    emittedTokenId: U32, forced: bool, isEog: bool)

  datatype DumpError =
    | EmptyPrompt | NoSteps | TooManyForced
    | PromptToken(index: nat) | ForcedToken(index: nat)
    | Forward | WrongLength(step: nat) | AllNonFinite(step: nat) | Sampling(step: nat)

  type Files = map<string, Bytes>

  /** A stateful sampler: a state and one draw over logits and recent tokens. */
  type Draw<!S> = (S, seq<F32>, seq<U32>) -> Option<(U32, S)>

  /** What stays fixed during a run; `chunk` is the configured prefill chunk size. */
  datatype Setup<!S> = Setup(model: Model, prompt: seq<U32>, chunk: nat, forced: seq<U32>, draw: Draw<S>)

  /** The batches the prompt is handed over in. */
  function PromptBatches<S>(w: Setup<S>): seq<seq<U32>>
    requires w.prompt != []
  {
    Batches(w.prompt, ChunkLength(w.chunk, |w.prompt|))
  }

  /** The decodes after a prompt of length `pos`. */
  function DecodeCalls(tokens: seq<U32>, pos: nat): (calls: seq<Call>)
    ensures |calls| == |tokens|
  {
    seq(|tokens|, i requires 0 <= i < |tokens| => Decode(tokens[i], pos + i))
  }

  /** The calls since the reset once `emitted` has been fed back. */
  function History<S>(w: Setup<S>, emitted: seq<U32>): seq<Call>
    requires w.prompt != []
  {
    PrefillCalls(PromptBatches(w), 0) + DecodeCalls(emitted, |w.prompt|)
  }

  /** What a run has produced after some steps. */
  datatype Dump<S> = Dump(records: seq<StepRecord>, emitted: seq<U32>, eogAt: int, sampler: S, files: Files)

  function StepFile(k: nat): string {
    "step" + Decimal(k) + ".logits.f32.bin"
  }

  /** The token a step emits: forced while the list lasts, sampled afterwards. */
  function Choose<S>(w: Setup<S>, s: S, logits: seq<F32>, emitted: seq<U32>): Option<(U32, S)> {
    var k := |emitted|;
    if k < |w.forced| then Some((w.forced[k], s)) else w.draw(s, logits, w.prompt + emitted)
  }

  function RecordOf<S>(w: Setup<S>, k: nat, best: (nat, F32, nat), token: U32): StepRecord
    requires w.prompt != []
  {
    StepRecord(k, |w.prompt| - 1 + k, StepFile(k), best.0 % TWO_32, best.1, best.2,
               token, k < |w.forced|, w.model.isEog(token))
  }

  /** One step: forward pass on everything so far, dump, argmax, choose, record. */
  function TakeStep<S>(w: Setup<S>, d: Dump<S>): Result<Dump<S>, DumpError>
    requires w.prompt != []
  {
    var k := |d.emitted|;
    match w.model.forward(History(w, d.emitted))
    case None => Err(Forward)
    case Some(logits) =>
      if |logits| != w.model.vocabSize then Err(WrongLength(k))
      else match ArgmaxOf(logits)
        case None => Err(AllNonFinite(k))
        case Some(best) =>
          match Choose(w, d.sampler, logits, d.emitted)
          case None => Err(Sampling(k))
          case Some((token, next)) =>
            Ok(Dump(d.records + [RecordOf(w, k, best, token)],
                    d.emitted + [token],
                    if w.model.isEog(token) && d.eogAt < 0 then k else d.eogAt,
                    next,
                    d.files[StepFile(k) := FileBytes(logits)]))
  }

  function TakeSteps<S>(w: Setup<S>, d: Dump<S>, n: nat): Result<Dump<S>, DumpError>
    requires w.prompt != []
  {
    if n == 0 then Ok(d)
    else match TakeSteps(w, d, n - 1)
      case Err(e) => Err(e)
      case Ok(before) => TakeStep(w, before)
  }

  lemma {:induction false} StepErrorsStick<S>(w: Setup<S>, d: Dump<S>, i: nat, j: nat)
    requires w.prompt != [] && i <= j && TakeSteps(w, d, i).Err?
    ensures TakeSteps(w, d, j) == TakeSteps(w, d, i)
  {
    hide TakeStep;
    if i < j {
      StepErrorsStick(w, d, i, j - 1);
    }
  }

  // ---------------------------------------------------------------- the whole run

  /** First token outside the vocabulary, at or behind `from`. */
  function FirstOutside(tokens: seq<U32>, vocabSize: nat, from: nat): Option<nat>
    requires from <= |tokens|
    decreases |tokens| - from
  {
    if from == |tokens| then None
    else if tokens[from] >= vocabSize then Some(from)
    else FirstOutside(tokens, vocabSize, from + 1)
  }

  function Start<S>(s: S, files: Files): Dump<S> {
    Dump([], [], -1, s, files)
  }

  /** The options a run refuses before it touches the engine, in the order they are checked. */
  function Refusal<S>(w: Setup<S>, maxSteps: nat): Option<DumpError> {
    if w.prompt == [] then Some(EmptyPrompt)
    else if maxSteps == 0 then Some(NoSteps)
    else if |w.forced| > maxSteps then Some(TooManyForced)
    else match FirstOutside(w.prompt, w.model.vocabSize, 0)
      case Some(i) => Some(PromptToken(i))
      case None =>
        match FirstOutside(w.forced, w.model.vocabSize, 0)
        case Some(i) => Some(ForcedToken(i))
        case None => None
  }

  /** `dump_steps`, as a function of the model, the options, the sampler and the directory. */
  function DumpRun<S>(w: Setup<S>, maxSteps: nat, s: S, files: Files): Result<Dump<S>, DumpError> {
    match Refusal(w, maxSteps)
    case Some(e) => Err(e)
    case None =>
      if PrefillLogits(w.model, [], PromptBatches(w), 0, []).None? then Err(Forward)
      else TakeSteps(w, Start(s, files), maxSteps)
  }

  class DumpDir {
    var files: Files

    constructor (files: Files)
      ensures this.files == files
    {
      this.files := files;
    }

    /** `write_logits_file` */
    method WriteLogitsFile(name: string, logits: seq<F32>)
      modifies this
      ensures files == old(files)[name := FileBytes(logits)]
    {
      var bytes := EncodeLogits(logits);
      files := files[name := bytes];
    }
  }

  /** Only files of steps below `n` may differ. */
  ghost predicate OnlyStepFiles(before: Files, after: Files, n: nat) {
    forall name :: (forall k :: 0 <= k < n ==> name != StepFile(k)) ==>
      && (name in before <==> name in after)
      && (name in before ==> before[name] == after[name])
  }

  method CheckVocabulary(tokens: seq<U32>, vocabSize: nat) returns (bad: Option<nat>)
    ensures bad == FirstOutside(tokens, vocabSize, 0)
  {
    for index := 0 to |tokens|
      invariant FirstOutside(tokens, vocabSize, 0) == FirstOutside(tokens, vocabSize, index)
    {
      if tokens[index] >= vocabSize {
        return Some(index);
      }
    }
    return None;
  }

  /** The checks at the top of `dump_steps`. */
  method CheckOptions<S>(w: Setup<S>, maxSteps: nat) returns (refusal: Option<DumpError>)
    ensures refusal == Refusal(w, maxSteps)
    ensures refusal.None? ==> w.prompt != [] && 0 < maxSteps && |w.forced| <= maxSteps
  {
    hide FirstOutside;
    if w.prompt == [] {
      return Some(EmptyPrompt);
    }
    if maxSteps == 0 {
      return Some(NoSteps);
    }
    if |w.forced| > maxSteps {
      return Some(TooManyForced);
    }
    var bad := CheckVocabulary(w.prompt, w.model.vocabSize);
    if bad.Some? {
      return Some(PromptToken(bad.value));
    }
    bad := CheckVocabulary(w.forced, w.model.vocabSize);
    return if bad.Some? then Some(ForcedToken(bad.value)) else None;
  }

  /** The body of the step loop up to the next decode. */
  method DumpOneStep<S>(
    ghost w: Setup<S>, ghost d: Dump<S>, vocabSize: nat, isEog: U32 -> bool, forced: seq<U32>, draw: Draw<S>,
    step: nat, position: nat, logits: seq<F32>, recent: seq<U32>, state: S, dir: DumpDir)
    returns (r: Result<(StepRecord, S), DumpError>)
    requires w.prompt != [] && w.model.vocabSize == vocabSize && w.model.isEog == isEog
    requires w.forced == forced && w.draw == draw
    requires step == |d.emitted| && position == |w.prompt| - 1 + step && recent == w.prompt + d.emitted
    requires state == d.sampler && dir.files == d.files && w.model.forward(History(w, d.emitted)) == Some(logits)
    modifies dir
    ensures match TakeStep(w, d)
            case Err(e) => r == Err(e)
            case Ok(next) =>
              && r.Ok? && r.value.1 == next.sampler && dir.files == next.files
              && next.records == d.records + [r.value.0]
              && next.emitted == d.emitted + [r.value.0.emittedTokenId]
              && next.eogAt == if r.value.0.isEog && d.eogAt < 0 then step else d.eogAt
    ensures dir.files == if |logits| != vocabSize then old(dir.files)
                         else old(dir.files)[StepFile(step) := FileBytes(logits)]
  {
    hide ArgmaxOf, StepFile, FileBytes;
    if |logits| != vocabSize {
      return Err(WrongLength(step));
    }
    var fileName := StepFile(step);
    dir.WriteLogitsFile(fileName, logits);
    var best := ArgmaxLowestIndex(logits);
    if best.None? {
      return Err(AllNonFinite(step));
    }
    var (index, maxLogit, ties) := best.value;
    var token: U32, next := 0, state;
    if step < |forced| {
      token := forced[step];
    } else {
      var sampled := draw(state, logits, recent);
      if sampled.None? {
        return Err(Sampling(step));
      }
      token, next := sampled.value.0, sampled.value.1;
    }
    var rec := StepRecord(
      step, position, fileName, index % TWO_32, maxLogit, ties, token, step < |forced|, isEog(token));
    return Ok((rec, next));
  }

  lemma OnlyStepFilesExtends(before: Files, middle: Files, after: Files, k: nat, bytes: Bytes)
    requires OnlyStepFiles(before, middle, k)
    requires after == middle || after == middle[StepFile(k) := bytes]
    ensures OnlyStepFiles(before, after, k + 1)
  {
    hide StepFile;
  }

  /** `dump_steps`. On success the engine has been reset once, prefilled in batches, and then
      called once per emitted token except the last; on failure only step files of this run
      may have been touched. */
  method DumpSteps<S>(
    engine: Engine, configuredChunk: nat, prompt: seq<U32>, dir: DumpDir, maxSteps: nat, forced: seq<U32>,
    draw: Draw<S>, sampler: S)
    returns (r: Result<(seq<StepRecord>, seq<U32>, int), DumpError>)
    modifies engine, dir
    ensures var w := Setup(engine.model, prompt, configuredChunk, forced, draw);
            match DumpRun(w, maxSteps, sampler, old(dir.files))
            case Err(e) => r == Err(e)
            case Ok(d) =>
              && r == Ok((d.records, d.emitted, d.eogAt))
              && dir.files == d.files
              && |d.emitted| == maxSteps
              && engine.resets == old(engine.resets) + 1
              && engine.history == History(w, d.emitted[..maxSteps - 1])
              && engine.context == prompt + d.emitted[..maxSteps - 1]
    ensures OnlyStepFiles(old(dir.files), dir.files, maxSteps)
  {
    hide OnlyStepFiles, Refusal, StepFile, FileBytes, Batches, PrefillCalls, PrefillLogits, TakeStep, TakeSteps,
      History;
    assert OnlyStepFiles(dir.files, dir.files, maxSteps) && OnlyStepFiles(dir.files, dir.files, 0) by {
      NoFilesChanged(dir.files, maxSteps);
      NoFilesChanged(dir.files, 0);
    }
    var w := Setup(engine.model, prompt, configuredChunk, forced, draw);
    var refusal := CheckOptions(w, maxSteps);
    if refusal.Some? {
      return Err(refusal.value);
    }
    ghost var d0 := Start(sampler, dir.files);
    NotYetStepped(w, d0);

    var state := sampler;
    var steps: seq<StepRecord> := [];
    var emitted: seq<U32> := [];
    var recent := prompt;
    var eogAtStep := -1;

    engine.ResetContext();
    var prefilled := PrefillPrompt(engine, configuredChunk, prompt);
    if prefilled.None? {
      return Err(Forward);
    }
    var logits := prefilled.value;
    PrefillIsForward(w);
    HistoryGrows(w, [], 0);
    var position := |prompt| - 1;
    assert prompt + emitted == prompt;

    for step := 0 to maxSteps
      invariant engine.model == w.model && engine.resets == old(engine.resets) + 1
      invariant TakeSteps(w, d0, step) == Ok(Dump(steps, emitted, eogAtStep, state, dir.files))
      invariant |emitted| == step && recent == prompt + emitted
      invariant OnlyStepFiles(old(dir.files), dir.files, step)
      invariant step == maxSteps ==>
                  && engine.history == History(w, emitted[..step - 1])
                  && engine.context == prompt + emitted[..step - 1]
      invariant step < maxSteps ==>
                  && position == |prompt| - 1 + step
                  && engine.context == recent && engine.history == History(w, emitted)
                  && engine.model.forward(engine.history) == Some(logits)
    {
      ghost var d, filesBefore := Dump(steps, emitted, eogAtStep, state, dir.files), dir.files;
      NextStep(w, d0, step, d);
      var taken := DumpOneStep(
        w, d, engine.model.vocabSize, engine.model.isEog, forced, draw, step, position, logits, recent, state, dir);
      OnlyStepFilesExtends(old(dir.files), filesBefore, dir.files, step, FileBytes(logits));
      if taken.Err? {
        StepErrorsStick(w, d0, step + 1, maxSteps);
        OnlyStepFilesMonotone(old(dir.files), dir.files, step + 1, maxSteps);
        return Err(taken.error);
      }
      var token := taken.value.0.emittedTokenId;
      if taken.value.0.isEog && eogAtStep < 0 {
        eogAtStep := step;
      }
      state := taken.value.1;
      steps := steps + [taken.value.0];
      emitted := emitted + [token];
      recent := recent + [token];
      assert recent == prompt + emitted && emitted[..step] == d.emitted;
      if step + 1 == maxSteps {
        continue;
      }
      position := position + 1;
      HistoryGrows(w, d.emitted, token);
      var decoded := engine.ForwardDecode(token, position);
      if decoded.None? {
        DecodeFailureEndsRun(w, d0, step + 1);
        StepErrorsStick(w, d0, step + 2, maxSteps);
        OnlyStepFilesMonotone(old(dir.files), dir.files, step + 1, maxSteps);
        return Err(Forward);
      }
      logits := decoded.value;
    }
    return Ok((steps, emitted, eogAtStep));
  }

  /** Feeding a token back is one decode at the next position. */
  lemma HistoryGrows<S>(w: Setup<S>, emitted: seq<U32>, token: U32)
    requires w.prompt != []
    ensures History(w, emitted + [token]) == History(w, emitted) + [Decode(token, |w.prompt| + |emitted|)]
    ensures History(w, []) == PrefillCalls(PromptBatches(w), 0)
  {
    var prefill, n := PrefillCalls(PromptBatches(w), 0), |w.prompt|;
    assert DecodeCalls(emitted + [token], n) == DecodeCalls(emitted, n) + [Decode(token, n + |emitted|)];
    assert prefill + DecodeCalls([], n) == prefill;
  }

  lemma NotYetStepped<S>(w: Setup<S>, d: Dump<S>)
    requires w.prompt != []
    ensures TakeSteps(w, d, 0) == Ok(d)
  {
  }

  lemma NextStep<S>(w: Setup<S>, d0: Dump<S>, n: nat, d: Dump<S>)
    requires w.prompt != [] && TakeSteps(w, d0, n) == Ok(d)
    ensures TakeSteps(w, d0, n + 1) == TakeStep(w, d)
  {
  }

  lemma DecodeFailureEndsRun<S>(w: Setup<S>, d0: Dump<S>, k: nat)
    requires w.prompt != [] && TakeSteps(w, d0, k).Ok?
    requires w.model.forward(History(w, TakeSteps(w, d0, k).value.emitted)).None?
    ensures TakeSteps(w, d0, k + 1) == Err(Forward)
  {
    hide History;
  }

  lemma NoFilesChanged(files: Files, n: nat)
    ensures OnlyStepFiles(files, files, n)
  {
  }

  lemma OnlyStepFilesMonotone(before: Files, after: Files, k: nat, n: nat)
    requires OnlyStepFiles(before, after, k) && k <= n
    ensures OnlyStepFiles(before, after, n)
  {
    hide StepFile;
  }

  /** The first logits are the answer to the whole prefill. */
  lemma PrefillIsForward<S>(w: Setup<S>)
    requires w.prompt != []
    ensures var r := PrefillLogits(w.model, [], PromptBatches(w), 0, []);
            r.Some? ==> r == w.model.forward(History(w, []))
  {
    hide Batches;
    BatchesConcat(w.prompt, ChunkLength(w.chunk, |w.prompt|));
    PrefillAnswersLastBatch(w.model, [], PromptBatches(w), 0, []);
    HistoryGrows(w, [], 0);
    assert [] + PrefillCalls(PromptBatches(w), 0) == History(w, []);
  }

  // ---------------------------------------------------------------- what a run means

  lemma StepFileInjective(a: nat, b: nat)
    requires StepFile(a) == StepFile(b)
    ensures a == b
  {
    var tail := ".logits.f32.bin";
    var x, y := Decimal(a), Decimal(b);
    assert StepFile(a)[4..|StepFile(a)| - |tail|] == x;
    assert StepFile(b)[4..|StepFile(b)| - |tail|] == y;
    DecimalInjective(a, b);
  }

  /** Step `k` of a run: right position and file, the logits the model gives after the
      batched prompt and the first `k` emitted tokens, their argmax, and the token fed on. */
  ghost predicate StepMeans<S>(w: Setup<S>, d: Dump<S>, k: nat)
    requires k < |d.emitted| == |d.records| && w.prompt != []
  {
    var rec, answer := d.records[k], w.model.forward(History(w, d.emitted[..k]));
    && answer.Some?
    && var logits := answer.value;
    && |logits| == w.model.vocabSize
    && ArgmaxOf(logits).Some?
    && (rec.argmaxTokenId as nat, rec.maxLogit, rec.nArgmaxTies) ==
       (ArgmaxOf(logits).value.0 % TWO_32, ArgmaxOf(logits).value.1, ArgmaxOf(logits).value.2)
    && rec.step == k && rec.position == |w.prompt| - 1 + k && rec.file == StepFile(k)
    && rec.emittedTokenId == d.emitted[k] && rec.isEog == w.model.isEog(d.emitted[k])
    && (rec.forced <==> k < |w.forced|)
    && StepFile(k) in d.files && d.files[StepFile(k)] == FileBytes(logits)
    && (k < |w.forced| ==> d.emitted[k] == w.forced[k])
  }

  ghost predicate EogRecorded<S>(w: Setup<S>, d: Dump<S>) {
    if d.eogAt < 0 then d.eogAt == -1 && forall k :: 0 <= k < |d.emitted| ==> !w.model.isEog(d.emitted[k])
    else d.eogAt < |d.emitted| && w.model.isEog(d.emitted[d.eogAt])
         && forall k :: 0 <= k < d.eogAt ==> !w.model.isEog(d.emitted[k])
  }

  /** The whole-run meaning of a dump of `n` steps: exactly `n` records and tokens, every step
      as `StepMeans` says (so no file overwrites another), the first end-of-generation index
      or -1, and no other file of the directory touched. */
  lemma {:induction false} WholeRunMeaning<S>(w: Setup<S>, s: S, files: Files, n: nat)
    requires w.prompt != [] && TakeSteps(w, Start(s, files), n).Ok?
    ensures var d := TakeSteps(w, Start(s, files), n).value;
            && |d.records| == |d.emitted| == n
            && (forall k :: 0 <= k < n ==> StepMeans(w, d, k))
            && EogRecorded(w, d)
            && OnlyStepFiles(files, d.files, n)
  {
    hide History, TakeStep, StepMeans, EogRecorded, OnlyStepFiles;
    var d := TakeSteps(w, Start(s, files), n).value;
    StepsCount(w, s, files, n);
    if n == 0 {
      NothingRecorded(w, s, files);
    } else {
      var before := TakeSteps(w, Start(s, files), n - 1).value;
      WholeRunMeaning(w, s, files, n - 1);
      forall k | 0 <= k < n
        ensures StepMeans(w, d, k)
      {
        if k < n - 1 {
          StepKeepsEarlierStep(w, before, k);
        } else {
          NewStepMeans(w, before);
        }
      }
      StepRecordsEog(w, before);
      StepTouchesItsFile(w, before);
      OnlyStepFilesExtends(
        files, before.files, d.files, n - 1, FileBytes(w.model.forward(History(w, before.emitted)).value));
    }
  }

  lemma NothingRecorded<S>(w: Setup<S>, s: S, files: Files)
    ensures EogRecorded(w, Start(s, files)) && OnlyStepFiles(files, files, 0)
  {
  }

  lemma NewStepMeans<S>(w: Setup<S>, before: Dump<S>)
    requires w.prompt != [] && TakeStep(w, before).Ok? && |before.records| == |before.emitted|
    ensures StepMeans(w, TakeStep(w, before).value, |before.emitted|)
  {
    hide History, ArgmaxOf, StepFile, FileBytes;
    var d := TakeStep(w, before).value;
    assert d.emitted[..|before.emitted|] == before.emitted;
  }

  lemma StepKeepsEarlierStep<S>(w: Setup<S>, before: Dump<S>, k: nat)
    requires w.prompt != [] && TakeStep(w, before).Ok? && k < |before.records| == |before.emitted|
    requires StepMeans(w, before, k)
    ensures |TakeStep(w, before).value.records| == |TakeStep(w, before).value.emitted|
    ensures StepMeans(w, TakeStep(w, before).value, k)
  {
    hide History, ArgmaxOf, StepFile, FileBytes, RecordOf;
    var d := TakeStep(w, before).value;
    assert d.emitted[..k] == before.emitted[..k];
    assert StepFile(k) != StepFile(|before.emitted|) by {
      if StepFile(k) == StepFile(|before.emitted|) {
        StepFileInjective(k, |before.emitted|);
      }
    }
  }

  lemma StepRecordsEog<S>(w: Setup<S>, before: Dump<S>)
    requires w.prompt != [] && TakeStep(w, before).Ok? && EogRecorded(w, before)
    ensures EogRecorded(w, TakeStep(w, before).value)
  {
    hide History, ArgmaxOf, StepFile, FileBytes, RecordOf;
  }

  lemma StepTouchesItsFile<S>(w: Setup<S>, before: Dump<S>)
    requires w.prompt != [] && TakeStep(w, before).Ok?
    ensures w.model.forward(History(w, before.emitted)).Some?
    ensures TakeStep(w, before).value.files ==
            before.files[
              StepFile(|before.emitted|) := FileBytes(w.model.forward(History(w, before.emitted)).value)]
  {
    hide History, ArgmaxOf, StepFile, FileBytes, RecordOf;
  }

  // ---------------------------------------------------------------- two runs

  /** The two runs hand the prompt over alike, or it does not matter. */
  ghost predicate SameBatching<S, R>(w1: Setup<S>, w2: Setup<R>)
    requires w1.prompt != [] && w2.prompt != []
  {
    PromptBatches(w1) == PromptBatches(w2) || BatchInvariant(w1.model)
  }

  /** Then the model answers alike wherever the two have emitted the same tokens. */
  lemma SameHistorySameAnswer<S, R>(w1: Setup<S>, w2: Setup<R>, emitted: seq<U32>)
    requires w1.prompt == w2.prompt != [] && w1.model == w2.model && SameBatching(w1, w2)
    ensures w1.model.forward(History(w1, emitted)) == w2.model.forward(History(w2, emitted))
  {
    hide BatchInvariant, Batches, PrefillCalls;
    if PromptBatches(w1) != PromptBatches(w2) {
      OneBatchAnswer(w1, emitted);
      OneBatchAnswer(w2, emitted);
    }
  }

  lemma OneBatchAnswer<S>(w: Setup<S>, emitted: seq<U32>)
    requires w.prompt != [] && BatchInvariant(w.model)
    ensures w.model.forward(History(w, emitted))
         == w.model.forward([Prefill(w.prompt, 0)] + DecodeCalls(emitted, |w.prompt|))
  {
    hide BatchInvariant, Batches, PrefillCalls;
    var decodes := DecodeCalls(emitted, |w.prompt|);
    BatchesConcat(w.prompt, ChunkLength(w.chunk, |w.prompt|));
    InvariantSplitsAlike(w.model, [], PromptBatches(w), 0, decodes);
    assert [] + PrefillCalls(PromptBatches(w), 0) + decodes == History(w, emitted);
    assert [] + [Prefill(w.prompt, 0)] + decodes == [Prefill(w.prompt, 0)] + decodes;
  }

  /** For any two runs, of whatever models, chunk sizes, samplers and forced lists: where both
      have emitted the same first `k` tokens, their files of step `k` are byte-identical
      exactly when the two models give the same logits for what they were handed so far. */
  lemma StepFilesAgreeIff<S, R>(
    w1: Setup<S>, s1: S, files1: Files, n1: nat, w2: Setup<R>, s2: R, files2: Files, n2: nat, k: nat)
    requires w1.prompt != [] && w2.prompt != [] && k < n1 && k < n2
    requires TakeSteps(w1, Start(s1, files1), n1).Ok? && TakeSteps(w2, Start(s2, files2), n2).Ok?
    ensures var d1, d2 := TakeSteps(w1, Start(s1, files1), n1).value, TakeSteps(w2, Start(s2, files2), n2).value;
            && |d1.emitted| == n1 && |d2.emitted| == n2
            && StepFile(k) in d1.files && StepFile(k) in d2.files
            && (d1.files[StepFile(k)] == d2.files[StepFile(k)] <==>
                w1.model.forward(History(w1, d1.emitted[..k])) == w2.model.forward(History(w2, d2.emitted[..k])))
  {
    hide History, ArgmaxOf, StepFile, FileBytes, TakeSteps;
    WholeRunMeaning(w1, s1, files1, n1);
    WholeRunMeaning(w2, s2, files2, n2);
    var d1, d2 := TakeSteps(w1, Start(s1, files1), n1).value, TakeSteps(w2, Start(s2, files2), n2).value;
    assert StepMeans(w1, d1, k) && StepMeans(w2, d2, k);
    FileBytesInjective(
      w1.model.forward(History(w1, d1.emitted[..k])).value, w2.model.forward(History(w2, d2.emitted[..k])).value);
  }

  /** Agreement of runs: two runs of the same model on the same prompt, handed over in the same
      batches unless the model ignores them, with any samplers and any forced lists, whose
      first `m` emitted tokens agree have byte-identical files and the same argmax on steps 0
      to `m` inclusive. */
  lemma AgreeingRunsShareSteps<S, R>(
    w1: Setup<S>, s1: S, files1: Files, n1: nat, w2: Setup<R>, s2: R, files2: Files, n2: nat, m: nat, k: nat)
    requires w1.prompt == w2.prompt != [] && w1.model == w2.model && SameBatching(w1, w2)
    requires TakeSteps(w1, Start(s1, files1), n1).Ok? && TakeSteps(w2, Start(s2, files2), n2).Ok?
    requires k <= m < n1 && m < n2
    requires var d1, d2 := TakeSteps(w1, Start(s1, files1), n1).value, TakeSteps(w2, Start(s2, files2), n2).value;
             |d1.emitted| >= m && |d2.emitted| >= m && d1.emitted[..m] == d2.emitted[..m]
    ensures var d1, d2 := TakeSteps(w1, Start(s1, files1), n1).value, TakeSteps(w2, Start(s2, files2), n2).value;
            && StepFile(k) in d1.files && StepFile(k) in d2.files
            && d1.files[StepFile(k)] == d2.files[StepFile(k)]
            && |d1.records| == n1 && |d2.records| == n2
            && d1.records[k].argmaxTokenId == d2.records[k].argmaxTokenId
            && d1.records[k].position == d2.records[k].position
  {
    hide History, ArgmaxOf, StepFile, FileBytes, TakeSteps, SameBatching;
    WholeRunMeaning(w1, s1, files1, n1);
    WholeRunMeaning(w2, s2, files2, n2);
    var d1, d2 := TakeSteps(w1, Start(s1, files1), n1).value, TakeSteps(w2, Start(s2, files2), n2).value;
    assert StepMeans(w1, d1, k) && StepMeans(w2, d2, k);
    assert d1.emitted[..k] == d1.emitted[..m][..k] == d2.emitted[..m][..k] == d2.emitted[..k];
    SameHistorySameAnswer(w1, w2, d1.emitted[..k]);
  }

  /** In particular two runs forced along the same first `m` tokens agree on steps 0 to `m`,
      whatever their samplers do. */
  lemma SharedForcingSharesSteps<S, R>(
    w1: Setup<S>, s1: S, files1: Files, n1: nat, w2: Setup<R>, s2: R, files2: Files, n2: nat, m: nat, k: nat)
    requires w1.prompt == w2.prompt != [] && w1.model == w2.model && SameBatching(w1, w2)
    requires TakeSteps(w1, Start(s1, files1), n1).Ok? && TakeSteps(w2, Start(s2, files2), n2).Ok?
    requires |w1.forced| >= m && |w2.forced| >= m && w1.forced[..m] == w2.forced[..m]
    requires k <= m < n1 && m < n2
    ensures var d1, d2 := TakeSteps(w1, Start(s1, files1), n1).value, TakeSteps(w2, Start(s2, files2), n2).value;
            && StepFile(k) in d1.files && StepFile(k) in d2.files
            && d1.files[StepFile(k)] == d2.files[StepFile(k)]
  {
    hide TakeSteps, StepFile, SameBatching;
    ForcedPrefix(w1, s1, files1, n1, m);
    ForcedPrefix(w2, s2, files2, n2, m);
    AgreeingRunsShareSteps(w1, s1, files1, n1, w2, s2, files2, n2, m, k);
  }

  lemma ForcedPrefix<S>(w: Setup<S>, s: S, files: Files, n: nat, m: nat)
    requires w.prompt != [] && TakeSteps(w, Start(s, files), n).Ok?
    requires m <= n && m <= |w.forced|
    ensures var d := TakeSteps(w, Start(s, files), n).value;
            |d.emitted| == n && d.emitted[..m] == w.forced[..m]
  {
    hide History, ArgmaxOf, StepFile, RecordOf, FileBytes, TakeSteps;
    WholeRunMeaning(w, s, files, n);
    var d := TakeSteps(w, Start(s, files), n).value;
    forall k | 0 <= k < m
      ensures d.emitted[k] == w.forced[k]
    {
      assert StepMeans(w, d, k);
    }
  }

  /** The same records with every step marked as forced. */
  function AllForced(records: seq<StepRecord>): (r: seq<StepRecord>)
    ensures |r| == |records|
  {
    seq(|records|, i requires 0 <= i < |records| => records[i].(forced := true))
  }

  /** A step forced to the token it would have chosen anyway. */
  lemma ReplayStep<S, R>(w: Setup<S>, before: Dump<S>, replay: Setup<R>, t: R)
    requires w.prompt == replay.prompt != [] && w.model == replay.model && SameBatching(w, replay)
    requires TakeStep(w, before).Ok? && |before.records| == |before.emitted|
    requires TakeStep(w, before).value.emitted <= replay.forced
    ensures var d := TakeStep(w, before).value;
            TakeStep(replay, Dump(AllForced(before.records), before.emitted, before.eogAt, t, before.files))
            == Ok(Dump(AllForced(d.records), d.emitted, d.eogAt, t, d.files))
  {
    hide History, ArgmaxOf, StepFile, FileBytes;
    SameHistorySameAnswer(w, replay, before.emitted);
    var d, k := TakeStep(w, before).value, |before.emitted|;
    assert d.emitted[k] == replay.forced[k];
    assert AllForced(d.records) == AllForced(before.records) + [d.records[k].(forced := true)];
  }

  lemma {:induction false} ReplaySteps<S, R>(
    w: Setup<S>, s: S, replay: Setup<R>, t: R, files: Files, n: nat)
    requires w.prompt == replay.prompt != [] && w.model == replay.model && SameBatching(w, replay)
    requires TakeSteps(w, Start(s, files), n).Ok?
    requires TakeSteps(w, Start(s, files), n).value.emitted <= replay.forced
    ensures var d := TakeSteps(w, Start(s, files), n).value;
            TakeSteps(replay, Start(t, files), n) == Ok(Dump(AllForced(d.records), d.emitted, d.eogAt, t, d.files))
  {
    hide TakeStep, SameBatching;
    if n > 0 {
      var before := TakeSteps(w, Start(s, files), n - 1).value;
      StepEmits(w, before);
      ReplaySteps(w, s, replay, t, files, n - 1);
      StepsCount(w, s, files, n - 1);
      ReplayStep(w, before, replay, t);
    }
  }

  lemma StepEmits<S>(w: Setup<S>, d: Dump<S>)
    requires w.prompt != [] && TakeStep(w, d).Ok?
    ensures var next := TakeStep(w, d).value;
            d.emitted <= next.emitted && |next.emitted| == |d.emitted| + 1 && |next.records| == |d.records| + 1
  {
    hide History, ArgmaxOf, StepFile, FileBytes;
  }

  lemma {:induction false} StepsCount<S>(w: Setup<S>, s: S, files: Files, n: nat)
    requires w.prompt != [] && TakeSteps(w, Start(s, files), n).Ok?
    ensures var d := TakeSteps(w, Start(s, files), n).value;
            |d.records| == |d.emitted| == n
  {
    hide TakeStep;
    if n > 0 {
      StepsCount(w, s, files, n - 1);
      StepEmits(w, TakeSteps(w, Start(s, files), n - 1).value);
    }
  }

  lemma {:induction false} FirstOutsideIff(tokens: seq<U32>, vocabSize: nat, from: nat)
    requires from <= |tokens|
    ensures FirstOutside(tokens, vocabSize, from).None? <==> forall i :: from <= i < |tokens| ==> tokens[i] < vocabSize
    decreases |tokens| - from
  {
    if from < |tokens| {
      FirstOutsideIff(tokens, vocabSize, from + 1);
    }
  }

  /** Replay, whatever the sampler does: feeding a successful run's emitted tokens back as
      forced tokens, with any sampler, reproduces every step file, record, token and the
      end-of-generation index exactly when the run only emitted tokens of the vocabulary,
      which is all that a forced list is checked for. */
  lemma ReplayReproduces<S, R>(
    w: Setup<S>, s: S, draw2: Draw<R>, t: R, files: Files, maxSteps: nat)
    requires DumpRun(w, maxSteps, s, files).Ok?
    ensures var d := DumpRun(w, maxSteps, s, files).value;
            var again := DumpRun(Setup(w.model, w.prompt, w.chunk, d.emitted, draw2), maxSteps, t, files);
            if forall i :: 0 <= i < |d.emitted| ==> d.emitted[i] < w.model.vocabSize
            then again == Ok(Dump(AllForced(d.records), d.emitted, d.eogAt, t, d.files))
            else again.Err? && again.error.ForcedToken?
  {
    hide TakeSteps, PrefillLogits, Batches, BatchInvariant;
    var d := DumpRun(w, maxSteps, s, files).value;
    var replay := Setup(w.model, w.prompt, w.chunk, d.emitted, draw2);
    assert PromptBatches(w) == PromptBatches(replay);
    WholeRunMeaning(w, s, files, maxSteps);
    ReplaySteps(w, s, replay, t, files, maxSteps);
    FirstOutsideIff(d.emitted, w.model.vocabSize, 0);
  }

  /** The sampler picks one of the logits it is shown, by index. */
  ghost predicate PicksIndices<S(!new)>(draw: Draw<S>) {
    forall s, logits, recent :: draw(s, logits, recent).Some? ==> draw(s, logits, recent).value.0 < |logits|
  }

  lemma StepStaysInside<S(!new)>(w: Setup<S>, d: Dump<S>)
    requires w.prompt != [] && TakeStep(w, d).Ok? && PicksIndices(w.draw)
    requires forall i :: 0 <= i < |w.forced| ==> w.forced[i] < w.model.vocabSize
    ensures var emitted := TakeStep(w, d).value.emitted;
            |emitted| == |d.emitted| + 1 && emitted[..|d.emitted|] == d.emitted
            && emitted[|d.emitted|] < w.model.vocabSize
  {
    hide History, ArgmaxOf, StepFile, FileBytes, RecordOf;
  }

  lemma {:induction false} StepsStayInside<S(!new)>(w: Setup<S>, s: S, files: Files, n: nat)
    requires w.prompt != [] && TakeSteps(w, Start(s, files), n).Ok? && PicksIndices(w.draw)
    requires forall i :: 0 <= i < |w.forced| ==> w.forced[i] < w.model.vocabSize
    ensures var emitted := TakeSteps(w, Start(s, files), n).value.emitted;
            forall i :: 0 <= i < |emitted| ==> emitted[i] < w.model.vocabSize
  {
    hide TakeStep, PicksIndices;
    if n > 0 {
      var before := TakeSteps(w, Start(s, files), n - 1).value;
      StepsStayInside(w, s, files, n - 1);
      StepStaysInside(w, before);
      var emitted := TakeSteps(w, Start(s, files), n).value.emitted;
      forall i | 0 <= i < |emitted|
        ensures emitted[i] < w.model.vocabSize
      {
        if i < |before.emitted| {
          assert emitted[i] == emitted[..|before.emitted|][i];
        }
      }
    }
  }

  /** Replay of real runs: a sampler that returns indices of the logits can only emit tokens of
      the vocabulary, as a step is refused unless there is one logit per token. Every
      successful run is therefore reproduced from its emitted tokens. */
  lemma ReplayAlwaysReproduces<S(!new), R>(
    w: Setup<S>, s: S, draw2: Draw<R>, t: R, files: Files, maxSteps: nat)
    requires DumpRun(w, maxSteps, s, files).Ok? && PicksIndices(w.draw)
    ensures var d := DumpRun(w, maxSteps, s, files).value;
            DumpRun(Setup(w.model, w.prompt, w.chunk, d.emitted, draw2), maxSteps, t, files)
            == Ok(Dump(AllForced(d.records), d.emitted, d.eogAt, t, d.files))
  {
    hide TakeSteps, PrefillLogits, PicksIndices;
    FirstOutsideIff(w.forced, w.model.vocabSize, 0);
    StepsStayInside(w, s, files, maxSteps);
    ReplayReproduces(w, s, draw2, t, files, maxSteps);
  }

  // ---------------------------------------------------------------- chunk sizes

  /** The model answers the two batchings of the prompt alike after every part of `emitted`
      that is shorter than `n`. */
  ghost predicate SameAnswersAlong<S>(w: Setup<S>, other: nat, emitted: seq<U32>, n: nat)
    requires w.prompt != [] && n <= |emitted|
  {
    forall k :: 0 <= k < n ==> SameAnswerAt(w, other, emitted[..k])
  }

  predicate SameAnswerAt<S>(w: Setup<S>, other: nat, emitted: seq<U32>)
    requires w.prompt != []
  {
    w.model.forward(History(w, emitted)) == w.model.forward(History(w.(chunk := other), emitted))
  }

  lemma SameAnswerSameStep<S>(w: Setup<S>, other: nat, d: Dump<S>)
    requires w.prompt != [] && SameAnswerAt(w, other, d.emitted)
    ensures TakeStep(w, d) == TakeStep(w.(chunk := other), d)
  {
    hide History, ArgmaxOf, StepFile, FileBytes;
  }

  lemma {:induction false} StepsFollow<S>(w: Setup<S>, other: nat, s: S, files: Files, n: nat)
    requires w.prompt != [] && TakeSteps(w, Start(s, files), n).Ok?
    requires |TakeSteps(w, Start(s, files), n).value.emitted| == n
    requires SameAnswersAlong(w, other, TakeSteps(w, Start(s, files), n).value.emitted, n)
    ensures TakeSteps(w.(chunk := other), Start(s, files), n) == TakeSteps(w, Start(s, files), n)
  {
    hide TakeStep, SameAnswerAt;
    if n > 0 {
      var before := TakeSteps(w, Start(s, files), n - 1).value;
      var emitted := TakeSteps(w, Start(s, files), n).value.emitted;
      StepsCount(w, s, files, n - 1);
      StepEmits(w, before);
      assert emitted[..n - 1] == before.emitted;
      assert forall k :: 0 <= k < n - 1 ==> before.emitted[..k] == emitted[..k];
      StepsFollow(w, other, s, files, n - 1);
      SameAnswerSameStep(w, other, before);
    }
  }

  /** The step loops of two chunk sizes, once both prefills are through. */
  lemma ChunkedStepsIff<S>(w: Setup<S>, other: nat, s: S, files: Files, n: nat)
    requires w.prompt != [] && TakeSteps(w, Start(s, files), n).Ok?
    ensures |TakeSteps(w, Start(s, files), n).value.emitted| == n
    ensures TakeSteps(w.(chunk := other), Start(s, files), n) == TakeSteps(w, Start(s, files), n) <==>
            SameAnswersAlong(w, other, TakeSteps(w, Start(s, files), n).value.emitted, n)
  {
    hide TakeSteps, History, StepFile;
    StepsCount(w, s, files, n);
    var w2, d := w.(chunk := other), TakeSteps(w, Start(s, files), n).value;
    if SameAnswersAlong(w, other, d.emitted, n) {
      StepsFollow(w, other, s, files, n);
    }
    if TakeSteps(w2, Start(s, files), n) == TakeSteps(w, Start(s, files), n) {
      forall k | 0 <= k < n
        ensures SameAnswerAt(w, other, d.emitted[..k])
      {
        StepFilesAgreeIff(w, s, files, n, w2, s, files, n, k);
      }
    }
  }

  /** The prompt can be handed over batch by batch. */
  ghost predicate PrefillEvaluates<S>(w: Setup<S>)
    requires w.prompt != []
  {
    forall i :: 0 < i <= |PromptBatches(w)| ==> Evaluates(w.model, [], PromptBatches(w), 0, i)
  }

  lemma PrefillEvaluatesIff<S>(w: Setup<S>)
    requires w.prompt != []
    ensures PrefillLogits(w.model, [], PromptBatches(w), 0, []).Some? <==> PrefillEvaluates(w)
  {
    hide Batches, Evaluates;
    BatchesConcat(w.prompt, ChunkLength(w.chunk, |w.prompt|));
    PrefillAnswersLastBatch(w.model, [], PromptBatches(w), 0, []);
  }

  /** For every model: a whole run with another chunk size has the very same outcome as a
      successful run exactly when every boundary of its own batching can be evaluated and the
      model answers the two batchings alike at every step of that run. */
  lemma ChunkSizeShowsIff<S>(w: Setup<S>, other: nat, s: S, files: Files, maxSteps: nat)
    requires DumpRun(w, maxSteps, s, files).Ok?
    ensures w.prompt != [] && |DumpRun(w, maxSteps, s, files).value.emitted| == maxSteps
    ensures DumpRun(w.(chunk := other), maxSteps, s, files) == DumpRun(w, maxSteps, s, files) <==>
            && PrefillEvaluates(w.(chunk := other))
            && SameAnswersAlong(w, other, DumpRun(w, maxSteps, s, files).value.emitted, maxSteps)
  {
    hide PrefillLogits, PrefillEvaluates, TakeSteps, SameAnswersAlong, PromptBatches;
    PrefillEvaluatesIff(w.(chunk := other));
    ChunkedStepsIff(w, other, s, files, maxSteps);
  }

  lemma StepIgnoresChunk<S>(w: Setup<S>, other: nat, d: Dump<S>)
    requires w.prompt != [] && SameBatching(w, w.(chunk := other))
    ensures TakeStep(w, d) == TakeStep(w.(chunk := other), d)
  {
    SameHistorySameAnswer(w, w.(chunk := other), d.emitted);
    SameAnswerSameStep(w, other, d);
  }

  lemma {:induction false} StepsIgnoreChunk<S>(w: Setup<S>, other: nat, d: Dump<S>, n: nat)
    requires w.prompt != [] && SameBatching(w, w.(chunk := other))
    ensures TakeSteps(w, d, n) == TakeSteps(w.(chunk := other), d, n)
  {
    hide SameBatching, TakeStep;
    if n > 0 {
      StepsIgnoreChunk(w, other, d, n - 1);
      var before := TakeSteps(w, d, n - 1);
      if before.Ok? {
        StepIgnoresChunk(w, other, before.value);
      }
    }
  }

  /** For a batch-invariant model the chunk size does not show in a dump: two runs that differ
      in it alone have the same outcome, whenever both prefills can be evaluated. */
  lemma ChunkSizeNeverShows<S>(w: Setup<S>, other: nat, s: S, files: Files, maxSteps: nat)
    requires BatchInvariant(w.model)
    requires w.prompt != [] ==> (PrefillEvaluates(w) <==> PrefillEvaluates(w.(chunk := other)))
    ensures DumpRun(w, maxSteps, s, files) == DumpRun(w.(chunk := other), maxSteps, s, files)
  {
    hide BatchInvariant, PrefillLogits, PrefillEvaluates, TakeSteps, PromptBatches;
    if w.prompt != [] {
      PrefillEvaluatesIff(w);
      PrefillEvaluatesIff(w.(chunk := other));
      StepsIgnoreChunk(w, other, Start(s, files), maxSteps);
    }
  }

  // ---------------------------------------------------------------- which chunk sizes are safe

  /** A run and the run with the other chunk size have one outcome. */
  ghost predicate RunIgnoresChunk<S>(w: Setup<S>, other: nat, s: S, files: Files, maxSteps: nat) {
    DumpRun(w, maxSteps, s, files) == DumpRun(w.(chunk := other), maxSteps, s, files)
  }

  lemma SameLengthSameRun<S>(w: Setup<S>, other: nat, s: S, files: Files, maxSteps: nat)
    requires ChunkLength(w.chunk, |w.prompt|) == ChunkLength(other, |w.prompt|)
    ensures RunIgnoresChunk(w, other, s, files, maxSteps)
  {
    hide BatchInvariant, PrefillLogits, TakeSteps, Batches;
    if w.prompt != [] {
      assert PromptBatches(w) == PromptBatches(w.(chunk := other));
      StepsIgnoreChunk(w, other, Start(s, files), maxSteps);
    }
  }

  /** One logit for each 32-bit token id, all of them `bit`. */
  function Flat(bit: F32): (logits: seq<F32>)
    ensures |logits| == TWO_32 && forall i :: 0 <= i < TWO_32 ==> logits[i] == bit
  {
    seq(TWO_32, _ => bit)
  }

  /** A model that tells whether the first batch it was handed is `first`. */
  function Telling(first: seq<U32>): Model {
    Model(TWO_32,
          (calls: seq<Call>) => Some(Flat(if calls != [] && calls[0] == Prefill(first, 0) then 0 else 1)),
          (_: U32) => false)
  }

  function TellingSetup(prompt: seq<U32>, chunk: nat, first: seq<U32>): Setup<()> {
    Setup(Telling(first), prompt, chunk, [0], (_, _, _) => None)
  }

  lemma FirstBatch(tokens: seq<U32>, chunk: nat)
    requires 0 < chunk <= |tokens|
    ensures Batches(tokens, chunk) != [] && Batches(tokens, chunk)[0] == tokens[..chunk]
  {
    assert tokens[..|tokens|] == tokens;
  }

  lemma TellingAnswers(prompt: seq<U32>, chunk: nat, first: seq<U32>)
    requires prompt != []
    ensures var w := TellingSetup(prompt, chunk, first);
            && PrefillEvaluates(w)
            && w.model.forward(History(w, []))
            == Some(Flat(if prompt[..ChunkLength(chunk, |prompt|)] == first then 0 else 1))
  {
    hide Batches;
    var w := TellingSetup(prompt, chunk, first);
    FirstBatch(prompt, ChunkLength(chunk, |prompt|));
    HistoryGrows(w, [], 0);
    assert History(w, [])[0] == Prefill(PromptBatches(w)[0], 0);
  }

  lemma TellingRun(prompt: seq<U32>, chunk: nat, first: seq<U32>, files: Files)
    requires prompt != []
    ensures var run := DumpRun(TellingSetup(prompt, chunk, first), 1, (), files);
            && run.Ok?
            && run.value.files == files[StepFile(0) := FileBytes(
                 Flat(if prompt[..ChunkLength(chunk, |prompt|)] == first then 0 else 1))]
  {
    hide StepFile, FileBytes, ArgmaxOf, History, PrefillEvaluates, PrefillLogits, PromptBatches, IsFinite, TakeSteps;
    var w, d := TellingSetup(prompt, chunk, first), Start((), files);
    var bit := if prompt[..ChunkLength(chunk, |prompt|)] == first then 0 else 1;
    TellingAnswers(prompt, chunk, first);
    PrefillEvaluatesIff(w);
    FirstOutsideIff(prompt, TWO_32, 0);
    FirstOutsideIff([0], TWO_32, 0);
    FlatHasArgmax(bit);
    NotYetStepped(w, d);
    NextStep(w, d, 0, d);
  }

  lemma FlatHasArgmax(bit: F32)
    requires bit < 2
    ensures ArgmaxOf(Flat(bit)).Some?
  {
    hide ArgmaxOf;
    assert IsFinite(Flat(bit)[0]) && IsArgmax(Flat(bit), ArgmaxOf(Flat(bit)));
  }

  /** For any prompt and any two chunk sizes that cut it differently there is a model, giving
      two successful dumps with different files. */
  lemma ChunkSizeShows(prompt: seq<U32>, a: nat, b: nat, files: Files)
    requires prompt != [] && ChunkLength(a, |prompt|) != ChunkLength(b, |prompt|)
    ensures var w := TellingSetup(prompt, a, prompt[..ChunkLength(a, |prompt|)]);
            var one, two := DumpRun(w, 1, (), files), DumpRun(w.(chunk := b), 1, (), files);
            && one.Ok? && two.Ok?
            && StepFile(0) in one.value.files && StepFile(0) in two.value.files
            && one.value.files[StepFile(0)] != two.value.files[StepFile(0)]
  {
    hide StepFile, FileBytes, DumpRun;
    var first, cut := prompt[..ChunkLength(a, |prompt|)], prompt[..ChunkLength(b, |prompt|)];
    assert |first| != |cut|;
    TellingRun(prompt, a, first, files);
    TellingRun(prompt, b, first, files);
    assert Flat(0)[0] != Flat(1)[0];
    FileBytesInjective(Flat(0), Flat(1));
  }

  /** What a caller can check beforehand: two chunk sizes are interchangeable for a prompt, for
      every model, options and directory, exactly when they cut it into batches of one length. */
  lemma InterchangeableIff(prompt: seq<U32>, a: nat, b: nat)
    requires prompt != []
    ensures ChunkLength(a, |prompt|) == ChunkLength(b, |prompt|) <==>
            forall w: Setup<()>, files: Files, maxSteps: nat ::
              w.prompt == prompt && w.chunk == a ==> RunIgnoresChunk(w, b, (), files, maxSteps)
  {
    hide DumpRun;
    if ChunkLength(a, |prompt|) == ChunkLength(b, |prompt|) {
      forall w: Setup<()>, files: Files, maxSteps: nat | w.prompt == prompt && w.chunk == a
        ensures RunIgnoresChunk(w, b, (), files, maxSteps)
      {
        SameLengthSameRun(w, b, (), files, maxSteps);
      }
    } else {
      var w := TellingSetup(prompt, a, prompt[..ChunkLength(a, |prompt|)]);
      ChunkSizeShows(prompt, a, b, map[]);
      assert !RunIgnoresChunk(w, b, (), map[], 1);
    }
  }
}
