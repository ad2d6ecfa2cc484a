/** More of what a whole dump means: which tokens were drawn from what, how the prompt was cut,
    and why a run failed. */
module DumpRuns {
  import opened Machine
  import opened Float32
  import opened DumpLogits

  // ---------------------------------------------------------------- the sampler

  /** Step `k` between two states of the sampler: a forced step leaves it alone, any other draws
      its token from the logits in its own file and everything up to it. */
  ghost predicate DrawMeans<S>(w: Setup<S>, d: Dump<S>, states: seq<S>, k: nat)
    requires k < |d.emitted| && k + 1 < |states|
  {
    if k < |w.forced| then states[k + 1] == states[k] && d.emitted[k] == w.forced[k]
    else
      exists logits: seq<F32> ::
        && StepFile(k) in d.files && d.files[StepFile(k)] == FileBytes(logits)
        && w.draw(states[k], logits, w.prompt + d.emitted[..k]) == Some((d.emitted[k], states[k + 1]))
  }

  lemma StepDraws<S>(w: Setup<S>, before: Dump<S>)
    requires w.prompt != [] && TakeStep(w, before).Ok?
    ensures var d, k := TakeStep(w, before).value, |before.emitted|;
            && |d.emitted| == k + 1 && d.emitted[..k] == before.emitted
            && StepFile(k) in d.files
            && (forall j: nat :: j != k && StepFile(j) in before.files ==>
                  StepFile(j) in d.files && d.files[StepFile(j)] == before.files[StepFile(j)])
            && if k < |w.forced| then d.sampler == before.sampler && d.emitted[k] == w.forced[k]
               else exists logits: seq<F32> ::
                 && d.files[StepFile(k)] == FileBytes(logits)
                 && w.draw(before.sampler, logits, w.prompt + before.emitted) == Some((d.emitted[k], d.sampler))
  {
    hide History, ArgmaxOf, StepFile, FileBytes, RecordOf;
    var d, k := TakeStep(w, before).value, |before.emitted|;
    forall j: nat | j != k
      ensures StepFile(j) != StepFile(k)
    {
      if StepFile(j) == StepFile(k) {
        StepFileInjective(j, k);
      }
    }
  }

  lemma DrawStays<S>(w: Setup<S>, before: Dump<S>, states: seq<S>, last: S, k: nat)
    requires w.prompt != [] && TakeStep(w, before).Ok?
    requires k < |before.emitted| && |states| == |before.emitted| + 1 && DrawMeans(w, before, states, k)
    ensures |TakeStep(w, before).value.emitted| == |before.emitted| + 1
    ensures DrawMeans(w, TakeStep(w, before).value, states + [last], k)
  {
    StepDraws(w, before);
    hide TakeStep, StepFile, FileBytes;
    var d := TakeStep(w, before).value;
    assert d.emitted[..k] == d.emitted[..|before.emitted|][..k] == before.emitted[..k];
    assert d.emitted[k] == d.emitted[..|before.emitted|][k];
    if k >= |w.forced| {
      var logits: seq<F32> :|
        && StepFile(k) in before.files && before.files[StepFile(k)] == FileBytes(logits)
        && w.draw(states[k], logits, w.prompt + before.emitted[..k]) == Some((before.emitted[k], states[k + 1]));
      assert d.files[StepFile(k)] == FileBytes(logits);
    }
  }

  /** The sampler's way through a successful run of `n` steps: it starts in the given state, only
      free steps draw, each from the logits in its file, and each hands its state on. */
  lemma {:induction false} RunDraws<S>(w: Setup<S>, s: S, files: Files, n: nat) returns (states: seq<S>)
    requires w.prompt != [] && TakeSteps(w, Start(s, files), n).Ok?
    ensures var d := TakeSteps(w, Start(s, files), n).value;
            && |d.emitted| == n && |states| == n + 1
            && states[0] == s && states[n] == d.sampler
            && forall k :: 0 <= k < n ==> DrawMeans(w, d, states, k)
  {
    hide TakeStep, DrawMeans;
    if n == 0 {
      states := [s];
    } else {
      var before := TakeSteps(w, Start(s, files), n - 1).value;
      var earlier := RunDraws(w, s, files, n - 1);
      var d := TakeSteps(w, Start(s, files), n).value;
      states := earlier + [d.sampler];
      StepDraws(w, before);
      forall k | 0 <= k < n
        ensures DrawMeans(w, d, states, k)
      {
        if k < n - 1 {
          DrawStays(w, before, earlier, d.sampler, k);
        } else {
          LastDraw(w, before, earlier);
        }
      }
    }
  }

  lemma LastDraw<S>(w: Setup<S>, before: Dump<S>, states: seq<S>)
    requires w.prompt != [] && TakeStep(w, before).Ok?
    requires |states| == |before.emitted| + 1 && states[|before.emitted|] == before.sampler
    ensures |TakeStep(w, before).value.emitted| == |before.emitted| + 1
    ensures DrawMeans(w, TakeStep(w, before).value, states + [TakeStep(w, before).value.sampler], |before.emitted|)
  {
    StepDraws(w, before);
    hide TakeStep, StepFile, FileBytes;
  }

  // ---------------------------------------------------------------- how the prompt is cut

  lemma {:induction false} FullBatches(tokens: seq<U32>, chunk: nat, i: nat)
    requires chunk > 0 && i + 1 < |Batches(tokens, chunk)|
    ensures |Batches(tokens, chunk)[i]| == chunk
    decreases i
  {
    if |tokens| > chunk && i > 0 {
      FullBatches(tokens[chunk..], chunk, i - 1);
    }
  }

  /** A configured chunk size cuts the prompt into full chunks and a remainder; zero, or a size
      beyond the prompt, leaves it in one piece. */
  lemma PromptCut<S>(w: Setup<S>, i: nat)
    requires w.prompt != [] && i < |PromptBatches(w)|
    ensures Concat(PromptBatches(w)) == w.prompt
    ensures i + 1 < |PromptBatches(w)| ==> |PromptBatches(w)[i]| == w.chunk
    ensures w.chunk == 0 || w.chunk >= |w.prompt| ==> PromptBatches(w) == [w.prompt]
    ensures w.chunk > 0 ==> 0 < |PromptBatches(w)[i]| <= w.chunk
  {
    var chunk := ChunkLength(w.chunk, |w.prompt|);
    BatchesConcat(w.prompt, chunk);
    assert PromptBatches(w)[i] in PromptBatches(w);
    if i + 1 < |PromptBatches(w)| {
      FullBatches(w.prompt, chunk, i);
    }
  }

  // ---------------------------------------------------------------- refusals and failures

  /** `i` is the first of the tokens outside the vocabulary. */
  predicate FirstBad(tokens: seq<U32>, vocabSize: nat, i: nat) {
    i < |tokens| && tokens[i] >= vocabSize && forall j :: 0 <= j < i ==> tokens[j] < vocabSize
  }

  lemma {:induction false} FirstOutsideIs(tokens: seq<U32>, vocabSize: nat, from: nat)
    requires from <= |tokens| && forall j :: 0 <= j < from ==> tokens[j] < vocabSize
    ensures match FirstOutside(tokens, vocabSize, from)
            case Some(i) => FirstBad(tokens, vocabSize, i)
            case None => forall j :: 0 <= j < |tokens| ==> tokens[j] < vocabSize
    decreases |tokens| - from
  {
    if from < |tokens| && tokens[from] < vocabSize {
      FirstOutsideIs(tokens, vocabSize, from + 1);
    }
  }

  /** What is refused before the engine is touched, and nothing else is. */
  lemma RefusalMeans<S>(w: Setup<S>, maxSteps: nat)
    ensures match Refusal(w, maxSteps)
            case None =>
              && w.prompt != [] && 0 < maxSteps && |w.forced| <= maxSteps
              && (forall j :: 0 <= j < |w.prompt| ==> w.prompt[j] < w.model.vocabSize)
              && (forall j :: 0 <= j < |w.forced| ==> w.forced[j] < w.model.vocabSize)
            case Some(EmptyPrompt) => w.prompt == []
            case Some(NoSteps) => maxSteps == 0
            case Some(TooManyForced) => |w.forced| > maxSteps
            case Some(PromptToken(i)) => FirstBad(w.prompt, w.model.vocabSize, i)
            case Some(ForcedToken(i)) => FirstBad(w.forced, w.model.vocabSize, i)
            case Some(_) => false
  {
    FirstOutsideIs(w.prompt, w.model.vocabSize, 0);
    FirstOutsideIs(w.forced, w.model.vocabSize, 0);
  }

  /** Why the step behind `d` fails. */
  ghost predicate FailsBecause<S>(w: Setup<S>, d: Dump<S>, k: nat, e: DumpError)
    requires w.prompt != []
  {
    var answer := w.model.forward(History(w, d.emitted));
    if answer.None? then e == Forward
    else if |answer.value| != w.model.vocabSize then e == WrongLength(k)
    else if forall j :: 0 <= j < |answer.value| ==> !IsFinite(answer.value[j]) then e == AllNonFinite(k)
    else k >= |w.forced| && w.draw(d.sampler, answer.value, w.prompt + d.emitted).None? && e == Sampling(k)
  }

  lemma StepFails<S>(w: Setup<S>, d: Dump<S>)
    requires w.prompt != [] && TakeStep(w, d).Err?
    ensures FailsBecause(w, d, |d.emitted|, TakeStep(w, d).error)
  {
    hide History, StepFile, FileBytes, RecordOf, IsFinite;
    var answer := w.model.forward(History(w, d.emitted));
    if answer.Some? {
      assert IsArgmax(answer.value, ArgmaxOf(answer.value));
    }
    hide ArgmaxOf;
  }

  /** A run that fails behind its prefill fails at one step, behind a successful run of the steps
      before it, for the reason its error names. */
  lemma {:induction false} FailedRunMeans<S>(w: Setup<S>, s: S, files: Files, n: nat) returns (k: nat)
    requires w.prompt != [] && TakeSteps(w, Start(s, files), n).Err?
    ensures k < n && TakeSteps(w, Start(s, files), k).Ok?
    ensures |TakeSteps(w, Start(s, files), k).value.emitted| == k
    ensures FailsBecause(w, TakeSteps(w, Start(s, files), k).value, k, TakeSteps(w, Start(s, files), n).error)
  {
    hide TakeStep, FailsBecause;
    if TakeSteps(w, Start(s, files), n - 1).Err? {
      k := FailedRunMeans(w, s, files, n - 1);
    } else {
      k := n - 1;
      StepsCount(w, s, files, n - 1);
      StepFails(w, TakeSteps(w, Start(s, files), n - 1).value);
    }
  }
}
