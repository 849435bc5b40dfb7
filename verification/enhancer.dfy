/** The prompt enhancer node (AI/WildPromptor_Enhancer.py): the guard on
    blank prompts, the per-item seed schedule, and how the outputs are
    returned. The text-to-text pipeline is the oracle `pipe`, which sees the
    input, the global torch seed set before the call and the sampling
    settings. */
module Enhancer {
  import opened Wrappers
  import opened Text

  const Prefix := "enhance prompt: "
  const Separator := "\n---\n"

  /** The largest seed `torch.manual_seed` accepts; a larger one raises. */
  const MaxSeed: nat := 0xffff_ffff_ffff_ffff

  /** One pipeline call: its input, the torch seed set just before it, and
      its sampling settings. */
  datatype Call = Call(input: string, seed: nat, doSample: bool, temperature: real)

  /** The seed of iteration `i`. */
  function OutputSeed(seed: nat, i: nat): nat {
    if seed != 0 then seed + i else 0
  }

  /** The call iteration `i` makes. */
  function CallFor(prompt: string, seed: nat, i: nat): Call {
    var s := OutputSeed(seed, i);
    Call(Prefix + prompt, s, s != 0, if s != 0 then 0.7 else 0.0)
  }

  /** Iteration `i`: the seed is set, which raises `overflow` when it is out
      of range, and the pipeline is called. */
  function Step(prompt: string, seed: nat, pipe: Call -> Result<string>, overflow: string, i: nat): Result<string> {
    if OutputSeed(seed, i) > MaxSeed then Raise(overflow) else pipe(CallFor(prompt, seed, i))
  }

  /** The state after the first `n` iterations, or after the one that
      raised: the outputs so far, or the exception, and the calls made. */
  datatype Progress = Progress(outputs: Result<seq<string>>, calls: seq<Call>)

  function Run(prompt: string, seed: nat, pipe: Call -> Result<string>, overflow: string, n: nat): Progress {
    if n == 0 then Progress(Ok([]), [])
    else
      var p := Run(prompt, seed, pipe, overflow, n - 1);
      if p.outputs.Raise? then p
      else
        var calls := if OutputSeed(seed, n - 1) > MaxSeed then p.calls else p.calls + [CallFor(prompt, seed, n - 1)];
        match Step(prompt, seed, pipe, overflow, n - 1)
        case Ok(text) => Progress(Ok(p.outputs.value + [text]), calls)
        case Raise(e) => Progress(Raise(e), calls)
  }

  /** What the node returns once the loop is over. */
  function Finish(outputs: Result<seq<string>>, combineOutput: bool): seq<string> {
    match outputs
    case Raise(e) => ["Error: " + e]
    case Ok(texts) => if combineOutput then [Join(texts, Separator)] else texts
  }

  /** Call `k` is the one iteration `k` makes. */
  predicate Scheduled(calls: seq<Call>, prompt: string, seed: nat) {
    forall k | 0 <= k < |calls| :: calls[k] == CallFor(prompt, seed, k)
  }

  /** After `n` iterations without an exception there is one output per
      iteration, in order, each what the pipeline gave for that iteration's
      call, and the calls follow the seed schedule. */
  lemma {:induction false} RunSpec(prompt: string, seed: nat, pipe: Call -> Result<string>, overflow: string, n: nat)
    ensures var p := Run(prompt, seed, pipe, overflow, n);
      && Scheduled(p.calls, prompt, seed) && |p.calls| <= n
      && (p.outputs.Ok? ==>
            && |p.outputs.value| == n && |p.calls| == n
            && forall k | 0 <= k < n :: Step(prompt, seed, pipe, overflow, k) == Ok(p.outputs.value[k]))
  {
    if n > 0 {
      var p := Run(prompt, seed, pipe, overflow, n - 1);
      RunSpec(prompt, seed, pipe, overflow, n - 1);
      if p.outputs.Ok? {
        var r := Run(prompt, seed, pipe, overflow, n);
        ScheduledAppend(p.calls, prompt, seed);
        if r.outputs.Ok? {
          var xs := p.outputs.value;
          var t := r.outputs.value[n - 1];
          assert r.outputs.value == xs + [t];
          forall k | 0 <= k < n ensures Step(prompt, seed, pipe, overflow, k) == Ok(r.outputs.value[k]) {
            if k < n - 1 {
              assert r.outputs.value[k] == xs[k];
            }
          }
        }
      }
    }
  }

  lemma ScheduledAppend(calls: seq<Call>, prompt: string, seed: nat)
    requires Scheduled(calls, prompt, seed)
    ensures Scheduled(calls + [CallFor(prompt, seed, |calls|)], prompt, seed)
  {
  }

  /** An exception names the first iteration that raised, and the outputs of
      the iterations before it are dropped. */
  lemma {:induction false} RunRaises(prompt: string, seed: nat, pipe: Call -> Result<string>, overflow: string, n: nat)
    requires Run(prompt, seed, pipe, overflow, n).outputs.Raise?
    ensures exists k | 0 <= k < n ::
      && Step(prompt, seed, pipe, overflow, k) == Raise(Run(prompt, seed, pipe, overflow, n).outputs.error)
      && forall j | 0 <= j < k :: Step(prompt, seed, pipe, overflow, j).Ok?
  {
    var p := Run(prompt, seed, pipe, overflow, n - 1);
    if p.outputs.Raise? {
      RunRaises(prompt, seed, pipe, overflow, n - 1);
    } else {
      RunSpec(prompt, seed, pipe, overflow, n - 1);
      var k := n - 1;
      assert forall j | 0 <= j < k :: Step(prompt, seed, pipe, overflow, j).Ok? by {
        forall j | 0 <= j < k ensures Step(prompt, seed, pipe, overflow, j).Ok? {
          assert Step(prompt, seed, pipe, overflow, j) == Ok(p.outputs.value[j]);
        }
      }
    }
  }

  /** Once an iteration raised, later iterations change nothing: the loop
      has ended. */
  lemma {:induction false} RunStaysRaised(prompt: string, seed: nat, pipe: Call -> Result<string>, overflow: string,
                                          n: nat, m: nat)
    requires n <= m && Run(prompt, seed, pipe, overflow, n).outputs.Raise?
    ensures Run(prompt, seed, pipe, overflow, m) == Run(prompt, seed, pipe, overflow, n)
    decreases m - n
  {
    if n < m {
      RunStaysRaised(prompt, seed, pipe, overflow, n, m - 1);
    }
  }

  /** Every call uses the prefixed prompt; the seed is `seed + i` when `seed`
      is non-zero and 0 every time otherwise, and sampling, at temperature
      0.7, is on exactly when that seed is non-zero. */
  lemma SeedSchedule(prompt: string, seed: nat, calls: seq<Call>, i: nat)
    requires Scheduled(calls, prompt, seed) && i < |calls|
    ensures calls[i].input == Prefix + prompt
    ensures seed != 0 ==> calls[i].seed == seed + i && calls[i].doSample && calls[i].temperature == 0.7
    ensures seed == 0 ==> calls[i].seed == 0 && !calls[i].doSample && calls[i].temperature == 0.0
  {
  }

  /** Combining gives one string; otherwise each output is its own entry. */
  lemma FinishShape(texts: seq<string>, combineOutput: bool)
    ensures combineOutput ==>
      |Finish(Ok(texts), combineOutput)| == 1 && Finish(Ok(texts), combineOutput)[0] == Join(texts, Separator)
    ensures !combineOutput ==> Finish(Ok(texts), combineOutput) == texts
    ensures forall e :: Finish(Raise(e), combineOutput) == ["Error: " + e]
  {
  }

  /** `enhancer(prompt, seed, batch_size, combine_output)`. */
  method Enhance(prompt: string, seed: nat, batchSize: nat, combineOutput: bool, pipe: Call -> Result<string>,
                 overflow: string)
    returns (result: seq<string>, calls: seq<Call>)
    ensures IsBlank(prompt) ==> result == [] && calls == []
    ensures !IsBlank(prompt) ==>
      var p := Run(prompt, seed, pipe, overflow, batchSize);
      result == Finish(p.outputs, combineOutput) && calls == p.calls
  {
    if IsBlank(prompt) {
      return [], [];
    }
    var enhanced: seq<string> := [];
    calls := [];
    for i := 0 to batchSize
      invariant Run(prompt, seed, pipe, overflow, i) == Progress(Ok(enhanced), calls)
    {
      var s := OutputSeed(seed, i);
      if s > MaxSeed {
        RunStaysRaised(prompt, seed, pipe, overflow, i + 1, batchSize);
        return ["Error: " + overflow], calls;
      }
      var call := CallFor(prompt, seed, i);
      calls := calls + [call];
      match pipe(call) {
        case Ok(text) =>
          enhanced := enhanced + [text];
        case Raise(e) =>
          RunStaysRaised(prompt, seed, pipe, overflow, i + 1, batchSize);
          return ["Error: " + e], calls;
      }
    }
    if combineOutput {
      result := [Join(enhanced, Separator)];
    } else {
      result := enhanced;
    }
  }
}
