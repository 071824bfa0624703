/** Greedy generation over a session whose next token is a function of the tokens fed to it. */
module Generation {
  import opened Prelude

  /** The next token after a history, or none when the backend fails on it. */
  type Responder = seq<int> -> Option<int>

  class TokenSession {
    const respond: Responder
    const resets: bool
    var history: seq<int>

    constructor (respond: Responder, resets: bool)
      ensures this.respond == respond && this.resets == resets && history == []
    {
      this.respond := respond;
      this.resets := resets;
      history := [];
    }

    method Reset() returns (ok: bool)
      modifies this
      ensures ok == resets && history == if ok then [] else old(history)
    {
      if resets {
        history := [];
      }
      ok := resets;
    }

    /** A failed call feeds nothing. */
    method Prefill(tokens: seq<int>) returns (r: Option<int>)
      modifies this
      ensures r == respond(old(history) + tokens)
      ensures history == if r.Some? then old(history) + tokens else old(history)
    {
      r := respond(history + tokens);
      if r.Some? {
        history := history + tokens;
      }
    }

    method Decode(token: int) returns (r: Option<int>)
      modifies this
      ensures r == respond(old(history) + [token])
      ensures history == if r.Some? then old(history) + [token] else old(history)
    {
      r := Prefill([token]);
    }

    /** The default implementation: one decode per output slot, stopping at the first failure. */
    method DecodeGreedy(first: int, output: array<int>) returns (r: Option<int>)
      modifies this, output
      ensures r.Some? ==> IsGreedy(respond, old(history) + [first], output[..])
      ensures r.Some? ==> r.value == (if output.Length == 0 then first else output[output.Length - 1])
      ensures r.Some? ==> history == Fed(old(history), first, output[..])
      ensures r.Some? ==>
        && (forall k :: 0 <= k < output.Length ==> respond(old(history) + [first] + output[..k]) == Some(output[k]))
        && history == old(history) + ([first] + output[..])[..output.Length]
      ensures r.None? <==> FailsWithin(respond, old(history) + [first], output.Length)
    {
      hide IsGreedy, Fed, FailsWithin;
      ghost var start := history + [first];
      var token := first;
      NothingFed(respond, history, first);
      for i := 0 to output.Length
        invariant IsGreedy(respond, start, output[..i])
        invariant token == if i == 0 then first else output[i - 1]
        invariant history == Fed(old(history), first, output[..i])
      {
        ghost var done := output[..i];
        FedThenNext(old(history), first, done);
        var next := Decode(token);
        if next.None? {
          FailsHere(respond, start, done, output.Length);
          return None;
        }
        GreedyOneMore(respond, start, done, next.value);
        FedOneMore(old(history), first, done, next.value);
        output[i] := next.value;
        token := next.value;
        assert output[..i + 1] == done + [next.value];
      }
      assert output[..output.Length] == output[..];
      GreedyNeverFails(respond, start, output[..]);
      GreedyMeans(respond, old(history), first, output[..]);
      assert forall k :: 0 <= k < output.Length ==> output[..][..k] == output[..k];
      r := Some(token);
    }
  }

  /** Some greedy sequence shorter than `n` cannot be continued. */
  ghost predicate FailsWithin(respond: Responder, prompt: seq<int>, n: nat) {
    exists g :: |g| < n && IsGreedy(respond, prompt, g) && respond(prompt + g).None?
  }

  lemma FailsHere(respond: Responder, prompt: seq<int>, g: seq<int>, n: nat)
    requires |g| < n && IsGreedy(respond, prompt, g) && respond(prompt + g).None?
    ensures FailsWithin(respond, prompt, n)
  {
  }

  lemma NothingFed(respond: Responder, history: seq<int>, first: int)
    ensures IsGreedy(respond, history + [first], []) && Fed(history, first, []) == history
  {
  }

  // ----- the autoregressive sequence -----

  /** Every token of `g` is the answer to the prompt and the tokens of `g` before it. */
  ghost predicate IsGreedy(respond: Responder, prompt: seq<int>, g: seq<int>) {
    forall k :: 0 <= k < |g| ==> respond(prompt + g[..k]) == Some(g[k])
  }

  /** What has been fed once `g` was produced after `first`: all but its last token. */
  ghost function Fed(history: seq<int>, first: int, g: seq<int>): seq<int> {
    if |g| == 0 then history else history + [first] + g[..|g| - 1]
  }

  lemma GreedyMeans(respond: Responder, history: seq<int>, first: int, g: seq<int>)
    requires IsGreedy(respond, history + [first], g)
    ensures forall k :: 0 <= k < |g| ==> respond(history + [first] + g[..k]) == Some(g[k])
    ensures Fed(history, first, g) == history + ([first] + g)[..|g|]
  {
    if |g| > 0 {
      assert ([first] + g)[..|g|] == [first] + g[..|g| - 1];
    }
  }

  lemma FedThenNext(history: seq<int>, first: int, g: seq<int>)
    ensures Fed(history, first, g) + [if |g| == 0 then first else g[|g| - 1]] == history + [first] + g
  {
    if |g| > 0 {
      assert g == g[..|g| - 1] + [g[|g| - 1]];
      Associate(history + [first], g[..|g| - 1], [g[|g| - 1]]);
    }
  }

  lemma FedOneMore(history: seq<int>, first: int, g: seq<int>, t: int)
    ensures Fed(history, first, g + [t]) == history + [first] + g
  {
    assert (g + [t])[..|g|] == g;
  }

  lemma GreedyOneMore(respond: Responder, prompt: seq<int>, g: seq<int>, t: int)
    requires IsGreedy(respond, prompt, g)
    ensures IsGreedy(respond, prompt, g + [t]) <==> respond(prompt + g) == Some(t)
  {
    var more := g + [t];
    assert more[..|g|] == g;
    forall k | 0 <= k < |g|
      ensures respond(prompt + more[..k]) == Some(more[k])
    {
      assert more[..k] == g[..k];
    }
  }

  /** Of two greedy sequences one continues the other. */
  lemma {:induction false} GreedyAgree(respond: Responder, prompt: seq<int>, g: seq<int>, h: seq<int>, k: nat)
    requires IsGreedy(respond, prompt, g) && IsGreedy(respond, prompt, h) && k <= |g| && k <= |h|
    ensures g[..k] == h[..k]
  {
    if k > 0 {
      GreedyAgree(respond, prompt, g, h, k - 1);
      assert g[..k] == g[..k - 1] + [g[k - 1]] && h[..k] == h[..k - 1] + [h[k - 1]];
    }
  }

  lemma GreedyNeverFails(respond: Responder, prompt: seq<int>, g: seq<int>)
    requires IsGreedy(respond, prompt, g)
    ensures !FailsWithin(respond, prompt, |g|)
  {
    forall h | |h| < |g| && IsGreedy(respond, prompt, h)
      ensures respond(prompt + h).Some?
    {
      GreedyAgree(respond, prompt, g, h, |h|);
      assert h[..|h|] == h;
    }
  }

  // ----- generation -----

  datatype Outcome = InvalidInput | BackendFailed | Generated(tokens: seq<int>)

  ghost predicate StopFree(isStop: int -> bool, g: seq<int>) {
    forall k :: 0 <= k < |g| ==> !isStop(g[k])
  }

  /** `g` is the stop-free start of the sequence, cut only by the limit or by a stop token. */
  ghost predicate IsResult(respond: Responder, isStop: int -> bool, prompt: seq<int>, limit: nat, g: seq<int>) {
    && IsGreedy(respond, prompt, g) && StopFree(isStop, g) && |g| <= limit
    && (|g| < limit ==> respond(prompt + g).Some? && isStop(respond(prompt + g).value))
  }

  /** The backend fails on the way before a stop token or the limit is reached. */
  ghost predicate FailsOnTheWay(respond: Responder, isStop: int -> bool, prompt: seq<int>, limit: nat) {
    exists g :: IsGreedy(respond, prompt, g) && StopFree(isStop, g) && |g| < limit && respond(prompt + g).None?
  }

  /** At most one sequence is the result, and it excludes failure. */
  lemma ResultUnique(respond: Responder, isStop: int -> bool, prompt: seq<int>, limit: nat, g: seq<int>, h: seq<int>)
    requires IsResult(respond, isStop, prompt, limit, g)
    requires IsGreedy(respond, prompt, h) && StopFree(isStop, h) && |h| <= limit
    ensures h <= g
    ensures IsResult(respond, isStop, prompt, limit, h) ==> g == h
    ensures |h| < limit ==> respond(prompt + h).Some?
  {
    var k := if |g| < |h| then |g| else |h|;
    GreedyAgree(respond, prompt, g, h, k);
    assert g[..|g|] == g && h[..|h|] == h;
  }

  lemma ResultExcludesFailure(respond: Responder, isStop: int -> bool, prompt: seq<int>, limit: nat, g: seq<int>)
    requires IsResult(respond, isStop, prompt, limit, g)
    ensures !FailsOnTheWay(respond, isStop, prompt, limit)
  {
    forall h | IsGreedy(respond, prompt, h) && StopFree(isStop, h) && |h| < limit
      ensures respond(prompt + h).Some?
    {
      ResultUnique(respond, isStop, prompt, limit, g, h);
    }
  }

  /** The tokens fed to produce `g`: with a stop token all of `g`, at the limit all but the last. */
  ghost function Consumed(prompt: seq<int>, limit: nat, g: seq<int>): seq<int> {
    if |g| < limit then prompt + g else prompt + g[..|g| - (if |g| > 0 then 1 else 0)]
  }

  method GenerateTokenIds(session: TokenSession, prompt: seq<int>, maxNew: nat, context: nat, isStop: int -> bool)
    returns (outcome: Outcome)
    requires |prompt| <= U64_MAX && maxNew <= U64_MAX && context <= U64_MAX
    modifies session
    ensures outcome.InvalidInput? <==> maxNew == 0 || context == 0 || |prompt| == 0 || |prompt| + maxNew > context
    ensures outcome.InvalidInput? ==> session.history == old(session.history)
    ensures outcome.Generated? ==>
      var g := outcome.tokens;
      && |g| <= maxNew
      && (forall k :: 0 <= k < |g| ==> session.respond(prompt + g[..k]) == Some(g[k]) && !isStop(g[k]))
      && (|g| < maxNew ==> session.respond(prompt + g).Some? && isStop(session.respond(prompt + g).value))
      && session.history == prompt + (if |g| < maxNew then g else g[..|g| - 1])
    ensures outcome.BackendFailed? && session.resets ==>
      exists g :: |g| < maxNew && session.respond(prompt + g).None?
        && forall k :: 0 <= k < |g| ==> session.respond(prompt + g[..k]) == Some(g[k]) && !isStop(g[k])
    ensures outcome.Generated? ==> IsResult(session.respond, isStop, prompt, maxNew, outcome.tokens)
    ensures outcome.Generated? ==> session.history == Consumed(prompt, maxNew, outcome.tokens) && |session.history| < context
    ensures outcome.BackendFailed? <==>
      !(maxNew == 0 || context == 0 || |prompt| == 0 || |prompt| + maxNew > context)
      && (!session.resets || FailsOnTheWay(session.respond, isStop, prompt, maxNew))
  {
    hide IsResult, FailsOnTheWay, Consumed, IsGreedy;
    if maxNew == 0 || context == 0 || |prompt| == 0 {
      return InvalidInput;
    }
    var required := CheckedAdd(|prompt|, maxNew, U64_MAX);
    if required.None? || required.value > context {
      return InvalidInput;
    }
    var reset := session.Reset();
    if !reset {
      return BackendFailed;
    }
    assert [] + prompt == prompt;
    var result := session.Prefill(prompt);
    assert prompt + [] == prompt;
    if result.None? {
      FailsAtOnce(session.respond, isStop, prompt, maxNew);
      FailureMeans(session.respond, isStop, prompt, maxNew);
      return BackendFailed;
    }
    outcome := GenerateRest(session, prompt, maxNew, result.value, isStop);
    if outcome.Generated? {
      ResultExcludesFailure(session.respond, isStop, prompt, maxNew, outcome.tokens);
      ConsumedLess(session.respond, isStop, prompt, maxNew, outcome.tokens);
      ResultMeans(session.respond, isStop, prompt, maxNew, outcome.tokens);
    } else {
      FailureMeans(session.respond, isStop, prompt, maxNew);
    }
  }

  lemma ResultMeans(respond: Responder, isStop: int -> bool, prompt: seq<int>, limit: nat, g: seq<int>)
    requires IsResult(respond, isStop, prompt, limit, g) && limit > 0
    ensures |g| <= limit
    ensures forall k :: 0 <= k < |g| ==> respond(prompt + g[..k]) == Some(g[k]) && !isStop(g[k])
    ensures |g| < limit ==> respond(prompt + g).Some? && isStop(respond(prompt + g).value)
    ensures Consumed(prompt, limit, g) == prompt + (if |g| < limit then g else g[..|g| - 1])
  {
  }

  lemma FailureMeans(respond: Responder, isStop: int -> bool, prompt: seq<int>, limit: nat)
    requires FailsOnTheWay(respond, isStop, prompt, limit)
    ensures exists g :: |g| < limit && respond(prompt + g).None?
              && forall k :: 0 <= k < |g| ==> respond(prompt + g[..k]) == Some(g[k]) && !isStop(g[k])
  {
  }

  lemma FailsAtOnce(respond: Responder, isStop: int -> bool, prompt: seq<int>, limit: nat)
    requires limit > 0 && respond(prompt).None?
    ensures FailsOnTheWay(respond, isStop, prompt, limit)
  {
    assert prompt + [] == prompt;
    assert IsGreedy(respond, prompt, []) && StopFree(isStop, []);
  }

  lemma ConsumedLess(respond: Responder, isStop: int -> bool, prompt: seq<int>, limit: nat, g: seq<int>)
    requires IsResult(respond, isStop, prompt, limit, g) && limit > 0
    ensures |Consumed(prompt, limit, g)| < |prompt| + limit
  {
  }

  /** The loop, from the token the prompt produced. */
  method GenerateRest(session: TokenSession, ghost prompt: seq<int>, maxNew: nat, first: int, isStop: int -> bool)
    returns (outcome: Outcome)
    requires maxNew > 0 && session.history == prompt && session.respond(prompt) == Some(first)
    modifies session
    ensures !outcome.InvalidInput?
    ensures outcome.Generated? ==> IsResult(session.respond, isStop, prompt, maxNew, outcome.tokens)
    ensures outcome.Generated? ==> session.history == Consumed(prompt, maxNew, outcome.tokens)
    ensures outcome.BackendFailed? ==> FailsOnTheWay(session.respond, isStop, prompt, maxNew)
  {
    var result := first;
    var generated: seq<int> := [];
    assert prompt + [] == prompt;
    for index := 0 to maxNew
      invariant |generated| == index && IsGreedy(session.respond, prompt, generated) && StopFree(isStop, generated)
      invariant index < maxNew ==> session.history == prompt + generated && session.respond(prompt + generated) == Some(result)
      invariant index == maxNew ==> session.history == Consumed(prompt, maxNew, generated)
    {
      if isStop(result) {
        return Generated(generated);
      }
      GreedyOneMore(session.respond, prompt, generated, result);
      Associate(prompt, generated, [result]);
      generated := generated + [result];
      if index + 1 < maxNew {
        var next := session.Decode(result);
        if next.None? {
          return BackendFailed;
        }
        result := next.value;
      } else {
        assert generated[..index] + [result] == generated;
      }
    }
    outcome := Generated(generated);
  }

  /** The default greedy decoding after a prefill continues the very sequence that generation
      without stop tokens produces. */
  lemma DecodeGreedyAgrees(respond: Responder, prompt: seq<int>, first: int, output: seq<int>)
    requires respond(prompt) == Some(first)
    ensures IsGreedy(respond, prompt + [first], output) <==>
            IsResult(respond, _ => false, prompt, |output| + 1, [first] + output)
  {
    var g := [first] + output;
    assert prompt + g[..0] == prompt;
    forall k | 0 <= k < |output|
      ensures prompt + g[..k + 1] == prompt + [first] + output[..k]
    {
      assert g[..k + 1] == [first] + output[..k];
    }
    if IsGreedy(respond, prompt, g) {
      forall k | 0 <= k < |output|
        ensures respond(prompt + [first] + output[..k]) == Some(output[k])
      {
        assert g[k + 1] == output[k];
      }
    }
  }

  // ----- benchmarking -----

  datatype BenchmarkOutcome = InvalidBenchmark | BenchmarkFailed | Measured(iterations: nat)

  /** What makes an iteration fail: the reset, the prefill, or a decode step. */
  ghost predicate IterationFails(respond: Responder, resets: bool, prompt: seq<int>, steps: nat) {
    !resets || respond(prompt).None? || FailsWithin(respond, prompt + [respond(prompt).value], steps)
  }

  /** Every iteration starts from a reset session and yields the same greedy sequence; only the
      iterations after the warm-up are recorded. `runs` lists what each iteration yielded. */
  method BenchmarkSession(session: TokenSession, prompt: seq<int>, warmup: nat, measured: nat, decodeTokens: array<int>)
    returns (outcome: BenchmarkOutcome, ghost runs: seq<seq<int>>)
    requires warmup <= U64_MAX && measured <= U64_MAX
    modifies session, decodeTokens
    ensures outcome.InvalidBenchmark? <==>
      |prompt| == 0 || warmup == 0 || measured == 0 || decodeTokens.Length == 0 || warmup + measured > U64_MAX
    ensures outcome.BenchmarkFailed? <==>
      !outcome.InvalidBenchmark?
      && IterationFails(session.respond, session.resets, prompt, decodeTokens.Length)
    ensures outcome.Measured? ==> outcome.iterations == measured && |runs| == warmup + measured
    ensures outcome.Measured? ==>
      var g := [session.respond(prompt).value] + decodeTokens[..];
      IsGreedy(session.respond, prompt, g) && forall i :: 0 <= i < |runs| ==> runs[i] == g
  {
    hide IsGreedy, IterationFails;
    runs := [];
    if |prompt| == 0 || warmup == 0 || measured == 0 || decodeTokens.Length == 0 {
      return InvalidBenchmark, runs;
    }
    var total := CheckedAdd(warmup, measured, U64_MAX);
    if total.None? {
      return InvalidBenchmark, runs;
    }
    var recorded := 0;
    for iteration := 0 to total.value
      invariant |runs| == iteration && recorded == if iteration < warmup then 0 else iteration - warmup
      invariant iteration > 0 ==> !IterationFails(session.respond, session.resets, prompt, decodeTokens.Length)
      invariant iteration > 0 ==> session.respond(prompt).Some?
      invariant iteration > 0 ==>
        var g := [session.respond(prompt).value] + decodeTokens[..];
        IsGreedy(session.respond, prompt, g) && forall i :: 0 <= i < |runs| ==> runs[i] == g
    {
      ghost var before := decodeTokens[..];
      var ok := BenchmarkIteration(session, prompt, decodeTokens);
      if !ok {
        return BenchmarkFailed, runs;
      }
      ghost var g := [session.respond(prompt).value] + decodeTokens[..];
      if iteration > 0 {
        SameGreedy(session.respond, prompt, g, [session.respond(prompt).value] + before);
      }
      runs := runs + [g];
      if iteration >= warmup {
        recorded := recorded + 1;
      }
    }
    outcome := Measured(recorded);
  }

  lemma SameGreedy(respond: Responder, prompt: seq<int>, g: seq<int>, h: seq<int>)
    requires IsGreedy(respond, prompt, g) && IsGreedy(respond, prompt, h) && |g| == |h|
    ensures g == h
  {
    GreedyAgree(respond, prompt, g, h, |g|);
    assert g[..|g|] == g && h[..|h|] == h;
  }

  method BenchmarkIteration(session: TokenSession, prompt: seq<int>, decodeTokens: array<int>) returns (ok: bool)
    modifies session, decodeTokens
    ensures ok <==> !IterationFails(session.respond, session.resets, prompt, decodeTokens.Length)
    ensures ok ==> session.respond(prompt).Some?
                   && IsGreedy(session.respond, prompt, [session.respond(prompt).value] + decodeTokens[..])
  {
    hide FailsWithin, IsGreedy;
    ok := session.Reset();
    if !ok {
      return;
    }
    assert [] + prompt == prompt;
    var result := session.Prefill(prompt);
    if result.None? {
      return false;
    }
    var last := session.DecodeGreedy(result.value, decodeTokens);
    if last.Some? {
      DecodeGreedyAgrees(session.respond, prompt, result.value, decodeTokens[..]);
    }
    ok := last.Some?;
  }
}
