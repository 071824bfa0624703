/** A session: requests checked against the model and the context, an executor that may fail
    at any call, and the host state that must stay in step with it. */
module Session {
  import opened Prelude
  import opened Qwen35Config
  import Scalars
  import StateLayout
  import HostState

  /** What the executor does with a call it is given. */
  datatype Outcome = Throws | Returns(token: int, at: nat)

  /** How a call ends: refused before the executor ran, failed in or for want of an executor,
      or done. */
  datatype Reply = Refused | Failed | Done(token: int, at: nat)

  class Session {
    const vocabularySize: nat
    const hasExecutor: bool
    const state: HostState.HostState

    ghost predicate Valid()
      reads this, state, state.fullKvLengths
    {
      state.Valid() && state.Lockstep() && state.layout.maxContextTokens <= U32_MAX
    }

    ghost function Position(): nat
      reads this, state
    {
      state.position
    }

    constructor (vocabularySize: nat, hasExecutor: bool, layout: StateLayout.Layout)
      requires StateLayout.Sound(layout) && StateLayout.Widths(layout)
      ensures Valid() && Position() == 0 && fresh(state) && fresh(state.fullKvLengths)
      ensures this.vocabularySize == vocabularySize && this.hasExecutor == hasExecutor && state.layout == layout
    {
      this.vocabularySize := vocabularySize;
      this.hasExecutor := hasExecutor;
      state := new HostState.HostState(layout, false);
    }

    method ValidateRequest(tokens: seq<int>) returns (ok: bool)
      requires Valid()
      ensures ok <==> 0 < |tokens| && Position() + |tokens| <= state.layout.maxContextTokens
                      && forall i :: 0 <= i < |tokens| ==> 0 <= tokens[i] < vocabularySize
    {
      hide StateLayout.Sound, StateLayout.Widths;
      if |tokens| == 0 || |tokens| > state.layout.maxContextTokens - state.position {
        return false;
      }
      for i := 0 to |tokens|
        invariant forall j :: 0 <= j < i ==> 0 <= tokens[j] < vocabularySize
      {
        if tokens[i] < 0 || tokens[i] >= vocabularySize {
          return false;
        }
      }
      ok := true;
    }

    /** Runs the executor and commits what it consumed. The commit cannot fail: whenever the
        request fitted and the executor returned, the call is done. */
    method Run(count: nat, outcome: Outcome) returns (r: Reply)
      requires Valid() && Position() + count <= state.layout.maxContextTokens
      modifies state`position, state.fullKvLengths
      ensures Valid()
      ensures r == if hasExecutor && outcome.Returns? then Done(outcome.token, outcome.at) else Failed
      ensures Position() == old(Position()) + if r.Done? then count else 0
    {
      hide StateLayout.Sound, StateLayout.Widths;
      if !hasExecutor || outcome.Throws? {
        return Failed;
      }
      var committed := state.CommitTokens(count % 0x1_0000_0000);
      r := if committed then Done(outcome.token, outcome.at) else Failed;
    }

    method Prefill(tokens: seq<int>, outcome: Outcome) returns (r: Reply)
      requires Valid()
      modifies state`position, state.fullKvLengths
      ensures Valid()
      ensures r == ReplyTo(PrefillCall(tokens, outcome), old(Snapshot()))
      ensures r.Refused? <==> |tokens| == 0 || old(Position()) + |tokens| > state.layout.maxContextTokens
                              || exists i :: 0 <= i < |tokens| && !(0 <= tokens[i] < vocabularySize)
      ensures !r.Refused? ==> r == if hasExecutor && outcome.Returns? then Done(outcome.token, outcome.at) else Failed
      ensures Position() == old(Position()) + if r.Done? then |tokens| else 0
      ensures forall i :: 0 <= i < state.fullKvLengths.Length ==> state.fullKvLengths[i] == Position()
    {
      hide StateLayout.Sound, StateLayout.Widths;
      var ok := ValidateRequest(tokens);
      if !ok {
        return Refused;
      }
      r := Run(|tokens|, outcome);
    }

    method Decode(token: int, outcome: Outcome) returns (r: Reply)
      requires Valid()
      modifies state`position, state.fullKvLengths
      ensures Valid()
      ensures r == ReplyTo(DecodeCall(token, outcome), old(Snapshot()))
      ensures r.Refused? <==> old(Position()) >= state.layout.maxContextTokens || !(0 <= token < vocabularySize)
      ensures !r.Refused? ==> r == if hasExecutor && outcome.Returns? then Done(outcome.token, outcome.at) else Failed
      ensures Position() == old(Position()) + if r.Done? then 1 else 0
      ensures forall i :: 0 <= i < state.fullKvLengths.Length ==> state.fullKvLengths[i] == Position()
    {
      hide StateLayout.Sound, StateLayout.Widths;
      assert [token][0] == token;
      var ok := ValidateRequest([token]);
      if !ok {
        return Refused;
      }
      r := Run(1, outcome);
    }

    /** Feeds a first token and all but the last of the `count` tokens it produces. */
    method DecodeGreedy(first: int, count: nat, outcome: Outcome) returns (r: Reply)
      requires Valid()
      modifies state`position, state.fullKvLengths
      ensures Valid()
      ensures r == ReplyTo(GreedyCall(first, count, outcome), old(Snapshot()))
      ensures r.Refused? <==> count == 0 || old(Position()) + count > state.layout.maxContextTokens
                              || !(0 <= first < vocabularySize)
      ensures !r.Refused? ==> r == if hasExecutor && outcome.Returns? then Done(outcome.token, outcome.at) else Failed
      ensures Position() == old(Position()) + if r.Done? then count else 0
      ensures forall i :: 0 <= i < state.fullKvLengths.Length ==> state.fullKvLengths[i] == Position()
    {
      hide StateLayout.Sound, StateLayout.Widths;
      if count == 0 || count > state.layout.maxContextTokens - state.position {
        return Refused;
      }
      assert [first][0] == first;
      var ok := ValidateRequest([first]);
      if !ok {
        return Refused;
      }
      r := Run(count, outcome);
    }

    /** A reset whose executor fails leaves the host state as it was. */
    method Reset(executorResets: bool) returns (ok: bool)
      requires Valid()
      modifies state`position, state.fullKvLengths, state.linearConvolution, state.linearRecurrent, state.fullKv
      ensures Valid()
      ensures ok <==> !hasExecutor || executorResets
      ensures Position() == if ok then 0 else old(Position())
      ensures !ok ==> unchanged(state, state.fullKvLengths, state.linearConvolution, state.linearRecurrent, state.fullKv)
      ensures ok ==> forall i :: 0 <= i < state.fullKvLengths.Length ==> state.fullKvLengths[i] == 0
      ensures ok ==> (forall i :: 0 <= i < state.linearConvolution.Length ==> state.linearConvolution[i] == Scalars.Zero)
                     && (forall i :: 0 <= i < state.linearRecurrent.Length ==> state.linearRecurrent[i] == Scalars.Zero)
                     && (forall i :: 0 <= i < state.fullKv.Length ==> state.fullKv[i] == Scalars.Zero)
    {
      if hasExecutor && !executorResets {
        return false;
      }
      state.Reset();
      ok := true;
    }

    ghost function Snapshot(): View
      reads this, state
    {
      View(vocabularySize, hasExecutor, state.layout.maxContextTokens, state.position)
    }

    method Call(call: Call) returns (event: Event)
      requires Valid()
      modifies state`position, state.fullKvLengths, state.linearConvolution, state.linearRecurrent, state.fullKv
      ensures Valid()
      ensures event == EventOf(call, old(Snapshot())) && Snapshot() == After(call, old(Snapshot()))
    {
      match call {
        case PrefillCall(tokens, outcome) =>
          var r := Prefill(tokens, outcome);
          event := if r.Done? then Committed(|tokens|) else Unchanged;
        case DecodeCall(token, outcome) =>
          var r := Decode(token, outcome);
          event := if r.Done? then Committed(1) else Unchanged;
        case GreedyCall(first, count, outcome) =>
          var r := DecodeGreedy(first, count, outcome);
          event := if r.Done? then Committed(count) else Unchanged;
        case ResetCall(executorResets) =>
          var ok := Reset(executorResets);
          event := if ok then Cleared else Unchanged;
      }
    }

    /** Any sequence of calls, each with whatever the executor makes of it. */
    method Drive(calls: seq<Call>) returns (events: seq<Event>)
      requires Valid() && Position() == 0
      modifies state`position, state.fullKvLengths, state.linearConvolution, state.linearRecurrent, state.fullKv
      ensures Valid() && events == EventsOf(calls, old(Snapshot())) && Snapshot() == AfterAll(calls, old(Snapshot()))
      ensures Position() == SinceReset(events) <= state.layout.maxContextTokens
    {
      events := [];
      ghost var start := Snapshot();
      for i := 0 to |calls|
        invariant Valid() && events == EventsOf(calls[..i], start) && Snapshot() == AfterAll(calls[..i], start)
      {
        assert calls[..i + 1][..i] == calls[..i];
        var event := Call(calls[i]);
        events := events + [event];
      }
      assert calls[..|calls|] == calls;
      RunInStep(calls, start);
    }
  }

  /** Opens a session for at most `maxContext` tokens. */
  method Open(c: Config, maxContext: nat, maxLengths: nat, maxFloats: nat, hasExecutor: bool) returns (r: Result<Session>)
    requires StateLayout.ConfigWidths(c) && maxContext <= U32_MAX
    ensures r.Ok? <==> maxContext <= c.contextLength && StateLayout.Admissible(c, maxContext, maxLengths, maxFloats)
    ensures r.Ok? ==> StateLayout.Describes(c, maxContext, r.value.state.layout)
    ensures r.Ok? ==> r.value.Valid() && r.value.Position() == 0 && fresh(r.value) && r.value.vocabularySize == c.vocabularySize
  {
    hide StateLayout.Sound, StateLayout.Describes, StateLayout.Widths, StateLayout.Admissible;
    if maxContext > c.contextLength {
      return Err;
    }
    var layout := StateLayout.CreateThenValidate(c, maxContext, maxLengths, maxFloats);
    if layout.Err? {
      return Err;
    }
    var session := new Session(c.vocabularySize, hasExecutor, layout.value);
    r := Ok(session);
  }

  // ----- the protocol on values -----

  datatype View = View(vocabulary: nat, hasExecutor: bool, maxContext: nat, position: nat)

  datatype Call =
    | PrefillCall(tokens: seq<int>, outcome: Outcome)
    | DecodeCall(token: int, outcome: Outcome)
    | GreedyCall(first: int, count: nat, outcome: Outcome)
    | ResetCall(executorResets: bool)

  datatype Event = Committed(count: nat) | Unchanged | Cleared

  /** The tokens a call would consume. */
  function Cost(call: Call): nat {
    match call
    case PrefillCall(tokens, _) => |tokens|
    case DecodeCall(_, _) => 1
    case GreedyCall(_, count, _) => count
    case ResetCall(_) => 0
  }

  /** The tokens the caller supplies. */
  function Supplied(call: Call): seq<int> {
    match call
    case PrefillCall(tokens, _) => tokens
    case DecodeCall(token, _) => [token]
    case GreedyCall(first, _, _) => [first]
    case ResetCall(_) => []
  }

  ghost predicate Acceptable(call: Call, v: View)
    requires !call.ResetCall?
  {
    0 < Cost(call) && v.position + Cost(call) <= v.maxContext && InVocabulary(Supplied(call), v.vocabulary)
  }

  ghost function ReplyTo(call: Call, v: View): Reply
    requires !call.ResetCall?
  {
    if !Acceptable(call, v) then Refused
    else if v.hasExecutor && call.outcome.Returns? then Done(call.outcome.token, call.outcome.at)
    else Failed
  }

  ghost function EventOf(call: Call, v: View): Event {
    if call.ResetCall? then if !v.hasExecutor || call.executorResets then Cleared else Unchanged
    else if ReplyTo(call, v).Done? then Committed(Cost(call)) else Unchanged
  }

  ghost function After(call: Call, v: View): View {
    match EventOf(call, v)
    case Committed(count) => v.(position := v.position + count)
    case Unchanged => v
    case Cleared => v.(position := 0)
  }

  ghost function AfterAll(calls: seq<Call>, v: View): View {
    if |calls| == 0 then v else After(calls[|calls| - 1], AfterAll(calls[..|calls| - 1], v))
  }

  ghost function EventsOf(calls: seq<Call>, v: View): seq<Event> {
    if |calls| == 0 then []
    else EventsOf(calls[..|calls| - 1], v) + [EventOf(calls[|calls| - 1], AfterAll(calls[..|calls| - 1], v))]
  }

  /** Tokens committed after the last successful reset. */
  function SinceReset(events: seq<Event>): nat {
    if |events| == 0 then 0
    else match events[|events| - 1]
      case Committed(count) => SinceReset(events[..|events| - 1]) + count
      case Unchanged => SinceReset(events[..|events| - 1])
      case Cleared => 0
  }

  /** Over every run the position counts the tokens since the last successful reset and never
      passes the context. */
  lemma {:induction false} RunInStep(calls: seq<Call>, v: View)
    requires v.position == 0
    ensures AfterAll(calls, v).position == SinceReset(EventsOf(calls, v)) <= v.maxContext
    ensures AfterAll(calls, v) == v.(position := AfterAll(calls, v).position)
  {
    if |calls| > 0 {
      var front := calls[..|calls| - 1];
      RunInStep(front, v);
      var events := EventsOf(calls, v);
      assert events[..|events| - 1] == EventsOf(front, v);
    }
  }
}
