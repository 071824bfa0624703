/** The kernel registry: capabilities are matched against operator signatures, the best match
    wins, and answers are remembered until the next registration. */
module Registry {
  import opened Prelude
  import LexOrder

  datatype OperatorKind =
    | UnspecifiedOperator | Matmul | EmbeddingLookup | RmsNorm | ResidualAdd | PartialRope | QkNormalize
    | QkNormRope | SigmoidGate | SwiGlu | CausalAttention | ConvolutionShiftUpdate | RecurrentDeltaUpdate
    | DeltaOutputNormGate | GatedDeltaNet | Argmax

  datatype Regime = HostDispatch | CudaGraph

  datatype Architecture = UnspecifiedArchitecture | Sm90 | Sm120a

  datatype ShapeBucket = UnspecifiedBucket | Decode | Prefill1 | Prefill2 | Prefill4 | Prefill17 | Tail

  datatype Provenance = UnspecifiedProvenance | ProjectNative | UpstreamBw24

  datatype TensorSignature = TensorSignature(dtype: nat, quant: nat, rank: nat, alignment: nat, shape: seq<int>)

  datatype TensorConstraint = TensorConstraint(
    dtype: nat, quant: nat, rank: nat, alignment: nat, minShape: seq<int>, maxShape: seq<int>)

  datatype Signature = Signature(
    op: OperatorKind, regime: Regime, architecture: Architecture, bucket: ShapeBucket,
    graphCapture: bool, deterministic: bool, workspaceBytes: nat, inputs: seq<TensorSignature>)

  datatype Capability = Capability(
    name: seq<byte>, op: OperatorKind, regime: Regime, architecture: Architecture, bucket: ShapeBucket,
    provenance: Provenance, inputs: seq<TensorConstraint>, graphSafe: bool, deterministic: bool,
    workspaceBytes: nat, priority: int)

  // ----- matching -----

  predicate InsideBounds(shape: seq<int>, low: seq<int>, high: seq<int>)
    requires |shape| == |low| == |high|
  {
    forall d :: 0 <= d < |shape| ==> low[d] <= shape[d] <= high[d]
  }

  predicate InputFits(input: TensorSignature, constraint: TensorConstraint) {
    && input.dtype == constraint.dtype && input.quant == constraint.quant && input.rank == constraint.rank
    && input.alignment == constraint.alignment
    && |input.shape| == |constraint.minShape| == |constraint.maxShape| == constraint.rank
    && InsideBounds(input.shape, constraint.minShape, constraint.maxShape)
  }

  predicate AttributesFit(c: Capability, s: Signature) {
    && s.op == c.op && s.regime == c.regime && s.architecture == c.architecture && s.bucket == c.bucket
    && (s.graphCapture ==> c.graphSafe) && (s.deterministic ==> c.deterministic)
    && c.workspaceBytes <= s.workspaceBytes
  }

  predicate Matches(c: Capability, s: Signature) {
    && AttributesFit(c, s) && |s.inputs| == |c.inputs|
    && forall i :: 0 <= i < |c.inputs| ==> InputFits(s.inputs[i], c.inputs[i])
  }

  /** How many reasons an input gives for rejection; the bounds give at most one. */
  method InputReasons(input: TensorSignature, constraint: TensorConstraint) returns (reasons: nat)
    ensures reasons == 0 <==> InputFits(input, constraint)
  {
    reasons := 0;
    if input.dtype != constraint.dtype { reasons := reasons + 1; }
    if input.quant != constraint.quant { reasons := reasons + 1; }
    if input.rank != constraint.rank { reasons := reasons + 1; }
    if input.alignment != constraint.alignment { reasons := reasons + 1; }
    if |input.shape| != constraint.rank || |constraint.minShape| != constraint.rank || |constraint.maxShape| != constraint.rank {
      reasons := reasons + 1;
      return;
    }
    var inside := CheckBounds(input.shape, constraint.minShape, constraint.maxShape);
    reasons := reasons + if inside then 0 else 1;
  }

  method CheckBounds(shape: seq<int>, low: seq<int>, high: seq<int>) returns (inside: bool)
    requires |shape| == |low| == |high|
    ensures inside <==> InsideBounds(shape, low, high)
  {
    for d := 0 to |shape|
      invariant forall e :: 0 <= e < d ==> low[e] <= shape[e] <= high[e]
    {
      if shape[d] < low[d] || shape[d] > high[d] {
        return false;
      }
    }
    inside := true;
  }

  /** How many reasons the fixed attributes give. */
  function AttributeReasons(c: Capability, s: Signature): (reasons: nat)
    ensures reasons == 0 <==> AttributesFit(c, s)
  {
    (if s.op != c.op then 1 else 0) + (if s.regime != c.regime then 1 else 0)
    + (if s.architecture != c.architecture then 1 else 0) + (if s.bucket != c.bucket then 1 else 0)
    + (if s.graphCapture && !c.graphSafe then 1 else 0) + (if s.deterministic && !c.deterministic then 1 else 0)
    + (if s.workspaceBytes < c.workspaceBytes then 1 else 0)
  }

  method RejectionReasons(c: Capability, s: Signature) returns (reasons: nat)
    ensures reasons == 0 <==> Matches(c, s)
    ensures reasons == 0 <==>
      && s.op == c.op && s.regime == c.regime && s.architecture == c.architecture && s.bucket == c.bucket
      && (s.graphCapture ==> c.graphSafe) && (s.deterministic ==> c.deterministic) && c.workspaceBytes <= s.workspaceBytes
      && |s.inputs| == |c.inputs| && forall i :: 0 <= i < |c.inputs| ==>
           && s.inputs[i].dtype == c.inputs[i].dtype && s.inputs[i].quant == c.inputs[i].quant
           && s.inputs[i].rank == c.inputs[i].rank && s.inputs[i].alignment == c.inputs[i].alignment
           && |s.inputs[i].shape| == |c.inputs[i].minShape| == |c.inputs[i].maxShape| == c.inputs[i].rank
           && forall d :: 0 <= d < |s.inputs[i].shape| ==>
                c.inputs[i].minShape[d] <= s.inputs[i].shape[d] <= c.inputs[i].maxShape[d]
  {
    hide InputFits, AttributesFit;
    MatchMeans(c, s);
    reasons := AttributeReasons(c, s);
    if |s.inputs| != |c.inputs| {
      reasons := reasons + 1;
      return;
    }
    for i := 0 to |c.inputs|
      invariant reasons == 0 <==> AttributesFit(c, s) && forall j :: 0 <= j < i ==> InputFits(s.inputs[j], c.inputs[j])
    {
      var more := InputReasons(s.inputs[i], c.inputs[i]);
      reasons := reasons + more;
    }
  }

  lemma MatchMeans(c: Capability, s: Signature)
    ensures Matches(c, s) <==>
      && s.op == c.op && s.regime == c.regime && s.architecture == c.architecture && s.bucket == c.bucket
      && (s.graphCapture ==> c.graphSafe) && (s.deterministic ==> c.deterministic) && c.workspaceBytes <= s.workspaceBytes
      && |s.inputs| == |c.inputs| && forall i :: 0 <= i < |c.inputs| ==>
           && s.inputs[i].dtype == c.inputs[i].dtype && s.inputs[i].quant == c.inputs[i].quant
           && s.inputs[i].rank == c.inputs[i].rank && s.inputs[i].alignment == c.inputs[i].alignment
           && |s.inputs[i].shape| == |c.inputs[i].minShape| == |c.inputs[i].maxShape| == c.inputs[i].rank
           && forall d :: 0 <= d < |s.inputs[i].shape| ==>
                c.inputs[i].minShape[d] <= s.inputs[i].shape[d] <= c.inputs[i].maxShape[d]
  {
  }

  // ----- the best match -----

  /** Higher priority first, then the lesser name. */
  predicate Beats(a: Capability, b: Capability) {
    a.priority > b.priority || (a.priority == b.priority && LexOrder.Less(a.name, b.name))
  }

  ghost predicate DistinctNames(kernels: seq<Capability>) {
    forall i, j :: 0 <= i < j < |kernels| ==> kernels[i].name != kernels[j].name
  }

  /** The kernel matches, and beats every other kernel that does. */
  ghost predicate IsBest(kernels: seq<Capability>, s: Signature, i: nat) {
    && i < |kernels| && Matches(kernels[i], s)
    && forall j :: 0 <= j < |kernels| && j != i && Matches(kernels[j], s) ==> Beats(kernels[i], kernels[j])
  }

  /** One name is a proper start of the other, or has the smaller byte where they first differ. */
  ghost predicate NameBefore(a: seq<byte>, b: seq<byte>) {
    exists k :: 0 <= k <= |a| && k < |b| && a[..k] == b[..k] && (k == |a| || a[k] < b[k])
  }

  /** No matching kernel has a higher priority than the best, nor an equal one and an earlier name. */
  lemma BestMeans(kernels: seq<Capability>, s: Signature, i: nat)
    requires IsBest(kernels, s, i)
    ensures i < |kernels| && Matches(kernels[i], s)
    ensures forall j :: 0 <= j < |kernels| && Matches(kernels[j], s) ==> kernels[j].priority <= kernels[i].priority
    ensures forall j :: 0 <= j < |kernels| && j != i && Matches(kernels[j], s) && kernels[j].priority == kernels[i].priority ==>
      NameBefore(kernels[i].name, kernels[j].name)
  {
    hide Matches, LexOrder.Less, NameBefore;
    forall j | 0 <= j < |kernels| && j != i && Matches(kernels[j], s) && kernels[j].priority == kernels[i].priority
      ensures NameBefore(kernels[i].name, kernels[j].name)
    {
      NameOrder(kernels[i].name, kernels[j].name);
    }
  }

  lemma NameOrder(a: seq<byte>, b: seq<byte>)
    ensures LexOrder.Less(a, b) <==> NameBefore(a, b)
  {
    hide LexOrder.Less;
    LexOrder.FirstDifference(a, b);
  }

  lemma BeatsAsymmetric(a: Capability, b: Capability)
    requires Beats(a, b)
    ensures !Beats(b, a)
  {
    hide LexOrder.Less;
    if a.priority == b.priority {
      LexOrder.Asymmetric(a.name, b.name);
    }
  }

  lemma BeatsTransitive(a: Capability, b: Capability, c: Capability)
    requires Beats(a, b) && Beats(b, c)
    ensures Beats(a, c)
  {
    hide LexOrder.Less;
    if a.priority == b.priority == c.priority {
      LexOrder.Transitive(a.name, b.name, c.name);
    }
  }

  lemma BeatsTotal(a: Capability, b: Capability)
    requires a.name != b.name
    ensures Beats(a, b) || Beats(b, a)
  {
    hide LexOrder.Less;
    LexOrder.Total(a.name, b.name);
  }

  lemma BestAlike(a: seq<Capability>, b: seq<Capability>, s: Signature, i: nat, j: nat)
    requires forall c :: c in a <==> c in b
    requires IsBest(a, s, i) && IsBest(b, s, j)
    ensures a[i] == b[j]
  {
    hide Matches, Beats;
    assert a[i] in b && b[j] in a;
    var p :| 0 <= p < |b| && b[p] == a[i];
    var q :| 0 <= q < |a| && a[q] == b[j];
    if a[i] != b[j] {
      BeatsAsymmetric(b[j], a[i]);
    }
  }

  // ----- the registry -----

  predicate Admissible(c: Capability) {
    && c.op != UnspecifiedOperator && c.architecture == Sm120a && c.bucket != UnspecifiedBucket
    && c.provenance != UnspecifiedProvenance
  }

  /** The kernel found, by position, or the names of those that rejected the signature. */
  datatype Answer = Resolved(index: nat) | NoMatch(rejections: seq<seq<byte>>)

  function Names(kernels: seq<Capability>): (names: seq<seq<byte>>)
    ensures |names| == |kernels|
  {
    seq(|kernels|, i requires 0 <= i < |kernels| => kernels[i].name)
  }

  /** What an uncached search answers. */
  ghost predicate IsAnswer(kernels: seq<Capability>, s: Signature, answer: Answer) {
    match answer
    case Resolved(i) => IsBest(kernels, s, i)
    case NoMatch(rejections) =>
      (forall i :: 0 <= i < |kernels| ==> !Matches(kernels[i], s)) && rejections == Names(kernels)
  }

  lemma AnswerUnique(kernels: seq<Capability>, s: Signature, a: Answer, b: Answer)
    requires IsAnswer(kernels, s, a) && IsAnswer(kernels, s, b)
    ensures a == b
  {
    hide Matches, Beats;
    if a.Resolved? && b.Resolved? && a.index != b.index {
      BeatsAsymmetric(kernels[a.index], kernels[b.index]);
    }
  }

  /** Two registries with the same kernels, in whatever order, resolve a signature to the same kernel
      or fail together with the same rejections. */
  lemma OrderIndependent(a: seq<Capability>, b: seq<Capability>, s: Signature, x: Answer, y: Answer)
    requires DistinctNames(a) && DistinctNames(b) && forall c :: c in a <==> c in b
    requires IsAnswer(a, s, x) && IsAnswer(b, s, y)
    ensures x.Resolved? <==> y.Resolved?
    ensures x.Resolved? ==> a[x.index] == b[y.index]
    ensures x.NoMatch? ==> multiset(x.rejections) == multiset(y.rejections)
  {
    hide Matches, Beats, DistinctNames;
    assert x.Resolved? ==> a[x.index] in b;
    assert y.Resolved? ==> b[y.index] in a;
    if x.Resolved? && y.Resolved? {
      BestAlike(a, b, s, x.index, y.index);
    } else if x.NoMatch? && y.NoMatch? {
      SameNames(a, b);
    }
  }

  lemma SameNames(a: seq<Capability>, b: seq<Capability>)
    requires DistinctNames(a) && DistinctNames(b) && forall c :: c in a <==> c in b
    ensures multiset(Names(a)) == multiset(Names(b))
  {
    forall n
      ensures multiset(Names(a))[n] == multiset(Names(b))[n]
    {
      NameOnce(a, n);
      NameOnce(b, n);
      if n in Names(a) {
        var i :| 0 <= i < |a| && Names(a)[i] == n;
        assert a[i] in b;
        var j :| 0 <= j < |b| && b[j] == a[i];
        assert Names(b)[j] == n;
      }
      if n in Names(b) {
        var j :| 0 <= j < |b| && Names(b)[j] == n;
        assert b[j] in a;
        var i :| 0 <= i < |a| && a[i] == b[j];
        assert Names(a)[i] == n;
      }
    }
  }

  lemma {:induction false} NameOnce(kernels: seq<Capability>, n: seq<byte>)
    requires DistinctNames(kernels)
    ensures multiset(Names(kernels))[n] == if n in Names(kernels) then 1 else 0
  {
    if |kernels| > 0 {
      var front, last := kernels[..|kernels| - 1], kernels[|kernels| - 1];
      NameOnce(front, n);
      assert Names(kernels) == Names(front) + [last.name];
      assert forall i :: 0 <= i < |front| ==> Names(front)[i] != last.name;
    }
  }

  class OperatorRegistry {
    var registrations: seq<Capability>
    var names: set<seq<byte>>
    var cache: map<Signature, nat>

    ghost predicate Valid()
      reads this
    {
      && DistinctNames(registrations)
      && (forall name :: name in names <==> name in Names(registrations))
      && forall s :: s in cache ==> IsBest(registrations, s, cache[s])
    }

    constructor ()
      ensures Valid() && registrations == []
    {
      registrations := [];
      names := {};
      cache := map[];
    }

    /** Adds a kernel and forgets the remembered answers, or changes nothing. */
    method Register(c: Capability) returns (ok: bool)
      requires Valid()
      modifies this
      ensures Valid()
      ensures ok <==> Admissible(c) && c.name !in Names(old(registrations))
      ensures ok <==>
        && c.op != UnspecifiedOperator && c.architecture == Sm120a && c.bucket != UnspecifiedBucket
        && c.provenance != UnspecifiedProvenance
        && forall j :: 0 <= j < |old(registrations)| ==> old(registrations)[j].name != c.name
      ensures registrations == if ok then old(registrations) + [c] else old(registrations)
      ensures cache == if ok then map[] else old(cache)
    {
      hide IsBest;
      if c.op == UnspecifiedOperator || c.architecture == UnspecifiedArchitecture || c.architecture != Sm120a
         || c.bucket == UnspecifiedBucket || c.provenance == UnspecifiedProvenance || c.name in names {
        NewName(registrations, c.name);
        return false;
      }
      NamesGrow(registrations, c);
      NewName(registrations, c.name);
      names := names + {c.name};
      registrations := registrations + [c];
      cache := map[];
      ok := true;
    }

    /** Answers as an uncached search would, remembering what it found. */
    method Resolve(s: Signature) returns (answer: Answer)
      requires Valid()
      modifies this`cache
      ensures Valid()
      ensures IsAnswer(registrations, s, answer)
      ensures answer.Resolved? ==> answer.index < |registrations| && Matches(registrations[answer.index], s)
      ensures answer.Resolved? ==> forall j :: 0 <= j < |registrations| && Matches(registrations[j], s) ==>
        registrations[j].priority <= registrations[answer.index].priority
        && (j != answer.index && registrations[j].priority == registrations[answer.index].priority ==>
              NameBefore(registrations[answer.index].name, registrations[j].name))
      ensures answer.NoMatch? ==> forall j :: 0 <= j < |registrations| ==> !Matches(registrations[j], s)
      ensures cache == if answer.Resolved? then old(cache)[s := answer.index] else old(cache)
    {
      hide IsBest, Matches, NameBefore;
      if s in cache {
        BestMeans(registrations, s, cache[s]);
        assert cache == cache[s := cache[s]];
        return Resolved(cache[s]);
      }
      var best, rejections := Scan(registrations, s);
      if best.None? {
        return NoMatch(rejections);
      }
      BestMeans(registrations, s, best.value);
      cache := cache[s := best.value];
      answer := Resolved(best.value);
    }
  }

  lemma NewName(kernels: seq<Capability>, name: seq<byte>)
    ensures name !in Names(kernels) <==> forall j :: 0 <= j < |kernels| ==> kernels[j].name != name
  {
    if name !in Names(kernels) {
      forall j | 0 <= j < |kernels|
        ensures kernels[j].name != name
      {
        assert Names(kernels)[j] == kernels[j].name;
      }
    }
  }

  lemma NamesGrow(kernels: seq<Capability>, c: Capability)
    requires DistinctNames(kernels) && c.name !in Names(kernels)
    ensures DistinctNames(kernels + [c])
    ensures forall name :: name in Names(kernels + [c]) <==> name in Names(kernels) || name == c.name
  {
    assert Names(kernels + [c]) == Names(kernels) + [c.name];
    forall i | 0 <= i < |kernels|
      ensures kernels[i].name != c.name
    {
      assert Names(kernels)[i] == kernels[i].name;
    }
  }

  /** The search: every kernel either rejects the signature or competes with the best so far. */
  method Scan(kernels: seq<Capability>, s: Signature) returns (best: Option<nat>, rejections: seq<seq<byte>>)
    requires DistinctNames(kernels)
    ensures best.Some? ==> IsBest(kernels, s, best.value)
    ensures best.Some? ==> best.value < |kernels| && Matches(kernels[best.value], s)
    ensures best.Some? ==> forall j :: 0 <= j < |kernels| && Matches(kernels[j], s) ==>
      kernels[j].priority <= kernels[best.value].priority
      && (j != best.value && kernels[j].priority == kernels[best.value].priority ==>
            NameBefore(kernels[best.value].name, kernels[j].name))
    ensures best.None? ==> IsAnswer(kernels, s, NoMatch(rejections))
  {
    hide Matches, Beats, DistinctNames, IsBest, NameBefore;
    best, rejections := None, [];
    for i := 0 to |kernels|
      invariant best.Some? ==> IsBest(kernels[..i], s, best.value)
      invariant best.None? ==> (forall j :: 0 <= j < i ==> !Matches(kernels[j], s)) && rejections == Names(kernels[..i])
    {
      assert kernels[..i + 1] == kernels[..i] + [kernels[i]];
      NextCandidate(kernels, s, i);
      var reasons := RejectionReasons(kernels[i], s);
      if reasons != 0 {
        rejections := rejections + [kernels[i].name];
      } else if best.None? || Beats(kernels[i], kernels[best.value]) {
        best := Some(i);
      }
    }
    assert kernels[..|kernels|] == kernels;
    if best.Some? {
      BestMeans(kernels, s, best.value);
    }
  }

  /** How one more kernel changes which is best. */
  lemma NextCandidate(kernels: seq<Capability>, s: Signature, i: nat)
    requires DistinctNames(kernels) && i < |kernels|
    ensures forall b: nat :: IsBest(kernels[..i], s, b) ==>
      b < i && IsBest(kernels[..i + 1], s, if Matches(kernels[i], s) && Beats(kernels[i], kernels[b]) then i else b)
    ensures Matches(kernels[i], s) && (forall j :: 0 <= j < i ==> !Matches(kernels[j], s)) ==> IsBest(kernels[..i + 1], s, i)
  {
    hide Matches, Beats;
    forall b: nat | IsBest(kernels[..i], s, b)
      ensures b < i && IsBest(kernels[..i + 1], s, if Matches(kernels[i], s) && Beats(kernels[i], kernels[b]) then i else b)
    {
      BeatsTotal(kernels[i], kernels[b]);
      if Beats(kernels[i], kernels[b]) {
        forall j | 0 <= j < i && Matches(kernels[j], s)
          ensures Beats(kernels[i], kernels[j])
        {
          if j != b {
            assert kernels[..i][j] == kernels[j];
            BeatsTransitive(kernels[i], kernels[b], kernels[j]);
          }
        }
      }
      forall j | 0 <= j < i && j != b && Matches(kernels[j], s)
        ensures Beats(kernels[b], kernels[j])
      {
        assert kernels[..i][j] == kernels[j];
      }
    }
  }

  // ----- runs -----

  datatype Operation = RegisterKernel(kernel: Capability) | ResolveKernel(signature: Signature)

  /** The kernels a run has admitted. */
  ghost function Admitted(operations: seq<Operation>): seq<Capability> {
    if |operations| == 0 then []
    else
      var before, last := Admitted(operations[..|operations| - 1]), operations[|operations| - 1];
      if last.RegisterKernel? && Admissible(last.kernel) && last.kernel.name !in Names(before)
      then before + [last.kernel] else before
  }

  /** One operation after those `before`. */
  method Serve(registry: OperatorRegistry, operation: Operation, ghost before: seq<Operation>)
    returns (answer: Option<Answer>)
    requires registry.Valid() && registry.registrations == Admitted(before)
    modifies registry
    ensures registry.Valid() && registry.registrations == Admitted(before + [operation])
    ensures answer.Some? <==> operation.ResolveKernel?
    ensures answer.Some? ==> IsAnswer(Admitted(before), operation.signature, answer.value)
  {
    hide IsAnswer, Admissible, Matches, NameBefore, Names;
    assert (before + [operation])[..|before|] == before;
    match operation {
      case RegisterKernel(kernel) =>
        var _ := registry.Register(kernel);
        answer := None;
      case ResolveKernel(signature) =>
        var found := registry.Resolve(signature);
        answer := Some(found);
    }
  }

  /** Any interleaving of registrations and resolutions, failing or not: every answer is the
      uncached answer over the kernels admitted so far. */
  method Replay(operations: seq<Operation>) returns (registry: OperatorRegistry, answers: seq<Option<Answer>>)
    ensures registry.Valid() && registry.registrations == Admitted(operations)
    ensures |answers| == |operations|
    ensures forall i :: 0 <= i < |operations| ==> (answers[i].Some? <==> operations[i].ResolveKernel?)
    ensures forall i :: 0 <= i < |operations| && answers[i].Some? ==>
      IsAnswer(Admitted(operations[..i]), operations[i].signature, answers[i].value)
  {
    hide IsAnswer, Admissible;
    registry := new OperatorRegistry();
    answers := [];
    for i := 0 to |operations|
      invariant registry.Valid() && fresh(registry) && registry.registrations == Admitted(operations[..i]) && |answers| == i
      invariant forall j :: 0 <= j < i ==> (answers[j].Some? <==> operations[j].ResolveKernel?)
      invariant forall j :: 0 <= j < i && answers[j].Some? ==>
        IsAnswer(Admitted(operations[..j]), operations[j].signature, answers[j].value)
    {
      assert operations[..i + 1] == operations[..i] + [operations[i]];
      var answer := Serve(registry, operations[i], operations[..i]);
      answers := answers + [answer];
    }
    assert operations[..|operations|] == operations;
  }
}
