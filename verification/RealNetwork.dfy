/** The network over exact real numbers, from the definitions of its parts: no packed rows, no state
    carried along, no running maximum, no transposed copy. A layer's output at a token is written
    in terms of the rows of the tokens up to it. */
module RealNetwork {
  import opened Matrix
  import opened Readings
  import opened Qwen35Config
  import opened ReferenceNetwork

  type Vector = seq<real>

  ghost predicate Wide(xs: seq<Vector>, w: nat) {
    forall t :: 0 <= t < |xs| ==> |xs[t]| == w
  }

  // ----- parts every layer uses -----

  /** Output `o` is the inner product with row `o` of the weight. */
  function Affine(weight: Vector, outputs: nat, x: Vector): (y: Vector)
    requires |weight| == Offset(outputs, |x|)
    ensures |y| == outputs
  {
    seq(outputs, o requires 0 <= o < outputs => Dot(x, Row(weight, outputs, |x|, o)))
  }

  /** Over the root of the mean square. */
  function Rms(rd: Reading, x: Vector, weight: Vector, epsilon: real): (y: Vector)
    requires |weight| == |x|
    ensures |y| == |x|
  {
    var root := rd.sqrt(Ratio(Dot(x, x), |x| as real) + epsilon);
    Times(Scaled(x, Ratio(1.0, root)), weight)
  }

  function Logistic(rd: Reading, x: real): real { Ratio(1.0, 1.0 + rd.exp(-x)) }

  function Swish(rd: Reading, x: real): real { Product(x, Logistic(rd, x)) }

  function Sum(x: Vector, y: Vector): (z: Vector)
    requires |x| == |y|
    ensures |z| == |x|
  {
    seq(|x|, i requires 0 <= i < |x| => x[i] + y[i])
  }

  function SwishTimes(rd: Reading, gate: Vector, x: Vector): (y: Vector)
    requires |gate| == |x|
    ensures |y| == |x|
  {
    seq(|x|, i requires 0 <= i < |x| => Product(Swish(rd, gate[i]), x[i]))
  }

  function FeedForward(rd: Reading, c: Config, w: LayerWeights, x: Vector): (y: Vector)
    requires LayerFits(c, w) && |x| == c.hiddenSize
    ensures |y| == c.hiddenSize
  {
    var gate := Affine(Vec(rd, w.ffnGate), c.intermediateSize, x);
    var up := Affine(Vec(rd, w.ffnUp), c.intermediateSize, x);
    Affine(Vec(rd, w.ffnDown), c.hiddenSize, SwishTimes(rd, gate, up))
  }

  // ----- full attention -----

  /** Places `i` and `i + rotary / 2` turned by `position` over the `2 i / rotary`-th power of the base. */
  function Rope(rd: Reading, x: Vector, rotary: nat, position: nat, base: real): (y: Vector)
    requires rotary <= |x|
    ensures |y| == |x|
  {
    var half := rotary / 2;
    seq(|x|, i requires 0 <= i < |x| =>
      if i < half then
        var a := Turn(rd, i, rotary, position, base); x[i] * rd.cos(a) - x[i + half] * rd.sin(a)
      else if i < half + half then
        var a := Turn(rd, i - half, rotary, position, base); x[i - half] * rd.sin(a) + x[i] * rd.cos(a)
      else x[i])
  }

  function Turn(rd: Reading, i: nat, rotary: nat, position: nat, base: real): real {
    Ratio(position as real, rd.pow(base, Ratio((2 * i) as real, rotary as real)))
  }

  /** Each number's exponential over the sum of all of them. */
  function SoftmaxOf(rd: Reading, xs: Vector): (p: Vector)
    ensures |p| == |xs|
  {
    var es := seq(|xs|, j requires 0 <= j < |xs| => rd.exp(xs[j]));
    seq(|xs|, j requires 0 <= j < |xs| => Ratio(es[j], Total(es)))
  }

  function Scores(rd: Reading, q: Vector, keys: seq<Vector>): (scores: Vector)
    requires Wide(keys, |q|)
    ensures |scores| == |keys|
  {
    seq(|keys|, j requires 0 <= j < |keys| => Ratio(Dot(q, keys[j]), rd.sqrt(|q| as real)))
  }

  function AttentionWeights(rd: Reading, q: Vector, keys: seq<Vector>): (p: Vector)
    requires Wide(keys, |q|)
    ensures |p| == |keys|
  {
    SoftmaxOf(rd, Scores(rd, q, keys))
  }

  function Component(vs: seq<Vector>, d: nat): (column: Vector)
    requires forall j :: 0 <= j < |vs| ==> d < |vs[j]|
    ensures |column| == |vs|
  {
    seq(|vs|, j requires 0 <= j < |vs| => vs[j][d])
  }

  /** One head of scaled dot-product attention. */
  function Attend(rd: Reading, q: Vector, keys: seq<Vector>, values: seq<Vector>): (out: Vector)
    requires |keys| == |values| && Wide(keys, |q|) && Wide(values, |q|)
    ensures |out| == |q|
  {
    seq(|q|, d requires 0 <= d < |q| => Dot(AttentionWeights(rd, q, keys), Component(values, d)))
  }

  /** Query and gate of head `h` stand side by side in the query projection. */
  function QueryGate(rd: Reading, c: Config, w: FullMixerWeights, x: Vector, h: nat): (qg: Vector)
    requires FullFits(c, w) && |x| == c.hiddenSize && h < c.fullHeads
    ensures |qg| == c.fullHeadDim + c.fullHeadDim
  {
    OffsetDouble(c.fullHeads, c.fullHeadDim);
    Row(Affine(Vec(rd, w.query), QueryWidth(c) + QueryWidth(c), x), c.fullHeads, c.fullHeadDim + c.fullHeadDim, h)
  }

  function QueryAt(rd: Reading, c: Config, w: FullMixerWeights, x: Vector, h: nat, t: nat): (q: Vector)
    requires FullFits(c, w) && |x| == c.hiddenSize && h < c.fullHeads
    ensures |q| == c.fullHeadDim
  {
    Rope(rd, Rms(rd, QueryGate(rd, c, w, x, h)[..c.fullHeadDim], Vec(rd, w.queryNorm), rd.stored(c.epsilon)),
         c.rotaryDim, t, rd.stored(c.ropeBase))
  }

  function KeyAt(rd: Reading, c: Config, w: FullMixerWeights, x: Vector, g: nat, t: nat): (k: Vector)
    requires FullFits(c, w) && |x| == c.hiddenSize && g < c.fullKvHeads
    ensures |k| == c.fullHeadDim
  {
    Rope(rd, Rms(rd, Row(Affine(Vec(rd, w.key), KvWidth(c), x), c.fullKvHeads, c.fullHeadDim, g),
                 Vec(rd, w.keyNorm), rd.stored(c.epsilon)),
         c.rotaryDim, t, rd.stored(c.ropeBase))
  }

  function ValueAt(rd: Reading, c: Config, w: FullMixerWeights, x: Vector, g: nat): (v: Vector)
    requires FullFits(c, w) && |x| == c.hiddenSize && g < c.fullKvHeads
    ensures |v| == c.fullHeadDim
  {
    Row(Affine(Vec(rd, w.value), KvWidth(c), x), c.fullKvHeads, c.fullHeadDim, g)
  }

  /** The keys (values) of head `g` for the first `n` tokens. */
  function KeysAt(rd: Reading, c: Config, w: FullMixerWeights, xs: seq<Vector>, g: nat, n: nat): (keys: seq<Vector>)
    requires FullFits(c, w) && Wide(xs, c.hiddenSize) && g < c.fullKvHeads && n <= |xs|
    ensures |keys| == n && Wide(keys, c.fullHeadDim)
  {
    seq(n, j requires 0 <= j < n => KeyAt(rd, c, w, xs[j], g, j))
  }

  function ValuesAt(rd: Reading, c: Config, w: FullMixerWeights, xs: seq<Vector>, g: nat, n: nat): (values: seq<Vector>)
    requires FullFits(c, w) && Wide(xs, c.hiddenSize) && g < c.fullKvHeads && n <= |xs|
    ensures |values| == n && Wide(values, c.fullHeadDim)
  {
    seq(n, j requires 0 <= j < n => ValueAt(rd, c, w, xs[j], g))
  }

  function LetThrough(rd: Reading, x: Vector, gate: Vector): (y: Vector)
    requires |x| == |gate|
    ensures |y| == |x|
  {
    seq(|x|, d requires 0 <= d < |x| => Product(x[d], Logistic(rd, gate[d])))
  }

  /** What head `h` of token `t` answers from the tokens up to it, let through by its gate. */
  function HeadAt(rd: Reading, c: Config, w: FullMixerWeights, xs: seq<Vector>, t: nat, h: nat): (out: Vector)
    requires FullFits(c, w) && Wide(xs, c.hiddenSize) && t < |xs| && h < c.fullHeads
    ensures |out| == c.fullHeadDim
  {
    var g := FullArgsOf(c, 1).KvHead(h);
    var answer := Attend(rd, QueryAt(rd, c, w, xs[t], h, t), KeysAt(rd, c, w, xs, g, t + 1), ValuesAt(rd, c, w, xs, g, t + 1));
    var gate := QueryGate(rd, c, w, xs[t], h)[c.fullHeadDim..];
    LetThrough(rd, answer, gate)
  }

  function HeadsAt(rd: Reading, c: Config, w: FullMixerWeights, xs: seq<Vector>, t: nat): (heads: seq<Vector>)
    requires FullFits(c, w) && Wide(xs, c.hiddenSize) && t < |xs|
    ensures |heads| == c.fullHeads && Wide(heads, c.fullHeadDim)
  {
    seq(c.fullHeads, h requires 0 <= h < c.fullHeads => HeadAt(rd, c, w, xs, t, h))
  }

  function FullAt(rd: Reading, c: Config, w: FullMixerWeights, xs: seq<Vector>, t: nat): (y: Vector)
    requires FullFits(c, w) && Wide(xs, c.hiddenSize) && t < |xs|
    ensures |y| == c.hiddenSize
  {
    Affine(Vec(rd, w.output), c.hiddenSize,
           Flatten(HeadsAt(rd, c, w, xs, t), c.fullHeadDim))
  }

  // ----- the gated delta mixer -----

  /** The inputs channel `ch` sees in a window of `width` tokens ending at `t`, zero before the first token. */
  function Window(us: seq<Vector>, t: nat, width: nat, ch: nat): (window: Vector)
    requires t < |us| && 0 < width && forall j :: 0 <= j < |us| ==> ch < |us[j]|
    ensures |window| == width
  {
    seq(width, i requires 0 <= i < width => if t + i < width - 1 then 0.0 else us[t + i - (width - 1)][ch])
  }

  function Projected(rd: Reading, c: Config, w: LinearMixerWeights, xs: seq<Vector>): (us: seq<Vector>)
    requires LinearFits(c, w) && Wide(xs, c.hiddenSize)
    ensures |us| == |xs| && Wide(us, QkvWidth(c))
  {
    seq(|xs|, j requires 0 <= j < |xs| => Affine(Vec(rd, w.qkv), QkvWidth(c), xs[j]))
  }

  /** The causal convolution of the projected rows. */
  function ConvolvedAt(rd: Reading, c: Config, w: LinearMixerWeights, xs: seq<Vector>, t: nat): (y: Vector)
    requires LinearFits(c, w) && Wide(xs, c.hiddenSize) && t < |xs|
    ensures |y| == QkvWidth(c)
  {
    var us := Projected(rd, c, w, xs);
    seq(QkvWidth(c), ch requires 0 <= ch < QkvWidth(c) =>
      Swish(rd, Dot(Window(us, t, c.convolutionWidth, ch), Row(Vec(rd, w.delta.conv), QkvWidth(c), c.convolutionWidth, ch))))
  }

  /** Over the root of the sum of squares. */
  function Unit(rd: Reading, x: Vector): (y: Vector)
    ensures |y| == |x|
  {
    Scaled(x, Ratio(1.0, rd.sqrt(Dot(x, x) + 0.000001)))
  }

  /** Query (key) of key head `k`, and the value of value head `h`: the convolved row is all the
      queries, all the keys, all the values. */
  function DeltaQuery(rd: Reading, c: Config, y: Vector, k: nat): (q: Vector)
    requires |y| == QkvWidth(c) && k < c.linearKeyHeads
    ensures |q| == c.linearHeadDim
  {
    var keys := Offset(c.linearKeyHeads, c.linearHeadDim);
    Scaled(Unit(rd, Row(y[..keys], c.linearKeyHeads, c.linearHeadDim, k)), Ratio(1.0, rd.sqrt(c.linearHeadDim as real)))
  }

  function DeltaKey(rd: Reading, c: Config, y: Vector, k: nat): (key: Vector)
    requires |y| == QkvWidth(c) && k < c.linearKeyHeads
    ensures |key| == c.linearHeadDim
  {
    var keys := Offset(c.linearKeyHeads, c.linearHeadDim);
    Unit(rd, Row(y[keys..keys + keys], c.linearKeyHeads, c.linearHeadDim, k))
  }

  function DeltaValue(c: Config, y: Vector, h: nat): (v: Vector)
    requires |y| == QkvWidth(c) && h < c.linearValueHeads
    ensures |v| == c.linearHeadDim
  {
    var keys := Offset(c.linearKeyHeads, c.linearHeadDim);
    Row(y[keys + keys..], c.linearValueHeads, c.linearHeadDim, h)
  }

  /** How much of what it misses a head writes at a token, and how much of what it holds it keeps. */
  function WriteGate(rd: Reading, c: Config, w: LinearMixerWeights, x: Vector, h: nat): real
    requires LinearFits(c, w) && |x| == c.hiddenSize && h < c.linearValueHeads
  {
    Logistic(rd, Affine(Vec(rd, w.beta), c.linearValueHeads, x)[h])
  }

  function KeepGate(rd: Reading, c: Config, w: LinearMixerWeights, x: Vector, h: nat): real
    requires LinearFits(c, w) && |x| == c.hiddenSize && h < c.linearValueHeads
  {
    var z := Affine(Vec(rd, w.alpha), c.linearValueHeads, x)[h] + Eval(rd, w.delta.dtBias[h]);
    rd.exp(Product(Eval(rd, w.delta.recurrentA[h]), LogOnePlusExp(rd, z)))
  }

  /** The logarithm of one plus the exponential, as far as it is computed: past twenty the number
      itself, below minus twenty its exponential. */
  function LogOnePlusExp(rd: Reading, z: real): real {
    if z > 20.0 then z else if z < -20.0 then rd.exp(z) else rd.log1p(rd.exp(z))
  }

  /** What a head answers to a key: its matrix, transposed, times the key. */
  function Answer(m: seq<Vector>, key: Vector, w: nat): (v: Vector)
    requires |m| == |key| && Wide(m, w)
    ensures |v| == w
  {
    seq(w, j requires 0 <= j < w => Dot(Component(m, j), key))
  }

  function Kept(m: seq<Vector>, keep: real): (kept: seq<Vector>)
    ensures |kept| == |m| && forall r :: 0 <= r < |m| ==> |kept[r]| == |m[r]|
  {
    seq(|m|, r requires 0 <= r < |m| => Scaled(m[r], keep))
  }

  /** The delta rule: keep some of the matrix, then write under the key some of what it misses of the value. */
  function DeltaUpdate(m: seq<Vector>, key: Vector, v: Vector, write: real, keep: real): (n: seq<Vector>)
    requires |m| == |key| && Wide(m, |v|)
    ensures |n| == |key| && Wide(n, |v|)
  {
    var kept := Kept(m, keep);
    var answer := Answer(kept, key, |v|);
    seq(|m|, r requires 0 <= r < |m| =>
      seq(|v|, j requires 0 <= j < |v| => kept[r][j] + Product(key[r], Product(v[j] - answer[j], write))))
  }

  /** The matrix of value head `h` once the first `n` tokens are in. Value heads take the key heads in turn. */
  function StateAfter(rd: Reading, c: Config, w: LinearMixerWeights, xs: seq<Vector>, h: nat, n: nat): (m: seq<Vector>)
    requires LinearFits(c, w) && Wide(xs, c.hiddenSize) && h < c.linearValueHeads && n <= |xs|
    ensures |m| == c.linearHeadDim && Wide(m, c.linearHeadDim)
  {
    if n == 0 then seq(c.linearHeadDim, r => seq(c.linearHeadDim, j => 0.0))
    else
      var y, x := ConvolvedAt(rd, c, w, xs, n - 1), xs[n - 1];
      DeltaUpdate(StateAfter(rd, c, w, xs, h, n - 1), DeltaKey(rd, c, y, h % c.linearKeyHeads), DeltaValue(c, y, h),
                  WriteGate(rd, c, w, x, h), KeepGate(rd, c, w, x, h))
  }

  function DeltaHeadAt(rd: Reading, c: Config, w: LinearMixerWeights, xs: seq<Vector>, t: nat, h: nat): (out: Vector)
    requires LinearFits(c, w) && Wide(xs, c.hiddenSize) && t < |xs| && h < c.linearValueHeads
    ensures |out| == c.linearHeadDim
  {
    var query := DeltaQuery(rd, c, ConvolvedAt(rd, c, w, xs, t), h % c.linearKeyHeads);
    Rms(rd, Answer(StateAfter(rd, c, w, xs, h, t + 1), query, c.linearHeadDim),
        Vec(rd, w.delta.outputNorm), rd.stored(c.epsilon))
  }

  function DeltaHeads(rd: Reading, c: Config, w: LinearMixerWeights, xs: seq<Vector>, t: nat): (y: Vector)
    requires LinearFits(c, w) && Wide(xs, c.hiddenSize) && t < |xs|
    ensures |y| == ValueWidth(c)
  {
    Flatten(seq(c.linearValueHeads, h requires 0 <= h < c.linearValueHeads => DeltaHeadAt(rd, c, w, xs, t, h)), c.linearHeadDim)
  }

  function LinearAt(rd: Reading, c: Config, w: LinearMixerWeights, xs: seq<Vector>, t: nat): (y: Vector)
    requires LinearFits(c, w) && Wide(xs, c.hiddenSize) && t < |xs|
    ensures |y| == c.hiddenSize
  {
    var gate := Affine(Vec(rd, w.gate), ValueWidth(c), xs[t]);
    Affine(Vec(rd, w.output), c.hiddenSize, SwishTimes(rd, gate, DeltaHeads(rd, c, w, xs, t)))
  }

  // ----- layers, and the stack -----

  function MixerAt(rd: Reading, c: Config, w: MixerWeights, xs: seq<Vector>, t: nat): (y: Vector)
    requires MixerFits(c, w) && Wide(xs, c.hiddenSize) && t < |xs|
    ensures |y| == c.hiddenSize
  {
    match w
    case FullMixer(full) => FullAt(rd, c, full, xs, t)
    case LinearMixer(linear) => LinearAt(rd, c, linear, xs, t)
  }

  function MixedAt(rd: Reading, c: Config, w: LayerWeights, xs: seq<Vector>, t: nat): (y: Vector)
    requires LayerFits(c, w) && Wide(xs, c.hiddenSize) && t < |xs|
    ensures |y| == c.hiddenSize
  {
    var normed := seq(|xs|, j requires 0 <= j < |xs| => Rms(rd, xs[j], Vec(rd, w.inputNorm), rd.stored(c.epsilon)));
    Sum(xs[t], MixerAt(rd, c, w.mixer, normed, t))
  }

  function LayerAt(rd: Reading, c: Config, w: LayerWeights, xs: seq<Vector>, t: nat): (y: Vector)
    requires LayerFits(c, w) && Wide(xs, c.hiddenSize) && t < |xs|
    ensures |y| == c.hiddenSize
  {
    var mid := MixedAt(rd, c, w, xs, t);
    Sum(mid, FeedForward(rd, c, w, Rms(rd, mid, Vec(rd, w.postNorm), rd.stored(c.epsilon))))
  }

  /** The rows after the first `n` layers; token `i` enters as row `i` of the embedding. */
  function HiddenAfter(rd: Reading, c: Config, w: NetworkWeights, tokens: seq<int>, n: nat): (xs: seq<Vector>)
    requires NetworkFits(c, w) && InVocabulary(tokens, c.vocabularySize) && n <= |w.layers|
    ensures |xs| == |tokens| && Wide(xs, c.hiddenSize)
  {
    if n == 0 then
      seq(|tokens|, t requires 0 <= t < |tokens| => Row(Vec(rd, w.embedding), c.vocabularySize, c.hiddenSize, tokens[t]))
    else
      var xs := HiddenAfter(rd, c, w, tokens, n - 1);
      seq(|tokens|, t requires 0 <= t < |tokens| => LayerAt(rd, c, w.layers[n - 1], xs, t))
  }

  /** The logits after the last token. */
  function LogitsAfter(rd: Reading, c: Config, w: NetworkWeights, tokens: seq<int>): (y: Vector)
    requires NetworkFits(c, w) && InVocabulary(tokens, c.vocabularySize) && |tokens| > 0
    ensures |y| == c.vocabularySize
  {
    var last := HiddenAfter(rd, c, w, tokens, |w.layers|)[|tokens| - 1];
    Affine(Vec(rd, w.output), c.vocabularySize, Rms(rd, last, Vec(rd, w.outputNorm), rd.stored(c.epsilon)))
  }
}
