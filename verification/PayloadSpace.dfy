/** How much room tensors take in a file: payloads of different tensors add up to no more than
    the file, and differently named tensors of a model are different tensors. */
module PayloadSpace {
  import opened Prelude
  import opened Gguf
  import opened Qwen35Config
  import opened Qwen35Manifest
  import opened ModelFile

  // ----- payloads add up -----

  /** Tensors of the catalog, no two of the same name. */
  ghost predicate Separate(catalog: Catalog, ts: seq<TensorInfo>) {
    (forall i :: 0 <= i < |ts| ==> ts[i] in catalog.tensors)
    && forall i, j :: 0 <= i < j < |ts| ==> ts[i].name != ts[j].name
  }

  function Bytes(ts: seq<TensorInfo>): nat {
    if |ts| == 0 then 0 else Bytes(ts[..|ts| - 1]) + ts[|ts| - 1].byteSize
  }

  function Cells(ts: seq<TensorInfo>): nat {
    if |ts| == 0 then 0 else Cells(ts[..|ts| - 1]) + Product(ts[|ts| - 1].dimensions)
  }

  /** The positions the payloads take. */
  ghost function Occupied(catalog: Catalog, ts: seq<TensorInfo>): set<nat> {
    if |ts| == 0 then {}
    else
      var last := ts[|ts| - 1];
      Occupied(catalog, ts[..|ts| - 1]) + Interval(Begin(catalog, last), last.byteSize)
  }

  lemma {:induction false} TakenBy(catalog: Catalog, ts: seq<TensorInfo>, at: nat) returns (i: nat)
    requires at in Occupied(catalog, ts)
    ensures i < |ts| && Begin(catalog, ts[i]) <= at < End(catalog, ts[i])
  {
    var last := |ts| - 1;
    if at in Interval(Begin(catalog, ts[last]), ts[last].byteSize) {
      i := last;
    } else {
      i := TakenBy(catalog, ts[..last], at);
    }
  }

  lemma {:induction false} OccupiedCount(catalog: Catalog, fileSize: nat, limits: Limits, ts: seq<TensorInfo>)
    requires WellFormedCatalog(catalog, fileSize, limits) && Separate(catalog, ts)
    ensures |Occupied(catalog, ts)| == Bytes(ts)
  {
    hide WellFormedCatalog;
    if |ts| > 0 {
      var front, last := ts[..|ts| - 1], ts[|ts| - 1];
      OccupiedCount(catalog, fileSize, limits, front);
      forall at | at in Occupied(catalog, front)
        ensures at !in Interval(Begin(catalog, last), last.byteSize)
      {
        var i := TakenBy(catalog, front, at);
        PayloadsDisjoint(catalog, fileSize, limits, ts[i], last, at);
      }
      assert Occupied(catalog, front) !! Interval(Begin(catalog, last), last.byteSize);
    }
  }

  /** Together the payloads of different tensors fit the file. */
  lemma PayloadsAddUp(catalog: Catalog, fileSize: nat, limits: Limits, ts: seq<TensorInfo>)
    requires WellFormedCatalog(catalog, fileSize, limits) && Separate(catalog, ts)
    ensures Bytes(ts) <= fileSize
  {
    hide WellFormedCatalog, Bytes;
    OccupiedCount(catalog, fileSize, limits, ts);
    forall at | at in Occupied(catalog, ts)
      ensures at in Interval(0, fileSize)
    {
      var i := TakenBy(catalog, ts, at);
      InsideFile(catalog, fileSize, limits, ts[i]);
    }
    SubsetCount(Occupied(catalog, ts), Interval(0, fileSize));
  }

  lemma InsideFile(catalog: Catalog, fileSize: nat, limits: Limits, t: TensorInfo)
    requires WellFormedCatalog(catalog, fileSize, limits) && t in catalog.tensors
    ensures End(catalog, t) <= fileSize
    ensures 2 * Product(t.dimensions) <= t.byteSize
  {
    hide WellFormedCatalog, PayloadsSafe, Product;
    CatalogTensor(catalog, fileSize, limits, t);
    FindsItself(catalog, fileSize, t);
    MulLe(2, ElementSize(t.kind), Product(t.dimensions));
  }

  /** No element takes less than two bytes. */
  lemma {:induction false} CellsFit(catalog: Catalog, fileSize: nat, limits: Limits, ts: seq<TensorInfo>)
    requires WellFormedCatalog(catalog, fileSize, limits) && Separate(catalog, ts)
    ensures 2 * Cells(ts) <= fileSize
  {
    hide WellFormedCatalog, Separate;
    PayloadsAddUp(catalog, fileSize, limits, ts);
    CellsBelowBytes(catalog, fileSize, limits, ts);
  }

  lemma {:induction false} CellsBelowBytes(catalog: Catalog, fileSize: nat, limits: Limits, ts: seq<TensorInfo>)
    requires WellFormedCatalog(catalog, fileSize, limits) && Separate(catalog, ts)
    ensures 2 * Cells(ts) <= Bytes(ts)
  {
    hide WellFormedCatalog, Product;
    if |ts| > 0 {
      var front, last := ts[..|ts| - 1], ts[|ts| - 1];
      assert forall i :: 0 <= i < |front| ==> front[i] == ts[i];
      CellsBelowBytes(catalog, fileSize, limits, front);
      InsideFile(catalog, fileSize, limits, last);
    }
  }

  // ----- names of different parts of a block -----

  const DOT: byte := 0x2E

  lemma {:induction false} DigitsHaveNoDot(n: nat)
    ensures DOT !in Ascii(Decimal(n))
  {
    var digit := ['0' + (n % 10) as char];
    assert Ascii(digit) == [0x30 + n % 10];
    if n >= 10 {
      DigitsHaveNoDot(n / 10);
      AsciiConcat(Decimal(n / 10), digit);
    }
  }

  lemma AsciiConcat(a: string, b: string)
    ensures Ascii(a + b) == Ascii(a) + Ascii(b)
  {
  }

  lemma BlockNameBytes(i: nat, suffix: string)
    ensures Ascii(BlockName(i, suffix)) == Ascii("blk.") + (Ascii(Decimal(i)) + ([DOT] + Ascii(suffix)))
  {
    hide Ascii, Decimal;
    AsciiConcat("blk." + Decimal(i) + ".", suffix);
    AsciiConcat("blk." + Decimal(i), ".");
    AsciiConcat("blk.", Decimal(i));
    assert Ascii(".") == [DOT] by { AsciiDot(); }
    Associate(Ascii("blk.") + Ascii(Decimal(i)), [DOT], Ascii(suffix));
    Associate(Ascii("blk."), Ascii(Decimal(i)), [DOT] + Ascii(suffix));
  }

  lemma AsciiDot()
    ensures Ascii(".") == [DOT]
  {
  }

  lemma FirstDot(a: seq<byte>, b: seq<byte>, x: seq<byte>, y: seq<byte>)
    requires DOT !in a && DOT !in b && a + ([DOT] + x) == b + ([DOT] + y)
    ensures x == y
  {
    var s := a + ([DOT] + x);
    assert s[|a|] == DOT && s[|b|] == DOT;
    assert (forall k :: 0 <= k < |a| ==> s[k] == a[k]) && forall k :: 0 <= k < |b| ==> s[k] == b[k];
    assert s[|a| + 1..] == x && s[|b| + 1..] == y;
  }

  /** Tensors of blocks with different suffixes have different names, whatever the blocks. */
  lemma SuffixesApart(i: nat, j: nat, s: string, t: string)
    requires Ascii(s) != Ascii(t)
    ensures Ascii(BlockName(i, s)) != Ascii(BlockName(j, t))
  {
    hide Ascii, Decimal, BlockName;
    if Ascii(BlockName(i, s)) == Ascii(BlockName(j, t)) {
      BlockNameBytes(i, s);
      BlockNameBytes(j, t);
      DigitsHaveNoDot(i);
      DigitsHaveNoDot(j);
      var a, b := Ascii(Decimal(i)) + ([DOT] + Ascii(s)), Ascii(Decimal(j)) + ([DOT] + Ascii(t));
      assert (Ascii("blk.") + a)[|Ascii("blk.")|..] == a && (Ascii("blk.") + b)[|Ascii("blk.")|..] == b;
      FirstDot(Ascii(Decimal(i)), Ascii(Decimal(j)), Ascii(s), Ascii(t));
    }
  }

  // ----- what a mixer and its neighbours take -----

  lemma CellsSnoc(ts: seq<TensorInfo>, t: TensorInfo)
    ensures Cells(ts + [t]) == Cells(ts) + Product(t.dimensions)
  {
    assert (ts + [t])[..|ts|] == ts;
  }

  lemma CellsOfThree(a: TensorInfo, b: TensorInfo, c: TensorInfo)
    ensures Cells([a, b, c]) == Product(a.dimensions) + Product(b.dimensions) + Product(c.dimensions)
  {
    hide Product, Cells;
    assert Cells([]) == 0 by { NoCells(); }
    CellsSnoc([], a);
    CellsSnoc([a], b);
    CellsSnoc([a, b], c);
    assert [] + [a] == [a] && [a] + [b] == [a, b] && [a, b] + [c] == [a, b, c];
  }

  lemma CellsOfTwo(ts: seq<TensorInfo>, a: TensorInfo, b: TensorInfo)
    ensures Cells(ts + [a, b]) == Cells(ts) + Product(a.dimensions) + Product(b.dimensions)
  {
    hide Product, Cells;
    CellsSnoc(ts, a);
    CellsSnoc(ts + [a], b);
    assert ts + [a] + [b] == ts + [a, b];
  }

  lemma NoCells()
    ensures Cells([]) == 0
  {
  }

  lemma ProductPair(a: nat, b: nat)
    ensures Product([a, b]) == a * b
  {
    assert [a, b][..1] == [a] && [a][..0] == [];
    assert Product([a]) == Product([]) * a;
  }

  /** Query, key and value weights of one full layer. */
  lemma FullSpace(catalog: Catalog, fileSize: nat, limits: Limits, c: Config, i: nat, t: FullTensors)
    requires WellFormedCatalog(catalog, fileSize, limits) && ValidConfig(c) && LocatedFull(catalog, c, i, t)
    ensures 2 * (c.hiddenSize * (2 * c.hiddenSize + 2 * WidthsOf(c).fullKv)) <= fileSize
  {
    hide WellFormedCatalog, ValidConfig, Product, Ascii, BlockName, WidthsOf, Mul64, Cells;
    var w := WidthsOf(c);
    var ts := [t.query, t.key, t.value];
    FullWidthsExact(c);
    FullNames(catalog, c, i, t);
    CellsFit(catalog, fileSize, limits, ts);
    CellsOfThree(t.query, t.key, t.value);
    ProductPair(c.hiddenSize, 2 * c.hiddenSize);
    ProductPair(c.hiddenSize, w.fullKv);
    assert c.hiddenSize * (2 * c.hiddenSize + 2 * w.fullKv)
        == c.hiddenSize * (2 * c.hiddenSize) + c.hiddenSize * w.fullKv + c.hiddenSize * w.fullKv;
  }

  lemma FullWidthsExact(c: Config)
    requires ValidConfig(c)
    ensures WidthsOf(c).fullQuery == c.hiddenSize && Mul64(WidthsOf(c).fullQuery, 2) == 2 * c.hiddenSize
    ensures WidthsOf(c).fullKv <= c.hiddenSize
  {
    WidthsExact(c);
  }

  const FULL_SUFFIXES: seq<string> := ["attn_q.weight", "attn_k.weight", "attn_v.weight"]

  const LINEAR_SUFFIXES: seq<string> := [
    "attn_qkv.weight", "attn_gate.weight", "ssm_beta.weight", "ssm_alpha.weight", "ssm_out.weight",
    "attn_q.weight", "attn_output.weight"]

  /** Length and sixth character tell these suffixes apart. */
  lemma SuffixesDiffer(suffixes: seq<string>, i: nat, j: nat)
    requires suffixes in {FULL_SUFFIXES, LINEAR_SUFFIXES} && i < j < |suffixes|
    ensures Ascii(suffixes[i]) != Ascii(suffixes[j])
  {
    hide Ascii;
    Differ(suffixes[i], suffixes[j], 5);
  }

  lemma FullNames(catalog: Catalog, c: Config, i: nat, t: FullTensors)
    requires LocatedFull(catalog, c, i, t)
    ensures Separate(catalog, [t.query, t.key, t.value])
  {
    hide Ascii, BlockName, WidthsOf, Mul64;
    forall a, b | 0 <= a < b < 3
      ensures Ascii(FULL_SUFFIXES[a]) != Ascii(FULL_SUFFIXES[b])
    {
      SuffixesDiffer(FULL_SUFFIXES, a, b);
    }
    NamesApart(catalog, [t.query, t.key, t.value], [i, i, i], FULL_SUFFIXES);
  }

  lemma LinearNames(catalog: Catalog, c: Config, i: nat, t: LinearTensors, j: nat, u: FullTensors)
    requires LocatedLinear(catalog, c, i, t) && LocatedFull(catalog, c, j, u)
    ensures Separate(catalog, [t.qkv, t.gate, t.beta] + [t.alpha, t.output] + [u.query, u.output])
  {
    hide Ascii, BlockName, WidthsOf, Mul64;
    forall a, b | 0 <= a < b < 7
      ensures Ascii(LINEAR_SUFFIXES[a]) != Ascii(LINEAR_SUFFIXES[b])
    {
      SuffixesDiffer(LINEAR_SUFFIXES, a, b);
    }
    NamesApart(catalog, [t.qkv, t.gate, t.beta] + [t.alpha, t.output] + [u.query, u.output], [i, i, i, i, i, j, j], LINEAR_SUFFIXES);
  }

  lemma Differ(s: string, t: string, k: nat)
    requires |s| != |t| || (k < |s| && s[k] != t[k] && s[k] as int < 128 && t[k] as int < 128)
    ensures Ascii(s) != Ascii(t)
  {
    if |s| == |t| {
      assert Ascii(s)[k] != Ascii(t)[k];
    }
  }

  /** The projections of one linear layer whose inner size is the hidden size, and the query and
      output weights of one full layer. */
  lemma LinearSpace(catalog: Catalog, fileSize: nat, limits: Limits, c: Config, i: nat, t: LinearTensors, j: nat, u: FullTensors)
    requires WellFormedCatalog(catalog, fileSize, limits) && ValidConfig(c) && InnerSize(c) == c.hiddenSize
    requires LocatedLinear(catalog, c, i, t) && LocatedFull(catalog, c, j, u)
    ensures 2 * (c.hiddenSize * (2 * WidthsOf(c).linearKey + 6 * c.hiddenSize + 2 * c.linearValueHeads)) <= fileSize
  {
    hide WellFormedCatalog, ValidConfig, Product, Ascii, BlockName, WidthsOf, Mul64, Cells;
    var w, h := WidthsOf(c), c.hiddenSize;
    var first, second := [t.qkv, t.gate, t.beta], [t.alpha, t.output];
    LinearNames(catalog, c, i, t, j, u);
    CellsFit(catalog, fileSize, limits, first + second + [u.query, u.output]);
    CellsOfThree(t.qkv, t.gate, t.beta);
    CellsOfTwo(first, t.alpha, t.output);
    CellsOfTwo(first + second, u.query, u.output);
    LinearCells(c, t);
    FullWidthsExact(c);
    ProductPair(h, 2 * h);
    ProductPair(h, h);
    LinearTotal(h, w.linearKey, c.linearValueHeads);
  }

  lemma LinearTotal(h: nat, k: nat, n: nat)
    ensures h * (2 * k + h) + h * h + h * n + h * n + h * h + h * (2 * h) + h * h == h * (2 * k + 6 * h + 2 * n)
  {
  }

  lemma LinearCells(c: Config, t: LinearTensors)
    requires ValidConfig(c) && InnerSize(c) == c.hiddenSize
    requires t.qkv.dimensions == [c.hiddenSize, WidthsOf(c).linearQkv] && t.gate.dimensions == [c.hiddenSize, WidthsOf(c).linearValue]
    requires t.beta.dimensions == t.alpha.dimensions == [c.hiddenSize, c.linearValueHeads]
    requires t.output.dimensions == [WidthsOf(c).linearValue, c.hiddenSize]
    ensures Product(t.qkv.dimensions) == c.hiddenSize * (2 * WidthsOf(c).linearKey + c.hiddenSize)
    ensures Product(t.gate.dimensions) == Product(t.output.dimensions) == c.hiddenSize * c.hiddenSize
    ensures Product(t.beta.dimensions) == Product(t.alpha.dimensions) == c.hiddenSize * c.linearValueHeads
  {
    hide Product, WidthsOf, ValidConfig;
    WidthsExact(c);
    ProductPair(c.hiddenSize, WidthsOf(c).linearQkv);
    ProductPair(c.hiddenSize, c.hiddenSize);
    ProductPair(c.hiddenSize, c.linearValueHeads);
  }

  /** Pairwise different suffixes name pairwise different tensors. */
  lemma NamesApart(catalog: Catalog, ts: seq<TensorInfo>, blocks: seq<nat>, suffixes: seq<string>)
    requires |ts| == |blocks| == |suffixes|
    requires forall i :: 0 <= i < |ts| ==> ts[i] in catalog.tensors && ts[i].name == Ascii(BlockName(blocks[i], suffixes[i]))
    requires forall i, j :: 0 <= i < j < |ts| ==> Ascii(suffixes[i]) != Ascii(suffixes[j])
    ensures Separate(catalog, ts)
  {
    hide Ascii, BlockName;
    forall i, j | 0 <= i < j < |ts|
      ensures ts[i].name != ts[j].name
    {
      SuffixesApart(blocks[i], blocks[j], suffixes[i], suffixes[j]);
    }
  }
}
