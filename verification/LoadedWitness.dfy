/** A loaded model of two blocks, for either inner size: with one the mixers agree and it runs, with
    the other they do not. */
module LoadedWitness {
  import opened Gguf
  import opened Qwen35Config
  import opened Qwen35Manifest
  import opened ModelFile
  import opened PayloadSpace
  import opened ShapeSafety

  const ONE_FLOAT: nat := 0x3F80_0000

  /** Hidden size 2 as one head of length 2; `inner` value heads of length 1; a linear block, then
      a full one. */
  function Small(inner: nat): Config {
    Config(1, 2, 1, 1, 1, 1, 2, 1, inner, 1, 1, 2, ONE_FLOAT, ONE_FLOAT,
           [BlockPlan(0, LinearAttention), BlockPlan(1, FullAttention)])
  }

  // ----- names and shapes -----

  const EDGES: seq<string> := ["token_embd.weight", "output_norm.weight", "output.weight"]

  const FIRST: seq<string> := [
    "attn_norm.weight", "post_attention_norm.weight", "ffn_gate.weight", "ffn_down.weight", "ffn_up.weight",
    "attn_qkv.weight", "attn_gate.weight", "ssm_conv1d.weight", "ssm_dt.bias", "ssm_a",
    "ssm_beta.weight", "ssm_alpha.weight", "ssm_norm.weight", "ssm_out.weight"]

  const SECOND: seq<string> := [
    "attn_norm.weight", "post_attention_norm.weight", "ffn_gate.weight", "ffn_down.weight", "ffn_up.weight",
    "attn_q.weight", "attn_k.weight", "attn_v.weight", "attn_output.weight", "attn_q_norm.weight", "attn_k_norm.weight"]

  function Name(i: nat): string
    requires i < 28
  {
    if i < 3 then EDGES[i] else if i < 17 then BlockName(0, FIRST[i - 3]) else BlockName(1, SECOND[i - 17])
  }

  function Shapes(inner: nat): seq<seq<nat>> {
    [[2, 1], [2], [2, 1],
     [2], [2], [2, 1], [1, 2], [2, 1],
     [2, 2 + inner], [2, inner], [1, 2 + inner], [inner], [inner], [2, inner], [2, inner], [1], [inner, 2],
     [2], [2], [2, 1], [1, 2], [2, 1],
     [2, 4], [2, 2], [2, 2], [2, 2], [2], [2]]
  }

  /** Single-precision tensors, each in its own 64 bytes. */
  function Tensor(inner: nat, i: nat): TensorInfo
    requires i < 28
  {
    TensorInfo(Ascii(Name(i)), Shapes(inner)[i], 0, 64 * i, Product(Shapes(inner)[i]) * 4)
  }

  function SmallCatalog(inner: nat): Catalog {
    Catalog(32, 0, map[], seq(28, i requires 0 <= i < 28 => Tensor(inner, i)))
  }

  function SmallCommon(inner: nat, base: nat): CommonTensors
    requires base + 5 <= 28
  {
    CommonTensors(Tensor(inner, base), Tensor(inner, base + 1), Tensor(inner, base + 2), Tensor(inner, base + 3), Tensor(inner, base + 4))
  }

  function SmallLinear(inner: nat): LinearTensors {
    LinearTensors(Tensor(inner, 8), Tensor(inner, 9), Tensor(inner, 10), Tensor(inner, 11), Tensor(inner, 12),
                  Tensor(inner, 13), Tensor(inner, 14), Tensor(inner, 15), Tensor(inner, 16))
  }

  function SmallFull(inner: nat): FullTensors {
    FullTensors(Tensor(inner, 22), Tensor(inner, 23), Tensor(inner, 24), Tensor(inner, 25), Tensor(inner, 26), Tensor(inner, 27))
  }

  function SmallManifest(inner: nat): Manifest {
    Manifest(Tensor(inner, 0), Tensor(inner, 1), Tensor(inner, 2), [
      LayerManifest(0, SmallCommon(inner, 3), LinearBranch(SmallLinear(inner))),
      LayerManifest(1, SmallCommon(inner, 17), FullBranch(SmallFull(inner)))])
  }

  function SmallModel(inner: nat): Model {
    Model(seq(28 * 64, _ => 0), SmallCatalog(inner), Small(inner), SmallManifest(inner), [])
  }

  // ----- the names differ -----

  lemma FirstDiffers(a: nat, b: nat)
    requires a < b < 14
    ensures Ascii(FIRST[a]) != Ascii(FIRST[b])
  {
    hide Ascii;
    Differ(FIRST[a], FIRST[b], 7);
  }

  lemma SecondDiffers(a: nat, b: nat)
    requires a < b < 11
    ensures Ascii(SECOND[a]) != Ascii(SECOND[b])
  {
    hide Ascii;
    Differ(SECOND[a], SECOND[b], 5);
  }

  /** The first byte of a block's tensor, and the byte that counts the block. */
  lemma BlockBytes(i: nat, suffix: string)
    requires i < 10
    ensures
      var name := Ascii(BlockName(i, suffix));
      |name| > 4 && name[0] == 0x62 && name[4] == 0x30 + i
  {
    BlockNameBytes(i, suffix);
    assert Ascii(Decimal(i)) == [0x30 + i];
    assert Ascii("blk.") == [0x62, 0x6C, 0x6B, DOT];
  }

  lemma EdgeBytes(i: nat)
    requires i < 3
    ensures |Ascii(EDGES[i])| == |EDGES[i]| > 4 && Ascii(EDGES[i])[0] != 0x62
    ensures forall j :: 0 <= j < i ==> |EDGES[j]| != |EDGES[i]|
  {
  }

  lemma NamesDiffer(a: nat, b: nat)
    requires a < b < 28
    ensures Ascii(Name(a)) != Ascii(Name(b))
  {
    hide Ascii, BlockName;
    if a < 3 {
      EdgeBytes(a);
      if b < 3 {
        EdgeBytes(b);
      } else if b < 17 {
        BlockBytes(0, FIRST[b - 3]);
      } else {
        BlockBytes(1, SECOND[b - 17]);
      }
    } else if b < 17 {
      FirstDiffers(a - 3, b - 3);
      SuffixesApart(0, 0, FIRST[a - 3], FIRST[b - 3]);
    } else if a < 17 {
      BlockBytes(0, FIRST[a - 3]);
      BlockBytes(1, SECOND[b - 17]);
    } else {
      SecondDiffers(a - 17, b - 17);
      SuffixesApart(1, 1, SECOND[a - 17], SECOND[b - 17]);
    }
  }

  // ----- the payloads fit -----

  lemma ShapeFits(inner: nat, i: nat)
    requires 1 <= inner <= 2 && i < 28
    ensures 0 < |Shapes(inner)[i]| <= 4 && forall k :: 0 <= k < |Shapes(inner)[i]| ==> Shapes(inner)[i][k] > 0
    ensures 0 < Product(Shapes(inner)[i]) <= 8
  {
    var s := Shapes(inner)[i];
    if |s| == 1 {
      assert s == [s[0]] && s[..0] == [];
      assert Product([s[0]]) == Product([]) * s[0];
    } else {
      assert s == [s[0], s[1]];
      ProductPair(s[0], s[1]);
    }
  }

  lemma TensorPlaced(inner: nat, i: nat)
    requires 1 <= inner <= 2 && i < 28
    ensures
      var c, t := SmallCatalog(inner), Tensor(inner, i);
      && c.tensors[i] == t && t.name == Ascii(Name(i)) && WellFormedTensor(t, 4)
      && Begin(c, t) == 64 * i && End(c, t) <= 64 * i + 32 && t.offset % 32 == 0
  {
    hide Product, Shapes, Ascii, Name;
    ShapeFits(inner, i);
  }

  lemma SmallCatalogWellFormed(inner: nat)
    requires 1 <= inner <= 2
    ensures WellFormedCatalog(SmallCatalog(inner), 28 * 64, DEFAULT_LIMITS)
  {
    hide Tensor, Ascii, Name, WellFormedTensor, Begin, End;
    var c := SmallCatalog(inner);
    forall i | 0 <= i < 28
      ensures WellFormedTensor(c.tensors[i], 4) && Begin(c, c.tensors[i]) == 64 * i && End(c, c.tensors[i]) <= 64 * i + 32
      ensures c.tensors[i].name == Ascii(Name(i)) && c.tensors[i].offset % 32 == 0
    {
      TensorPlaced(inner, i);
    }
    forall i, j | 0 <= i < 28 && 0 <= j < 28 && i != j
      ensures c.tensors[i].name != c.tensors[j].name
    {
      NamesDiffer(if i < j then i else j, if i < j then j else i);
    }
  }

  // ----- the model -----

  lemma SmallConfigValid(inner: nat)
    requires 1 <= inner <= 2
    ensures ValidConfig(Small(inner)) && SomeFull(Small(inner).blocks) && InnerSize(Small(inner)) == inner
  {
    assert Small(inner).blocks[1].kind.FullAttention?;
  }

  lemma SmallWidths(inner: nat)
    requires 1 <= inner <= 2
    ensures WidthsOf(Small(inner)) == Widths(2, 2, 1, inner, 2 + inner)
  {
    hide ValidConfig, SomeFull;
    SmallConfigValid(inner);
    WidthsExact(Small(inner));
  }

  lemma TensorLocated(inner: nat, i: nat, name: string, dimensions: seq<nat>)
    requires i < 28 && Name(i) == name && Shapes(inner)[i] == dimensions
    ensures Located(SmallCatalog(inner), Tensor(inner, i), name, dimensions)
  {
    hide Product, Shapes, Ascii, Name;
    assert SmallCatalog(inner).tensors[i] == Tensor(inner, i);
  }

  lemma CommonShapes(inner: nat, base: nat)
    requires base == 3 || base == 17
    ensures Shapes(inner)[base] == Shapes(inner)[base + 1] == [2]
    ensures Shapes(inner)[base + 2] == Shapes(inner)[base + 4] == [2, 1] && Shapes(inner)[base + 3] == [1, 2]
  {
  }

  lemma FirstCommonNames()
    ensures Name(3) == BlockName(0, "attn_norm.weight") && Name(4) == BlockName(0, "post_attention_norm.weight")
    ensures Name(5) == BlockName(0, "ffn_gate.weight") && Name(6) == BlockName(0, "ffn_down.weight") && Name(7) == BlockName(0, "ffn_up.weight")
  {
    hide BlockName;
  }

  lemma FirstCommonLocated(inner: nat)
    ensures LocatedCommon(SmallCatalog(inner), Small(inner), 0, SmallCommon(inner, 3))
  {
    hide Located, Ascii, BlockName, Product, Tensor, SmallCatalog, Name, Shapes;
    FirstCommonNames();
    CommonShapes(inner, 3);
    TensorLocated(inner, 3, BlockName(0, "attn_norm.weight"), [2]);
    TensorLocated(inner, 4, BlockName(0, "post_attention_norm.weight"), [2]);
    TensorLocated(inner, 5, BlockName(0, "ffn_gate.weight"), [2, 1]);
    TensorLocated(inner, 6, BlockName(0, "ffn_down.weight"), [1, 2]);
    TensorLocated(inner, 7, BlockName(0, "ffn_up.weight"), [2, 1]);
  }

  lemma SecondCommonNames()
    ensures Name(17) == BlockName(1, "attn_norm.weight") && Name(18) == BlockName(1, "post_attention_norm.weight")
    ensures Name(19) == BlockName(1, "ffn_gate.weight") && Name(20) == BlockName(1, "ffn_down.weight") && Name(21) == BlockName(1, "ffn_up.weight")
  {
    hide BlockName;
  }

  lemma SecondCommonLocated(inner: nat)
    ensures LocatedCommon(SmallCatalog(inner), Small(inner), 1, SmallCommon(inner, 17))
  {
    hide Located, Ascii, BlockName, Product, Tensor, SmallCatalog, Name, Shapes;
    SecondCommonNames();
    CommonShapes(inner, 17);
    TensorLocated(inner, 17, BlockName(1, "attn_norm.weight"), [2]);
    TensorLocated(inner, 18, BlockName(1, "post_attention_norm.weight"), [2]);
    TensorLocated(inner, 19, BlockName(1, "ffn_gate.weight"), [2, 1]);
    TensorLocated(inner, 20, BlockName(1, "ffn_down.weight"), [1, 2]);
    TensorLocated(inner, 21, BlockName(1, "ffn_up.weight"), [2, 1]);
  }

  lemma LinearLocated(inner: nat)
    requires 1 <= inner <= 2
    ensures LocatedLinear(SmallCatalog(inner), Small(inner), 0, SmallLinear(inner))
  {
    hide Located, Ascii, BlockName, Product, WidthsOf, ValidConfig, Tensor, SmallCatalog;
    SmallWidths(inner);
    TensorLocated(inner, 8, BlockName(0, "attn_qkv.weight"), [2, 2 + inner]);
    TensorLocated(inner, 9, BlockName(0, "attn_gate.weight"), [2, inner]);
    TensorLocated(inner, 10, BlockName(0, "ssm_conv1d.weight"), [1, 2 + inner]);
    TensorLocated(inner, 11, BlockName(0, "ssm_dt.bias"), [inner]);
    TensorLocated(inner, 12, BlockName(0, "ssm_a"), [inner]);
    TensorLocated(inner, 13, BlockName(0, "ssm_beta.weight"), [2, inner]);
    TensorLocated(inner, 14, BlockName(0, "ssm_alpha.weight"), [2, inner]);
    TensorLocated(inner, 15, BlockName(0, "ssm_norm.weight"), [1]);
    TensorLocated(inner, 16, BlockName(0, "ssm_out.weight"), [inner, 2]);
  }

  lemma FullLocated(inner: nat)
    requires 1 <= inner <= 2
    ensures LocatedFull(SmallCatalog(inner), Small(inner), 1, SmallFull(inner))
  {
    hide Located, Ascii, BlockName, Product, WidthsOf, ValidConfig, Tensor, SmallCatalog;
    SmallWidths(inner);
    assert Mul64(2, 2) == 4;
    TensorLocated(inner, 22, BlockName(1, "attn_q.weight"), [2, 4]);
    TensorLocated(inner, 23, BlockName(1, "attn_k.weight"), [2, 2]);
    TensorLocated(inner, 24, BlockName(1, "attn_v.weight"), [2, 2]);
    TensorLocated(inner, 25, BlockName(1, "attn_output.weight"), [2, 2]);
    TensorLocated(inner, 26, BlockName(1, "attn_q_norm.weight"), [2]);
    TensorLocated(inner, 27, BlockName(1, "attn_k_norm.weight"), [2]);
  }

  lemma SmallManifestLocated(inner: nat)
    requires 1 <= inner <= 2
    ensures LocatedManifest(SmallCatalog(inner), Small(inner), SmallManifest(inner))
  {
    hide Located, LocatedCommon, LocatedLinear, LocatedFull, Ascii, BlockName, Product, Tensor, SmallCatalog, SmallCommon, SmallLinear, SmallFull;
    TensorLocated(inner, 0, "token_embd.weight", [2, 1]);
    TensorLocated(inner, 1, "output_norm.weight", [2]);
    TensorLocated(inner, 2, "output.weight", [2, 1]);
    FirstCommonLocated(inner);
    SecondCommonLocated(inner);
    LinearLocated(inner);
    FullLocated(inner);
  }

  /** Both models load; the mixers agree in one of them only. */
  lemma SmallModelLoaded(inner: nat)
    requires 1 <= inner <= 2
    ensures LoadedModel(SmallModel(inner))
    ensures MixersAgree(SmallModel(inner).config) <==> inner == 2
  {
    hide LocatedManifest, WellFormedCatalog, ValidConfig, InnerSize, SmallCatalog, SmallManifest;
    SmallCatalogWellFormed(inner);
    SmallManifestLocated(inner);
    SmallConfigValid(inner);
    assert Small(inner).blocks[0].kind.LinearAttention?;
  }
}
