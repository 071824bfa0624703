/** The metadata a tokenizer specification carries, as the runtime keeps it. */
module SpecMetadata {
  import opened Prelude

  datatype SpecValue =
    | VU32(u32: nat) | VBool(flag: bool) | VString(text: string)
    | VStringArray(strings: seq<string>) | VI32Array(ints: seq<int>) | Ignored

  // ----- the keys the tokenizer is built from -----

  const MODEL: string := "tokenizer.ggml.model"
  const PRE: string := "tokenizer.ggml.pre"
  const TEMPLATE: string := "tokenizer.chat_template"
  const TOKENS: string := "tokenizer.ggml.tokens"
  const TOKEN_TYPE: string := "tokenizer.ggml.token_type"
  const MERGES: string := "tokenizer.ggml.merges"
  const BOS: string := "tokenizer.ggml.bos_token_id"
  const EOS: string := "tokenizer.ggml.eos_token_id"
  const EOT: string := "tokenizer.ggml.eot_token_id"
  const PADDING: string := "tokenizer.ggml.padding_token_id"
  const ADD_BOS: string := "tokenizer.ggml.add_bos_token"
  const ADD_EOS: string := "tokenizer.ggml.add_eos_token"

  type Metadata = map<string, SpecValue>

  function RequiredString(m: Metadata, key: string): Result<string> {
    if key in m && m[key].VString? then Ok(m[key].text) else Err
  }

  function RequiredStringArray(m: Metadata, key: string): Result<seq<string>> {
    if key in m && m[key].VStringArray? then Ok(m[key].strings) else Err
  }

  function OptionalI32Array(m: Metadata, key: string): Result<Option<seq<int>>> {
    if key !in m then Ok(None) else if m[key].VI32Array? then Ok(Some(m[key].ints)) else Err
  }

  function OptionalU32(m: Metadata, key: string): Result<Option<nat>> {
    if key !in m then Ok(None) else if m[key].VU32? then Ok(Some(m[key].u32)) else Err
  }

  function OptionalBool(m: Metadata, key: string): Result<Option<bool>> {
    if key !in m then Ok(None) else if m[key].VBool? then Ok(Some(m[key].flag)) else Err
  }
}
