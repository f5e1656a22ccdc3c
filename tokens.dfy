/** Token accounting: text and message-list counts, the front trim, and the per-model encoder cache. */
module Tokens {
  import opened Wrappers

  /** A chat message `{"role": …, "content": …}`; a missing or `None` content is "". */
  datatype ChatMsg = ChatMsg(role: string, content: string)

  /** A tokenizer encoding: `encode` maps a text to its token ids. */
  datatype Encoding = Encoding(name: string, encode: string -> seq<int>)

  const DefaultModel: string := "gpt-4o-mini"
  const FallbackEncodingName: string := "cl100k_base"
  /** Tokens added per message for its role and framing. */
  const MessageTax: nat := 4

  /** `model or "gpt-4o-mini"`. */
  function ModelKey(model: Option<string>): (key: string)
    ensures key != ""
    ensures model.Some? && model.value != "" ==> key == model.value
    ensures model.None? || model.value == "" ==> key == DefaultModel
  {
    if model.Some? && model.value != "" then model.value else DefaultModel
  }

  /** `count_tokens_text` given the encoder `_get_encoder` produced (`None` when there is no tokenizer). */
  function CountText(text: string, enc: Option<Encoding>): (n: nat)
    ensures text == "" ==> n == 0
    ensures text != "" && enc.None? ==> 4 * (n - 1) < |text| <= 4 * n
    ensures text != "" && enc.Some? ==> n == |enc.value.encode(text)|
  {
    if text == "" then 0
    else match enc
      case None => (|text| + 3) / 4
      case Some(e) => |e.encode(text)|
  }

  /** `count_tokens_messages`: each message's content count plus the fixed tax. */
  function CountMessages(ms: seq<ChatMsg>, enc: Option<Encoding>): nat
    decreases |ms|
  {
    if |ms| == 0 then 0 else CountMessages(ms[..|ms| - 1], enc) + CountText(ms[|ms| - 1].content, enc) + MessageTax
  }

  /** The count is additive over concatenation. */
  lemma {:induction false} CountMessagesAppend(a: seq<ChatMsg>, b: seq<ChatMsg>, enc: Option<Encoding>)
    ensures CountMessages(a + b, enc) == CountMessages(a, enc) + CountMessages(b, enc)
    decreases |b|
  {
    if |b| > 0 {
      var b' := b[..|b| - 1];
      CountMessagesAppend(a, b', enc);
      var ab := a + b;
      assert ab[..|ab| - 1] == a + b';
      assert ab[|ab| - 1] == b[|b| - 1];
      assert CountMessages(ab, enc) == CountMessages(a + b', enc) + CountText(b[|b| - 1].content, enc) + MessageTax;
      assert CountMessages(b, enc) == CountMessages(b', enc) + CountText(b[|b| - 1].content, enc) + MessageTax;
    } else {
      assert a + b == a;
    }
  }

  /** Every message costs at least its tax. */
  lemma {:induction false} CountMessagesAtLeastTax(ms: seq<ChatMsg>, enc: Option<Encoding>)
    ensures CountMessages(ms, enc) >= MessageTax * |ms|
    decreases |ms|
  {
    if |ms| > 0 {
      CountMessagesAtLeastTax(ms[..|ms| - 1], enc);
    }
  }

  /** A slice never costs more than the list it is cut from. */
  lemma CountMessagesSlice(ms: seq<ChatMsg>, j: nat, k: nat, enc: Option<Encoding>)
    requires j <= k <= |ms|
    ensures CountMessages(ms[j..k], enc) <= CountMessages(ms, enc)
  {
    CountMessagesAppend(ms[..j], ms[j..k], enc);
    CountMessagesAppend(ms[..k], ms[k..], enc);
    assert ms[..j] + ms[j..k] == ms[..k];
    assert ms[..k] + ms[k..] == ms;
  }

  /** The inner `while … > budget and acc: acc.pop(0)` loop. */
  function DropFront(acc: seq<ChatMsg>, budget: int, enc: Option<Encoding>): (r: seq<ChatMsg>)
    ensures |r| <= |acc| && r == acc[|acc| - |r|..]
    ensures r == [] || CountMessages(r, enc) <= budget
    decreases |acc|
  {
    if |acc| > 0 && CountMessages(acc, enc) > budget then DropFront(acc[1..], budget, enc) else acc
  }

  /** The front pops stop at the longest suffix that fits: every longer suffix was over budget. */
  lemma {:induction false} DropFrontLongest(acc: seq<ChatMsg>, budget: int, enc: Option<Encoding>)
    ensures forall j :: 0 <= j < |acc| - |DropFront(acc, budget, enc)| ==> CountMessages(acc[j..], enc) > budget
    decreases |acc|
  {
    if |acc| > 0 && CountMessages(acc, enc) > budget {
      DropFrontLongest(acc[1..], budget, enc);
      assert forall j :: 1 <= j <= |acc| ==> acc[1..][j - 1..] == acc[j..];
    }
  }

  /** The smallest prefix length `n' >= n` whose count exceeds the budget, if any. */
  function FirstOverflow(ms: seq<ChatMsg>, budget: int, enc: Option<Encoding>, n: nat): (r: Option<nat>)
    requires 1 <= n
    ensures r.Some? ==> n <= r.value <= |ms| && CountMessages(ms[..r.value], enc) > budget
    ensures r.Some? ==> forall m :: n <= m < r.value ==> CountMessages(ms[..m], enc) <= budget
    ensures r.None? ==> forall m :: n <= m <= |ms| ==> CountMessages(ms[..m], enc) <= budget
    decreases |ms| + 1 - n
  {
    if n > |ms| then None
    else if CountMessages(ms[..n], enc) > budget then Some(n)
    else FirstOverflow(ms, budget, enc, n + 1)
  }

  /** What `budget_trim_messages` returns: grow until the first overflow, then drop from the front. */
  function TrimSpec(ms: seq<ChatMsg>, budget: int, enc: Option<Encoding>): seq<ChatMsg> {
    var acc := match FirstOverflow(ms, budget, enc, 1)
      case None => ms
      case Some(n) => DropFront(ms[..n], budget, enc);
    DropFront(acc, budget, enc)
  }

  /** The first overflow is the prefix length that overflows when all shorter ones fit. */
  lemma FirstOverflowIs(ms: seq<ChatMsg>, budget: int, enc: Option<Encoding>, n: nat)
    requires 1 <= n <= |ms| && CountMessages(ms[..n], enc) > budget
    requires forall m :: 1 <= m < n ==> CountMessages(ms[..m], enc) <= budget
    ensures FirstOverflow(ms, budget, enc, 1) == Some(n)
  {
  }

  /** `while count_tokens_messages(acc) > budget and acc: acc.pop(0)` */
  method PopWhileOver(acc0: seq<ChatMsg>, budget: int, enc: Option<Encoding>) returns (acc: seq<ChatMsg>)
    ensures acc == DropFront(acc0, budget, enc)
  {
    acc := acc0;
    while acc != [] && CountMessages(acc, enc) > budget
      invariant DropFront(acc, budget, enc) == DropFront(acc0, budget, enc)
      decreases |acc|
    {
      acc := acc[1..];
    }
  }

  /** `budget_trim_messages`, with its append loop, `break` and front pops. */
  method BudgetTrim(messages: seq<ChatMsg>, budget: int, enc: Option<Encoding>) returns (acc: seq<ChatMsg>)
    ensures acc == TrimSpec(messages, budget, enc)
  {
    acc := [];
    var i := 0;
    ghost var grown := messages;
    while i < |messages|
      invariant 0 <= i <= |messages|
      invariant acc == messages[..i]
      invariant forall m :: 1 <= m <= i ==> CountMessages(messages[..m], enc) <= budget
    {
      acc := acc + [messages[i]];
      i := i + 1;
      assert acc == messages[..i];
      if CountMessages(acc, enc) > budget {
        FirstOverflowIs(messages, budget, enc, i);
        acc := PopWhileOver(acc, budget, enc);
        grown := acc;
        break;
      }
    }
    assert grown == acc;
    acc := PopWhileOver(acc, budget, enc);
  }

  /** The result is within budget, unless the budget is negative and the result is empty. */
  lemma TrimFits(ms: seq<ChatMsg>, budget: int, enc: Option<Encoding>)
    ensures CountMessages(TrimSpec(ms, budget, enc), enc) <= budget || (TrimSpec(ms, budget, enc) == [] && budget < 0)
  {
  }

  /**
   * The result is a contiguous run of the input in its original order. Without an overflow it is
   * the whole input; otherwise it ends exactly at the first overflowing message.
   */
  lemma TrimSlice(ms: seq<ChatMsg>, budget: int, enc: Option<Encoding>)
    ensures FirstOverflow(ms, budget, enc, 1).None? ==> TrimSpec(ms, budget, enc) == ms
    ensures FirstOverflow(ms, budget, enc, 1).Some? ==>
      var n, r := FirstOverflow(ms, budget, enc, 1).value, TrimSpec(ms, budget, enc);
      |r| <= n && r == ms[n - |r|..n]
  {
    var f := FirstOverflow(ms, budget, enc, 1);
    if f.None? {
      TrimSliceWhole(ms, budget, enc);
    } else {
      var r := TrimSliceAt(ms, budget, enc, f.value);
    }
  }

  /** Without an overflow nothing is dropped. */
  lemma TrimSliceWhole(ms: seq<ChatMsg>, budget: int, enc: Option<Encoding>)
    requires FirstOverflow(ms, budget, enc, 1).None?
    ensures TrimSpec(ms, budget, enc) == ms
  {
    assert TrimSpec(ms, budget, enc) == DropFront(ms, budget, enc);
    if |ms| > 0 {
      assert ms[..|ms|] == ms;
      assert CountMessages(ms, enc) <= budget;
    }
  }

  /** After an overflow at `n`, both front-drop passes leave a suffix of `ms[..n]`. */
  lemma TrimSliceAt(ms: seq<ChatMsg>, budget: int, enc: Option<Encoding>, n: nat) returns (r: seq<ChatMsg>)
    requires FirstOverflow(ms, budget, enc, 1) == Some(n)
    ensures r == TrimSpec(ms, budget, enc) && |r| <= n <= |ms| && r == ms[n - |r|..n]
  {
    TrimSpecAt(ms, budget, enc, n);
    var d := DropFront(ms[..n], budget, enc);
    r := DropFront(d, budget, enc);
    SuffixOfSuffix(ms, n, d, r);
  }

  /** After an overflow at `n`, the result is the two front-drop passes over `ms[..n]`. */
  lemma TrimSpecAt(ms: seq<ChatMsg>, budget: int, enc: Option<Encoding>, n: nat)
    requires FirstOverflow(ms, budget, enc, 1) == Some(n)
    ensures n <= |ms| && TrimSpec(ms, budget, enc) == DropFront(DropFront(ms[..n], budget, enc), budget, enc)
  {
  }

  /** A suffix of a suffix of `ms[..n]` is the run of `ms` that ends at `n`. */
  lemma SuffixOfSuffix<T>(ms: seq<T>, n: nat, d: seq<T>, r: seq<T>)
    requires n <= |ms| && |d| <= n && d == ms[..n][n - |d|..]
    requires |r| <= |d| && r == d[|d| - |r|..]
    ensures r == ms[n - |r|..n]
  {
  }

  /** The bounds of the run `budget_trim_messages` keeps. */
  lemma TrimBounds(ms: seq<ChatMsg>, budget: int, enc: Option<Encoding>) returns (j: nat, k: nat)
    ensures j <= k <= |ms| && TrimSpec(ms, budget, enc) == ms[j..k]
  {
    var f := FirstOverflow(ms, budget, enc, 1);
    if f.None? {
      TrimSliceWhole(ms, budget, enc);
      assert ms[0..|ms|] == ms;
      j, k := 0, |ms|;
    } else {
      var r := TrimSliceAt(ms, budget, enc, f.value);
      j, k := f.value - |r|, f.value;
    }
  }

  /** A list that fits is returned unchanged. */
  lemma TrimWholeFits(ms: seq<ChatMsg>, budget: int, enc: Option<Encoding>)
    requires CountMessages(ms, enc) <= budget
    ensures TrimSpec(ms, budget, enc) == ms
  {
    forall m | 1 <= m <= |ms| ensures CountMessages(ms[..m], enc) <= budget {
      CountMessagesSlice(ms, 0, m, enc);
    }
    TrimSlice(ms, budget, enc);
  }

  /** If the first message alone is over budget the result is empty. */
  lemma TrimFirstTooBig(ms: seq<ChatMsg>, budget: int, enc: Option<Encoding>)
    requires |ms| > 0 && CountMessages([ms[0]], enc) > budget
    ensures TrimSpec(ms, budget, enc) == []
  {
    assert ms[..1] == [ms[0]];
    assert FirstOverflow(ms, budget, enc, 1) == Some(1);
    assert DropFront([ms[0]][1..], budget, enc) == [];
  }

  /**
   * `_get_encoder`'s cache: one encoder per model id. `ForModel(m)` is `tiktoken.encoding_for_model(m)`
   * (`None` where it raises), `Fallback` is `get_encoding("cl100k_base")`.
   */
  class EncoderCache {
    const TiktokenAvailable: bool
    const ForModel: string -> Option<Encoding>
    const Fallback: Encoding
    var cache: map<string, Encoding>

    constructor(available: bool, forModel: string -> Option<Encoding>, fallback: Encoding)
      ensures TiktokenAvailable == available && ForModel == forModel && Fallback == fallback
      ensures cache == map[]
    {
      TiktokenAvailable := available;
      ForModel := forModel;
      Fallback := fallback;
      cache := map[];
    }

    /** The encoder a cache miss creates for `key`. */
    function Resolve(key: string): (e: Encoding)
      ensures ForModel(key).None? ==> e == Fallback
    {
      ForModel(key).GetOr(Fallback)
    }

    /**
     * `_get_encoder`: no tokenizer means `None`; a cached model gets its stored encoder back and
     * nothing changes; otherwise the resolved encoder is stored under the model id.
     */
    method GetEncoder(model: Option<string>) returns (enc: Option<Encoding>)
      modifies this
      ensures !TiktokenAvailable ==> enc == None && cache == old(cache)
      ensures TiktokenAvailable ==> ModelKey(model) in cache && enc == Some(cache[ModelKey(model)])
      ensures TiktokenAvailable && ModelKey(model) in old(cache) ==> cache == old(cache)
      ensures TiktokenAvailable && ModelKey(model) !in old(cache) ==>
        cache == old(cache)[ModelKey(model) := Resolve(ModelKey(model))]
    {
      var key := ModelKey(model);
      if !TiktokenAvailable {
        return None;
      }
      if key in cache {
        return Some(cache[key]);
      }
      var e := Resolve(key);
      cache := cache[key := e];
      enc := Some(e);
    }

    /** `count_tokens_text(text, model)`: the encoder is looked up only for a non-empty text. */
    method CountTokensText(text: string, model: Option<string>) returns (n: nat)
      modifies this
      ensures text == "" ==> n == 0 && cache == old(cache)
      ensures text != "" && !TiktokenAvailable ==> n == CountText(text, None) && cache == old(cache)
      ensures text != "" && TiktokenAvailable ==>
        ModelKey(model) in cache && n == CountText(text, Some(cache[ModelKey(model)]))
      ensures text != "" && TiktokenAvailable && ModelKey(model) in old(cache) ==>
        cache == old(cache) && n == CountText(text, Some(old(cache)[ModelKey(model)]))
      ensures text != "" && TiktokenAvailable && ModelKey(model) !in old(cache) ==>
        cache == old(cache)[ModelKey(model) := Resolve(ModelKey(model))] &&
        n == CountText(text, Some(Resolve(ModelKey(model))))
    {
      if text == "" {
        return 0;
      }
      var enc := GetEncoder(model);
      n := CountText(text, enc);
    }
  }
}
