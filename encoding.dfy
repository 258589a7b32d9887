/** The tokenizer's output record (encoding.go): parallel per-token arrays plus
    the overflow encodings that truncation produces. Operations on it live in
    Truncation, Merging, Padding and Lookups. */
module Encodings {
  import opened Wrappers

  /** Go's uint32. */
  type U32 = x: int | 0 <= x < 0x1_0000_0000

  const U32_MODULUS: nat := 0x1_0000_0000

  /** A half-open span `[start, end)` of the original text; `{0, 0}` marks a token
      with no text of its own (padding, special tokens). */
  datatype Offsets = Offsets(start: nat, end: nat)

  datatype PaddingDirection = Left | Right

  /** One token as the model stage hands it over. */
  datatype Token = Token(id: U32, value: string, offsets: Offsets, word: U32)

  /** `words[i]` is the index of the word token `i` belongs to, `None` where no
      word is tracked (padding). */
  datatype Encoding = Encoding(
    ids: seq<U32>,
    typeIds: seq<U32>,
    tokens: seq<string>,
    offsets: seq<Offsets>,
    specialTokenMask: seq<U32>,
    attentionMask: seq<U32>,
    overflowing: seq<Encoding>,
    words: seq<Option<U32>>)

  /** The parallel arrays of `e` itself (not of its overflow) have one length. */
  predicate SameLength(e: Encoding)
  {
    && |e.typeIds| == |e.ids|
    && |e.tokens| == |e.ids|
    && |e.offsets| == |e.ids|
    && |e.specialTokenMask| == |e.ids|
    && |e.attentionMask| == |e.ids|
    && |e.words| == |e.ids|
  }

  /** The record's invariant: equal lengths here and in every overflow encoding,
      however deeply nested. */
  predicate Valid(e: Encoding)
    decreases e
  {
    SameLength(e) && forall i :: 0 <= i < |e.overflowing| ==> Valid(e.overflowing[i])
  }

  /** NewEncodingWithCapacity: `l` zero-valued slots in every array, no overflow.
      Go fills the word slice with 0; here a slot with no word yet is `None`. */
  function NewEncodingWithCapacity(l: nat): (r: Encoding)
    ensures Valid(r) && |r.ids| == l && r.overflowing == []
    ensures forall i :: 0 <= i < l ==>
              && r.ids[i] == 0 && r.typeIds[i] == 0 && r.tokens[i] == ""
              && r.offsets[i] == Offsets(0, 0) && r.specialTokenMask[i] == 0
              && r.attentionMask[i] == 0 && r.words[i] == None
  {
    Encoding(seq(l, _ => 0), seq(l, _ => 0), seq(l, _ => ""), seq(l, _ => Offsets(0, 0)),
             seq(l, _ => 0), seq(l, _ => 0), [], seq(l, _ => None))
  }

  /** NewEncodingFromTokens: one slot per token, in order, with every slot typed
      `typeId`, not special and attended to.
      The Go loop stores the loop index as the id, leaves `typeId` unused (the
      type ids are all 0) and allocates masks of length 0 and 1; this model
      stores each token's own id and type id and full-length masks. */
  method NewEncodingFromTokens(tokens: seq<Token>, typeId: U32) returns (r: Encoding)
    ensures Valid(r) && |r.ids| == |tokens| && r.overflowing == []
    ensures forall i :: 0 <= i < |tokens| ==>
              && r.ids[i] == tokens[i].id && r.typeIds[i] == typeId
              && r.tokens[i] == tokens[i].value && r.offsets[i] == tokens[i].offsets
              && r.specialTokenMask[i] == 0 && r.attentionMask[i] == 1
              && r.words[i] == Some(tokens[i].word)
  {
    var ids: seq<U32> := [];
    var offsets: seq<Offsets> := [];
    var words: seq<Option<U32>> := [];
    var toks: seq<string> := [];
    var i := 0;
    while i < |tokens|
      invariant i <= |tokens|
      invariant |ids| == i && |offsets| == i && |words| == i && |toks| == i
      invariant forall k :: 0 <= k < i ==>
                  ids[k] == tokens[k].id && offsets[k] == tokens[k].offsets
                  && words[k] == Some(tokens[k].word) && toks[k] == tokens[k].value
    {
      var t := tokens[i];
      ids := ids + [t.id];
      offsets := offsets + [t.offsets];
      words := words + [Some(t.word)];
      toks := toks + [t.value];
      i := i + 1;
    }
    var n := |tokens|;
    r := Encoding(ids, seq(n, _ => typeId), toks, offsets, seq(n, _ => 0), seq(n, _ => 1), [], words);
  }

  /** Len: the number of tokens. */
  function Len(e: Encoding): (n: nat)
    ensures SameLength(e) ==> n == |e.tokens| == |e.offsets| == |e.words|
  {
    |e.ids|
  }

  /** IsEmpty: no token at all. */
  function IsEmpty(e: Encoding): (b: bool)
    ensures b <==> Len(e) == 0
    ensures SameLength(e) ==> (b <==> e.tokens == [] && e.offsets == [])
  {
    |e.ids| == 0
  }

  /** TakeOverflowing: hands back the overflow list together with the encoding it
      was taken from, now without overflow. Go's value receiver empties only its
      own copy, so the caller's list is never reset; this model returns the reset
      encoding so the caller can keep it. */
  function TakeOverflowing(e: Encoding): (r: (seq<Encoding>, Encoding))
    ensures r.0 == e.overflowing && r.1.overflowing == []
    ensures r.1.(overflowing := e.overflowing) == e
    ensures Valid(e) ==> Valid(r.1) && forall i :: 0 <= i < |r.0| ==> Valid(r.0[i])
  {
    (e.overflowing, e.(overflowing := []))
  }

  /** NewEncodingFromTokens as written: the loop index as the id, type ids all 0,
      a special-token mask of length 0 and an attention mask of length 1. */
  function NewEncodingFromTokensAsWritten(tokens: seq<Token>, typeId: U32): (r: Encoding)
    ensures |r.ids| == |r.typeIds| == |r.tokens| == |r.offsets| == |r.words| == |tokens|
    ensures |r.specialTokenMask| == 0 && |r.attentionMask| == 1 && r.overflowing == []
    ensures forall i :: 0 <= i < |tokens| ==>
              && r.ids[i] == i % U32_MODULUS && r.typeIds[i] == 0
              && r.tokens[i] == tokens[i].value && r.offsets[i] == tokens[i].offsets
              && r.words[i] == Some(tokens[i].word)
  {
    Encoding(seq(|tokens|, i => i % U32_MODULUS), seq(|tokens|, _ => 0),
             seq(|tokens|, i requires 0 <= i < |tokens| => tokens[i].value),
             seq(|tokens|, i requires 0 <= i < |tokens| => tokens[i].offsets),
             [], [0], [], seq(|tokens|, i requires 0 <= i < |tokens| => Some(tokens[i].word)))
  }

  /** Two tokens with ids 7 and 8: as written the encoding has ids 0 and 1 and
      masks shorter than its ids, so it breaks the record's invariant. */
  lemma FromTokensAsWrittenInvalid(tokens: seq<Token>, typeId: U32)
    requires |tokens| == 2 && tokens[0].id == 7 && tokens[1].id == 8
    ensures NewEncodingFromTokensAsWritten(tokens, typeId).ids == [0, 1]
    ensures !Valid(NewEncodingFromTokensAsWritten(tokens, typeId))
  {
    assert NewEncodingFromTokensAsWritten(tokens, typeId).ids[1] == 1;
  }
}
