/** Pad (encoding.go): filler tokens added on the left or the right of every
    array up to a target length, in the encoding and in each overflow encoding. */
module Padding {
  import opened Wrappers
  import opened Seqs
  import opened Encodings

  /** The filler a padded slot receives in every array. */
  datatype PadValues = PadValues(padId: U32, padTypeId: U32, padToken: string)

  /** The padding Pad performs: overflow encodings padded first; then, when the
      encoding is shorter than `target`, `target - |ids|` filler slots (the pad
      id, type id and token, special 1, attention 0, empty span, no word) before
      or after every array. The Go code drops the padded overflow encodings and
      returns a zero Encoding when no padding is needed; this is the behaviour its
      comments describe. */
  function Padded(e: Encoding, target: nat, v: PadValues, direction: PaddingDirection): (r: Encoding)
    decreases e
  {
    var overflowing := seq(|e.overflowing|, i requires 0 <= i < |e.overflowing| =>
                             Padded(e.overflowing[i], target, v, direction));
    if |e.ids| >= target then e.(overflowing := overflowing)
    else
      var n := target - |e.ids|;
      match direction
      case Left =>
        Encoding(Repeat(v.padId, n) + e.ids, Repeat(v.padTypeId, n) + e.typeIds,
                 Repeat(v.padToken, n) + e.tokens, Repeat(Offsets(0, 0), n) + e.offsets,
                 Repeat(1, n) + e.specialTokenMask, Repeat(0, n) + e.attentionMask,
                 overflowing, Repeat(None, n) + e.words)
      case Right =>
        Encoding(e.ids + Repeat(v.padId, n), e.typeIds + Repeat(v.padTypeId, n),
                 e.tokens + Repeat(v.padToken, n), e.offsets + Repeat(Offsets(0, 0), n),
                 e.specialTokenMask + Repeat(1, n), e.attentionMask + Repeat(0, n),
                 overflowing, e.words + Repeat(None, n))
  }

  /** Pad, with the source's loops: the recursive calls over the overflow list,
      the fill loops of left padding and the append loop of right padding. */
  method Pad(e: Encoding, targetLength: nat, v: PadValues, direction: PaddingDirection) returns (r: Encoding)
    ensures r == Padded(e, targetLength, v, direction)
    decreases e
  {
    // 1. the overflow encodings, each padded recursively
    var overflowing: seq<Encoding> := [];
    ghost var want := Padded(e, targetLength, v, direction).overflowing;
    for i := 0 to |e.overflowing|
      invariant overflowing == want[..i]
    {
      var o := Pad(e.overflowing[i], targetLength, v, direction);
      overflowing := overflowing + [o];
      assert want[..i + 1] == want[..i] + [o];
    }
    assert want[..|e.overflowing|] == want;
    // 2. nothing more when the encoding is long enough
    if |e.ids| >= targetLength {
      return e.(overflowing := overflowing);
    }
    var padLength := targetLength - |e.ids|;
    match direction {
      case Left =>
        var newIds := Filled(v.padId, padLength);
        var newTypeIds := Filled(v.padTypeId, padLength);
        var newTokens := Filled(v.padToken, padLength);
        var newSpecialTokenMask := Filled(1, padLength);
        var newAttentionMask := Filled(0, padLength);
        var newOffsets := Filled(Offsets(0, 0), padLength);
        var newWords := Filled(None, padLength);
        r := Encoding(newIds + e.ids, newTypeIds + e.typeIds, newTokens + e.tokens,
                      newOffsets + e.offsets, newSpecialTokenMask + e.specialTokenMask,
                      newAttentionMask + e.attentionMask, overflowing, newWords + e.words);
      case Right =>
        r := e.(overflowing := overflowing);
        for i := 0 to padLength
          invariant r == Encoding(
            e.ids + Repeat(v.padId, i), e.typeIds + Repeat(v.padTypeId, i),
            e.tokens + Repeat(v.padToken, i), e.offsets + Repeat(Offsets(0, 0), i),
            e.specialTokenMask + Repeat(1, i), e.attentionMask + Repeat(0, i),
            overflowing, e.words + Repeat(None, i))
        {
          r := r.(ids := r.ids + [v.padId], typeIds := r.typeIds + [v.padTypeId],
                  tokens := r.tokens + [v.padToken], specialTokenMask := r.specialTokenMask + [1],
                  attentionMask := r.attentionMask + [0], offsets := r.offsets + [Offsets(0, 0)],
                  words := r.words + [None]);
        }
    }
  }

  function Max(a: nat, b: nat): nat
  {
    if a >= b then a else b
  }

  /** Right padding: the original arrays are an unchanged prefix, the filler fills
      the rest up to the target, and the length is the larger of the two. */
  lemma PaddedRight(e: Encoding, target: nat, v: PadValues)
    requires SameLength(e)
    ensures var r := Padded(e, target, v, Right);
            var l := |e.ids|;
            && SameLength(r) && |r.ids| == Max(l, target)
            && r.ids[..l] == e.ids && r.typeIds[..l] == e.typeIds && r.tokens[..l] == e.tokens
            && r.offsets[..l] == e.offsets && r.specialTokenMask[..l] == e.specialTokenMask
            && r.attentionMask[..l] == e.attentionMask && r.words[..l] == e.words
            && forall k :: l <= k < |r.ids| ==>
                 && r.ids[k] == v.padId && r.typeIds[k] == v.padTypeId && r.tokens[k] == v.padToken
                 && r.offsets[k] == Offsets(0, 0) && r.specialTokenMask[k] == 1
                 && r.attentionMask[k] == 0 && r.words[k] == None
  {
  }

  /** Left padding: the original arrays are an unchanged suffix, after the filler. */
  lemma PaddedLeft(e: Encoding, target: nat, v: PadValues)
    requires SameLength(e)
    ensures var r := Padded(e, target, v, Left);
            var n := Max(|e.ids|, target) - |e.ids|;
            && SameLength(r) && |r.ids| == Max(|e.ids|, target)
            && r.ids[n..] == e.ids && r.typeIds[n..] == e.typeIds && r.tokens[n..] == e.tokens
            && r.offsets[n..] == e.offsets && r.specialTokenMask[n..] == e.specialTokenMask
            && r.attentionMask[n..] == e.attentionMask && r.words[n..] == e.words
            && forall k :: 0 <= k < n ==>
                 && r.ids[k] == v.padId && r.typeIds[k] == v.padTypeId && r.tokens[k] == v.padToken
                 && r.offsets[k] == Offsets(0, 0) && r.specialTokenMask[k] == 1
                 && r.attentionMask[k] == 0 && r.words[k] == None
  {
  }

  /** Padding keeps the record's invariant, in every overflow encoding too. */
  lemma {:induction false} PaddedValid(e: Encoding, target: nat, v: PadValues, direction: PaddingDirection)
    requires Valid(e)
    ensures Valid(Padded(e, target, v, direction))
    decreases e
  {
    var r := Padded(e, target, v, direction);
    forall i | 0 <= i < |e.overflowing| ensures Valid(r.overflowing[i]) {
      PaddedValid(e.overflowing[i], target, v, direction);
    }
  }

  /** The encoding and all its overflow encodings hold at least `target` tokens. */
  predicate LongEnough(e: Encoding, target: nat)
    decreases e
  {
    |e.ids| >= target && forall i :: 0 <= i < |e.overflowing| ==> LongEnough(e.overflowing[i], target)
  }

  /** Padding what is long enough changes nothing. */
  lemma {:induction false} PadLongEnough(e: Encoding, target: nat, v: PadValues, direction: PaddingDirection)
    requires LongEnough(e, target)
    ensures Padded(e, target, v, direction) == e
    decreases e
  {
    var r := Padded(e, target, v, direction);
    forall i | 0 <= i < |e.overflowing| ensures r.overflowing[i] == e.overflowing[i] {
      PadLongEnough(e.overflowing[i], target, v, direction);
    }
  }

  /** Padding twice to the same target pads once. */
  lemma {:induction false} PadIdempotent(e: Encoding, target: nat, v: PadValues, direction: PaddingDirection)
    ensures Padded(Padded(e, target, v, direction), target, v, direction) == Padded(e, target, v, direction)
    decreases e
  {
    PadReachesTarget(e, target, v, direction);
    PadLongEnough(Padded(e, target, v, direction), target, v, direction);
  }

  /** Padding always reaches the target: afterwards the encoding and every
      overflow encoding, however nested, hold at least `target` tokens. */
  lemma {:induction false} PadReachesTarget(e: Encoding, target: nat, v: PadValues, direction: PaddingDirection)
    ensures LongEnough(Padded(e, target, v, direction), target)
    decreases e
  {
    var r := Padded(e, target, v, direction);
    forall i | 0 <= i < |e.overflowing| ensures LongEnough(r.overflowing[i], target) {
      PadReachesTarget(e.overflowing[i], target, v, direction);
    }
  }

  /** Left padding as written panics on `e` or on an overflow encoding at any
      depth: some node holds at least one token but fewer than `target`. */
  predicate PanicsLeft(e: Encoding, target: nat)
    decreases e
  {
    || 0 < |e.ids| < target
    || exists i :: 0 <= i < |e.overflowing| && PanicsLeft(e.overflowing[i], target)
  }

  /** Pad as written, with `None` where it panics: the overflow encodings are
      padded first (so a panic there propagates) and the results discarded; the
      bare `return` yields the zero Encoding; left padding builds the type ids
      from the already padded ids, fills the word slots with word 0, and its
      offset loop runs to the padded length, past the filler, which panics unless
      the encoding was empty. */
  function PaddedAsWritten(e: Encoding, target: nat, v: PadValues, direction: PaddingDirection): (r: Option<Encoding>)
    ensures r.None? <==> direction == Left && PanicsLeft(e, target)
    ensures r.Some? && |e.ids| >= target ==> r.value.ids == [] && r.value.overflowing == []
    ensures r.Some? && |e.ids| < target ==>
              r.value.overflowing == e.overflowing && r.value.ids == Padded(e, target, v, direction).ids
    decreases e
  {
    if exists i :: 0 <= i < |e.overflowing| && PaddedAsWritten(e.overflowing[i], target, v, direction).None? then None
    else if |e.ids| >= target then Some(NewEncodingWithCapacity(0))
    else
      var n := target - |e.ids|;
      match direction
      case Left =>
        var ids := Repeat(v.padId, n) + e.ids;
        if |ids| > n then None
        else Some(Encoding(ids, Repeat(v.padTypeId, n) + ids,
                           Repeat(v.padToken, n) + e.tokens, Repeat(Offsets(0, 0), n) + e.offsets,
                           Repeat(1, n) + e.specialTokenMask, Repeat(0, n) + e.attentionMask,
                           e.overflowing, Repeat(Some(0), n) + e.words))
      case Right =>
        Some(Encoding(e.ids + Repeat(v.padId, n), e.typeIds + Repeat(v.padTypeId, n),
                      e.tokens + Repeat(v.padToken, n), e.offsets + Repeat(Offsets(0, 0), n),
                      e.specialTokenMask + Repeat(1, n), e.attentionMask + Repeat(0, n),
                      e.overflowing, e.words + Repeat(Some(0), n)))
  }

  /** An encoding already at the target: the code as written returns an encoding
      with no tokens, where padding leaves it as it is. */
  lemma PadReturnsZero(e: Encoding, v: PadValues, direction: PaddingDirection)
    requires e.ids == [7] && e.overflowing == []
    ensures Padded(e, 1, v, direction) == e
    ensures PaddedAsWritten(e, 1, v, direction).Some? && PaddedAsWritten(e, 1, v, direction).value.ids == []
  {
  }

  /** Left padding a one-token encoding to two tokens panics as written; padding
      puts one filler slot before the token. */
  lemma PadLeftOverruns(e: Encoding, v: PadValues)
    requires SameLength(e) && e.ids == [7]
    ensures PaddedAsWritten(e, 2, v, Left).None?
    ensures Padded(e, 2, v, Left).ids == [v.padId, 7]
  {
  }

  /** Left padding an empty encoding to two tokens: as written the type ids hold
      four entries (the filler, then the padded ids), so the arrays no longer
      agree in length; padding gives two filler type ids. */
  lemma PadLeftTypeIds(e: Encoding, v: PadValues)
    requires SameLength(e) && e.ids == [] && e.overflowing == []
    ensures PaddedAsWritten(e, 2, v, Left).Some?
    ensures PaddedAsWritten(e, 2, v, Left).value.typeIds == [v.padTypeId, v.padTypeId, v.padId, v.padId]
    ensures Padded(e, 2, v, Left).typeIds == [v.padTypeId, v.padTypeId]
  {
  }

  /** An empty overflow encoding stays empty as written when padding to one
      token; padding gives it one filler slot. */
  lemma PadDropsOverflow(o: Encoding, e: Encoding, v: PadValues)
    requires o.ids == [] && o.overflowing == [] && e.ids == [] && e.overflowing == [o]
    ensures |Padded(e, 1, v, Right).overflowing[0].ids| == 1
    ensures PaddedAsWritten(e, 1, v, Right).Some? && PaddedAsWritten(e, 1, v, Right).value.overflowing[0].ids == []
  {
  }

  /** Left padding a two-token encoding to two tokens: it needs no filler, yet
      as written it panics, because its one-token overflow encoding is padded
      first and overruns its filler there. */
  lemma PadOverflowPanics(o: Encoding, e: Encoding, v: PadValues)
    requires o.ids == [9] && o.overflowing == []
    requires e.ids == [7, 8] && e.overflowing == [o]
    ensures PaddedAsWritten(e, 2, v, Left).None?
    ensures Padded(e, 2, v, Left).ids == [7, 8]
  {
    assert PanicsLeft(e.overflowing[0], 2);
  }
}
