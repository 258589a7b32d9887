/** Truncate (encoding.go): keep the first `maxLen` tokens and tile the rest into
    overflow windows of `maxLen - stride` fresh tokens, each opening with the last
    `stride` tokens of the window before it.

    The helpers below take `stride` and `size = maxLen - stride` (positive), so
    `maxLen` is `stride + size`. */
module Truncation {
  import opened Wrappers
  import opened Seqs
  import opened Windows
  import opened Encodings

  datatype TruncateError = InvalidArgument

  /** The number of overflow windows truncation produces. */
  function OverflowCount(e: Encoding, stride: nat, size: nat): nat
    requires 0 < size && stride + size <= |e.ids|
  {
    WindowCount(|e.ids| - stride - size, size)
  }

  /** Overflow window `k`: every parallel array cut by the same window; no overflow
      of its own. */
  function WindowOf(e: Encoding, stride: nat, size: nat, k: nat): (w: Encoding)
    requires SameLength(e) && 0 < size && stride + size <= |e.ids|
    requires k < OverflowCount(e, stride, size)
  {
    Encoding(
      Window(e.ids, stride, size, k),
      Window(e.typeIds, stride, size, k),
      Window(e.tokens, stride, size, k),
      Window(e.offsets, stride, size, k),
      Window(e.specialTokenMask, stride, size, k),
      Window(e.attentionMask, stride, size, k),
      [],
      Window(e.words, stride, size, k))
  }

  /** The result Truncate promises, in closed form. */
  function Truncated(e: Encoding, maxLen: nat, stride: nat): Result<Encoding, TruncateError>
    requires stride < maxLen < |e.ids| ==> SameLength(e)
  {
    if stride >= maxLen || maxLen == 0 then Failure(InvalidArgument)
    else if maxLen >= |e.ids| then Success(e)
    else Success(Kept(e, maxLen).(overflowing := OverflowWindows(e, stride, maxLen - stride)))
  }

  /** All overflow windows, in order. */
  function OverflowWindows(e: Encoding, stride: nat, size: nat): (ws: seq<Encoding>)
    requires SameLength(e) && 0 < size && stride + size <= |e.ids|
  {
    seq(OverflowCount(e, stride, size), k requires 0 <= k < OverflowCount(e, stride, size) =>
          WindowOf(e, stride, size, k))
  }

  /** The kept prefix as an encoding without overflow: what the loop starts from. */
  function Kept(e: Encoding, maxLen: nat): (p: Encoding)
    requires SameLength(e) && maxLen <= |e.ids|
  {
    Encoding(e.ids[..maxLen], e.typeIds[..maxLen], e.tokens[..maxLen], e.offsets[..maxLen],
             e.specialTokenMask[..maxLen], e.attentionMask[..maxLen], [], e.words[..maxLen])
  }

  /** The rest past `maxLen`: the overflow material. */
  function Rest(e: Encoding, maxLen: nat): (p: Encoding)
    requires SameLength(e) && maxLen <= |e.ids|
  {
    Encoding(e.ids[maxLen..], e.typeIds[maxLen..], e.tokens[maxLen..], e.offsets[maxLen..],
             e.specialTokenMask[maxLen..], e.attentionMask[maxLen..], [], e.words[maxLen..])
  }

  /** Every array of `prev` has at least `stride` elements to carry over. */
  predicate NextPartDefined(prev: Encoding, stride: nat)
  {
    && stride <= |prev.ids| && stride <= |prev.typeIds| && stride <= |prev.tokens|
    && stride <= |prev.offsets| && stride <= |prev.specialTokenMask|
    && stride <= |prev.attentionMask| && stride <= |prev.words|
  }

  /** One round of the window loop: getCurrentPart applied to every array. */
  function NextPart(prev: Encoding, rest: Encoding, size: nat, partId: nat, stride: nat): Encoding
    requires NextPartDefined(prev, stride)
    requires SameLength(rest) && partId * size <= |rest.ids|
  {
    Encoding(
      CurrentPart(prev.ids, rest.ids, size, partId, stride),
      CurrentPart(prev.typeIds, rest.typeIds, size, partId, stride),
      CurrentPart(prev.tokens, rest.tokens, size, partId, stride),
      CurrentPart(prev.offsets, rest.offsets, size, partId, stride),
      CurrentPart(prev.specialTokenMask, rest.specialTokenMask, size, partId, stride),
      CurrentPart(prev.attentionMask, rest.attentionMask, size, partId, stride),
      [],
      CurrentPart(prev.words, rest.words, size, partId, stride))
  }

  /** What the loop holds as `prevEncoding` before round `k`: the kept prefix,
      then the window it built last. */
  function Previous(e: Encoding, stride: nat, size: nat, k: nat): Encoding
    requires SameLength(e) && 0 < size && stride + size < |e.ids|
    requires k <= OverflowCount(e, stride, size)
  {
    if k == 0 then Kept(e, stride + size) else WindowOf(e, stride, size, k - 1)
  }

  /** Round 0 of the window loop, from the kept prefix, yields window 0. */
  lemma FirstPart(e: Encoding, stride: nat, size: nat)
    requires SameLength(e) && 0 < size && stride + size < |e.ids|
    ensures 0 < OverflowCount(e, stride, size)
    ensures NextPart(Kept(e, stride + size), Rest(e, stride + size), size, 0, stride)
            == WindowOf(e, stride, size, 0)
  {
    FirstWindow(e.ids, stride, size);
    FirstWindow(e.typeIds, stride, size);
    FirstWindow(e.tokens, stride, size);
    FirstWindow(e.offsets, stride, size);
    FirstWindow(e.specialTokenMask, stride, size);
    FirstWindow(e.attentionMask, stride, size);
    FirstWindow(e.words, stride, size);
  }

  /** Round `k + 1`, from window `k`, yields window `k + 1`. */
  lemma SuccessorPart(e: Encoding, stride: nat, size: nat, k: nat)
    requires SameLength(e) && 0 < size && stride + size < |e.ids|
    requires k + 1 < OverflowCount(e, stride, size)
    ensures (k + 1) * size <= |e.ids| - stride - size
    ensures NextPartDefined(WindowOf(e, stride, size, k), stride)
    ensures NextPart(WindowOf(e, stride, size, k), Rest(e, stride + size), size, k + 1, stride)
            == WindowOf(e, stride, size, k + 1)
  {
    NextWindow(e.ids, stride, size, k);
    NextWindow(e.typeIds, stride, size, k);
    NextWindow(e.tokens, stride, size, k);
    NextWindow(e.offsets, stride, size, k);
    NextWindow(e.specialTokenMask, stride, size, k);
    NextWindow(e.attentionMask, stride, size, k);
    NextWindow(e.words, stride, size, k);
  }

  /** Round `k` of the window loop yields window `k`. */
  lemma PartStep(e: Encoding, stride: nat, size: nat, k: nat)
    requires SameLength(e) && 0 < size && stride + size < |e.ids|
    requires k < OverflowCount(e, stride, size)
    ensures k * size <= |e.ids| - stride - size
    ensures NextPartDefined(Previous(e, stride, size, k), stride)
    ensures NextPart(Previous(e, stride, size, k), Rest(e, stride + size), size, k, stride)
            == WindowOf(e, stride, size, k)
  {
    if k == 0 {
      FirstPart(e, stride, size);
    } else {
      SuccessorPart(e, stride, size, k - 1);
    }
  }

  /** Every window has equal-length arrays. */
  lemma WindowOfValid(e: Encoding, stride: nat, size: nat, k: nat)
    requires SameLength(e) && 0 < size && stride + size <= |e.ids|
    requires k < OverflowCount(e, stride, size)
    ensures Valid(WindowOf(e, stride, size, k))
  {
    WindowLength(e.ids, stride, size, k);
    WindowLength(e.typeIds, stride, size, k);
    WindowLength(e.tokens, stride, size, k);
    WindowLength(e.offsets, stride, size, k);
    WindowLength(e.specialTokenMask, stride, size, k);
    WindowLength(e.attentionMask, stride, size, k);
    WindowLength(e.words, stride, size, k);
  }

  /** Truncate, with the source's window loop. Only a real cut reads the arrays,
      and only the record's own arrays need to agree in length: the old overflow
      is dropped or returned untouched. */
  method Truncate(e: Encoding, maxLen: nat, stride: nat) returns (r: Result<Encoding, TruncateError>)
    requires stride < maxLen < |e.ids| ==> SameLength(e)
    ensures r == Truncated(e, maxLen, stride)
  {
    if stride >= maxLen || maxLen == 0 {
      return Failure(InvalidArgument);
    }
    if maxLen >= |e.ids| {
      return Success(e);
    }
    var kept := Kept(e, maxLen);
    var overflowing := WindowLoop(e, stride, maxLen - stride);
    r := Success(kept.(overflowing := overflowing));
  }

  /** The `for partSize*partId < len(oIds)` loop of Truncate: each round builds the
      next window from the previous one with getCurrentPart. */
  method WindowLoop(e: Encoding, stride: nat, partSize: nat) returns (overflowing: seq<Encoding>)
    requires SameLength(e) && 0 < partSize && stride + partSize < |e.ids|
    ensures overflowing == OverflowWindows(e, stride, partSize)
  {
    var rest := Rest(e, stride + partSize);
    overflowing := [];
    var partId := 0;
    var prevEncoding := Kept(e, stride + partSize);
    ghost var count := OverflowCount(e, stride, partSize);
    ghost var all := OverflowWindows(e, stride, partSize);
    while partSize * partId < |rest.ids|
      invariant partId <= count && overflowing == all[..partId]
      invariant prevEncoding == Previous(e, stride, partSize, partId)
      decreases count - partId
    {
      WindowIndex(|rest.ids|, partSize, partId);
      PartStep(e, stride, partSize, partId);
      var o := NextPart(prevEncoding, rest, partSize, partId, stride);
      assert all[..partId + 1] == all[..partId] + [o];
      partId := partId + 1;
      overflowing := overflowing + [o];
      prevEncoding := o;
    }
    WindowIndex(|rest.ids|, partSize, partId);
    assert overflowing == all;
  }

  /** The error cases, the no-op case and the kept prefix. */
  lemma TruncatedCases(e: Encoding, maxLen: nat, stride: nat)
    requires stride < maxLen < |e.ids| ==> SameLength(e)
    ensures var r := Truncated(e, maxLen, stride);
            && (r.Failure? <==> stride >= maxLen || maxLen == 0)
            && (r.Success? && maxLen >= |e.ids| ==> r.value == e)
            && (r.Success? && maxLen < |e.ids| ==>
                  && r.value.ids == e.ids[..maxLen] && r.value.typeIds == e.typeIds[..maxLen]
                  && r.value.tokens == e.tokens[..maxLen] && r.value.offsets == e.offsets[..maxLen]
                  && r.value.specialTokenMask == e.specialTokenMask[..maxLen]
                  && r.value.attentionMask == e.attentionMask[..maxLen]
                  && r.value.words == e.words[..maxLen])
  {
  }

  /** Truncation keeps the record's invariant: the kept prefix and every window
      have equal-length arrays. */
  lemma TruncatedValid(e: Encoding, maxLen: nat, stride: nat)
    requires Valid(e)
    ensures Truncated(e, maxLen, stride).Success? ==> Valid(Truncated(e, maxLen, stride).value)
  {
    if 0 <= stride < maxLen < |e.ids| {
      var size := maxLen - stride;
      var r := Truncated(e, maxLen, stride).value;
      forall k | 0 <= k < |r.overflowing| ensures Valid(r.overflowing[k]) {
        WindowOfValid(e, stride, size, k);
      }
    }
  }

  /** The number of windows is the ceiling of the overflow over `size`: they hold
      all of it and one fewer would not. */
  lemma TruncatedCount(e: Encoding, stride: nat, size: nat)
    requires SameLength(e) && 0 < size && stride + size < |e.ids|
    ensures var ws := Truncated(e, stride + size, stride).value.overflowing;
            var n := |e.ids| - stride - size;
            0 < |ws| && |ws| * size >= n && (|ws| - 1) * size < n
  {
    WindowCountBounds(|e.ids| - stride - size, size);
  }

  /** Window `k` of a truncation with `maxLen = stride + size` is the slice of the
      input starting `(k + 1) * size` tokens in, `maxLen` long or up to the end;
      past its first `stride` tokens it holds chunk `k` of the overflow. */
  lemma TruncatedWindow(e: Encoding, stride: nat, size: nat, k: nat)
    requires SameLength(e) && 0 < size && stride + size < |e.ids|
    requires k < OverflowCount(e, stride, size)
    ensures var ws := Truncated(e, stride + size, stride).value.overflowing;
            var s := k * size;
            var n := |e.ids| - stride - size;
            && s < n && ws[k] == WindowOf(e, stride, size, k)
            && ws[k].ids == e.ids[s + size..Min(s + size + stride + size, |e.ids|)]
            && ws[k].ids[stride..] == e.ids[stride + size..][s..Min(s + size, n)]
  {
    WindowFresh(e.ids, stride, size, k);
  }

  /** Windows overlap by `stride` tokens: window 0 opens with the last `stride`
      kept tokens, window `k > 0` with the last `stride` tokens of window `k - 1`. */
  lemma TruncatedOverlap(e: Encoding, stride: nat, size: nat, k: nat)
    requires SameLength(e) && 0 < size && stride + size < |e.ids|
    requires k < OverflowCount(e, stride, size)
    ensures var r := Truncated(e, stride + size, stride).value;
            var ws := r.overflowing;
            && (k == 0 ==> ws[0].ids[..stride] == r.ids[size..])
            && (k > 0 ==> |ws[k - 1].ids| == stride + size && ws[k].ids[..stride] == ws[k - 1].ids[size..])
  {
    if k == 0 {
      FirstOverlap(e.ids, stride, size);
    } else {
      WindowOverlap(e.ids, stride, size, k);
    }
  }

  /** The last window ends with the last token: nothing is lost. */
  lemma TruncatedLast(e: Encoding, stride: nat, size: nat)
    requires SameLength(e) && 0 < size && stride + size < |e.ids|
    ensures var ws := Truncated(e, stride + size, stride).value.overflowing;
            0 < |ws| && |ws| * size < |e.ids| && ws[|ws| - 1].ids == e.ids[|ws| * size..]
  {
    LastWindow(e.ids, stride, size);
  }

  /** The worked example: ids 0..9, maxLen 4, stride 2. */
  lemma TruncateExample(e: Encoding)
    requires SameLength(e) && e.ids == [0, 1, 2, 3, 4, 5, 6, 7, 8, 9]
    ensures Truncated(e, 4, 2).Success?
    ensures Truncated(e, 4, 2).value.ids == [0, 1, 2, 3]
    ensures var ws := Truncated(e, 4, 2).value.overflowing;
            |ws| == 3 && ws[0].ids == [2, 3, 4, 5] && ws[1].ids == [4, 5, 6, 7] && ws[2].ids == [6, 7, 8, 9]
  {
    var ws := Truncated(e, 4, 2).value.overflowing;
    assert WindowCount(6, 2) == 3;
    assert ws[0].ids == e.ids[2..6];
    assert ws[1].ids == e.ids[4..8];
    assert ws[2].ids == e.ids[6..10];
  }
}
