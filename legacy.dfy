/** The earlier Encoding of tokenizer/encoding.go: pointer-receiver methods that
    update the receiver's arrays in place. It has no word indices and carries a
    handle to the normalized string it came from. Overflow encodings are stored
    by value, so they are `Snapshot` values here; the receiver is a class. */
module LegacyEncoding {
  import opened Wrappers
  import opened Seqs
  import opened Windows
  import opened Encodings
  import opened Truncation
  import opened Merging
  import opened Padding

  /** The normalizer's string handle, represented by its normalized text; the
      alignment back to the original text is not modelled. */
  datatype Normalized = Normalized(text: string)

  /** The normalizer's merge: the pair's text appended to the receiver's. */
  function MergeNormalized(a: Normalized, b: Normalized): Normalized
  {
    Normalized(a.text + b.text)
  }

  /** The value of an Encoding: what its overflow list stores and what a copy holds. */
  datatype Snapshot = Snapshot(
    normalized: Normalized,
    ids: seq<U32>,
    typeIds: seq<U32>,
    tokens: seq<string>,
    offsets: seq<Offsets>,
    specialTokenMask: seq<U32>,
    attentionMask: seq<U32>,
    overflowing: seq<Snapshot>)

  /** The six parallel arrays of `s` itself have one length. */
  predicate SnapSameLength(s: Snapshot)
  {
    && |s.typeIds| == |s.ids| && |s.tokens| == |s.ids| && |s.offsets| == |s.ids|
    && |s.specialTokenMask| == |s.ids| && |s.attentionMask| == |s.ids|
  }

  /** Equal lengths here and in every overflow snapshot. */
  predicate SnapValid(s: Snapshot)
    decreases s
  {
    SnapSameLength(s) && forall i :: 0 <= i < |s.overflowing| ==> SnapValid(s.overflowing[i])
  }

  // ---------------------------------------------------------------- Truncate

  /** Overflow window `k` (`maxLen = stride + size`), with the receiver's handle. */
  function SnapWindow(s: Snapshot, stride: nat, size: nat, k: nat): (w: Snapshot)
    requires SnapSameLength(s) && 0 < size && stride + size <= |s.ids|
    requires k < WindowCount(|s.ids| - stride - size, size)
  {
    Snapshot(s.normalized,
      Window(s.ids, stride, size, k), Window(s.typeIds, stride, size, k),
      Window(s.tokens, stride, size, k), Window(s.offsets, stride, size, k),
      Window(s.specialTokenMask, stride, size, k), Window(s.attentionMask, stride, size, k), [])
  }

  function SnapWindows(s: Snapshot, stride: nat, size: nat): (ws: seq<Snapshot>)
    requires SnapSameLength(s) && 0 < size && stride + size <= |s.ids|
  {
    var c := WindowCount(|s.ids| - stride - size, size);
    seq(c, k requires 0 <= k < c => SnapWindow(s, stride, size, k))
  }

  function SnapKept(s: Snapshot, maxLen: nat): Snapshot
    requires SnapSameLength(s) && maxLen <= |s.ids|
  {
    Snapshot(s.normalized, s.ids[..maxLen], s.typeIds[..maxLen], s.tokens[..maxLen],
             s.offsets[..maxLen], s.specialTokenMask[..maxLen], s.attentionMask[..maxLen], [])
  }

  function SnapRest(s: Snapshot, maxLen: nat): Snapshot
    requires SnapSameLength(s) && maxLen <= |s.ids|
  {
    Snapshot(s.normalized, s.ids[maxLen..], s.typeIds[maxLen..], s.tokens[maxLen..],
             s.offsets[maxLen..], s.specialTokenMask[maxLen..], s.attentionMask[maxLen..], [])
  }

  /** The truncation Truncate performs: the same error cases, no-op case and
      windows as in encoding.go. */
  function SnapTruncated(s: Snapshot, maxLen: nat, stride: nat): Result<Snapshot, TruncateError>
    requires stride < maxLen < |s.ids| ==> SnapSameLength(s)
  {
    if stride >= maxLen || maxLen == 0 then Failure(InvalidArgument)
    else if maxLen >= |s.ids| then Success(s)
    else Success(SnapKept(s, maxLen).(overflowing := SnapWindows(s, stride, maxLen - stride)))
  }

  predicate SnapPartDefined(prev: Snapshot, stride: nat)
  {
    && stride <= |prev.ids| && stride <= |prev.typeIds| && stride <= |prev.tokens|
    && stride <= |prev.offsets| && stride <= |prev.specialTokenMask| && stride <= |prev.attentionMask|
  }

  /** One round of the window loop: getCurrentPart on every array. */
  function SnapNextPart(normalized: Normalized, prev: Snapshot, rest: Snapshot, size: nat, partId: nat, stride: nat): Snapshot
    requires SnapPartDefined(prev, stride)
    requires SnapSameLength(rest) && partId * size <= |rest.ids|
  {
    Snapshot(normalized,
      CurrentPart(prev.ids, rest.ids, size, partId, stride),
      CurrentPart(prev.typeIds, rest.typeIds, size, partId, stride),
      CurrentPart(prev.tokens, rest.tokens, size, partId, stride),
      CurrentPart(prev.offsets, rest.offsets, size, partId, stride),
      CurrentPart(prev.specialTokenMask, rest.specialTokenMask, size, partId, stride),
      CurrentPart(prev.attentionMask, rest.attentionMask, size, partId, stride),
      [])
  }

  function SnapPrevious(s: Snapshot, stride: nat, size: nat, k: nat): Snapshot
    requires SnapSameLength(s) && 0 < size && stride + size < |s.ids|
    requires k <= WindowCount(|s.ids| - stride - size, size)
  {
    if k == 0 then SnapKept(s, stride + size) else SnapWindow(s, stride, size, k - 1)
  }

  lemma SnapFirstPart(s: Snapshot, stride: nat, size: nat)
    requires SnapSameLength(s) && 0 < size && stride + size < |s.ids|
    ensures 0 < WindowCount(|s.ids| - stride - size, size)
    ensures SnapNextPart(s.normalized, SnapKept(s, stride + size), SnapRest(s, stride + size), size, 0, stride)
            == SnapWindow(s, stride, size, 0)
  {
    FirstWindow(s.ids, stride, size);
    FirstWindow(s.typeIds, stride, size);
    FirstWindow(s.tokens, stride, size);
    FirstWindow(s.offsets, stride, size);
    FirstWindow(s.specialTokenMask, stride, size);
    FirstWindow(s.attentionMask, stride, size);
  }

  lemma SnapSuccessorPart(s: Snapshot, stride: nat, size: nat, k: nat)
    requires SnapSameLength(s) && 0 < size && stride + size < |s.ids|
    requires k + 1 < WindowCount(|s.ids| - stride - size, size)
    ensures (k + 1) * size <= |s.ids| - stride - size
    ensures SnapPartDefined(SnapWindow(s, stride, size, k), stride)
    ensures SnapNextPart(s.normalized, SnapWindow(s, stride, size, k), SnapRest(s, stride + size), size, k + 1, stride)
            == SnapWindow(s, stride, size, k + 1)
  {
    NextWindow(s.ids, stride, size, k);
    NextWindow(s.typeIds, stride, size, k);
    NextWindow(s.tokens, stride, size, k);
    NextWindow(s.offsets, stride, size, k);
    NextWindow(s.specialTokenMask, stride, size, k);
    NextWindow(s.attentionMask, stride, size, k);
  }

  /** Round `k` of the window loop yields window `k`. */
  lemma SnapPartStep(s: Snapshot, stride: nat, size: nat, k: nat)
    requires SnapSameLength(s) && 0 < size && stride + size < |s.ids|
    requires k < WindowCount(|s.ids| - stride - size, size)
    ensures k * size <= |s.ids| - stride - size
    ensures SnapPartDefined(SnapPrevious(s, stride, size, k), stride)
    ensures SnapNextPart(s.normalized, SnapPrevious(s, stride, size, k), SnapRest(s, stride + size), size, k, stride)
            == SnapWindow(s, stride, size, k)
  {
    if k == 0 {
      SnapFirstPart(s, stride, size);
    } else {
      SnapSuccessorPart(s, stride, size, k - 1);
    }
  }

  /** The window loop of Truncate. The Go loop starts from the receiver before it
      is cut (so window 0 would open with the last `stride` tokens of the whole
      input); it starts here from the kept prefix, as in encoding.go. */
  method SnapWindowLoop(s: Snapshot, stride: nat, partSize: nat) returns (overflowing: seq<Snapshot>)
    requires SnapSameLength(s) && 0 < partSize && stride + partSize < |s.ids|
    ensures overflowing == SnapWindows(s, stride, partSize)
  {
    var rest := SnapRest(s, stride + partSize);
    overflowing := [];
    var partId := 0;
    var prevEncoding := SnapKept(s, stride + partSize);
    ghost var count := WindowCount(|s.ids| - stride - partSize, partSize);
    ghost var all := SnapWindows(s, stride, partSize);
    while partSize * partId < |rest.ids|
      invariant partId <= count && overflowing == all[..partId]
      invariant prevEncoding == SnapPrevious(s, stride, partSize, partId)
      decreases count - partId
    {
      WindowIndex(|rest.ids|, partSize, partId);
      SnapPartStep(s, stride, partSize, partId);
      var o := SnapNextPart(s.normalized, prevEncoding, rest, partSize, partId, stride);
      assert all[..partId + 1] == all[..partId] + [o];
      partId := partId + 1;
      overflowing := overflowing + [o];
      prevEncoding := o;
    }
    WindowIndex(|rest.ids|, partSize, partId);
    assert overflowing == all;
  }

  /** A real truncation keeps the first `maxLen` tokens of every array, and the
      invariant, in the receiver and in every window. */
  lemma SnapTruncatedKept(s: Snapshot, maxLen: nat, stride: nat)
    requires SnapValid(s) && stride < maxLen < |s.ids|
    ensures var r := SnapTruncated(s, maxLen, stride);
            && r.Success? && SnapValid(r.value)
            && r.value.ids == s.ids[..maxLen] && r.value.typeIds == s.typeIds[..maxLen]
            && r.value.tokens == s.tokens[..maxLen] && r.value.offsets == s.offsets[..maxLen]
            && r.value.specialTokenMask == s.specialTokenMask[..maxLen]
            && r.value.attentionMask == s.attentionMask[..maxLen]
  {
    var size := maxLen - stride;
    var ws := SnapTruncated(s, maxLen, stride).value.overflowing;
    forall k | 0 <= k < |ws| ensures SnapValid(ws[k]) {
      WindowLength(s.ids, stride, size, k);
      WindowLength(s.typeIds, stride, size, k);
      WindowLength(s.tokens, stride, size, k);
      WindowLength(s.offsets, stride, size, k);
      WindowLength(s.specialTokenMask, stride, size, k);
      WindowLength(s.attentionMask, stride, size, k);
    }
  }

  /** A real truncation (`maxLen = stride + size`) makes `ceil(overflow / size)`
      windows, and the last one ends with the last token. */
  lemma SnapTruncatedCount(s: Snapshot, stride: nat, size: nat)
    requires SnapSameLength(s) && 0 < size && stride + size < |s.ids|
    ensures var ws := SnapTruncated(s, stride + size, stride).value.overflowing;
            var n := |s.ids| - stride - size;
            && 0 < |ws| && |ws| * size >= n && (|ws| - 1) * size < n
            && ws[|ws| - 1].ids == s.ids[|ws| * size..]
  {
    WindowCountBounds(|s.ids| - stride - size, size);
    LastWindow(s.ids, stride, size);
  }

  /** Windows overlap by `stride` tokens: window 0 with the kept prefix, window
      `k + 1` with window `k`, which is full. */
  lemma SnapTruncatedOverlap(s: Snapshot, stride: nat, size: nat, k: nat)
    requires SnapSameLength(s) && 0 < size && stride + size < |s.ids|
    requires k < WindowCount(|s.ids| - stride - size, size)
    ensures var r := SnapTruncated(s, stride + size, stride).value;
            var ws := r.overflowing;
            && (k == 0 ==> ws[0].ids[..stride] == r.ids[size..])
            && (k > 0 ==> |ws[k - 1].ids| == stride + size && ws[k].ids[..stride] == ws[k - 1].ids[size..])
  {
    if k == 0 {
      FirstOverlap(s.ids, stride, size);
    } else {
      WindowOverlap(s.ids, stride, size, k);
    }
  }

  // --------------------------------------------------------------- MergeWith

  /** The merge MergeWith performs. */
  function SnapMerged(s: Snapshot, p: Snapshot): (r: Snapshot)
    decreases s, p, 2
  {
    SnapAppended(s, p).(overflowing := Concat(SnapRows(s, p)) + SnapTail(s, p))
  }

  /** Step 3 of MergeWith: the handles merged, the pair's arrays after the
      receiver's, its offsets moved past the receiver's text. */
  function SnapAppended(s: Snapshot, p: Snapshot): (r: Snapshot)
  {
    Snapshot(MergeNormalized(s.normalized, p.normalized),
      s.ids + p.ids, s.typeIds + p.typeIds, s.tokens + p.tokens,
      s.offsets + ShiftOffsets(p.offsets, MaxEnd(s.offsets)),
      s.specialTokenMask + p.specialTokenMask, s.attentionMask + p.attentionMask,
      s.overflowing)
  }

  function SnapRows(s: Snapshot, p: Snapshot): (rows: seq<seq<Snapshot>>)
    ensures |rows| == |s.overflowing|
    decreases s, p, 1
  {
    seq(|s.overflowing|, i requires 0 <= i < |s.overflowing| => SnapRow(s.overflowing[i], p))
  }

  function SnapRow(o: Snapshot, p: Snapshot): (row: seq<Snapshot>)
    ensures |row| == 1 + |p.overflowing|
    decreases o, p, 3
  {
    [SnapMerged(o, p)]
      + seq(|p.overflowing|, j requires 0 <= j < |p.overflowing| => SnapMerged(o, p.overflowing[j]))
  }

  function SnapTail(s: Snapshot, p: Snapshot): (tail: seq<Snapshot>)
    ensures |tail| == |p.overflowing|
    decreases s, p, 1
  {
    seq(|p.overflowing|, j requires 0 <= j < |p.overflowing| => SnapMerged(s, p.overflowing[j]))
  }

  /** Every array's new length is the sum of the two; the pair's spans follow the
      receiver's text; the overflow list has `n * (1 + m) + m` entries. */
  lemma SnapMergedShape(s: Snapshot, p: Snapshot)
    ensures var r := SnapMerged(s, p);
            var d := MaxEnd(s.offsets);
            && r.normalized.text == s.normalized.text + p.normalized.text
            && r.ids == s.ids + p.ids && r.typeIds == s.typeIds + p.typeIds
            && r.tokens == s.tokens + p.tokens
            && r.specialTokenMask == s.specialTokenMask + p.specialTokenMask
            && r.attentionMask == s.attentionMask + p.attentionMask
            && |r.offsets| == |s.offsets| + |p.offsets| && r.offsets[..|s.offsets|] == s.offsets
            && (forall j :: 0 <= j < |p.offsets| ==>
                  r.offsets[|s.offsets| + j] == Offsets(p.offsets[j].start + d, p.offsets[j].end + d))
            && (forall i, j :: 0 <= i < |s.offsets| <= j < |r.offsets| ==> r.offsets[i].end <= r.offsets[j].start)
            && |r.overflowing| == |s.overflowing| * (1 + |p.overflowing|) + |p.overflowing|
  {
    var r := SnapMerged(s, p);
    assert r.offsets[..|s.offsets|] == s.offsets;
    ConcatUniform(SnapRows(s, p), 1 + |p.overflowing|);
  }

  /** Merging keeps equal lengths, here and in every overflow snapshot. */
  lemma {:induction false} SnapMergedValid(s: Snapshot, p: Snapshot)
    requires SnapValid(s) && SnapValid(p)
    ensures SnapValid(SnapMerged(s, p))
    decreases s, p
  {
    var rows := SnapRows(s, p);
    forall i, j | 0 <= i < |rows| && 0 <= j < |rows[i]| ensures SnapValid(rows[i][j]) {
      var row := SnapRow(s.overflowing[i], p);
      assert rows[i] == row;
      if j == 0 {
        SnapMergedValid(s.overflowing[i], p);
      } else {
        assert row[j] == SnapMerged(s.overflowing[i], p.overflowing[j - 1]);
        SnapMergedValid(s.overflowing[i], p.overflowing[j - 1]);
      }
    }
    ConcatForall(rows, SnapValid);
    forall j | 0 <= j < |p.overflowing| ensures SnapValid(SnapTail(s, p)[j]) {
      SnapMergedValid(s, p.overflowing[j]);
    }
  }

  // --------------------------------------------------------------------- Pad

  /** The padding Pad performs, as in encoding.go without word indices. */
  function SnapPadded(s: Snapshot, target: nat, v: PadValues, direction: PaddingDirection): (r: Snapshot)
    decreases s
  {
    var overflowing := seq(|s.overflowing|, i requires 0 <= i < |s.overflowing| =>
                             SnapPadded(s.overflowing[i], target, v, direction));
    if |s.ids| >= target then s.(overflowing := overflowing)
    else SnapFilled(s.(overflowing := overflowing), target - |s.ids|, v, direction)
  }

  /** `n` filler slots before or after every array. */
  function SnapFilled(s: Snapshot, n: nat, v: PadValues, direction: PaddingDirection): (r: Snapshot)
  {
    match direction
    case Left =>
      Snapshot(s.normalized, Repeat(v.padId, n) + s.ids, Repeat(v.padTypeId, n) + s.typeIds,
               Repeat(v.padToken, n) + s.tokens, Repeat(Offsets(0, 0), n) + s.offsets,
               Repeat(1, n) + s.specialTokenMask, Repeat(0, n) + s.attentionMask, s.overflowing)
    case Right =>
      Snapshot(s.normalized, s.ids + Repeat(v.padId, n), s.typeIds + Repeat(v.padTypeId, n),
               s.tokens + Repeat(v.padToken, n), s.offsets + Repeat(Offsets(0, 0), n),
               s.specialTokenMask + Repeat(1, n), s.attentionMask + Repeat(0, n), s.overflowing)
  }

  /** Right padding appends `target - |ids|` filler entries to each array after the
      unchanged original; an encoding already at the target keeps its arrays. */
  lemma SnapPaddedRight(s: Snapshot, target: nat, v: PadValues)
    requires SnapSameLength(s)
    ensures var r := SnapPadded(s, target, v, Right);
            var l := |s.ids|;
            && SnapSameLength(r)
            && (l >= target ==> r == s.(overflowing := r.overflowing))
            && (l < target ==>
                  && |r.ids| == target
                  && r.ids[..l] == s.ids && r.typeIds[..l] == s.typeIds && r.tokens[..l] == s.tokens
                  && r.offsets[..l] == s.offsets && r.specialTokenMask[..l] == s.specialTokenMask
                  && r.attentionMask[..l] == s.attentionMask
                  && forall k :: l <= k < target ==>
                       && r.ids[k] == v.padId && r.typeIds[k] == v.padTypeId && r.tokens[k] == v.padToken
                       && r.offsets[k] == Offsets(0, 0) && r.specialTokenMask[k] == 1 && r.attentionMask[k] == 0)
  {
  }

  /** Left padding puts `target - |ids|` filler entries before each unchanged
      array; an encoding already at the target keeps its arrays. */
  lemma SnapPaddedLeft(s: Snapshot, target: nat, v: PadValues)
    requires SnapSameLength(s)
    ensures var r := SnapPadded(s, target, v, Left);
            var l := |s.ids|;
            && SnapSameLength(r)
            && (l >= target ==> r == s.(overflowing := r.overflowing))
            && (l < target ==>
                  var n := target - l;
                  && |r.ids| == target
                  && r.ids[n..] == s.ids && r.typeIds[n..] == s.typeIds && r.tokens[n..] == s.tokens
                  && r.offsets[n..] == s.offsets && r.specialTokenMask[n..] == s.specialTokenMask
                  && r.attentionMask[n..] == s.attentionMask
                  && forall k :: 0 <= k < n ==>
                       && r.ids[k] == v.padId && r.typeIds[k] == v.padTypeId && r.tokens[k] == v.padToken
                       && r.offsets[k] == Offsets(0, 0) && r.specialTokenMask[k] == 1 && r.attentionMask[k] == 0)
  {
    var r := SnapPadded(s, target, v, Left);
    var l := |s.ids|;
    if l < target {
      var n := target - l;
      assert r.ids[n..] == s.ids && r.typeIds[n..] == s.typeIds && r.tokens[n..] == s.tokens;
      assert r.offsets[n..] == s.offsets && r.specialTokenMask[n..] == s.specialTokenMask;
      assert r.attentionMask[n..] == s.attentionMask;
    }
  }

  /** Padding keeps equal lengths, here and in every overflow snapshot. */
  lemma {:induction false} SnapPaddedValid(s: Snapshot, target: nat, v: PadValues, direction: PaddingDirection)
    requires SnapValid(s)
    ensures SnapValid(SnapPadded(s, target, v, direction))
    decreases s
  {
    var r := SnapPadded(s, target, v, direction);
    forall i | 0 <= i < |s.overflowing| ensures SnapValid(r.overflowing[i]) {
      SnapPaddedValid(s.overflowing[i], target, v, direction);
    }
  }

  // ------------------------------------------------------------ the receiver

  /** The legacy `*Encoding` receiver: a record whose methods update its fields. */
  class Record {
    var normalized: Normalized
    var ids: seq<U32>
    var typeIds: seq<U32>
    var tokens: seq<string>
    var offsets: seq<Offsets>
    var specialTokenMask: seq<U32>
    var attentionMask: seq<U32>
    var overflowing: seq<Snapshot>

    /** The receiver's current value. */
    function Snap(): Snapshot
      reads this
    {
      Snapshot(normalized, ids, typeIds, tokens, offsets, specialTokenMask, attentionMask, overflowing)
    }

    /** Equal lengths in the receiver and in every stored overflow encoding. */
    predicate Valid()
      reads this
    {
      SnapValid(Snap())
    }

    /** NewEncoding. */
    constructor (normalized: Normalized, ids: seq<U32>, typeIds: seq<U32>, tokens: seq<string>,
                 offsets: seq<Offsets>, specialTokenMask: seq<U32>, attentionMask: seq<U32>,
                 overflowing: seq<Snapshot>)
      ensures Snap() == Snapshot(normalized, ids, typeIds, tokens, offsets, specialTokenMask, attentionMask, overflowing)
    {
      this.normalized := normalized;
      this.ids := ids;
      this.typeIds := typeIds;
      this.tokens := tokens;
      this.offsets := offsets;
      this.specialTokenMask := specialTokenMask;
      this.attentionMask := attentionMask;
      this.overflowing := overflowing;
    }

    /** A copy of a stored value, to run a pointer-receiver method on. */
    constructor Copy(s: Snapshot)
      ensures Snap() == s
    {
      normalized, ids, typeIds, tokens := s.normalized, s.ids, s.typeIds, s.tokens;
      offsets, specialTokenMask, attentionMask, overflowing := s.offsets, s.specialTokenMask, s.attentionMask, s.overflowing;
    }

    /** TakeOverflowing: hands back the overflow list and leaves the receiver with
        none, everything else as it was. */
    method TakeOverflowing() returns (o: seq<Snapshot>)
      modifies this
      ensures o == old(overflowing) && overflowing == []
      ensures Snap() == old(Snap()).(overflowing := [])
    {
      o := overflowing;
      overflowing := [];
    }

    /** Truncate: an error, with the receiver untouched, for bad arguments; nothing
        to do when it is short enough; otherwise the receiver is cut in place. The
        Go code only rebinds its local pointer to the cut encoding, so the caller
        never sees it; this is the update its comment describes. */
    method Truncate(maxLen: nat, stride: nat) returns (err: Option<TruncateError>)
      requires stride < maxLen < |ids| ==> SnapSameLength(Snap())
      modifies this
      ensures err.Some? <==> SnapTruncated(old(Snap()), maxLen, stride).Failure?
      ensures err.Some? ==> Snap() == old(Snap())
      ensures err.None? ==> Snap() == SnapTruncated(old(Snap()), maxLen, stride).value
      ensures old(Valid()) ==> Valid()
    {
      if stride >= maxLen || maxLen == 0 {
        return Some(InvalidArgument);
      }
      if maxLen >= |ids| {
        return None;
      }
      if Valid() {
        SnapTruncatedKept(Snap(), maxLen, stride);
      }
      var windows := SnapWindowLoop(Snap(), stride, maxLen - stride);
      ids, typeIds, tokens := ids[..maxLen], typeIds[..maxLen], tokens[..maxLen];
      offsets, specialTokenMask, attentionMask := offsets[..maxLen], specialTokenMask[..maxLen], attentionMask[..maxLen];
      overflowing := windows;
      return None;
    }

    /** MergeWith: the pair appended onto the receiver's arrays in place, its
        offsets moved past the receiver's text, and the overflow cross product.
        Each overflow merge runs on a copy; the Go code's `newE := e` copies the
        pointer, so there the receiver itself is merged with every pair overflow. */
    method MergeWith(pair: Snapshot)
      modifies this
      ensures Snap() == SnapMerged(old(Snap()), pair)
      ensures old(Valid()) && SnapValid(pair) ==> Valid()
      decreases Snap(), pair, 1
    {
      if Valid() && SnapValid(pair) {
        SnapMergedValid(Snap(), pair);
      }
      var overflowings := MergeOverflowings(pair);
      AppendPair(pair);
      overflowing := overflowings;
    }

    /** Step 3 of MergeWith: the pair's handle merged into the receiver's and its
        arrays appended in place, its offsets shifted by the largest end among
        the receiver's offsets. */
    method AppendPair(pair: Snapshot)
      modifies this
      ensures Snap() == SnapAppended(old(Snap()), pair)
    {
      normalized := MergeNormalized(normalized, pair.normalized);
      var startingOffset := StartingOffset(offsets);
      ids, typeIds, tokens := ids + pair.ids, typeIds + pair.typeIds, tokens + pair.tokens;
      ghost var before := Snap();
      for k := 0 to |pair.offsets|
        invariant Snap() == before.(offsets := before.offsets + ShiftOffsets(pair.offsets[..k], startingOffset))
      {
        var o := pair.offsets[k];
        offsets := offsets + [Offsets(o.start + startingOffset, o.end + startingOffset)];
      }
      assert pair.offsets[..|pair.offsets|] == pair.offsets;
      specialTokenMask := specialTokenMask + pair.specialTokenMask;
      attentionMask := attentionMask + pair.attentionMask;
    }

    /** Steps 1 and 2 of MergeWith: the overflow cross product, each merge run on a
        fresh copy; the receiver itself is left as it is. */
    method MergeOverflowings(pair: Snapshot) returns (overflowings: seq<Snapshot>)
      ensures overflowings == Concat(SnapRows(Snap(), pair)) + SnapTail(Snap(), pair)
      decreases Snap(), pair, 0
    {
      ghost var rows := SnapRows(Snap(), pair);
      overflowings := [];
      // 1. every own overflow encoding with the pair, then with each pair overflow
      for i := 0 to |overflowing|
        invariant overflowings == Concat(rows[..i])
      {
        var row := MergeRow(overflowing[i], pair);
        overflowings := overflowings + row;
        assert rows[..i + 1][..i] == rows[..i];
      }
      assert rows[..|rows|] == rows;
      // 2. a copy of the receiver with each pair overflow
      for j := 0 to |pair.overflowing|
        invariant overflowings == Concat(rows) + SnapTail(Snap(), pair)[..j]
      {
        var newE := new Record.Copy(Snap());
        newE.MergeWith(pair.overflowing[j]);
        overflowings := overflowings + [newE.Snap()];
        assert SnapTail(Snap(), pair)[..j + 1] == SnapTail(Snap(), pair)[..j] + [newE.Snap()];
      }
    }

    /** Pad: each overflow encoding padded (on a copy, stored back; the Go loop pads
        a copy and drops it), then filler before or after every array up to the
        target. Left padding fills its filler slices first, as in the source, but
        with the type ids and offsets the code evidently means. */
    method Pad(targetLength: nat, v: PadValues, direction: PaddingDirection)
      modifies this
      ensures Snap() == SnapPadded(old(Snap()), targetLength, v, direction)
      ensures old(Valid()) ==> Valid()
      decreases Snap(), 1
    {
      if Valid() {
        SnapPaddedValid(Snap(), targetLength, v, direction);
      }
      // 1. the overflow encodings
      overflowing := PadOverflowing(targetLength, v, direction);
      // 2. nothing more when the receiver is long enough
      if |ids| >= targetLength {
        return;
      }
      var padLength := targetLength - |ids|;
      match direction {
        case Left => PadLeft(padLength, v);
        case Right => PadRight(padLength, v);
      }
    }

    /** The Left case of Pad: filler slices built by fill loops, then the arrays
        after them. */
    method PadLeft(padLength: nat, v: PadValues)
      modifies this
      ensures Snap() == SnapFilled(old(Snap()), padLength, v, Left)
    {
      var newIds := Filled(v.padId, padLength);
      var newTypeIds := Filled(v.padTypeId, padLength);
      var newTokens := Filled(v.padToken, padLength);
      var newSpecialTokenMask := Filled(1, padLength);
      var newAttentionMask := Filled(0, padLength);
      var newOffsets := Filled(Offsets(0, 0), padLength);
      ids, typeIds, tokens := newIds + ids, newTypeIds + typeIds, newTokens + tokens;
      specialTokenMask, attentionMask := newSpecialTokenMask + specialTokenMask, newAttentionMask + attentionMask;
      offsets := newOffsets + offsets;
    }

    /** The Right case of Pad: one filler slot appended to every array per round. */
    method PadRight(padLength: nat, v: PadValues)
      modifies this
      ensures Snap() == SnapFilled(old(Snap()), padLength, v, Right)
    {
      for i := 0 to padLength
        invariant normalized == old(normalized) && overflowing == old(overflowing)
        invariant ids == old(ids) + Repeat(v.padId, i) && typeIds == old(typeIds) + Repeat(v.padTypeId, i)
        invariant tokens == old(tokens) + Repeat(v.padToken, i)
        invariant offsets == old(offsets) + Repeat(Offsets(0, 0), i)
        invariant specialTokenMask == old(specialTokenMask) + Repeat(1, i)
        invariant attentionMask == old(attentionMask) + Repeat(0, i)
      {
        ids := ids + [v.padId];
        typeIds := typeIds + [v.padTypeId];
        tokens := tokens + [v.padToken];
        specialTokenMask := specialTokenMask + [1];
        attentionMask := attentionMask + [0];
        offsets := offsets + [Offsets(0, 0)];
      }
    }

    /** Step 1 of Pad: every overflow encoding padded on a fresh copy; the
        receiver itself is left as it is. */
    method PadOverflowing(targetLength: nat, v: PadValues, direction: PaddingDirection) returns (padded: seq<Snapshot>)
      ensures padded == SnapPadded(Snap(), targetLength, v, direction).overflowing
      decreases Snap(), 0
    {
      ghost var want := SnapPadded(Snap(), targetLength, v, direction).overflowing;
      padded := [];
      for i := 0 to |overflowing|
        invariant padded == want[..i]
      {
        var o := new Record.Copy(overflowing[i]);
        o.Pad(targetLength, v, direction);
        padded := padded + [o.Snap()];
        assert want[..i + 1] == want[..i] + [o.Snap()];
      }
      assert want[..|overflowing|] == want;
    }
  }

  /** The body of step 1 of MergeWith for own overflow encoding `o`: a copy of it
      merged with the pair, then a fresh copy merged with each pair overflow. */
  method MergeRow(o: Snapshot, pair: Snapshot) returns (row: seq<Snapshot>)
    ensures row == SnapRow(o, pair)
    decreases o, pair, 2
  {
    var currO := new Record.Copy(o);
    currO.MergeWith(pair);
    row := [currO.Snap()];
    for j := 0 to |pair.overflowing|
      invariant row == SnapRow(o, pair)[..j + 1]
    {
      currO := new Record.Copy(o);
      currO.MergeWith(pair.overflowing[j]);
      row := row + [currO.Snap()];
      assert SnapRow(o, pair)[..j + 2] == SnapRow(o, pair)[..j + 1] + [currO.Snap()];
    }
  }
}
