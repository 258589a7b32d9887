/** MergeWith and Merge (encoding.go): concatenating a pair encoding onto an
    encoding, with the pair's offsets moved past this one's text and its word
    indices moved past this one's words, and the overflow lists combined as a
    cross product. */
module Merging {
  import opened Wrappers
  import opened Seqs
  import opened Encodings

  /** The largest `end` among the offsets, 0 when there are none: where the pair's
      text starts. */
  function MaxEnd(offsets: seq<Offsets>): (m: nat)
    ensures forall i :: 0 <= i < |offsets| ==> offsets[i].end <= m
    ensures m == 0 || exists i :: 0 <= i < |offsets| && offsets[i].end == m
    decreases |offsets|
  {
    if offsets == [] then 0
    else
      var m := MaxEnd(offsets[..|offsets| - 1]);
      if offsets[|offsets| - 1].end > m then offsets[|offsets| - 1].end else m
  }

  /** The pair's offsets moved `d` characters to the right. */
  function ShiftOffsets(offsets: seq<Offsets>, d: nat): (r: seq<Offsets>)
    ensures |r| == |offsets|
  {
    seq(|offsets|, i requires 0 <= i < |offsets| => Offsets(offsets[i].start + d, offsets[i].end + d))
  }

  /** The pair's word indices moved by `d` with uint32 wrap-around; a token with
      no word keeps none. */
  function ShiftWords(words: seq<Option<U32>>, d: nat): (r: seq<Option<U32>>)
    ensures |r| == |words|
  {
    seq(|words|, i requires 0 <= i < |words| =>
          if words[i].Some? then Some((words[i].value + d) % U32_MODULUS) else None)
  }

  /** The merge MergeWith performs, with every recursive merge kept (the Go code
      discards the results of its recursive calls; see MergedWithAsWritten). */
  function MergedWith(e: Encoding, p: Encoding): (r: Encoding)
    decreases e, p, 2
  {
    Encoding(
      e.ids + p.ids,
      e.typeIds + p.typeIds,
      e.tokens + p.tokens,
      e.offsets + ShiftOffsets(p.offsets, MaxEnd(e.offsets)),
      e.specialTokenMask + p.specialTokenMask,
      e.attentionMask + p.attentionMask,
      Concat(OverflowRows(e, p)) + OverflowTail(e, p),
      e.words + ShiftWords(p.words, |e.words|))
  }

  /** Step 1 of the overflow merge: one row per own overflow encoding. */
  function OverflowRows(e: Encoding, p: Encoding): (rows: seq<seq<Encoding>>)
    ensures |rows| == |e.overflowing|
    decreases e, p, 1
  {
    seq(|e.overflowing|, i requires 0 <= i < |e.overflowing| => MergedRow(e.overflowing[i], p))
  }

  /** The row of own overflow encoding `o`: `o` merged with the pair, then with each
      of the pair's overflow encodings. */
  function MergedRow(o: Encoding, p: Encoding): (row: seq<Encoding>)
    ensures |row| == 1 + |p.overflowing|
    decreases o, p, 3
  {
    [MergedWith(o, p)]
      + seq(|p.overflowing|, j requires 0 <= j < |p.overflowing| => MergedWith(o, p.overflowing[j]))
  }

  /** Step 2: the encoding itself merged with each of the pair's overflow encodings. */
  function OverflowTail(e: Encoding, p: Encoding): (tail: seq<Encoding>)
    ensures |tail| == |p.overflowing|
    decreases e, p, 1
  {
    seq(|p.overflowing|, j requires 0 <= j < |p.overflowing| => MergedWith(e, p.overflowing[j]))
  }

  /** The largest `end` of the encoding's offsets, with the source's scan. */
  method StartingOffset(offsets: seq<Offsets>) returns (startingOffset: nat)
    ensures startingOffset == MaxEnd(offsets)
  {
    startingOffset := 0;
    for k := 0 to |offsets|
      invariant startingOffset == MaxEnd(offsets[..k])
    {
      assert offsets[..k + 1][..k] == offsets[..k];
      if offsets[k].end > startingOffset {
        startingOffset := offsets[k].end;
      }
    }
    assert offsets[..|offsets|] == offsets;
  }

  /** MergeWith, with the source's loops: the overflow cross product, the
      concatenated arrays, the offset scan and shift, and the word re-indexing. */
  method MergeWith(e: Encoding, pair: Encoding) returns (r: Encoding)
    ensures r == MergedWith(e, pair)
    decreases e, pair, 1
  {
    var overflowings := MergeOverflowings(e, pair);
    // 3. the arrays, offsets shifted past this encoding's text
    var startingOffset := StartingOffset(e.offsets);
    var offsets := e.offsets;
    for k := 0 to |pair.offsets|
      invariant offsets == e.offsets + ShiftOffsets(pair.offsets[..k], startingOffset)
    {
      var o := pair.offsets[k];
      offsets := offsets + [Offsets(o.start + startingOffset, o.end + startingOffset)];
    }
    assert pair.offsets[..|pair.offsets|] == pair.offsets;
    // 4. word indices re-based past this encoding's words
    var wOffset := |e.words|;
    var words := e.words;
    for k := 0 to |pair.words|
      invariant words == e.words + ShiftWords(pair.words[..k], wOffset)
    {
      var w := pair.words[k];
      var newW := if w.Some? then Some((w.value + wOffset) % U32_MODULUS) else None;
      words := words + [newW];
    }
    assert pair.words[..|pair.words|] == pair.words;
    r := Encoding(e.ids + pair.ids, e.typeIds + pair.typeIds, e.tokens + pair.tokens, offsets,
                  e.specialTokenMask + pair.specialTokenMask, e.attentionMask + pair.attentionMask,
                  overflowings, words);
  }

  /** Steps 1 and 2 of MergeWith: the nested loops that build the new overflow list
      with recursive merges. */
  method MergeOverflowings(e: Encoding, pair: Encoding) returns (overflowings: seq<Encoding>)
    ensures overflowings == Concat(OverflowRows(e, pair)) + OverflowTail(e, pair)
    decreases e, pair, 0
  {
    overflowings := [];
    ghost var rows := OverflowRows(e, pair);
    // 1. every own overflow encoding with the pair, then with each pair overflow
    for i := 0 to |e.overflowing|
      invariant overflowings == Concat(rows[..i])
    {
      var o := e.overflowing[i];
      var currO := MergeWith(o, pair);
      overflowings := overflowings + [currO];
      for j := 0 to |pair.overflowing|
        invariant overflowings == Concat(rows[..i]) + MergedRow(o, pair)[..j + 1]
      {
        currO := MergeWith(o, pair.overflowing[j]);
        overflowings := overflowings + [currO];
        assert MergedRow(o, pair)[..j + 2] == MergedRow(o, pair)[..j + 1] + [currO];
      }
      assert rows[..i + 1][..i] == rows[..i];
    }
    assert rows[..|rows|] == rows;
    // 2. the encoding itself with each pair overflow
    for j := 0 to |pair.overflowing|
      invariant overflowings == Concat(rows) + OverflowTail(e, pair)[..j]
    {
      var newE := MergeWith(e, pair.overflowing[j]);
      overflowings := overflowings + [newE];
      assert OverflowTail(e, pair)[..j + 1] == OverflowTail(e, pair)[..j] + [newE];
    }
  }

  /** What a merge does to the arrays: this encoding's arrays followed by the
      pair's; the pair's spans moved past every span of this encoding, so its text
      starts where this one's ends; its word indices moved past this encoding's
      words, modulo 2^32, with absent words left absent. */
  lemma MergedArrays(e: Encoding, p: Encoding)
    ensures var r := MergedWith(e, p);
            var m := MaxEnd(e.offsets);
            && r.ids == e.ids + p.ids && r.typeIds == e.typeIds + p.typeIds
            && r.tokens == e.tokens + p.tokens
            && r.specialTokenMask == e.specialTokenMask + p.specialTokenMask
            && r.attentionMask == e.attentionMask + p.attentionMask
            && |r.offsets| == |e.offsets| + |p.offsets| && r.offsets[..|e.offsets|] == e.offsets
            && (forall j :: 0 <= j < |p.offsets| ==>
                  r.offsets[|e.offsets| + j] == Offsets(p.offsets[j].start + m, p.offsets[j].end + m))
            && (forall i, j :: 0 <= i < |e.offsets| <= j < |r.offsets| ==>
                  r.offsets[i].end <= r.offsets[j].start)
            && |r.words| == |e.words| + |p.words| && r.words[..|e.words|] == e.words
            && (forall j :: 0 <= j < |p.words| ==>
                  (p.words[j].None? ==> r.words[|e.words| + j] == None)
                  && (p.words[j].Some? ==>
                        r.words[|e.words| + j] == Some((p.words[j].value + |e.words|) % U32_MODULUS)))
  {
    var r := MergedWith(e, p);
    assert r.offsets[..|e.offsets|] == e.offsets;
    assert r.words[..|e.words|] == e.words;
  }

  /** An encoding without word indices (Go's nil `Words`, the empty list here)
      moves none of the pair's words: they are taken over as they are. */
  lemma MergeNilWords(e: Encoding, p: Encoding)
    requires e.words == []
    ensures MergedWith(e, p).words == p.words
  {
  }

  /** Merging keeps the record's invariant, here and in every overflow encoding. */
  lemma {:induction false} MergedValid(e: Encoding, p: Encoding)
    requires Valid(e) && Valid(p)
    ensures Valid(MergedWith(e, p))
    ensures |MergedWith(e, p).ids| == |e.ids| + |p.ids|
    decreases e, p
  {
    var rows := OverflowRows(e, p);
    forall i, j | 0 <= i < |rows| && 0 <= j < |rows[i]| ensures Valid(rows[i][j]) {
      var row := MergedRow(e.overflowing[i], p);
      assert rows[i] == row;
      if j == 0 {
        MergedValid(e.overflowing[i], p);
      } else {
        assert row[j] == MergedWith(e.overflowing[i], p.overflowing[j - 1]);
        MergedValid(e.overflowing[i], p.overflowing[j - 1]);
      }
    }
    ConcatForall(rows, Valid);
    forall j | 0 <= j < |p.overflowing| ensures Valid(OverflowTail(e, p)[j]) {
      MergedValid(e, p.overflowing[j]);
    }
  }

  /** The new overflow list has `n * (1 + m) + m` entries for `n` own and `m` pair
      overflow encodings. */
  lemma MergedOverflowCount(e: Encoding, p: Encoding)
    ensures |MergedWith(e, p).overflowing| == |e.overflowing| * (1 + |p.overflowing|) + |p.overflowing|
  {
    ConcatUniform(OverflowRows(e, p), 1 + |p.overflowing|);
  }

  /** Row `i` of the new overflow list, at `i * (1 + m)`: own overflow `i` merged
      with the pair, then with each pair overflow in order. */
  lemma MergedOverflowRow(e: Encoding, p: Encoding, i: nat, j: nat)
    requires i < |e.overflowing| && j <= |p.overflowing|
    ensures var r := MergedWith(e, p);
            var w := 1 + |p.overflowing|;
            && i * w + j < |r.overflowing|
            && r.overflowing[i * w + j]
               == if j == 0 then MergedWith(e.overflowing[i], p)
                  else MergedWith(e.overflowing[i], p.overflowing[j - 1])
  {
    var rows := OverflowRows(e, p);
    ConcatAt(rows, 1 + |p.overflowing|, i, j);
    var row := MergedRow(e.overflowing[i], p);
    assert rows[i] == row;
    if j > 0 {
      assert row[j] == MergedWith(e.overflowing[i], p.overflowing[j - 1]);
    }
  }

  /** After the rows, the encoding itself merged with each pair overflow. */
  lemma MergedOverflowTail(e: Encoding, p: Encoding, j: nat)
    requires j < |p.overflowing|
    ensures var r := MergedWith(e, p);
            var w := 1 + |p.overflowing|;
            && |e.overflowing| * w + j < |r.overflowing|
            && r.overflowing[|e.overflowing| * w + j] == MergedWith(e, p.overflowing[j])
  {
    MergedOverflowCount(e, p);
  }

  /** The empty encoding: no tokens, no overflow. */
  function Empty(): (r: Encoding)
    ensures Valid(r) && Len(r) == 0 && r.overflowing == []
  {
    NewEncodingWithCapacity(0)
  }

  /** Merging an empty pair changes nothing. */
  lemma {:induction false} MergeEmptyRight(e: Encoding)
    ensures MergedWith(e, Empty()) == e
    decreases e
  {
    var r := MergedWith(e, Empty());
    var rows := OverflowRows(e, Empty());
    assert OverflowTail(e, Empty()) == [];
    MergedOverflowCount(e, Empty());
    forall i | 0 <= i < |e.overflowing| ensures r.overflowing[i] == e.overflowing[i] {
      MergeEmptyRight(e.overflowing[i]);
      MergedOverflowRow(e, Empty(), i, 0);
      assert i * 1 + 0 == i;
    }
  }

  /** Merging onto an empty encoding yields the pair: its spans start at 0 and its
      word indices are not moved. */
  lemma {:induction false} MergeEmptyLeft(p: Encoding)
    ensures MergedWith(Empty(), p) == p
    decreases p
  {
    var r := MergedWith(Empty(), p);
    assert OverflowRows(Empty(), p) == [];
    assert r.overflowing == OverflowTail(Empty(), p);
    forall j | 0 <= j < |p.overflowing| ensures r.overflowing[j] == p.overflowing[j] {
      MergeEmptyLeft(p.overflowing[j]);
    }
    assert r.offsets == p.offsets;
    assert r.words == p.words;
  }

  /** Merge: the encodings merged in one by one, left to right. */
  function MergedAll(e: Encoding, encodings: seq<Encoding>): (r: Encoding)
    decreases |encodings|
  {
    if encodings == [] then e
    else MergedWith(MergedAll(e, encodings[..|encodings| - 1]), encodings[|encodings| - 1])
  }

  /** Merge, with the source's loop. */
  method Merge(e: Encoding, encodings: seq<Encoding>) returns (retVal: Encoding)
    ensures retVal == MergedAll(e, encodings)
  {
    retVal := e;
    for k := 0 to |encodings|
      invariant retVal == MergedAll(e, encodings[..k])
    {
      assert encodings[..k + 1][..k] == encodings[..k];
      retVal := MergeWith(retVal, encodings[k]);
    }
    assert encodings[..|encodings|] == encodings;
  }

  /** Merging a list is merging its parts one after the other: `Merge([])` is the
      identity and `Merge(a + b) == Merge(a).Merge(b)`. */
  lemma {:induction false} MergedAllAppend(e: Encoding, a: seq<Encoding>, b: seq<Encoding>)
    ensures MergedAll(e, []) == e
    ensures MergedAll(e, a + b) == MergedAll(MergedAll(e, a), b)
    decreases |b|
  {
    if b == [] {
      assert a + b == a;
    } else {
      var b' := b[..|b| - 1];
      MergedAllAppend(e, a, b');
      assert (a + b)[..|a + b| - 1] == a + b';
    }
  }

  /** The ids of a merged list are the ids of every encoding laid end to end. */
  lemma {:induction false} MergedAllIds(e: Encoding, encodings: seq<Encoding>)
    ensures MergedAll(e, encodings).ids
            == e.ids + Concat(seq(|encodings|, i requires 0 <= i < |encodings| => encodings[i].ids))
    decreases |encodings|
  {
    if encodings != [] {
      var init := encodings[..|encodings| - 1];
      MergedAllIds(e, init);
      var all := seq(|encodings|, i requires 0 <= i < |encodings| => encodings[i].ids);
      assert all[..|all| - 1] == seq(|init|, i requires 0 <= i < |init| => init[i].ids);
      MergedArrays(MergedAll(e, init), encodings[|encodings| - 1]);
    }
  }

  /** Merging a list of valid encodings keeps the record's invariant. */
  lemma {:induction false} MergedAllValid(e: Encoding, encodings: seq<Encoding>)
    requires Valid(e) && forall i :: 0 <= i < |encodings| ==> Valid(encodings[i])
    ensures Valid(MergedAll(e, encodings))
    decreases |encodings|
  {
    if encodings != [] {
      MergedAllValid(e, encodings[..|encodings| - 1]);
      MergedValid(MergedAll(e, encodings[..|encodings| - 1]), encodings[|encodings| - 1]);
    }
  }

  /** MergeWith as written: the recursive merges' results are discarded, so each
      overflow slot holds the unmerged own overflow encoding (or the unmerged
      encoding itself), repeated. */
  function MergedWithAsWritten(e: Encoding, p: Encoding): (r: Encoding)
    ensures r.(overflowing := MergedWith(e, p).overflowing) == MergedWith(e, p)
    ensures |r.overflowing| == |MergedWith(e, p).overflowing|
  {
    var m := |p.overflowing|;
    var rows := seq(|e.overflowing|, i requires 0 <= i < |e.overflowing| => Repeat(e.overflowing[i], 1 + m));
    ConcatUniform(rows, 1 + m);
    MergedOverflowCount(e, p);
    MergedWith(e, p).(overflowing := Concat(rows) + Repeat(e, m))
  }

  /** As written, every slot of the new overflow list holds an unmerged
      encoding: row `i` repeats own overflow `i`, and the tail repeats the
      encoding itself. */
  lemma MergedAsWrittenSlots(e: Encoding, p: Encoding, i: nat, j: nat)
    requires i < |e.overflowing| && j <= |p.overflowing|
    ensures var r := MergedWithAsWritten(e, p);
            var w := 1 + |p.overflowing|;
            && |r.overflowing| == |e.overflowing| * w + |p.overflowing|
            && i * w + j < |r.overflowing| && r.overflowing[i * w + j] == e.overflowing[i]
            && (j < |p.overflowing| ==> r.overflowing[|e.overflowing| * w + j] == e)
  {
    var m := |p.overflowing|;
    var rows := seq(|e.overflowing|, k requires 0 <= k < |e.overflowing| => Repeat(e.overflowing[k], 1 + m));
    ConcatAt(rows, 1 + m, i, j);
    MergedOverflowCount(e, p);
  }

  /** An own overflow encoding with token 1 merged with a pair holding token 2:
      the merge keeps both tokens in the first overflow slot, the code as written
      keeps only token 1. */
  lemma MergeWithDropsMerges(o: Encoding, e: Encoding, p: Encoding)
    requires o.ids == [1] && e.overflowing == [o]
    requires p.ids == [2] && p.overflowing == []
    ensures |MergedWith(e, p).overflowing| == |MergedWithAsWritten(e, p).overflowing| == 1
    ensures MergedWith(e, p).overflowing[0].ids == [1, 2]
    ensures MergedWithAsWritten(e, p).overflowing[0].ids == [1]
  {
    MergedOverflowCount(e, p);
    MergedOverflowRow(e, p, 0, 0);
    var rows := seq(|e.overflowing|, i requires 0 <= i < |e.overflowing| => Repeat(e.overflowing[i], 1));
    ConcatAt(rows, 1, 0, 0);
  }
}
