/** The read-only lookups of encoding.go between tokens, words and characters. */
module Lookups {
  import opened Wrappers
  import opened Encodings

  /** The first token of word `word`, if any. */
  function FirstWordToken(words: seq<Option<U32>>, word: U32): (r: Option<nat>)
    ensures r.Some? ==> && r.value < |words| && words[r.value] == Some(word)
                        && forall k :: 0 <= k < r.value ==> words[k] != Some(word)
    ensures r.None? ==> forall k :: 0 <= k < |words| ==> words[k] != Some(word)
    decreases |words|
  {
    if words == [] then None
    else if words[0] == Some(word) then Some(0)
    else match FirstWordToken(words[1..], word)
      case None => None
      case Some(i) => Some(i + 1)
  }

  /** The last token of word `word`, if any. */
  function LastWordToken(words: seq<Option<U32>>, word: U32): (r: Option<nat>)
    ensures r.Some? ==> && r.value < |words| && words[r.value] == Some(word)
                        && forall k :: r.value < k < |words| ==> words[k] != Some(word)
    ensures r.None? ==> forall k :: 0 <= k < |words| ==> words[k] != Some(word)
    decreases |words|
  {
    if words == [] then None
    else if words[|words| - 1] == Some(word) then Some(|words| - 1)
    else LastWordToken(words[..|words| - 1], word)
  }

  /** Word2Tokens: the tokens of word `word` as `[startTok, endTok)`, from the first
      to one past the last token whose word is `word`; `ok` is false, with
      `(0, 0)`, when no token belongs to it. The Go code scans a list holding only
      the matching word values and so returns positions within that list; this
      is the token range its documentation describes. */
  method Word2Tokens(e: Encoding, word: U32) returns (startTok: nat, endTok: nat, ok: bool)
    ensures ok <==> exists i :: 0 <= i < |e.words| && e.words[i] == Some(word)
    ensures !ok ==> startTok == 0 && endTok == 0
    ensures ok ==> && startTok < endTok <= |e.words|
                   && e.words[startTok] == Some(word) && e.words[endTok - 1] == Some(word)
                   && forall i :: 0 <= i < |e.words| && e.words[i] == Some(word) ==> startTok <= i < endTok
    ensures ok ==> Some(startTok) == FirstWordToken(e.words, word) && Some(endTok - 1) == LastWordToken(e.words, word)
  {
    var start: Option<nat> := None;
    var end: Option<nat> := None;
    for i := 0 to |e.words|
      invariant start.None? <==> end.None?
      invariant start.None? ==> forall k :: 0 <= k < i ==> e.words[k] != Some(word)
      invariant start.Some? ==> && start.value < end.value <= i
                                && e.words[start.value] == Some(word) && e.words[end.value - 1] == Some(word)
                                && forall k :: 0 <= k < i && e.words[k] == Some(word) ==> start.value <= k < end.value
    {
      if e.words[i] == Some(word) {
        if start == None || i < start.value {
          start := Some(i);
        }
        if end == None || i >= end.value {
          end := Some(i + 1);
        }
      }
    }
    if start.Some? && end.Some? {
      return start.value, end.value, true;
    }
    return 0, 0, false;
  }

  /** Offsets that never go backwards: token `i + 1` starts and ends no earlier
      than token `i`. */
  predicate Monotone(offsets: seq<Offsets>)
  {
    forall i, j :: 0 <= i <= j < |offsets| ==> offsets[i].start <= offsets[j].start && offsets[i].end <= offsets[j].end
  }

  /** Word2Chars: the span of word `word`, from the start of its first token to the
      end of its last. When offsets never go backwards it covers the span of every
      token of the word. Every token of the word must have a span, since the
      spans are read at the word's token positions. */
  method Word2Chars(e: Encoding, word: U32) returns (retVal: Offsets, ok: bool)
    requires forall i :: 0 <= i < |e.words| && e.words[i] == Some(word) ==> i < |e.offsets|
    ensures ok <==> exists i :: 0 <= i < |e.words| && e.words[i] == Some(word)
    ensures !ok ==> retVal == Offsets(0, 0)
    ensures ok ==> && FirstWordToken(e.words, word).Some? && LastWordToken(e.words, word).Some?
                   && retVal == Offsets(e.offsets[FirstWordToken(e.words, word).value].start,
                                        e.offsets[LastWordToken(e.words, word).value].end)
    ensures ok && Monotone(e.offsets) ==>
              forall i :: 0 <= i < |e.words| && e.words[i] == Some(word) ==>
                retVal.start <= e.offsets[i].start && e.offsets[i].end <= retVal.end
  {
    var start, end, found := Word2Tokens(e, word);
    if end == 0 {
      return Offsets(0, 0), false;
    }
    retVal := Offsets(e.offsets[start].start, e.offsets[end - 1].end);
    ok := true;
  }

  /** Token2Chars: the span of token `tokenIdx`, absent for an index outside the
      encoding. The Go guard rejects only `tokenIdx > len`, so index `len` itself
      reaches an out-of-range read (Token2CharsGuardAsWritten). */
  function Token2Chars(e: Encoding, tokenIdx: int): (r: Option<Offsets>)
    ensures r.Some? <==> 0 <= tokenIdx < |e.offsets|
    ensures r.Some? ==> r.value == e.offsets[tokenIdx]
  {
    if tokenIdx < 0 || tokenIdx >= |e.offsets| then None else Some(e.offsets[tokenIdx])
  }

  /** Token2Word: the word token `tokenIdx` belongs to, absent for an index
      outside the encoding or a token with no word. The Go loop instead looks for
      a word whose value equals the token index (Token2WordAsWritten). */
  function Token2Word(e: Encoding, tokenIdx: int): (r: Option<U32>)
    ensures r.Some? <==> 0 <= tokenIdx < |e.words| && e.words[tokenIdx].Some?
    ensures r.Some? ==> e.words[tokenIdx] == r
  {
    if 0 <= tokenIdx < |e.words| then e.words[tokenIdx] else None
  }

  /** Character `pos` lies in the span `o`. */
  predicate Contains(o: Offsets, pos: int)
  {
    o.start <= pos < o.end
  }

  /** The first token whose span contains character `pos`, if any. */
  function FirstContaining(offsets: seq<Offsets>, pos: int): (r: Option<nat>)
    ensures r.Some? ==> && r.value < |offsets| && Contains(offsets[r.value], pos)
                        && forall k :: 0 <= k < r.value ==> !Contains(offsets[k], pos)
    ensures r.None? ==> forall k :: 0 <= k < |offsets| ==> !Contains(offsets[k], pos)
    decreases |offsets|
  {
    if offsets == [] then None
    else if Contains(offsets[0], pos) then Some(0)
    else match FirstContaining(offsets[1..], pos)
      case None => None
      case Some(i) => Some(i + 1)
  }

  /** Char2Token: the first token whose span contains character `pos`, or `-1`
      and `false` when none does. */
  method Char2Token(e: Encoding, pos: int) returns (retVal: int, ok: bool)
    ensures ok ==> && 0 <= retVal < |e.offsets| && Contains(e.offsets[retVal], pos)
                   && forall k :: 0 <= k < retVal ==> !Contains(e.offsets[k], pos)
    ensures !ok ==> retVal == -1 && forall k :: 0 <= k < |e.offsets| ==> !Contains(e.offsets[k], pos)
    ensures ok ==> FirstContaining(e.offsets, pos) == Some(retVal)
    ensures !ok ==> FirstContaining(e.offsets, pos) == None
  {
    for i := 0 to |e.offsets|
      invariant forall k :: 0 <= k < i ==> !Contains(e.offsets[k], pos)
    {
      var o := e.offsets[i];
      if pos >= o.start && pos < o.end {
        return i, true;
      }
    }
    return -1, false;
  }

  /** Char2Word: the word of the first token containing character `pos`; absent
      when no token contains it or that token has no word. */
  method Char2Word(e: Encoding, pos: int) returns (retVal: U32, ok: bool)
    ensures ok <==> exists i :: 0 <= i < |e.offsets| && Contains(e.offsets[i], pos)
                     && (forall k :: 0 <= k < i ==> !Contains(e.offsets[k], pos))
                     && i < |e.words| && e.words[i].Some?
    ensures ok ==> && FirstContaining(e.offsets, pos).Some?
                   && FirstContaining(e.offsets, pos).value < |e.words|
                   && e.words[FirstContaining(e.offsets, pos).value] == Some(retVal)
    ensures !ok ==> retVal == 0
  {
    var idx, found := Char2Token(e, pos);
    if found {
      var w := Token2Word(e, idx);
      if w.Some? {
        return w.value, true;
      }
    }
    return 0, false;
  }

  /** No two tokens' spans share a character. */
  predicate Disjoint(offsets: seq<Offsets>)
  {
    forall i, j :: 0 <= i < j < |offsets| ==> offsets[i].end <= offsets[j].start || offsets[j].end <= offsets[i].start
  }

  /** Characters and tokens round-trip: with disjoint spans, the first character
      of a token's span (Token2Chars) maps back to that token (Char2Token), and the
      token found for a character has a span containing it. */
  lemma CharTokenRoundTrip(e: Encoding, i: nat, pos: int)
    requires Disjoint(e.offsets) && i < |e.offsets|
    ensures e.offsets[i].start < e.offsets[i].end ==>
              Token2Chars(e, i).Some? && FirstContaining(e.offsets, Token2Chars(e, i).value.start) == Some(i)
    ensures FirstContaining(e.offsets, pos) == Some(i) ==> Contains(Token2Chars(e, i).value, pos)
  {
    if e.offsets[i].start < e.offsets[i].end {
      assert Contains(e.offsets[i], e.offsets[i].start);
    }
  }

  /** Tokens and words agree: a token whose word Token2Word reports lies in the
      token range Word2Tokens gives for that word. */
  lemma TokenWordRoundTrip(e: Encoding, i: int)
    requires Token2Word(e, i).Some?
    ensures var w := Token2Word(e, i).value;
            && FirstWordToken(e.words, w).Some? && LastWordToken(e.words, w).Some?
            && FirstWordToken(e.words, w).value <= i <= LastWordToken(e.words, w).value
  {
  }

  /** Token2Word as written: a scan for a word whose value equals the token index
      (converted to uint32), returning that value. */
  method Token2WordAsWritten(e: Encoding, tokenIdx: int) returns (retVal: U32, ok: bool)
    ensures ok <==> Some(tokenIdx % U32_MODULUS) in e.words
    ensures ok ==> retVal == tokenIdx % U32_MODULUS
    ensures !ok ==> retVal == 0
  {
    for k := 0 to |e.words|
      invariant Some(tokenIdx % U32_MODULUS) !in e.words[..k]
    {
      var w := e.words[k];
      if w == Some(tokenIdx % U32_MODULUS) {
        return tokenIdx % U32_MODULUS, true;
      }
      assert e.words[..k + 1] == e.words[..k] + [w];
    }
    assert e.words[..|e.words|] == e.words;
    return 0, false;
  }

  /** The scan finds nothing for token 0 of an encoding whose only token is in word
      5, where Token2Word reports word 5. */
  lemma Token2WordMismatch(e: Encoding)
    requires e.words == [Some(5)]
    ensures Token2Word(e, 0) == Some(5)
    ensures Some(0 % U32_MODULUS) !in e.words
  {
  }

  /** Token2Chars's guard as written: an index is refused only below 0 or above
      the number of offsets. */
  function Token2CharsGuardAsWritten(e: Encoding, tokenIdx: int): (admitted: bool)
    ensures admitted <==> Token2Chars(e, tokenIdx).Some? || tokenIdx == |e.offsets|
  {
    !(tokenIdx < 0 || tokenIdx > |e.offsets|)
  }

  /** The guard as written lets through index `|offsets|`, one past the last
      offset, where Token2Chars reports no span. */
  lemma Token2CharsOffByOne(e: Encoding)
    ensures Token2CharsGuardAsWritten(e, |e.offsets|)
    ensures Token2Chars(e, |e.offsets|).None?
  {
  }
}
