# Encoding: the tokenizer's output record

This project models the `Encoding` record of a Go tokenizer library and proves
properties about the operations that reshape it. An `Encoding` is what the
tokenizer hands back for one input. It holds parallel per-token arrays:

- ids
- type ids
- token strings
- character offsets
- special-token mask
- attention mask
- word indices, in the current version only

It also holds a list of overflow encodings, and each of those can hold its own
overflow list.

The project covers two versions of the record.

- `encoding.go` (modules `Encodings`, `Windows`, `Truncation`, `Merging`,
  `Padding`, `Lookups`) uses value receivers, so every operation returns a new
  encoding. It is modelled as a datatype `Encoding` with spec functions.
  - The operations that loop in Go (the truncation window loop, the merge
    cross product, the fill loops, the lookup scans) are methods with the same
    loops. Each is proved equal to its spec function.
  - Lemmas state what the spec functions promise:
    - equal array lengths, here and in every overflow encoding (`Valid`)
    - kept prefixes
    - the shape, count and overlap of truncation windows
    - rebased offsets and words
    - the order and size of the merged overflow list
    - padding's prefix and suffix identities, no-op and idempotence
    - the lookups' search results
- `tokenizer/encoding.go` (module `LegacyEncoding`) is the earlier design.
  - Its pointer-receiver methods update the receiver in place, so it is a class
    `Record` with `seq` fields and `modifies this` methods.
  - Overflow encodings are stored by value, so they are `Snapshot` values.
  - Each method's `ensures` gives the receiver's new value as a function of its
    old one, and lemmas state what those functions promise.

Where the Go code has an evident defect, the model follows the evident intent.
Eight defects of `encoding.go` are also modelled as written, each beside a
concrete input that exhibits it (see "## Findings"). The others have no
as-written member; each is named under "## Left out" on the line of the member
that models the intent.

Go's `uint32` is the subtype `U32`; adding to a word index wraps modulo 2^32.
Offsets are unbounded naturals. Errors are `Failure(InvalidArgument)` in a
`Result`, or `Some(InvalidArgument)` for the legacy method.

## Model

| member | source | states |
|---|---|---|
| Windows.CurrentPart | encoding.go:465-498 | a part is at least `stride` and at most `stride + size` elements long |
| Windows.CurrentPartShape | encoding.go:465-498 | a part is the last `stride` elements of the previous part followed by chunk `idx` of the overflow (`size` elements, or up to the end) |
| Windows.WindowCount | encoding.go:291 | there are no windows exactly when there is no overflow |
| Windows.WindowCountBounds | encoding.go:285-291 | the windows' fresh chunks cover the overflow, and one window fewer would not |
| Windows.WindowIndex | encoding.go:291 | round `k` of the window loop runs exactly when `k * size` is below the overflow length |
| Windows.Window | encoding.go:284-308 | every window is longer than `stride` and at most `maxLen` long |
| Windows.WindowLength | encoding.go:470-476 | window `k` has `maxLen` elements, or whatever remains of the input |
| Windows.FirstWindow | encoding.go:288-295 | the first round, run on the kept prefix, yields window 0 |
| Windows.NextWindow | encoding.go:305-307 | a window followed by another is full, and the round after it yields the next window |
| Windows.WindowOverlap | encoding.go:475-476 | window `k` opens with the last `stride` elements of window `k - 1` |
| Windows.FirstOverlap | encoding.go:475-476 | window 0 opens with the last `stride` elements of the kept prefix |
| Windows.WindowFresh | encoding.go:470-474 | past its first `stride` elements, window `k` holds chunk `k` of the overflow |
| Windows.LastWindow | encoding.go:291-308 | the last window ends with the input's last element |
| Seqs.Filled | encoding.go:401-404 | the fill loop yields `n` copies of the filler |
| Encodings.NewEncodingWithCapacity | encoding.go:47-58 | `l` zero-valued slots in every array, no overflow, valid |
| Encodings.NewEncodingFromTokens | encoding.go:75-101 | one slot per token in order, with the token's id, value, offsets and word; type `typeId`; not special; attended; valid |
| Encodings.Len | encoding.go:109-111 | the number of tokens, which every array shares in a valid encoding |
| Encodings.IsEmpty | encoding.go:104-106 | true exactly when there are no tokens |
| Encodings.TakeOverflowing | encoding.go:154-158 | returns the overflow list and the encoding without it, everything else unchanged |
| Encodings.NewEncodingFromTokensAsWritten | encoding.go:75-101 | the constructor as written: the loop index as each id, type ids all 0, a special-token mask of length 0 and an attention mask of length 1, the tokens' values, offsets and words |
| Encodings.FromTokensAsWrittenInvalid | encoding.go:82-99 | with token ids 7 and 8, the code as written stores ids 0 and 1 and builds an encoding with arrays of unequal length |
| Truncation.Truncate | encoding.go:248-313 | returns exactly the truncation `Truncated`; the arrays must agree in length only when a real cut reads them |
| Truncation.WindowLoop | encoding.go:284-310 | the window loop yields exactly the windows `OverflowWindows` |
| Truncation.FirstPart | encoding.go:288-295 | round 0 of the loop, on the kept prefix, yields window 0 for every array |
| Truncation.SuccessorPart | encoding.go:305-307 | round `k + 1`, on window `k`, yields window `k + 1` for every array |
| Truncation.PartStep | encoding.go:291-308 | round `k`, on the previous window or the kept prefix, yields window `k` |
| Truncation.WindowOfValid | encoding.go:292-303 | every window's arrays have equal lengths |
| Truncation.TruncatedCases | encoding.go:250-282 | the result is an error exactly when `stride >= maxLen` or `maxLen == 0`; it is the input unchanged when `maxLen >= len`; otherwise every array is the first `maxLen` elements of the input array |
| Truncation.TruncatedValid | encoding.go:261-310 | truncating a valid encoding gives a valid encoding, windows included |
| Truncation.TruncatedCount | encoding.go:285-291 | there are `ceil(overflow / (maxLen - stride))` windows, with none empty at the end |
| Truncation.TruncatedWindow | encoding.go:291-308 | window `k` is the input slice starting `(k + 1) * (maxLen - stride)` in, `maxLen` long or up to the end, and holds overflow chunk `k` after its first `stride` tokens |
| Truncation.TruncatedOverlap | encoding.go:294-301 | window 0 opens with the last `stride` kept tokens; window `k` opens with the last `stride` tokens of the full window `k - 1` |
| Truncation.TruncatedLast | encoding.go:291-308 | the last window ends with the input's last token |
| Truncation.TruncateExample | encoding.go:248-313 | ids 0..9 with maxLen 4 and stride 2 keep [0,1,2,3] and give windows [2,3,4,5], [4,5,6,7], [6,7,8,9] |
| Merging.MaxEnd | encoding.go:357-362 | the largest `end` among the offsets, 0 when there are none |
| Merging.StartingOffset | encoding.go:357-362 | the scan computes `MaxEnd` |
| Merging.MergeWith | encoding.go:326-382 | returns exactly the merge `MergedWith` |
| Merging.MergeOverflowings | encoding.go:328-350 | the nested loops build the rows of own overflows crossed with the pair and its overflows, then the encoding with each pair overflow |
| Merging.MergeNilWords | encoding.go:374-379 | with no word indices on the receiver (Go's nil `Words`), the pair's words are taken over unshifted |
| Merging.MergedArrays | encoding.go:353-379 | every array is this encoding's followed by the pair's; pair offsets move right by `MaxEnd`, so each lies after every own span; pair words move by the word count, wrapping at 2^32, and absent words stay absent |
| Merging.MergedValid | encoding.go:326-382 | merging two valid encodings gives a valid encoding with the summed number of tokens |
| Merging.MergedOverflowCount | encoding.go:328-350 | the new overflow list has `n * (1 + m) + m` entries, so it is empty when both lists are |
| Merging.MergedOverflowRow | encoding.go:330-343 | entry `i * (1 + m)` is own overflow `i` merged with the pair, and entry `i * (1 + m) + 1 + j` is it merged with pair overflow `j` |
| Merging.MergedOverflowTail | encoding.go:346-350 | after the rows, entry `j` is the encoding merged with pair overflow `j` |
| Merging.MergeEmptyRight | encoding.go:326-382 | merging an empty pair changes nothing |
| Merging.MergeEmptyLeft | encoding.go:326-382 | merging onto an empty encoding yields the pair |
| Merging.Merge | encoding.go:316-323 | the loop yields exactly the left fold `MergedAll` |
| Merging.MergedAllAppend | encoding.go:316-323 | merging no encodings is the identity, and merging `a + b` is merging `a` then `b` |
| Merging.MergedAllIds | encoding.go:316-323 | the merged ids are every encoding's ids laid end to end |
| Merging.MergedAllValid | encoding.go:316-323 | merging valid encodings gives a valid encoding |
| Merging.MergedWithAsWritten | encoding.go:326-382 | the merge as written: the same arrays as `MergedWith` and an overflow list of the same length |
| Merging.MergedAsWrittenSlots | encoding.go:328-350 | as written, every slot of row `i` holds own overflow `i` unmerged, and every tail slot the encoding itself unmerged |
| Merging.MergeWithDropsMerges | encoding.go:330-343 | an own overflow holding token 1 and a pair holding token 2 merge to [1, 2], but the code as written stores [1] |
| Padding.Pad | encoding.go:385-463 | returns exactly the padding `Padded` |
| Padding.PaddedRight | encoding.go:450-459 | right padding keeps the original arrays as a prefix, fills the rest with the filler values, and reaches length `max(len, target)` |
| Padding.PaddedLeft | encoding.go:399-448 | left padding puts the filler values first and keeps the original arrays as a suffix, reaching length `max(len, target)` |
| Padding.PaddedValid | encoding.go:385-463 | padding a valid encoding gives a valid encoding |
| Padding.PadLongEnough | encoding.go:391-395 | padding an encoding whose overflows are all long enough changes nothing |
| Padding.PadIdempotent | encoding.go:385-463 | padding twice to the same target is padding once |
| Padding.PadReachesTarget | encoding.go:385-463 | after padding, the encoding and every overflow encoding hold at least `target` tokens |
| Padding.PaddedAsWritten | encoding.go:385-463 | the padding as written: it panics exactly when left-padding and some node of the overflow tree (the encoding itself or any nested overflow encoding, which is padded first) holds at least one token but fewer than the target; otherwise a long-enough encoding yields one with no ids and no overflow, and a shorter one gets the ids of `Padded` with its overflow left unpadded |
| Padding.PadOverflowPanics | encoding.go:386-439 | left padding `[7, 8]` to 2 needs no filler, but as written it panics in the recursive pad of its one-token overflow encoding |
| Padding.PadReturnsZero | encoding.go:391-395 | padding a one-token encoding to 1 changes nothing, but the code as written returns an encoding with no ids |
| Padding.PadLeftOverruns | encoding.go:436-439 | left padding `[7]` to 2 gives ids `[padId, 7]`, but the code as written indexes past the offset filler |
| Padding.PadLeftTypeIds | encoding.go:408-413 | left padding an empty encoding to 2 gives two `padTypeId`s, but the code as written appends the padded ids to them |
| Padding.PadDropsOverflow | encoding.go:386-389 | an empty overflow encoding padded to 1 gets a token, but the code as written leaves it empty |
| Lookups.FirstWordToken | encoding.go:166-192 | the first token of the word, or none when no token belongs to it |
| Lookups.LastWordToken | encoding.go:166-192 | the last token of the word, or none when no token belongs to it |
| Lookups.Word2Tokens | encoding.go:166-192 | `ok` exactly when some token belongs to the word; then the range runs from its first token to one past its last and covers all its tokens; otherwise `(0, 0)` |
| Lookups.Word2Chars | encoding.go:196-205 | needs a span only at the word's own token positions; `ok` exactly when the word has a token; the span runs from the start of its first token (`FirstWordToken`) to the end of its last (`LastWordToken`), and it covers every token of the word when offsets never go backwards |
| Lookups.Token2Chars | encoding.go:208-214 | the token's span, present exactly for an index inside the encoding |
| Lookups.Token2Word | encoding.go:217-225 | the token's word, present exactly for an index inside the encoding whose token has a word |
| Lookups.FirstContaining | encoding.go:228-236 | the smallest index whose span contains the character, or none |
| Lookups.Char2Token | encoding.go:228-236 | the smallest token whose span contains `pos`, or `(-1, false)` when no span contains it |
| Lookups.Char2Word | encoding.go:239-245 | `ok` exactly when the first token containing `pos` (`FirstContaining`) has a word slot holding a word, and then that word is returned; word lists of any length are accepted |
| Lookups.CharTokenRoundTrip | encoding.go:208-236 | with disjoint spans, a token's first character maps back to that token, and the token found for a character contains it |
| Lookups.TokenWordRoundTrip | encoding.go:166-225 | a token lies between the first and last token of the word Token2Word reports for it |
| Lookups.Token2WordAsWritten | encoding.go:217-225 | the code as written reports the token index itself when some word equals it |
| Lookups.Token2WordMismatch | encoding.go:217-225 | for the single token of word 5, Token2Word reports 5 while the scan as written finds nothing |
| Lookups.Token2CharsGuardAsWritten | encoding.go:209 | the guard as written admits exactly the indices Token2Chars answers, plus the index one past the last token |
| Lookups.Token2CharsOffByOne | encoding.go:209 | the guard as written lets through the index one past the last token |
| LegacyEncoding.Record.constructor | tokenizer/encoding.go:29-40 | the new encoding holds exactly the given handle, arrays and overflow list |
| LegacyEncoding.Record.TakeOverflowing | tokenizer/encoding.go:83-87 | returns the previous overflow list and leaves the receiver with none, everything else unchanged |
| LegacyEncoding.Record.Truncate | tokenizer/encoding.go:90-156 | an error, with the receiver untouched, exactly when `stride >= maxLen` or `maxLen == 0`; otherwise the receiver becomes `SnapTruncated` of its old value; a valid receiver stays valid |
| LegacyEncoding.SnapWindowLoop | tokenizer/encoding.go:116-140 | the window loop yields exactly the windows `SnapWindows` |
| LegacyEncoding.SnapFirstPart | tokenizer/encoding.go:120-133 | round 0, on the kept prefix, yields window 0 for every array |
| LegacyEncoding.SnapSuccessorPart | tokenizer/encoding.go:136-138 | round `k + 1`, on window `k`, yields window `k + 1` for every array |
| LegacyEncoding.SnapPartStep | tokenizer/encoding.go:123-140 | round `k` yields window `k` |
| LegacyEncoding.SnapTruncatedKept | tokenizer/encoding.go:96-152 | a real truncation keeps the first `maxLen` elements of every array, and equal lengths in every window |
| LegacyEncoding.SnapTruncatedCount | tokenizer/encoding.go:117-123 | the loop makes `ceil(overflow / partSize)` windows, and the last one ends with the last token |
| LegacyEncoding.SnapTruncatedOverlap | tokenizer/encoding.go:125-133 | window 0 opens with the last `stride` kept tokens, and window `k` with the last `stride` tokens of window `k - 1` |
| LegacyEncoding.Record.MergeWith | tokenizer/encoding.go:159-208 | the receiver becomes `SnapMerged` of its old value and the pair; a valid receiver merged with a valid pair stays valid |
| LegacyEncoding.Record.MergeOverflowings | tokenizer/encoding.go:161-183 | the loops build the overflow cross product, rows first, then the receiver with each pair overflow |
| LegacyEncoding.MergeRow | tokenizer/encoding.go:163-176 | a copy of own overflow `o` merged with the pair, then a fresh copy merged with each pair overflow |
| LegacyEncoding.Record.AppendPair | tokenizer/encoding.go:186-205 | the pair's handle is merged into the receiver's, and its arrays are appended in place, its offsets moved by the receiver's largest `end` |
| LegacyEncoding.SnapMergedShape | tokenizer/encoding.go:186-206 | the handle's text is the receiver's followed by the pair's; ids, type ids, tokens and both masks are the receiver's followed by the pair's; pair spans move by `MaxEnd` and follow every own span; the overflow list has `n * (1 + m) + m` entries |
| LegacyEncoding.SnapMergedValid | tokenizer/encoding.go:159-208 | merging two valid encodings keeps equal lengths, here and in every nested overflow encoding |
| LegacyEncoding.Record.Pad | tokenizer/encoding.go:211-280 | the receiver becomes `SnapPadded` of its old value; a valid receiver stays valid |
| LegacyEncoding.Record.PadOverflowing | tokenizer/encoding.go:213-215 | each overflow encoding is padded to the target |
| LegacyEncoding.Record.PadLeft | tokenizer/encoding.go:226-267 | `padLength` filler slots go before every array |
| LegacyEncoding.Record.PadRight | tokenizer/encoding.go:269-278 | `padLength` filler slots go after every array |
| LegacyEncoding.SnapPaddedRight | tokenizer/encoding.go:219-223 | right padding appends `target - len` filler entries after the unchanged arrays, and leaves the arrays alone when they already reach the target |
| LegacyEncoding.SnapPaddedLeft | tokenizer/encoding.go:219-267 | left padding puts `target - len` filler entries before the unchanged arrays, and leaves the arrays alone when they already reach the target |
| LegacyEncoding.SnapPaddedValid | tokenizer/encoding.go:211-280 | padding a valid encoding keeps equal lengths, here and in every nested overflow encoding |

## Left out

- `DefaultEncoding` (encoding.go:61-72), `NewEncoding` (encoding.go:28-45) and the field getters are not modelled as operations. `NewEncoding` is the datatype constructor `Encoding(...)`, and the getters are its field selectors. `DefaultEncoding` is a constant whose arrays disagree in length.
- The normalizer is foreign code. Its `Normalized` handle is represented by its normalized text only, and the handle's `MergeWith` (tokenizer/encoding.go:186) appends the pair's text. Its alignment to the original text is not modelled.
- `reflect` and `interface{}` dispatch in the window loop (encoding.go:295-301) are replaced by one generic function over `seq<T>`.
- Go slice capacity and aliasing are not modelled. Arrays are immutable sequences, and an `append` onto a subslice cannot write into a neighbouring array.
- Error strings are not modelled. Every error is the single value `InvalidArgument`.
- Offsets are unbounded naturals. An `int`/`uint` overflow when offsets are rebased is not modelled.
- Encodings.NewEncodingWithCapacity: word slots are `None` rather than Go's zero word 0. The model has an explicit "no word" value, which Go lacks.
- Encodings.TakeOverflowing: returns the emptied encoding beside the list. Go's value receiver empties only its own copy, so the caller's list is never reset.
- Padding.PaddedRight: filler slots get no word (`None`) where Go stores word 0 (encoding.go:458). The source's own comment marks 0 as a stand-in for an absent word.
- Padding.PaddedLeft: filler slots get no word (`None`) where Go stores word 0 (encoding.go:445), for the same reason.
- Lookups.Word2Tokens: returns the token range the documentation describes. The Go code returns positions within a list of only the matching word values, and its result depends on the Go version. `start = &i` (encoding.go:178-180) points at the range variable. From Go 1.22 each iteration has its own variable, so the result is `(0, count)`. Before Go 1.22 the one shared variable ends at `count - 1`, so the result is `(count - 1, count)`. The `uint32` conversion of the result is not modelled either.
- Lookups.Word2Chars: requires a span at every token position of the word. The model reads the offsets at those positions, and Go panics when one is missing. The arrays need not otherwise agree in length.
- Go's nil `Words` (encoding.go:24, encoding.go:164) is the empty word list `[]`. `None` stands only for the filler slots where Go writes word 0. A word list shorter than the tokens stays allowed wherever the Go code does not index it by token position.
- Truncation.Truncate: excludes a real cut (`stride < maxLen < len(Ids)`) of an encoding whose arrays disagree in length. That includes a nil `Words` of a non-empty encoding, where Go panics at `e.Words[0:maxLen]` (encoding.go:273-274). Outside that case the arrays are not read and any lengths are accepted.
- LegacyEncoding.Record.Truncate: the receiver is cut in place. As written, the Go code only rebinds its local pointer `e` (tokenizer/encoding.go:143-152), so the caller sees no change.
- LegacyEncoding.SnapWindowLoop: window 0 opens with the last `stride` tokens of the kept prefix, as in encoding.go. The Go loop starts from the uncut receiver (tokenizer/encoding.go:120).
- LegacyEncoding.SnapWindowLoop: uses the tail-slicing part of encoding.go. The legacy `getCurrentPart` (tokenizer/encoding.go:282-299) asserts `[]interface{}`, which panics on every array it is given, and it slices heads instead of tails.
- LegacyEncoding.Record.MergeWith: each merge with a pair overflow runs on a copy of the receiver. As written, `newE := e` copies the pointer (tokenizer/encoding.go:180-181), so the receiver itself is merged again and again.
- LegacyEncoding.Record.Pad: overflow encodings are padded and stored back, and left padding fills the type ids and offsets as evidently intended. As written, the legacy Pad has the three defects listed under "## Findings" for encoding.go:387-389, 412 and 437.

## Findings

| source | as written | input that shows it | evidently intended | confidence | as-written member | corrected member |
|---|---|---|---|---|---|---|
| encoding.go:209 | the guard rejects only `tokenIdx > len(Offsets)` | an index equal to the number of offsets reads past the end | reject `tokenIdx >= len(Offsets)` | not executed | Lookups.Token2CharsOffByOne | Lookups.Token2Chars |
| encoding.go:217-225 | scans for a word whose value equals the token index | words `[5]`, token 0: no word found | return the word of token `tokenIdx` | not executed | Lookups.Token2WordMismatch | Lookups.Token2Word |
| encoding.go:330-350 | recursive `MergeWith` results are discarded, so the unmerged copies are stored | own overflow `[1]`, pair `[2]`: the stored entry is `[1]` | store the merged encodings | not executed | Merging.MergeWithDropsMerges | Merging.MergedOverflowRow |
| encoding.go:391-395 | a bare `return` yields a zero-valued encoding | ids `[7]`, target 1: the result has no ids | return the encoding unchanged | not executed | Padding.PadReturnsZero | Padding.PadLongEnough |
| encoding.go:408-413 | left padding appends the padded ids to the type-id filler | empty encoding, target 2: four type ids | filler followed by the original type ids | not executed | Padding.PadLeftTypeIds | Padding.PaddedLeft |
| encoding.go:436-439 | the offset fill loop runs to `len(newIds)`, past the filler | ids `[7]`, target 2, left: index 1 of a 1-slot filler | fill `padLength` slots | not executed | Padding.PadLeftOverruns | Padding.PaddedLeft |
| encoding.go:386-389 | overflow encodings are padded on a copy that is dropped | one empty overflow encoding, target 1: it stays empty | store the padded overflow encodings | not executed | Padding.PadDropsOverflow | Padding.PadReachesTarget |
| encoding.go:82-99 | the id is the loop index, the masks have length 0 and 1, and `typeId` is never used, so every type id is 0 | token ids 7 and 8: ids `[0, 1]`, unequal array lengths | the token's id, type `typeId` in every slot, and full-length masks | not executed | Encodings.FromTokensAsWrittenInvalid | Encodings.NewEncodingFromTokens |
