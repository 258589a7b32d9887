/** The sliding-window tiling that truncation uses to spread the tokens past
    `maxLen` over overflow encodings, written once for every element type.

    Throughout, `size` is `maxLen - stride` (positive): the number of fresh
    elements a window adds, so `maxLen == stride + size`. With `full` the array
    before truncation, the kept prefix is `full[..stride + size]` and the overflow
    material is `full[stride + size..]`. */
module Windows {
  import opened Seqs

  /** getCurrentPart: the last `stride` elements of the previous window followed
      by chunk `idx` of the overflow material (`size` elements, fewer at the end). */
  function CurrentPart<T>(previous: seq<T>, current: seq<T>, size: nat, idx: nat, stride: nat): (part: seq<T>)
    requires stride <= |previous|
    requires idx * size <= |current|
    ensures stride <= |part| <= stride + size
  {
    var curr := if idx * size + size > |current| then current[idx * size..]
                else current[idx * size..idx * size + size];
    previous[|previous| - stride..] + curr
  }

  /** What getCurrentPart yields, element by element: the tail of `previous`, then
      the chunk of `current` that starts at `idx * size`. */
  lemma CurrentPartShape<T>(previous: seq<T>, current: seq<T>, size: nat, idx: nat, stride: nat)
    requires stride <= |previous|
    requires idx * size <= |current|
    ensures var part := CurrentPart(previous, current, size, idx, stride);
            && |part| == stride + Min(size, |current| - idx * size)
            && part[..stride] == previous[|previous| - stride..]
            && forall j :: stride <= j < |part| ==> part[j] == current[idx * size + j - stride]
  {
  }

  /** How many windows cover `n` elements of overflow material, `size` fresh
      elements at a time. */
  function WindowCount(n: nat, size: nat): (c: nat)
    requires size > 0
    ensures n == 0 <==> c == 0
    decreases n
  {
    if n == 0 then 0
    else if n <= size then 1
    else WindowCount(n - size, size) + 1
  }

  /** WindowCount is the ceiling of `n / size`: `c` windows hold the material and
      `c - 1` do not. */
  lemma {:induction false} WindowCountBounds(n: nat, size: nat)
    requires size > 0
    ensures var c := WindowCount(n, size);
            c * size >= n && (c > 0 ==> (c - 1) * size < n)
    decreases n
  {
    if n > size {
      WindowCountBounds(n - size, size);
      var c' := WindowCount(n - size, size);
      assert (c' + 1) * size == c' * size + size;
    }
  }

  /** The truncation loop runs while `partId * size < n`: that guard holds exactly
      for the indices of the windows. */
  lemma {:induction false} WindowIndex(n: nat, size: nat, k: nat)
    requires size > 0
    ensures k < WindowCount(n, size) <==> k * size < n
    decreases n
  {
    if n > size && k > 0 {
      WindowIndex(n - size, size, k - 1);
      assert (k - 1) * size + size == k * size;
    } else if k > 0 {
      MulMono(1, k, size);
    }
  }

  /** Window `k` in closed form: the slice of `full` that starts `k * size + size`
      elements in and holds `stride + size` elements, or what is left of `full`. */
  function Window<T>(full: seq<T>, stride: nat, size: nat, k: nat): (w: seq<T>)
    requires 0 < size && stride + size <= |full|
    requires k < WindowCount(|full| - stride - size, size)
    ensures stride < |w| <= stride + size
  {
    WindowIndex(|full| - stride - size, size, k);
    var start := k * size + size;
    full[start..Min(start + stride + size, |full|)]
  }

  /** Window `k` holds `stride + size` elements, or fewer when it reaches the end
      of `full`: its length depends on nothing but `|full|`. */
  lemma WindowLength<T>(full: seq<T>, stride: nat, size: nat, k: nat)
    requires 0 < size && stride + size <= |full|
    requires k < WindowCount(|full| - stride - size, size)
    ensures var s := k * size;
            s + size < |full| && |Window(full, stride, size, k)| == Min(stride + size, |full| - s - size)
  {
    WindowIndex(|full| - stride - size, size, k);
  }

  /** Window `k` with its start `s = k * size` named. */
  lemma WindowAt<T>(full: seq<T>, stride: nat, size: nat, k: nat, s: nat)
    requires 0 < size && stride + size <= |full|
    requires k < WindowCount(|full| - stride - size, size)
    requires s == k * size
    ensures s < |full| - stride - size
    ensures Window(full, stride, size, k) == full[s + size..Min(s + size + stride + size, |full|)]
  {
    WindowIndex(|full| - stride - size, size, k);
  }

  /** getCurrentPart with the chunk start `t = idx * size` named. */
  lemma CurrentPartAt<T>(previous: seq<T>, current: seq<T>, size: nat, idx: nat, stride: nat, t: nat)
    requires stride <= |previous| && t == idx * size && t <= |current|
    ensures CurrentPart(previous, current, size, idx, stride)
            == previous[|previous| - stride..] + current[t..Min(t + size, |current|)]
  {
  }

  /** The slice arithmetic behind NextWindow, with no product in sight: the tail
      of the full window at `s + size` followed by the next chunk is the window
      at `s + size + size`. */
  lemma SliceStep<T>(full: seq<T>, stride: nat, size: nat, s: nat)
    requires 0 < size && s + size + stride + size <= |full| && s + size < |full| - stride - size
    ensures full[s + size..s + size + stride + size][size..]
              + full[stride + size..][s + size..Min(s + size + size, |full| - stride - size)]
            == full[s + size + size..Min(s + size + size + stride + size, |full|)]
  {
    var a := full[s + size..s + size + stride + size][size..];
    var b := full[stride + size..][s + size..Min(s + size + size, |full| - stride - size)];
    assert a == full[s + size + size..s + size + size + stride];
    assert b == full[s + size + size + stride..Min(s + size + size + stride + size, |full|)];
  }

  /** Window 0 is what getCurrentPart builds from the kept prefix. */
  lemma FirstWindow<T>(full: seq<T>, stride: nat, size: nat)
    requires 0 < size && stride + size < |full|
    ensures 0 < WindowCount(|full| - stride - size, size)
    ensures CurrentPart(full[..stride + size], full[stride + size..], size, 0, stride)
            == Window(full, stride, size, 0)
  {
  }

  /** Window `k + 1` is what getCurrentPart builds from window `k`. */
  lemma NextWindow<T>(full: seq<T>, stride: nat, size: nat, k: nat)
    requires 0 < size && stride + size <= |full|
    requires k + 1 < WindowCount(|full| - stride - size, size)
    ensures (k + 1) * size < |full| - stride - size
    ensures |Window(full, stride, size, k)| == stride + size
    ensures CurrentPart(Window(full, stride, size, k), full[stride + size..], size, k + 1, stride)
            == Window(full, stride, size, k + 1)
  {
    var s := k * size;
    assert (k + 1) * size == s + size;
    WindowAt(full, stride, size, k, s);
    WindowAt(full, stride, size, k + 1, s + size);
    var w := Window(full, stride, size, k);
    assert w == full[s + size..s + size + stride + size];
    var rest := full[stride + size..];
    assert |w| - stride == size;
    CurrentPartAt(w, rest, size, k + 1, stride, s + size);
    var chunk := rest[s + size..Min(s + size + size, |rest|)];
    assert CurrentPart(w, rest, size, k + 1, stride) == w[size..] + chunk;
    SliceStep(full, stride, size, s);
    assert w[size..] + chunk == Window(full, stride, size, k + 1);
  }

  /** Consecutive windows overlap by `stride`: window `k` opens with the last
      `stride` elements of window `k - 1`, which is full. */
  lemma WindowOverlap<T>(full: seq<T>, stride: nat, size: nat, k: nat)
    requires 0 < size && stride + size <= |full|
    requires 0 < k < WindowCount(|full| - stride - size, size)
    ensures |Window(full, stride, size, k - 1)| == stride + size
    ensures Window(full, stride, size, k)[..stride] == Window(full, stride, size, k - 1)[size..]
  {
    var k' := k - 1;
    NextWindow(full, stride, size, k');
    var prev := Window(full, stride, size, k');
    var part := CurrentPart(prev, full[stride + size..], size, k' + 1, stride);
    assert part[..stride] == prev[size..];
  }

  /** Window 0 opens with the last `stride` elements of the kept prefix. */
  lemma FirstOverlap<T>(full: seq<T>, stride: nat, size: nat)
    requires 0 < size && stride + size < |full|
    ensures 0 < WindowCount(|full| - stride - size, size)
    ensures Window(full, stride, size, 0)[..stride] == full[..stride + size][size..]
  {
  }

  /** The slice arithmetic behind WindowFresh, with the start `s` named. */
  lemma FreshAt<T>(full: seq<T>, stride: nat, size: nat, s: nat)
    requires 0 < size && s < |full| - stride - size
    ensures full[s + size..Min(s + size + stride + size, |full|)][stride..]
            == full[stride + size..][s..Min(s + size, |full| - stride - size)]
  {
  }

  /** Past its overlap, window `k` holds chunk `k` of the overflow material. */
  lemma WindowFresh<T>(full: seq<T>, stride: nat, size: nat, k: nat)
    requires 0 < size && stride + size <= |full|
    requires k < WindowCount(|full| - stride - size, size)
    ensures k * size < |full| - stride - size
    ensures Window(full, stride, size, k)[stride..]
            == full[stride + size..][k * size..Min(k * size + size, |full| - stride - size)]
  {
    WindowAt(full, stride, size, k, k * size);
    FreshAt(full, stride, size, k * size);
  }

  /** The last window ends with the last element: all material is consumed, and no
      trailing window is empty of fresh elements. */
  lemma LastWindow<T>(full: seq<T>, stride: nat, size: nat)
    requires 0 < size && stride + size < |full|
    ensures WindowCount(|full| - stride - size, size) > 0
    ensures WindowCount(|full| - stride - size, size) * size < |full|
    ensures var c := WindowCount(|full| - stride - size, size);
            Window(full, stride, size, c - 1) == full[c * size..]
  {
    var n := |full| - stride - size;
    var c := WindowCount(n, size);
    WindowIndex(n, size, c - 1);
    WindowIndex(n, size, c);
    assert (c - 1) * size + size == c * size;
  }
}
