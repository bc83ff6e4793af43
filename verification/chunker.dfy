/**
  `chunkText`: a sliding window of `chunkSize` words over the text split on
  single spaces, advancing by `chunkSize - overlap` words, each window joined
  back with single spaces.
*/
module Chunker {
  import opened JsString

  const DefaultChunkSize: nat := 500
  const DefaultOverlap: int := 100

  function Min(a: int, b: int): int {
    if a <= b then a else b
  }

  /**
    The windows of `words` that start at `start`, `start + step`, ... while
    the start is a word index; each takes up to `size` words.
  */
  function Windows(words: seq<string>, start: nat, size: nat, step: nat): seq<string>
    requires step > 0
    decreases |words| - start
  {
    if start >= |words| then []
    else [Join(words[start..Min(start + size, |words|)])] + Windows(words, start + step, size, step)
  }

  /**
    The chunks of `text`. Only a step of at least one word terminates; a
    non-positive step (`overlap >= chunkSize`) is excluded.
  */
  method ChunkText(text: string, chunkSize: int, overlap: int) returns (chunks: seq<string>)
    requires 0 < chunkSize
    requires overlap < chunkSize
    ensures chunks == Windows(Split(text), 0, chunkSize, chunkSize - overlap)
    ensures |chunks| >= 1
  {
    var words := Split(text);
    var step := chunkSize - overlap;
    chunks := [];
    var i := 0;
    while i < |words|
      invariant chunks + Windows(words, i, chunkSize, step) == Windows(words, 0, chunkSize, step)
      decreases |words| - i
    {
      var chunk := Join(words[i..Min(i + chunkSize, |words|)]);
      assert Windows(words, i, chunkSize, step) == [chunk] + Windows(words, i + step, chunkSize, step);
      MoveAcross(chunks, chunk, Windows(words, i + step, chunkSize, step));
      chunks := chunks + [chunk];
      i := i + step;
    }
  }

  /** Moving one element from the front of the rest to the end of the prefix keeps the whole. */
  lemma MoveAcross(prefix: seq<string>, x: string, rest: seq<string>)
    ensures (prefix + [x]) + rest == prefix + ([x] + rest)
  {
  }

  // ------------------------------------------------------------ properties

  /**
    The number of windows is the least `c` with `c * step` reaching the
    number of words past `start`, i.e. the ceiling of that number over `step`.
  */
  lemma {:induction false} WindowsCount(words: seq<string>, start: nat, size: nat, step: nat)
    requires step > 0
    ensures start >= |words| ==> |Windows(words, start, size, step)| == 0
    ensures start < |words| ==>
      var c := |Windows(words, start, size, step)|;
      (c - 1) * step < |words| - start <= c * step
    decreases |words| - start
  {
    if start < |words| {
      WindowsCount(words, start + step, size, step);
      var c' := |Windows(words, start + step, size, step)|;
      if start + step < |words| {
        CountStep(c', |words| - start, step);
      } else {
        assert c' == 0;
      }
    }
  }

  /** The number of chunks is `ceil(w / step)` for `w` words. */
  lemma WindowsCountIsCeiling(words: seq<string>, size: nat, step: nat)
    requires step > 0
    ensures |Windows(words, 0, size, step)| == (|words| + step - 1) / step
  {
    WindowsCount(words, 0, size, step);
    var c := |Windows(words, 0, size, step)|;
    var w := |words|;
    if w > 0 {
      CeilingUnique(c, w, step);
    } else {
      assert (step - 1) / step == 0;
    }
  }

  lemma CountStep(c: int, n: int, step: int)
    requires (c - 1) * step < n - step <= c * step
    ensures c * step < n <= (c + 1) * step
  {
    MulSucc(c - 1, step);
    MulSucc(c, step);
  }

  lemma MulSucc(k: int, step: int)
    ensures (k + 1) * step == k * step + step
  {
  }

  lemma CeilingUnique(c: int, w: int, step: int)
    requires step > 0 && w > 0
    requires (c - 1) * step < w <= c * step
    ensures c == (w + step - 1) / step
  {
    var q := (w + step - 1) / step;
    var r := (w + step - 1) % step;
    assert w + step - 1 == q * step + r && 0 <= r < step;
    MulSucc(q - 1, step);
    assert (c - 1) * step < q * step;
    MulStrictMonotone(c - 1, q, step);
    assert (q - 1) * step < c * step;
    MulStrictMonotone(q - 1, c, step);
  }

  lemma MulStrictMonotone(a: int, b: int, k: int)
    requires k > 0 && a * k < b * k
    ensures a < b
  {
    if a >= b {
      MulMonotone(b, a, k);
    }
  }

  lemma MulMonotone(a: int, b: int, k: int)
    requires a <= b && k >= 0
    ensures a * k <= b * k
  {
  }

  /** The `k`-th window starts at word `start + k * step` and holds the next `size` words, or the rest. */
  lemma {:induction false} WindowAt(words: seq<string>, start: nat, size: nat, step: nat, k: nat)
    requires step > 0
    requires k < |Windows(words, start, size, step)|
    ensures start + k * step < |words|
    ensures Windows(words, start, size, step)[k]
            == Join(words[start + k * step..Min(start + k * step + size, |words|)])
    decreases k
  {
    var w := Windows(words, start, size, step);
    if k == 0 {
      assert w[0] == Join(words[start..Min(start + size, |words|)]);
    } else {
      WindowAt(words, start + step, size, step, k - 1);
      MulSucc(k - 1, step);
      assert start + step + (k - 1) * step == start + k * step;
      assert w[k] == Windows(words, start + step, size, step)[k - 1];
    }
  }

  /** The words of the `k`-th chunk of `words`. */
  function ChunkWords(words: seq<string>, size: nat, step: nat, k: nat): seq<string>
    requires step > 0
    requires k * step < |words|
  {
    words[k * step..Min(k * step + size, |words|)]
  }

  /**
    Chunk `k` is the join of its words; it holds between 1 and `size` words,
    and splitting it gives exactly those words back.
  */
  lemma ChunkIsItsWords(words: seq<string>, size: nat, step: nat, k: nat)
    requires step > 0 && size > 0
    requires forall i :: 0 <= i < |words| ==> ' ' !in words[i]
    requires k < |Windows(words, 0, size, step)|
    ensures k * step < |words|
    ensures Windows(words, 0, size, step)[k] == Join(ChunkWords(words, size, step, k))
    ensures 1 <= |ChunkWords(words, size, step, k)| <= size
    ensures Split(Windows(words, 0, size, step)[k]) == ChunkWords(words, size, step, k)
  {
    WindowAt(words, 0, size, step, k);
    var cw := ChunkWords(words, size, step, k);
    assert forall i :: 0 <= i < |cw| ==> cw[i] == words[k * step + i];
    SplitJoin(cw);
  }

  /**
    Every word lies in some chunk when windows overlap or touch
    (`step <= size`); the returned `k` names one.
  */
  lemma {:induction false} EveryWordCovered(words: seq<string>, size: nat, step: nat, j: nat) returns (k: nat)
    requires 0 < step <= size
    requires j < |words|
    ensures k < |Windows(words, 0, size, step)|
    ensures k * step <= j < Min(k * step + size, |words|)
  {
    k := j / step;
    assert k * step <= j < k * step + step;
    WindowsCount(words, 0, size, step);
    var c := |Windows(words, 0, size, step)|;
    if k >= c {
      MulMonotone(c, k, step);
    }
  }

  /**
    When chunk `k` is full and chunk `k + 1` exists, the last
    `overlap = size - step` words of chunk `k` are the first `overlap` words
    of chunk `k + 1`, and chunk `k + 1` reaches at least as far.
  */
  lemma FullChunkOverlap(words: seq<string>, size: nat, step: nat, k: nat)
    requires 0 < step <= size
    requires k + 1 < |Windows(words, 0, size, step)|
    requires k * step + size <= |words|
    ensures (k + 1) * step < |words|
    ensures
      var a := ChunkWords(words, size, step, k);
      var b := ChunkWords(words, size, step, k + 1);
      |a| == size && |b| >= size - step && a[step..] == b[..size - step]
  {
    var s0 := k * step;
    var s1 := (k + 1) * step;
    MulSucc(k, step);
    assert s1 == s0 + step;
    assert s1 < |words| by {
      WindowAt(words, 0, size, step, k + 1);
    }
    assert ChunkWords(words, size, step, k) == words[s0..Min(s0 + size, |words|)];
    assert ChunkWords(words, size, step, k + 1) == words[s0 + step..Min(s0 + step + size, |words|)];
    OverlapSlices(words, s0, size, step);
  }

  lemma OverlapSlices(words: seq<string>, s0: nat, size: nat, step: nat)
    requires 0 < step <= size
    requires s0 + size <= |words|
    ensures
      var a := words[s0..Min(s0 + size, |words|)];
      var b := words[s0 + step..Min(s0 + step + size, |words|)];
      |a| == size && |b| >= size - step && a[step..] == b[..size - step]
  {
    var a := words[s0..Min(s0 + size, |words|)];
    var b := words[s0 + step..Min(s0 + step + size, |words|)];
    assert |a| == size;
    assert |b| >= size - step;
    forall i | 0 <= i < size - step
      ensures a[step..][i] == b[..size - step][i]
    {
      assert a[step + i] == words[s0 + step + i] == b[i];
    }
  }

  /** The first chunk starts at word 0. */
  lemma FirstChunkStartsAtZero(words: seq<string>, size: nat, step: nat)
    requires step > 0
    ensures |Windows(words, 0, size, step)| >= 1 <==> |words| >= 1
    ensures |words| >= 1 ==> Windows(words, 0, size, step)[0] == Join(words[0..Min(size, |words|)])
  {
  }

  /**
    A text of at most `step` words (and at most `size`) is its own single
    chunk: split then join gives it back. With more than `step` words a
    second window starts even when the first already reached the end.
  */
  lemma ShortTextIsOneChunk(text: string, size: nat, step: nat)
    requires step > 0
    requires |Split(text)| <= step && |Split(text)| <= size
    ensures Windows(Split(text), 0, size, step) == [text]
  {
    var words := Split(text);
    JoinSplit(text);
    assert words[0..Min(size, |words|)] == words;
  }

  /** Cleaned non-empty text yields only non-empty chunks. */
  lemma CleanedTextChunksNonEmpty(text: string, size: nat, step: nat, k: nat)
    requires IsCleaned(text) && text != []
    requires step > 0 && size > 0
    requires k < |Windows(Split(text), 0, size, step)|
    ensures Windows(Split(text), 0, size, step)[k] != ""
  {
    var words := Split(text);
    SplitCleanedWordsNonEmpty(text);
    ChunkIsItsWords(words, size, step, k);
    var cw := ChunkWords(words, size, step, k);
    assert cw[0] != "" by {
      assert cw[0] == words[k * step];
    }
    JoinHeadNonEmpty(cw);
  }

  /** 600 words with the default window of 500 and overlap of 100 give words 0-499 and 400-599. */
  lemma SixHundredWords(words: seq<string>)
    requires |words| == 600
    ensures Windows(words, 0, DefaultChunkSize, DefaultChunkSize - DefaultOverlap)
            == [Join(words[0..500]), Join(words[400..600])]
  {
    assert Windows(words, 800, 500, 400) == [];
  }

  /**
    450 words with the defaults give two chunks although the first already
    holds every word: the second, words 400-449, lies inside the first.
  */
  lemma FourHundredFiftyWords(words: seq<string>)
    requires |words| == 450
    ensures Windows(words, 0, DefaultChunkSize, DefaultChunkSize - DefaultOverlap)
            == [Join(words), Join(words[400..450])]
  {
    assert Windows(words, 800, 500, 400) == [];
    assert words[0..450] == words;
  }
}
