/** Token-window chunking (src/chunk/mod.rs). */
module Chunks {
  import opened Utf8

  datatype Window = Window(start: nat, end: nat)

  function Min(a: nat, b: nat): nat {
    if a < b then a else b
  }

  /** Distance between window starts; an overlap of a whole window still moves on by one token. */
  function Stride(maxTokens: nat, overlap: nat): nat {
    if overlap >= maxTokens then 1 else maxTokens - overlap
  }

  /** Windows needed for a document longer than one window: ceil((len - max) / stride) + 1. */
  function WindowCount(len: nat, maxTokens: nat, overlap: nat): nat
    requires 0 < maxTokens < len
  {
    var stride := Stride(maxTokens, overlap);
    (len - maxTokens + stride - 1) / stride + 1
  }

  function WindowAt(len: nat, maxTokens: nat, overlap: nat, i: nat): Window {
    var start := i * Stride(maxTokens, overlap);
    Window(start, Min(start + maxTokens, len))
  }

  lemma CeilingIs(d: nat, stride: nat, q: nat)
    requires stride > 0 && q > 0
    requires (q - 1) * stride < d <= q * stride
    ensures (d + stride - 1) / stride == q
  {
    var p := (d + stride - 1) / stride;
    Scale(p + 1, q, stride);
    Scale(q + 1, p, stride);
    assert (p + 1) * stride == p * stride + stride && (q + 1) * stride == q * stride + stride;
    assert (q - 1) * stride + stride == q * stride;
  }

  lemma Scale(a: nat, b: nat, k: nat)
    ensures a <= b ==> a * k <= b * k
  {
  }

  /** The first n windows, none of which reaches the end. */
  ghost predicate Cut(windows: seq<Window>, n: nat, len: nat, maxTokens: nat, overlap: nat) {
    && |windows| >= n
    && forall i :: 0 <= i < n ==> windows[i] == WindowAt(len, maxTokens, overlap, i) && windows[i].end == windows[i].start + maxTokens < len
  }

  lemma NextStart(n: nat, step: nat)
    ensures (n + 1) * step == n * step + step
  {
  }

  lemma OneMoreWindow(windows: seq<Window>, start: nat, len: nat, maxTokens: nat, overlap: nat)
    requires Cut(windows, |windows|, len, maxTokens, overlap) && start == |windows| * Stride(maxTokens, overlap)
    requires start + maxTokens < len
    ensures Cut(windows + [Window(start, start + maxTokens)], |windows| + 1, len, maxTokens, overlap)
  {
  }

  /** The window that reaches the end is the last of the counted ones. */
  lemma LastWindow(n: nat, len: nat, maxTokens: nat, overlap: nat)
    requires 0 < maxTokens < len && len <= n * Stride(maxTokens, overlap) + maxTokens
    requires n > 0 ==> (n - 1) * Stride(maxTokens, overlap) + maxTokens < len
    ensures WindowCount(len, maxTokens, overlap) == n + 1
    ensures WindowAt(len, maxTokens, overlap, n) == Window(n * Stride(maxTokens, overlap), len)
  {
    assert n > 0;
    CeilingIs(len - maxTokens, Stride(maxTokens, overlap), n);
  }

  /** The boundary loop, for a document longer than one window. */
  method WindowBoundaries(len: nat, maxTokens: nat, overlap: nat) returns (windows: seq<Window>)
    requires 0 < maxTokens < len
    ensures |windows| == WindowCount(len, maxTokens, overlap)
    ensures forall i :: 0 <= i < |windows| ==> windows[i] == WindowAt(len, maxTokens, overlap, i)
    ensures windows[|windows| - 1].end == len
    ensures forall i :: 0 <= i < |windows| - 1 ==> windows[i].end == windows[i].start + maxTokens < len
  {
    var step := Stride(maxTokens, overlap);
    windows := [];
    var start := 0;
    ghost var n := 0;
    while start < len
      invariant n == |windows| && start == n * step && start < len
      invariant Cut(windows, n, len, maxTokens, overlap)
      invariant n > 0 ==> (n - 1) * step + maxTokens < len
      decreases len - start
    {
      var end := Min(start + maxTokens, len);
      if end == len {
        LastWindow(n, len, maxTokens, overlap);
        windows := windows + [Window(start, end)];
        break;
      }
      OneMoreWindow(windows, start, len, maxTokens, overlap);
      NextStart(n, step);
      windows := windows + [Window(start, end)];
      start := start + step;
      n := n + 1;
    }
  }

  /** The counted windows reach the end of the document, and only the last one does. */
  lemma WindowsReachEnd(len: nat, maxTokens: nat, overlap: nat, i: nat)
    requires 0 < maxTokens < len && i < WindowCount(len, maxTokens, overlap)
    ensures i == WindowCount(len, maxTokens, overlap) - 1 ==> WindowAt(len, maxTokens, overlap, i).end == len
    ensures i < WindowCount(len, maxTokens, overlap) - 1 ==> i * Stride(maxTokens, overlap) + maxTokens < len
  {
    var d, stride := len - maxTokens, Stride(maxTokens, overlap);
    var q := (d + stride - 1) / stride;
    assert q * stride <= d + stride - 1 < q * stride + stride;
    Scale(i + 1, q, stride);
    assert (i + 1) * stride == i * stride + stride;
  }

  /** Every token is in a window. */
  lemma WindowsCoverTokens(windows: seq<Window>, len: nat, maxTokens: nat, overlap: nat, token: nat)
    requires 0 < maxTokens < len && token < len && |windows| > 0
    requires forall i :: 0 <= i < |windows| ==> windows[i] == WindowAt(len, maxTokens, overlap, i)
    requires windows[|windows| - 1].end == len
    ensures exists i :: 0 <= i < |windows| && windows[i].start <= token < windows[i].end
  {
    var stride := Stride(maxTokens, overlap);
    var i := |windows| - 1;
    while windows[i].start > token
      invariant 0 <= i < |windows| && token < windows[i].end
      decreases i
    {
      assert i > 0;
      assert (i - 1) * stride + stride == i * stride;
      i := i - 1;
    }
  }

  /** Windows hold at most max_tokens tokens, and neighbours share exactly the configured overlap when it fits. */
  lemma WindowSizes(windows: seq<Window>, len: nat, maxTokens: nat, overlap: nat, i: nat)
    requires 0 < maxTokens < len && i < |windows|
    requires forall j :: 0 <= j < |windows| ==> windows[j] == WindowAt(len, maxTokens, overlap, j)
    requires forall j :: 0 <= j < |windows| - 1 ==> windows[j].end == windows[j].start + maxTokens < len
    ensures windows[i].end <= windows[i].start + maxTokens
    ensures i + 1 < |windows| ==>
              windows[i].end - windows[i + 1].start == (if overlap < maxTokens then overlap else maxTokens - 1)
  {
    var stride := Stride(maxTokens, overlap);
    assert (i + 1) * stride == i * stride + stride;
  }

  // ── Cutting the text ───────────────────────────────────────────────────────

  /** The nearest character boundary at or below, and at or above, a position. */
  function DownFrom(text: seq<Byte>, pos: nat): (p: nat)
    requires pos <= |text|
    ensures p <= pos && IsCharBoundary(text, p)
    ensures forall q :: p < q <= pos ==> !IsCharBoundary(text, q)
  {
    if pos > 0 && !IsCharBoundary(text, pos) then DownFrom(text, pos - 1) else pos
  }

  function UpFrom(text: seq<Byte>, pos: nat): (p: nat)
    requires pos <= |text|
    ensures pos <= p <= |text| && IsCharBoundary(text, p)
    ensures forall q :: pos <= q < p ==> !IsCharBoundary(text, q)
    decreases |text| - pos
  {
    if pos < |text| && !IsCharBoundary(text, pos) then UpFrom(text, pos + 1) else pos
  }

  method SnapDown(text: seq<Byte>, offset: nat) returns (pos: nat)
    ensures pos == DownFrom(text, Min(offset, |text|))
  {
    pos := Min(offset, |text|);
    while pos > 0 && !IsCharBoundary(text, pos)
      invariant pos <= |text|
      invariant DownFrom(text, pos) == DownFrom(text, Min(offset, |text|))
    {
      pos := pos - 1;
    }
  }

  method SnapUp(text: seq<Byte>, offset: nat) returns (pos: nat)
    ensures pos == UpFrom(text, Min(offset, |text|))
  {
    pos := Min(offset, |text|);
    while pos < |text| && !IsCharBoundary(text, pos)
      invariant pos <= |text|
      invariant UpFrom(text, pos) == UpFrom(text, Min(offset, |text|))
    {
      pos := pos + 1;
    }
  }

  /** Byte ranges of the tokens, as the tokenizer reports them. */
  type Offsets = seq<(nat, nat)>

  /** Token starts and ends never go back. */
  ghost predicate Monotone(offsets: Offsets) {
    && (forall i :: 0 <= i < |offsets| ==> offsets[i].0 <= offsets[i].1)
    && (forall i, j :: 0 <= i < j < |offsets| ==> offsets[i].0 <= offsets[j].0 && offsets[i].1 <= offsets[j].1)
  }

  datatype Chunk = Chunk(index: nat, count: nat, tokenStart: nat, docTokenLen: nat, text: seq<Byte>)

  /** `SliceOutOfOrder` is the panic of a slice whose start is behind its end. */
  datatype Outcome = Chunks(chunks: seq<Chunk>) | InvalidParams | TokenizerError | SliceOutOfOrder

  function CutStart(text: seq<Byte>, offsets: Offsets, w: Window): nat
    requires w.start < |offsets|
  {
    DownFrom(text, Min(offsets[w.start].0, |text|))
  }

  function CutEnd(text: seq<Byte>, offsets: Offsets, w: Window): nat
    requires 0 < w.end <= |offsets|
  {
    UpFrom(text, Min(offsets[w.end - 1].1, |text|))
  }

  /** The window's token offsets go back so far that its slice would end before it starts. */
  predicate GoesBack(text: seq<Byte>, offsets: Offsets, w: Window) {
    w.start < w.end <= |offsets| && CutStart(text, offsets, w) > CutEnd(text, offsets, w)
  }

  /** Offsets that never go back keep every slice in order. */
  lemma MonotoneGoesOn(text: seq<Byte>, offsets: Offsets, w: Window)
    requires Monotone(offsets)
    ensures !GoesBack(text, offsets, w)
  {
    if w.start < w.end <= |offsets| {
      var s, e := w.start, w.end - 1;
      assert offsets[s].0 <= offsets[s].1;
      assert offsets[s].0 <= offsets[e].0 <= offsets[e].1;
    }
  }

  /** What the tokenizer returns. */
  datatype Encoding = Encoded(offsets: Offsets) | EncodingFailed

  /** The chunks of a document: one for a short one, else one per window. */
  ghost predicate ChunksOf(chunks: seq<Chunk>, text: seq<Byte>, offsets: Offsets, maxTokens: nat, overlap: nat) {
    if |offsets| <= maxTokens then chunks == [Chunk(0, 1, 0, |offsets|, text)]
    else
      && 0 < maxTokens && |chunks| == WindowCount(|offsets|, maxTokens, overlap)
      && forall i :: 0 <= i < |chunks| ==> ChunkIs(text, offsets, maxTokens, overlap, i, |chunks|, chunks[i])
  }

  /** Some window of a long document goes back. */
  ghost predicate AnyGoesBack(text: seq<Byte>, offsets: Offsets, maxTokens: nat, overlap: nat) {
    && 0 < maxTokens < |offsets|
    && exists i :: 0 <= i < WindowCount(|offsets|, maxTokens, overlap) && GoesBack(text, offsets, WindowAt(|offsets|, maxTokens, overlap, i))
  }

  /**
     The source's `chunk_text`. Chunk i of a long document starts at the last
     character boundary not behind its first token and ends at the first one not
     before the end of its last token; `cuts` are those byte positions.
     */
  method ChunkText(text: seq<Byte>, encoding: Encoding, maxTokens: nat, overlap: nat) returns (r: Outcome, ghost cuts: seq<(nat, nat)>)
    ensures maxTokens == 0 <==> r == InvalidParams
    ensures maxTokens > 0 ==> (r == TokenizerError <==> encoding.EncodingFailed?)
    ensures maxTokens > 0 && encoding.Encoded? ==>
              (r == SliceOutOfOrder <==> AnyGoesBack(text, encoding.offsets, maxTokens, overlap))
    ensures r.Chunks? ==> encoding.Encoded? && ChunksOf(r.chunks, text, encoding.offsets, maxTokens, overlap)
    ensures r.Chunks? && |encoding.offsets| > maxTokens ==> |cuts| == |r.chunks| > 0
    ensures r.Chunks? && |encoding.offsets| > maxTokens ==>
              forall i :: 0 <= i < |r.chunks| ==>
                Describes(r.chunks[i], i, |r.chunks|, text, encoding.offsets, maxTokens, overlap, cuts[i])
  {
    cuts := [];
    r := CutChunks(text, encoding, maxTokens, overlap);
    if r.Chunks? && |encoding.offsets| > maxTokens {
      cuts := CutsOf(text, encoding.offsets, maxTokens, overlap, r.chunks);
    }
  }

  /** Chunk i of `count`: its place among the tokens, and its text between the positions of `cut`. */
  ghost predicate Describes(
      c: Chunk, i: nat, count: nat, text: seq<Byte>, offsets: Offsets, maxTokens: nat, overlap: nat, cut: (nat, nat))
  {
    && c.index == i && c.count == count && c.docTokenLen == |offsets|
    && c.tokenStart == i * (if overlap >= maxTokens then 1 else maxTokens - overlap) < |offsets|
    && (i == count - 1 <==> |offsets| <= c.tokenStart + maxTokens)
    && var end := if c.tokenStart + maxTokens < |offsets| then c.tokenStart + maxTokens else |offsets|;
       0 < end && CutOut(c.text, text, offsets[c.tokenStart].0, offsets[end - 1].1, cut)
  }

  /**
     `part` lies between the positions of `cut`: the last place at or before
     `first` where no character is split, and the first such place at or after
     `last`, both kept inside the text.
     */
  ghost predicate CutOut(part: seq<Byte>, text: seq<Byte>, first: nat, last: nat, cut: (nat, nat)) {
    && cut.0 <= cut.1 <= |text| && part == text[cut.0..cut.1]
    && cut.0 <= first && (cut.0 == 0 || cut.0 == |text| || text[cut.0] < 0x80 || text[cut.0] >= 0xC0)
    && (forall q :: cut.0 < q <= first && q <= |text| ==> q < |text| && 0x80 <= text[q] < 0xC0)
    && (last <= cut.1 || cut.1 == |text|) && (cut.1 == 0 || cut.1 == |text| || text[cut.1] < 0x80 || text[cut.1] >= 0xC0)
    && (forall q :: last <= q < cut.1 ==> 0 < q && 0x80 <= text[q] < 0xC0)
  }

  lemma ChunkPlace(text: seq<Byte>, offsets: Offsets, maxTokens: nat, overlap: nat, i: nat, count: nat, c: Chunk)
    requires 0 < maxTokens < |offsets| && ChunkIs(text, offsets, maxTokens, overlap, i, count, c)
    requires i < count == WindowCount(|offsets|, maxTokens, overlap)
    ensures var w := WindowAt(|offsets|, maxTokens, overlap, i);
            && w.start < w.end <= |offsets|
            && Describes(c, i, count, text, offsets, maxTokens, overlap, (CutStart(text, offsets, w), CutEnd(text, offsets, w)))
  {
    WindowsReachEnd(|offsets|, maxTokens, overlap, i);
    var w := WindowAt(|offsets|, maxTokens, overlap, i);
    CutMeans(c.text, text, offsets[w.start].0, offsets[w.end - 1].1);
  }

  /** Where the chunks were cut. */
  lemma CutsOf(text: seq<Byte>, offsets: Offsets, maxTokens: nat, overlap: nat, chunks: seq<Chunk>) returns (cuts: seq<(nat, nat)>)
    requires |offsets| > maxTokens && ChunksOf(chunks, text, offsets, maxTokens, overlap)
    ensures |cuts| == |chunks| > 0
    ensures forall i :: 0 <= i < |chunks| ==> Describes(chunks[i], i, |chunks|, text, offsets, maxTokens, overlap, cuts[i])
  {
    cuts := [];
    for i := 0 to |chunks|
      invariant |cuts| == i
      invariant forall j :: 0 <= j < i ==> Describes(chunks[j], j, |chunks|, text, offsets, maxTokens, overlap, cuts[j])
    {
      ChunkPlace(text, offsets, maxTokens, overlap, i, |chunks|, chunks[i]);
      var w := WindowAt(|offsets|, maxTokens, overlap, i);
      cuts := cuts + [(CutStart(text, offsets, w), CutEnd(text, offsets, w))];
    }
  }

  lemma CutMeans(part: seq<Byte>, text: seq<Byte>, first: nat, last: nat)
    requires var from, to := DownFrom(text, Min(first, |text|)), UpFrom(text, Min(last, |text|));
             from <= to && part == text[from..to]
    ensures CutOut(part, text, first, last, (DownFrom(text, Min(first, |text|)), UpFrom(text, Min(last, |text|))))
  {
    var from, to := DownFrom(text, Min(first, |text|)), UpFrom(text, Min(last, |text|));
    forall q | from < q <= first && q <= |text| ensures q < |text| && 0x80 <= text[q] < 0xC0 {
      assert !IsCharBoundary(text, q);
    }
    forall q | last <= q < to ensures 0 < q && 0x80 <= text[q] < 0xC0 {
      assert !IsCharBoundary(text, q);
    }
  }

  method CutChunks(text: seq<Byte>, encoding: Encoding, maxTokens: nat, overlap: nat) returns (r: Outcome)
    ensures maxTokens == 0 <==> r == InvalidParams
    ensures maxTokens > 0 ==> (r == TokenizerError <==> encoding.EncodingFailed?)
    ensures maxTokens > 0 && encoding.Encoded? ==>
              (r == SliceOutOfOrder <==> AnyGoesBack(text, encoding.offsets, maxTokens, overlap))
    ensures r.Chunks? ==> encoding.Encoded? && ChunksOf(r.chunks, text, encoding.offsets, maxTokens, overlap)
  {
    if maxTokens == 0 {
      return InvalidParams;
    }
    if encoding.EncodingFailed? {
      return TokenizerError;
    }
    var offsets := encoding.offsets;
    if |offsets| <= maxTokens {
      return Chunks([Chunk(0, 1, 0, |offsets|, text)]);
    }
    var windows := WindowBoundaries(|offsets|, maxTokens, overlap);
    var chunks: seq<Chunk> := [];
    for i := 0 to |windows|
      invariant |chunks| == i
      invariant forall j :: 0 <= j < i ==> ChunkIs(text, offsets, maxTokens, overlap, j, |windows|, chunks[j])
      invariant forall j :: 0 <= j < i ==> !GoesBack(text, offsets, WindowAt(|offsets|, maxTokens, overlap, j))
    {
      var w := windows[i];
      WindowIsNonEmpty(windows, |offsets|, maxTokens, overlap, i);
      var from := SnapDown(text, offsets[w.start].0);
      var to := SnapUp(text, offsets[w.end - 1].1);
      if from > to {
        assert GoesBack(text, offsets, WindowAt(|offsets|, maxTokens, overlap, i));
        return SliceOutOfOrder;
      }
      chunks := chunks + [Chunk(i, |windows|, w.start, |offsets|, text[from..to])];
    }
    r := Chunks(chunks);
  }

  lemma WindowIsNonEmpty(windows: seq<Window>, len: nat, maxTokens: nat, overlap: nat, i: nat)
    requires 0 < maxTokens < len && i < |windows|
    requires forall j :: 0 <= j < |windows| ==> windows[j] == WindowAt(len, maxTokens, overlap, j)
    requires forall j :: 0 <= j < |windows| - 1 ==> windows[j].end == windows[j].start + maxTokens < len
    ensures windows[i].start < windows[i].end <= len
  {
    if i > 0 {
      var stride := Stride(maxTokens, overlap);
      assert (i - 1) * stride + stride == i * stride;
      assert windows[i - 1].end < len;
    }
  }

  /** Chunk i: the i-th window's tokens, cut out at character boundaries. */
  ghost predicate ChunkIs(text: seq<Byte>, offsets: Offsets, maxTokens: nat, overlap: nat, i: nat, count: nat, c: Chunk) {
    var w := WindowAt(|offsets|, maxTokens, overlap, i);
    && w.start < w.end <= |offsets|
    && c.index == i && c.count == count && c.tokenStart == w.start && c.docTokenLen == |offsets|
    && CutStart(text, offsets, w) <= CutEnd(text, offsets, w)
    && c.text == text[CutStart(text, offsets, w)..CutEnd(text, offsets, w)]
  }

  /** A chunk of valid text is valid text. */
  lemma ChunksAreValidText(text: seq<Byte>, offsets: Offsets, maxTokens: nat, overlap: nat, i: nat, count: nat, c: Chunk)
    requires Valid(text) && ChunkIs(text, offsets, maxTokens, overlap, i, count, c)
    ensures Valid(c.text)
  {
    var w := WindowAt(|offsets|, maxTokens, overlap, i);
    SliceAtBoundaries(text, CutStart(text, offsets, w), CutEnd(text, offsets, w));
  }

  /** The chunk is the text from `from` on, and the byte range lies inside it. */
  ghost predicate Holds(c: Chunk, text: seq<Byte>, from: nat, range: (nat, nat)) {
    && from + |c.text| <= |text| && c.text == text[from..from + |c.text|]
    && from <= range.0 <= range.1 <= from + |c.text|
  }

  /** A chunk contains the bytes of every token in its window. */
  lemma ChunksContainTokens(
      text: seq<Byte>, offsets: Offsets, maxTokens: nat, overlap: nat, i: nat, count: nat, c: Chunk, token: nat)
    requires Monotone(offsets) && ChunkIs(text, offsets, maxTokens, overlap, i, count, c)
    requires var w := WindowAt(|offsets|, maxTokens, overlap, i); w.start <= token < w.end
    requires token < |offsets| && offsets[token].1 <= |text|
    ensures Holds(c, text, CutStart(text, offsets, WindowAt(|offsets|, maxTokens, overlap, i)), offsets[token])
  {
    var w := WindowAt(|offsets|, maxTokens, overlap, i);
    assert offsets[w.start].0 <= offsets[token].0;
    assert offsets[token].1 <= offsets[w.end - 1].1;
  }

  /** Together the chunks contain every token's bytes. */
  lemma EveryTokenIsInAChunk(
      chunks: seq<Chunk>, text: seq<Byte>, offsets: Offsets, maxTokens: nat, overlap: nat, token: nat)
    requires Monotone(offsets) && ChunksOf(chunks, text, offsets, maxTokens, overlap)
    requires token < |offsets| && offsets[token].1 <= |text|
    ensures exists i: nat, from: nat :: i < |chunks| && Holds(chunks[i], text, from, offsets[token])
  {
    if |offsets| <= maxTokens {
      assert text[0..0 + |text|] == text;
      assert Holds(chunks[0], text, 0, offsets[token]);
    } else {
      var n := |chunks|;
      var windows := seq(n, i requires 0 <= i < n => WindowAt(|offsets|, maxTokens, overlap, i));
      WindowsReachEnd(|offsets|, maxTokens, overlap, n - 1);
      WindowsCoverTokens(windows, |offsets|, maxTokens, overlap, token);
      var i: nat :| i < n && windows[i].start <= token < windows[i].end;
      ChunksContainTokens(text, offsets, maxTokens, overlap, i, n, chunks[i], token);
      assert Holds(chunks[i], text, CutStart(text, offsets, windows[i]), offsets[token]);
    }
  }

  /** And nothing but valid text, if the document is. */
  lemma AllChunksAreValidText(chunks: seq<Chunk>, text: seq<Byte>, offsets: Offsets, maxTokens: nat, overlap: nat, i: nat)
    requires Valid(text) && ChunksOf(chunks, text, offsets, maxTokens, overlap) && i < |chunks|
    ensures Valid(chunks[i].text)
  {
    if |offsets| > maxTokens {
      ChunksAreValidText(text, offsets, maxTokens, overlap, i, |chunks|, chunks[i]);
    }
  }
}
