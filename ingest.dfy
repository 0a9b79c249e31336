/**
 * The ingestion utility: normalising the lines of a page's extracted text,
 * cutting the text into overlapping fixed-width chunks, and building the
 * parallel ids / texts / metadata lists that are posted to the vector store.
 */
module Ingest {
  import opened Text

  /** The chunk width and overlap `main` uses (the parameters' defaults). */
  const DefaultSize: int := 900
  const DefaultOverlap: int := 120

  function Min(a: int, b: int): int {
    if a <= b then a else b
  }

  // ---------------------------------------------------------------- line normalisation

  /** No two newlines stand side by side in `s`: it has no blank line inside it. */
  predicate NoBlankLine(s: string) {
    forall i :: 0 <= i < |s| - 1 ==> !(s[i] == '\n' && s[i + 1] == '\n')
  }

  /** The lines of `raw`, each stripped, the blank ones dropped, in their original order. */
  function CleanLines(raw: string): (lines: seq<string>)
    ensures forall l :: l in lines ==> l != [] && IsStripped(l) && NoLineBreak(l)
  {
    var pieces := SplitLines(raw);
    SplitLinesSound(raw);
    var lines := KeepStripped(pieces);
    KeepStrippedSound(pieces);
    assert forall l :: l in lines ==> NoLineBreak(l) by {
      forall l | l in lines ensures NoLineBreak(l) {
        var p :| p in pieces && Strip(p) == l;
        StripNoLineBreak(p);
      }
    }
    lines
  }

  /** A text without a line break gives its stripped self, or nothing when it is blank. */
  lemma CleanLinesLine(raw: string)
    requires NoLineBreak(raw)
    ensures CleanLines(raw) == if AllSpace(raw) then [] else [Strip(raw)]
  {
    SplitLinesLine(raw);
    if raw != [] {
      KeepStrippedOne(raw);
    }
  }

  /**
   * The first line of a text, stripped, comes first in the cleaned lines
   * unless it is blank; the rest of the text supplies the rest, in order.
   * With `CleanLinesLine` this determines `CleanLines` on every text.
   */
  lemma CleanLinesCons(line: string, brk: string, rest: string)
    requires NoLineBreak(line) && Terminator(brk, rest)
    ensures CleanLines(line + brk + rest) == (if AllSpace(line) then [] else [Strip(line)]) + CleanLines(rest)
  {
    SplitLinesCons(line, brk, rest);
    KeepStrippedAppend([line], SplitLines(rest));
    KeepStrippedOne(line);
  }

  /**
   * The whitespace normalisation of the extracted page text: the lines are
   * stripped, blank ones dropped, and the rest joined by `\n`. Splitting the
   * result into lines gives back exactly the cleaned lines, so no line of it
   * is blank or has whitespace at either end.
   */
  function NormaliseLines(raw: string): (text: string)
    ensures SplitLines(text) == CleanLines(raw)
    ensures NoBlankLine(text)
  {
    var lines := CleanLines(raw);
    SplitLinesJoin(lines);
    JoinHasNoBlankLine(lines);
    Join(lines, "\n")
  }

  /** Joining non-empty, break-free lines by `\n` never puts two newlines side by side. */
  lemma {:induction false} JoinHasNoBlankLine(lines: seq<string>)
    requires forall l :: l in lines ==> l != [] && NoLineBreak(l)
    ensures NoBlankLine(Join(lines, "\n"))
    decreases |lines|
  {
    var s := Join(lines, "\n");
    if |lines| == 1 {
      assert NoLineBreak(lines[0]);
    } else if |lines| > 1 {
      var l := lines[0];
      var tail := Join(lines[1..], "\n");
      assert forall m :: m in lines[1..] ==> m in lines;
      JoinHasNoBlankLine(lines[1..]);
      assert NoBlankLine(tail);
      assert s == l + "\n" + tail;
      assert l in lines && NoLineBreak(l);
      assert tail != [] && tail[0] == lines[1][0] by {
        assert lines[1] in lines;
        JoinStartsWithFirst(lines[1..]);
      }
      assert lines[1] in lines && NoLineBreak(lines[1]);
      forall i | 0 <= i < |s| - 1 ensures !(s[i] == '\n' && s[i + 1] == '\n') {
        if i < |l| {
          assert s[i] == l[i] && !IsLineBreak(l[i]);
          assert s[i] != '\n';
        } else if i == |l| {
          assert s[i + 1] == tail[0] && !IsLineBreak(lines[1][0]);
          assert s[i + 1] != '\n';
        } else {
          var t := i - |l| - 1;
          assert s[i] == tail[t] && s[i + 1] == tail[t + 1];
          assert t < |tail| - 1;
          assert !(tail[t] == '\n' && tail[t + 1] == '\n');
        }
      }
    }
  }

  /** A join of lists whose first piece is non-empty starts with that piece's first character. */
  lemma JoinStartsWithFirst(lines: seq<string>)
    requires |lines| >= 1 && lines[0] != []
    ensures |Join(lines, "\n")| >= 1 && Join(lines, "\n")[0] == lines[0][0]
  {
  }

  /** Normalising already normalised text changes nothing. */
  lemma NormaliseIdempotent(raw: string)
    ensures NormaliseLines(NormaliseLines(raw)) == NormaliseLines(raw)
  {
    var lines := CleanLines(raw);
    assert SplitLines(NormaliseLines(raw)) == lines;
    KeepStrippedClean(lines);
    assert CleanLines(NormaliseLines(raw)) == lines;
  }

  // ---------------------------------------------------------------- chunking

  /** How far the chunker advances each time: `max(1, size - overlap)`. */
  function Step(size: int, overlap: int): (step: int)
    ensures step >= 1 && step >= size - overlap
    ensures step == 1 || step == size - overlap
  {
    if size - overlap > 1 then size - overlap else 1
  }

  /** Where Python puts a slice bound `b` on a sequence of length `n`: negative bounds count from the end, others are clamped. */
  function SliceBound(b: int, n: nat): (r: nat)
    ensures r <= n
    ensures 0 <= b ==> r == Min(b, n)
    ensures b < 0 ==> r == (if b + n < 0 then 0 else b + n)
  {
    if b < 0 then (if b + n < 0 then 0 else b + n)
    else if b > n then n
    else b
  }

  /** Python's `s[lo:hi]`. */
  function PySlice(s: string, lo: int, hi: int): (r: string)
    ensures |r| <= |s|
    ensures 0 <= lo <= hi ==> r == s[Min(lo, |s|)..Min(hi, |s|)]
  {
    var a := SliceBound(lo, |s|);
    var b := SliceBound(hi, |s|);
    if a < b then s[a..b] else []
  }

  /** The chunks `chunk_text` still emits once its index has reached `i`. */
  function ChunksFrom(text: string, size: int, step: int, i: nat): seq<string>
    requires step >= 1
    decreases |text| - i
  {
    if i >= |text| then [] else [PySlice(text, i, i + size)] + ChunksFrom(text, size, step, i + step)
  }

  /** What `chunk_text(text, size, overlap)` returns: `ceil(n / step)` windows, none for an empty text. */
  function ChunksOf(text: string, size: int, overlap: int): (r: seq<string>)
    ensures |r| == (|text| + Step(size, overlap) - 1) / Step(size, overlap)
    ensures r == [] <==> text == []
  {
    ChunksFromTotal(text, size, Step(size, overlap));
    ChunksFrom(text, size, Step(size, overlap), 0)
  }

  /** `chunk_text`: slide a window of `size` over `text`, `max(1, size - overlap)` at a time. */
  method ChunkText(text: string, size: int, overlap: int) returns (chunks: seq<string>)
    ensures chunks == ChunksOf(text, size, overlap)
  {
    chunks := [];
    var i: nat := 0;
    var n := |text|;
    while i < n
      invariant chunks + ChunksFrom(text, size, Step(size, overlap), i) == ChunksOf(text, size, overlap)
      decreases n - i
    {
      chunks := chunks + [PySlice(text, i, i + size)];
      i := i + Step(size, overlap);
    }
  }

  // ---------------------------------------------------------------- arithmetic

  lemma MulSucc(k: int, d: int)
    ensures (k + 1) * d == k * d + d
  {
  }

  lemma {:induction false} MulMono(x: int, y: int, d: int)
    requires d >= 1 && x < y
    ensures x * d < y * d
    decreases y - x
  {
    MulSucc(x, d);
    if x + 1 < y {
      MulMono(x + 1, y, d);
    }
  }

  /** Euclidean division has only one quotient. */
  lemma DivUnique(a: int, d: int, q: int, r: int)
    requires d >= 1 && 0 <= r < d && a == q * d + r
    ensures a / d == q
  {
    var q' := a / d;
    var r' := a % d;
    assert a == q' * d + r';
    if q' > q {
      MulSucc(q, d);
      if q' > q + 1 { MulMono(q + 1, q', d); }
    } else if q' < q {
      MulSucc(q', d);
      if q > q' + 1 { MulMono(q' + 1, q, d); }
    }
  }

  // ---------------------------------------------------------------- chunk properties

  /** From offset `i`, `c` windows are emitted: `c` steps reach the end of the text and `c - 1` do not. */
  lemma {:induction false} ChunksFromCount(text: string, size: int, step: int, i: nat)
    requires step >= 1
    ensures var c := |ChunksFrom(text, size, step, i)|;
      i + c * step >= |text| && (c == 0 <==> i >= |text|) && (c > 0 ==> i + (c - 1) * step < |text|)
    decreases |text| - i
  {
    if i < |text| {
      ChunksFromCount(text, size, step, i + step);
      var c' := |ChunksFrom(text, size, step, i + step)|;
      MulSucc(c', step);
      if c' > 0 {
        MulSucc(c' - 1, step);
      }
    }
  }

  /** The `k`-th window emitted from offset `i` starts at `o = i + k * step`, inside the text. */
  lemma {:induction false} ChunksFromAt(text: string, size: int, step: int, i: nat, k: nat, o: int)
    requires step >= 1 && o == i + k * step
    requires k < |ChunksFrom(text, size, step, i)|
    ensures i <= o < |text|
    ensures ChunksFrom(text, size, step, i)[k] == PySlice(text, o, o + size)
    decreases k
  {
    if k > 0 {
      var rest := ChunksFrom(text, size, step, i + step);
      assert ChunksFrom(text, size, step, i) == [PySlice(text, i, i + size)] + rest;
      MulSucc(k - 1, step);
      ChunksFromAt(text, size, step, i + step, k - 1, o);
    } else {
      assert k * step == 0;
    }
  }

  /**
   * `chunk_text` returns `ceil(n / step)` chunks, with `step = max(1, size - overlap)`:
   * none for empty text, at least one otherwise.
   */
  lemma ChunkCount(text: string, size: int, overlap: int)
    ensures var step := Step(size, overlap);
      |ChunksOf(text, size, overlap)| == (|text| + step - 1) / step
    ensures |ChunksOf(text, size, overlap)| == 0 <==> text == []
  {
  }

  /** Emitting from offset 0 gives `ceil(n / step)` windows. */
  lemma ChunksFromTotal(text: string, size: int, step: int)
    requires step >= 1
    ensures |ChunksFrom(text, size, step, 0)| == (|text| + step - 1) / step
    ensures |ChunksFrom(text, size, step, 0)| == 0 <==> text == []
  {
    var n := |text|;
    ChunksFromCount(text, size, step, 0);
    var c := |ChunksFrom(text, size, step, 0)|;
    if c == 0 {
      DivUnique(n + step - 1, step, 0, step - 1);
    } else {
      MulSucc(c - 1, step);
      DivUnique(n + step - 1, step, c, n + step - 1 - c * step);
    }
  }

  /**
   * Chunk `k` is `text[k * step .. min(k * step + size, n)]` when `size` is
   * not negative: at most `size` long, and not empty when `size` is positive.
   */
  lemma ChunkAt(text: string, size: int, overlap: int, k: nat)
    requires size >= 0
    requires k < |ChunksOf(text, size, overlap)|
    ensures var i := k * Step(size, overlap);
      i < |text| && ChunksOf(text, size, overlap)[k] == text[i..Min(i + size, |text|)]
    ensures |ChunksOf(text, size, overlap)[k]| <= size
    ensures size >= 1 ==> ChunksOf(text, size, overlap)[k] != []
  {
    ChunkWindow(text, size, overlap, k, k * Step(size, overlap));
  }

  /** `ChunkAt` with the start `o = k * step` named. */
  lemma ChunkWindow(text: string, size: int, overlap: int, k: nat, o: int)
    requires size >= 0 && o == k * Step(size, overlap)
    requires k < |ChunksOf(text, size, overlap)|
    ensures 0 <= o < |text| && ChunksOf(text, size, overlap)[k] == text[o..Min(o + size, |text|)]
  {
    ChunksFromAt(text, size, Step(size, overlap), 0, k, o);
    assert ChunksOf(text, size, overlap)[k] == PySlice(text, o, o + size);
  }

  /** A start at or before a position inside the text belongs to an emitted chunk. */
  lemma ChunkIndexInRange(text: string, size: int, overlap: int, k: nat, j: nat)
    requires k * Step(size, overlap) <= j < |text|
    ensures k < |ChunksOf(text, size, overlap)|
  {
    var step := Step(size, overlap);
    var c := |ChunksOf(text, size, overlap)|;
    ChunksFromCount(text, size, step, 0);
    if k > c {
      MulMono(c, k, step);
    }
  }

  /** The first chunk is a prefix of the text. */
  lemma FirstChunkIsPrefix(text: string, size: int, overlap: int)
    requires size >= 0 && text != []
    ensures |ChunksOf(text, size, overlap)| >= 1
    ensures ChunksOf(text, size, overlap)[0] == text[..Min(size, |text|)]
  {
    ChunkCount(text, size, overlap);
    ChunkAt(text, size, overlap, 0);
  }

  /** With a positive width and no negative overlap, every character of the text lies in some chunk. */
  lemma ChunksCover(text: string, size: int, overlap: int, j: nat)
    requires size >= 1 && overlap >= 0
    requires j < |text|
    ensures var chunks := ChunksOf(text, size, overlap); var step := Step(size, overlap);
      exists k :: 0 <= k < |chunks| && k * step <= j < k * step + |chunks[k]| && chunks[k][j - k * step] == text[j]
  {
    var chunks := ChunksOf(text, size, overlap);
    var step := Step(size, overlap);
    var k := j / step;
    var o := k * step;
    DivModBounds(j, step);
    ChunkIndexInRange(text, size, overlap, k, j);
    ChunkWindow(text, size, overlap, k, o);
    assert chunks[k][j - o] == text[j];
  }

  lemma DivModBounds(j: nat, d: int)
    requires d >= 1
    ensures (j / d) * d <= j < (j / d) * d + d
  {
  }

  /**
   * Consecutive chunks overlap: when chunk `k` is full width, its last
   * `size - step` characters are the first `size - step` characters of
   * chunk `k + 1` (that is `overlap` characters when `0 <= overlap < size`).
   */
  lemma ChunksOverlap(text: string, size: int, overlap: int, k: nat)
    requires size >= 1 && overlap >= 0
    requires k + 1 < |ChunksOf(text, size, overlap)|
    requires |ChunksOf(text, size, overlap)[k]| == size
    ensures var chunks := ChunksOf(text, size, overlap); var step := Step(size, overlap);
      |chunks[k + 1]| >= size - step && chunks[k][step..] == chunks[k + 1][..size - step]
  {
    var chunks := ChunksOf(text, size, overlap);
    var step := Step(size, overlap);
    var n := |text|;
    var i := k * step;
    var i' := i + step;
    MulSucc(k, step);
    ChunkWindow(text, size, overlap, k, i);
    ChunkWindow(text, size, overlap, k + 1, i');
    assert chunks[k] == text[i..i + size];
    assert chunks[k][step..] == text[i'..i + size];
  }

  /**
   * With the defaults, a text of exactly 900 characters gives two chunks, and
   * the second (characters 780 to 899) lies entirely inside the first.
   */
  lemma DefaultWindowOn900(text: string)
    requires |text| == 900
    ensures |ChunksOf(text, DefaultSize, DefaultOverlap)| == 2
    ensures ChunksOf(text, DefaultSize, DefaultOverlap)[0] == text
    ensures ChunksOf(text, DefaultSize, DefaultOverlap)[1] == text[780..]
  {
    assert Step(DefaultSize, DefaultOverlap) == 780;
    ChunkCount(text, DefaultSize, DefaultOverlap);
    ChunkAt(text, DefaultSize, DefaultOverlap, 0);
    ChunkAt(text, DefaultSize, DefaultOverlap, 1);
  }

  // ---------------------------------------------------------------- batch bookkeeping

  /** The metadata stored with one chunk: the shared base record plus the chunk's index. */
  datatype ChunkMeta = ChunkMeta(source: string, url: string, host: string, path: string, chunk: nat)

  /** The parallel lists posted to the vector store's add endpoint. */
  datatype Batch = Batch(ids: seq<string>, texts: seq<string>, metadatas: seq<ChunkMeta>)

  ghost predicate Injective(f: nat -> string) {
    forall x: nat, y: nat :: f(x) == f(y) ==> x == y
  }

  /**
   * The bookkeeping of `main`: normalise the extracted page text, chunk it with
   * the defaults, and give each chunk an id from `newId` (the `uuid4` source)
   * and a metadata record carrying the page's url, host and path and the
   * chunk's own index.
   */
  method PlanIngest(url: string, host: string, path: string, extracted: string, newId: nat -> string)
    returns (batch: Batch)
    ensures batch.texts == ChunksOf(NormaliseLines(extracted), DefaultSize, DefaultOverlap)
    ensures |batch.ids| == |batch.texts| && |batch.metadatas| == |batch.texts|
    ensures forall i :: 0 <= i < |batch.metadatas| ==> batch.metadatas[i] == ChunkMeta("url", url, host, path, i)
    ensures forall i :: 0 <= i < |batch.ids| ==> batch.ids[i] == newId(i)
    ensures Injective(newId) ==> forall i, j :: 0 <= i < j < |batch.ids| ==> batch.ids[i] != batch.ids[j]
  {
    var text := NormaliseLines(extracted);
    var parts := ChunkText(text, DefaultSize, DefaultOverlap);
    var ids := seq(|parts|, i requires 0 <= i => newId(i));
    var metas := seq(|parts|, i requires 0 <= i => ChunkMeta("url", url, host, path, i));
    batch := Batch(ids, parts, metas);
  }
}
