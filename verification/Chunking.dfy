/** Content-defined chunking with a gear rolling hash. */
module Chunking {
  import opened Prelude

  /** The hash table and the three constants of the chunker; the mask is `2^maskBits - 1`. */
  datatype Cutter = Cutter(gear: byte -> word, minSize: nat, maxSize: nat, maskBits: nat) {
    predicate Sound() {
      0 < minSize <= maxSize && maskBits <= 32 && maskBits <= minSize
    }
  }

  /** The constants of the ingest script. */
  function ScriptCutter(gear: byte -> word): (c: Cutter)
    ensures c.Sound()
  {
    Cutter(gear, 32 * 1024, 128 * 1024, 17)
  }

  function Roll(c: Cutter, fingerprint: word, b: byte): word {
    (2 * fingerprint + c.gear(b)) % 0x1_0000_0000
  }

  function Fingerprint(c: Cutter, chunk: seq<byte>): word {
    if chunk == [] then 0 else Roll(c, Fingerprint(c, chunk[..|chunk| - 1]), chunk[|chunk| - 1])
  }

  /** The test made after each byte of the current chunk. */
  predicate ShouldCut(c: Cutter, chunk: seq<byte>) {
    |chunk| >= c.minSize && (Fingerprint(c, chunk) % Pow2(c.maskBits) == 0 || |chunk| >= c.maxSize)
  }

  // ----- what a chunking is, without the loop -----

  function Concat(chunks: seq<seq<byte>>): seq<byte> {
    if chunks == [] then [] else chunks[0] + Concat(chunks[1..])
  }

  /** No place to cut strictly inside. */
  ghost predicate Uncut(c: Cutter, chunk: seq<byte>) {
    forall k :: 0 < k < |chunk| ==> !ShouldCut(c, chunk[..k])
  }

  /** The buffer cut at the first opportunity, again and again; only the last chunk may end without a cut. */
  ghost predicate IsChunking(c: Cutter, buffer: seq<byte>, chunks: seq<seq<byte>>) {
    && Concat(chunks) == buffer
    && (forall i :: 0 <= i < |chunks| ==> chunks[i] != [] && Uncut(c, chunks[i]))
    && (forall i :: 0 <= i < |chunks| - 1 ==> ShouldCut(c, chunks[i]))
  }

  // ----- the function the loop computes -----

  /** Where the chunk that starts the buffer ends, its first `size` bytes already read. */
  function ChunkEnd(c: Cutter, buffer: seq<byte>, size: nat): (end: nat)
    requires size <= |buffer|
    ensures size <= end <= |buffer|
    ensures size < |buffer| ==> size < end
    decreases |buffer| - size
  {
    if size == |buffer| || ShouldCut(c, buffer[..size + 1]) then (if size == |buffer| then size else size + 1)
    else ChunkEnd(c, buffer, size + 1)
  }

  function Chunks(c: Cutter, buffer: seq<byte>): seq<seq<byte>> {
    if buffer == [] then []
    else
      var end := ChunkEnd(c, buffer, 0);
      [buffer[..end]] + Chunks(c, buffer[end..])
  }

  /** What holds before byte `index` is read: the chunks so far, and a chunk still open. */
  ghost predicate Scanning(
      c: Cutter, buffer: seq<byte>, chunks: seq<seq<byte>>, start: nat, index: nat, fingerprint: word)
  {
    && start <= index <= |buffer|
    && fingerprint == Fingerprint(c, buffer[start..index])
    && chunks + Chunks(c, buffer[start..]) == Chunks(c, buffer)
    && ChunkEnd(c, buffer[start..], 0) == ChunkEnd(c, buffer[start..], index - start)
  }

  lemma {:induction false} ScanByte(
      c: Cutter, buffer: seq<byte>, chunks: seq<seq<byte>>, start: nat, index: nat, fingerprint: word)
    requires index < |buffer| && Scanning(c, buffer, chunks, start, index, fingerprint)
    ensures var next, chunk := Roll(c, fingerprint, buffer[index]), buffer[start..index + 1];
      && next == Fingerprint(c, chunk)
      && (!ShouldCut(c, chunk) ==> Scanning(c, buffer, chunks, start, index + 1, next))
      && (ShouldCut(c, chunk) ==> Scanning(c, buffer, chunks + [chunk], index + 1, index + 1, 0))
  {
    hide ShouldCut, Roll;
    var rest, size, chunk := buffer[start..], index - start, buffer[start..index + 1];
    assert chunk[..|chunk| - 1] == buffer[start..index] && chunk == rest[..size + 1];
    if ShouldCut(c, chunk) {
      assert rest[size + 1..] == buffer[index + 1..];
      assert Chunks(c, rest) == [chunk] + Chunks(c, buffer[index + 1..]);
      assert buffer[index + 1..index + 1] == [];
    }
  }

  lemma {:induction false} ScanEnd(c: Cutter, buffer: seq<byte>, chunks: seq<seq<byte>>, start: nat, fingerprint: word)
    requires Scanning(c, buffer, chunks, start, |buffer|, fingerprint)
    ensures Chunks(c, buffer) == chunks + (if start < |buffer| then [buffer[start..]] else [])
  {
    hide ShouldCut, Fingerprint;
    var rest := buffer[start..];
    assert rest[..|rest|] == rest && rest[|rest|..] == [];
    assert ChunkEnd(c, rest, |rest|) == |rest|;
    if start < |buffer| {
      assert Chunks(c, rest) == [rest] + Chunks(c, []);
      assert Chunks(c, rest) == [rest];
    } else {
      assert chunks + [] == chunks;
    }
  }

  method ChunkBuffer(c: Cutter, buffer: seq<byte>) returns (chunks: seq<seq<byte>>)
    ensures chunks == Chunks(c, buffer)
  {
    chunks := [];
    if |buffer| == 0 {
      return;
    }
    var chunkStart: nat := 0;
    var fingerprint: word := 0;
    assert buffer[0..] == buffer;
    assert Scanning(c, buffer, chunks, chunkStart, 0, fingerprint);
    for index := 0 to |buffer|
      invariant Scanning(c, buffer, chunks, chunkStart, index, fingerprint)
    {
      hide Scanning, Fingerprint, Roll;
      StartsBefore(c, buffer, chunks, chunkStart, index, fingerprint);
      ScanByte(c, buffer, chunks, chunkStart, index, fingerprint);
      fingerprint := Roll(c, fingerprint, buffer[index]);
      var chunkSize := index + 1 - chunkStart;
      if chunkSize >= c.minSize && (fingerprint % Pow2(c.maskBits) == 0 || chunkSize >= c.maxSize) {
        chunks := chunks + [buffer[chunkStart..index + 1]];
        chunkStart := index + 1;
        fingerprint := 0;
      }
    }
    ScanEnd(c, buffer, chunks, chunkStart, fingerprint);
    if chunkStart < |buffer| {
      chunks := chunks + [buffer[chunkStart..]];
    }
  }

  lemma {:induction false} StartsBefore(
      c: Cutter, buffer: seq<byte>, chunks: seq<seq<byte>>, start: nat, index: nat, fingerprint: word)
    requires Scanning(c, buffer, chunks, start, index, fingerprint)
    ensures start <= index <= |buffer|
  {
  }

  // ----- the loop yields the chunking, and there is only one -----

  lemma {:induction false} ChunkEndMeaning(c: Cutter, buffer: seq<byte>, size: nat)
    requires size < |buffer|
    ensures var end := ChunkEnd(c, buffer, size);
      && (forall k :: size < k < end ==> !ShouldCut(c, buffer[..k]))
      && (end == |buffer| || ShouldCut(c, buffer[..end]))
    decreases |buffer| - size
  {
    if !ShouldCut(c, buffer[..size + 1]) && size + 1 < |buffer| {
      ChunkEndMeaning(c, buffer, size + 1);
    }
  }

  lemma {:induction false} FirstChunk(c: Cutter, buffer: seq<byte>)
    requires buffer != []
    ensures var end := ChunkEnd(c, buffer, 0);
      0 < end && Uncut(c, buffer[..end]) && (end == |buffer| || ShouldCut(c, buffer[..end]))
  {
    var end := ChunkEnd(c, buffer, 0);
    ChunkEndMeaning(c, buffer, 0);
    assert forall k :: 0 < k < end ==> buffer[..end][..k] == buffer[..k];
  }

  lemma {:induction false} ChunksIsChunking(c: Cutter, buffer: seq<byte>)
    ensures IsChunking(c, buffer, Chunks(c, buffer))
  {
    hide ShouldCut, ChunkEnd, Uncut;
    if buffer != [] {
      var end := ChunkEnd(c, buffer, 0);
      FirstChunk(c, buffer);
      ChunksIsChunking(c, buffer[end..]);
      assert buffer == buffer[..end] + buffer[end..];
      assert Chunks(c, buffer)[1..] == Chunks(c, buffer[end..]);
    }
  }

  /** The first chunk is forced: a chunk without a cut inside that ends the buffer or ends at a cut. */
  lemma {:induction false} FirstChunkUnique(c: Cutter, buffer: seq<byte>, x: nat, y: nat)
    requires 0 < x <= |buffer| && Uncut(c, buffer[..x]) && (x == |buffer| || ShouldCut(c, buffer[..x]))
    requires 0 < y <= |buffer| && Uncut(c, buffer[..y]) && (y == |buffer| || ShouldCut(c, buffer[..y]))
    ensures x == y
  {
    hide ShouldCut;
    var z := if x < y then x else y;
    assert buffer[..x][..z] == buffer[..z] == buffer[..y][..z];
  }

  lemma {:induction false} ChunkingUnique(c: Cutter, buffer: seq<byte>, chunks: seq<seq<byte>>)
    requires IsChunking(c, buffer, chunks)
    ensures chunks == Chunks(c, buffer)
    decreases |chunks|
  {
    hide ShouldCut, ChunkEnd, Uncut;
    if chunks != [] {
      var first, rest := chunks[0], chunks[1..];
      var end := ChunkEnd(c, buffer, 0);
      assert buffer[..|first|] == first && buffer[|first|..] == Concat(rest);
      if |chunks| == 1 {
        assert Concat(rest) == [];
      }
      FirstChunk(c, buffer);
      FirstChunkUnique(c, buffer, |first|, end);
      ChunkingUnique(c, buffer[end..], rest);
      assert chunks == [first] + rest;
    }
  }

  /** The chunker's output is the one and only chunking of its input. */
  lemma {:induction false} ChunksMeaning(c: Cutter, buffer: seq<byte>, chunks: seq<seq<byte>>)
    ensures IsChunking(c, buffer, chunks) <==> chunks == Chunks(c, buffer)
  {
    ChunksIsChunking(c, buffer);
    if IsChunking(c, buffer, chunks) {
      ChunkingUnique(c, buffer, chunks);
    }
  }

  /** Chunks concatenate to the buffer; every chunk but the last has a size in [min, max], the last in (0, max]. */
  lemma {:induction false} ChunkSizes(c: Cutter, buffer: seq<byte>)
    requires c.Sound()
    ensures var chunks := Chunks(c, buffer);
      && Concat(chunks) == buffer
      && (forall i :: 0 <= i < |chunks| ==> 0 < |chunks[i]| <= c.maxSize)
      && (forall i :: 0 <= i < |chunks| - 1 ==> c.minSize <= |chunks[i]|)
  {
    var chunks := Chunks(c, buffer);
    ChunksIsChunking(c, buffer);
    forall i | 0 <= i < |chunks|
      ensures |chunks[i]| <= c.maxSize
    {
      if |chunks[i]| > c.maxSize {
        assert ShouldCut(c, chunks[i][..c.maxSize]);
      }
    }
  }

  // ----- locality -----

  lemma {:induction false} ConcatAppend(a: seq<seq<byte>>, b: seq<seq<byte>>)
    ensures Concat(a + b) == Concat(a) + Concat(b)
  {
    if a == [] {
      assert a + b == b;
    } else {
      assert (a + b)[1..] == a[1..] + b;
      ConcatAppend(a[1..], b);
    }
  }

  /** The last byte of the buffer closed a chunk. */
  ghost predicate EndsAtCut(c: Cutter, buffer: seq<byte>) {
    var chunks := Chunks(c, buffer);
    chunks != [] ==> ShouldCut(c, chunks[|chunks| - 1])
  }

  /** Behind a cut the chunker starts afresh, so a common continuation is chunked alike. */
  lemma {:induction false} CutResynchronises(c: Cutter, p: seq<byte>, s: seq<byte>)
    requires EndsAtCut(c, p)
    ensures Chunks(c, p + s) == Chunks(c, p) + Chunks(c, s)
  {
    hide ShouldCut, Chunks, Uncut;
    var x, y := Chunks(c, p), Chunks(c, s);
    ChunksIsChunking(c, p);
    ChunksIsChunking(c, s);
    ConcatAppend(x, y);
    assert IsChunking(c, p + s, x + y);
    ChunkingUnique(c, p + s, x + y);
  }

  /**
   * Resynchronisation after different beginnings: once both versions have a cut at the same place
   * of a common suffix, all later chunks are the same.
   */
  lemma {:induction false} EditsResynchronise(c: Cutter, p: seq<byte>, q: seq<byte>, s: seq<byte>, k: nat)
    requires k <= |s| && EndsAtCut(c, p + s[..k]) && EndsAtCut(c, q + s[..k])
    ensures Chunks(c, p + s) == Chunks(c, p + s[..k]) + Chunks(c, s[k..])
    ensures Chunks(c, q + s) == Chunks(c, q + s[..k]) + Chunks(c, s[k..])
  {
    hide EndsAtCut;
    assert p + s == (p + s[..k]) + s[k..] && q + s == (q + s[..k]) + s[k..];
    CutResynchronises(c, p + s[..k], s[k..]);
    CutResynchronises(c, q + s[..k], s[k..]);
  }

  lemma {:induction false} DroppedLast(c: Cutter, buffer: seq<byte>)
    requires buffer != []
    ensures var chunks := Chunks(c, buffer);
      && chunks != []
      && (var front, last := chunks[..|chunks| - 1], chunks[|chunks| - 1];
          buffer == Concat(front) + last && Chunks(c, Concat(front)) == front && EndsAtCut(c, Concat(front)))
  {
    hide ShouldCut, Uncut;
    var chunks := Chunks(c, buffer);
    ChunksIsChunking(c, buffer);
    var front, last := chunks[..|chunks| - 1], chunks[|chunks| - 1];
    assert chunks == front + [last];
    ConcatAppend(front, [last]);
    assert Concat([last]) == last;
    assert IsChunking(c, Concat(front), front);
    ChunkingUnique(c, Concat(front), front);
  }

  /** Appending bytes keeps every chunk but possibly the last. */
  lemma {:induction false} AppendKeepsChunks(c: Cutter, p: seq<byte>, s: seq<byte>)
    requires p != []
    ensures var before := Chunks(c, p);
      before != [] && before[..|before| - 1] <= Chunks(c, p + s)
  {
    hide ShouldCut, EndsAtCut;
    DroppedLast(c, p);
    var chunks := Chunks(c, p);
    var front, last := chunks[..|chunks| - 1], chunks[|chunks| - 1];
    assert p + s == Concat(front) + (last + s);
    CutResynchronises(c, Concat(front), last + s);
  }

  // ----- the window of the hash -----

  /** The gear values of a stretch, weighted by powers of two, most recent byte first. */
  function WeightedSum(c: Cutter, s: seq<byte>): nat {
    if s == [] then 0 else Pow2(|s| - 1) * c.gear(s[0]) + WeightedSum(c, s[1..])
  }

  lemma {:induction false} WeightedLast(c: Cutter, s: seq<byte>, b: byte)
    ensures WeightedSum(c, s + [b]) == 2 * WeightedSum(c, s) + c.gear(b)
  {
    if s == [] {
      assert ([] + [b])[1..] == [];
      assert Pow2(0) == 1;
    } else {
      assert (s + [b])[1..] == s[1..] + [b];
      WeightedLast(c, s[1..], b);
      assert Pow2(|s|) == 2 * Pow2(|s| - 1);
      assert Pow2(|s|) * c.gear(s[0]) == 2 * (Pow2(|s| - 1) * c.gear(s[0]));
    }
  }

  /** The rolling fingerprint is the weighted sum of the whole chunk prefix, cut to 32 bits. */
  lemma {:induction false} FingerprintIsSum(c: Cutter, s: seq<byte>)
    ensures Fingerprint(c, s) == WeightedSum(c, s) % 0x1_0000_0000
  {
    if s != [] {
      var front, b := s[..|s| - 1], s[|s| - 1];
      FingerprintIsSum(c, front);
      WeightedLast(c, front, b);
      assert s == front + [b];
      var sum, gear: nat := WeightedSum(c, front), c.gear(b);
      var m: nat := 0x1_0000_0000;
      assert 2 * sum + gear == m * (2 * (sum / m)) + (2 * (sum % m) + gear);
      MultipleDrops(m, 2 * (sum / m), 2 * (sum % m) + gear);
    }
  }

  lemma {:induction false} MultipleDrops(m: nat, k: nat, x: nat)
    requires m > 0
    ensures (m * k + x) % m == x % m
  {
    var q, r := x / m, x % m;
    assert m * k + x == m * (k + q) + r;
    RemainderUnique(m * k + x, m, k + q, r);
  }

  lemma {:induction false} RemainderUnique(x: nat, m: nat, q: nat, r: nat)
    requires m > 0 && x == m * q + r && r < m
    ensures x % m == r
  {
    var d: int := q - x / m;
    assert m * d == x % m - r;
    ProductBound(m, d);
  }

  lemma {:induction false} ProductBound(m: nat, d: int)
    ensures d >= 1 ==> m * d >= m
    ensures d <= -1 ==> m * d + m <= 0
  {
  }

  lemma {:induction false} RemainderOfRemainder(x: nat, a: nat, b: nat)
    requires a > 0 && b > 0
    ensures a * b > 0 && x % (a * b) % a == x % a
  {
    ProductBound(a, b);
    var m := a * b;
    var q, r := x / m, x % m;
    assert x == m * q + r;
    assert m * q == a * (b * q);
    MultipleDrops(a, b * q, r);
  }

  lemma {:induction false} NestedRemainder(x: nat, w: nat)
    requires w <= 32
    ensures x % 0x1_0000_0000 % Pow2(w) == x % Pow2(w)
  {
    PowSplit(w, 32);
    Pow2Is32();
    RemainderOfRemainder(x, Pow2(w), Pow2(32 - w));
  }

  lemma {:induction false} PowSplit(w: nat, n: nat)
    requires w <= n
    ensures Pow2(n) == Pow2(w) * Pow2(n - w)
    decreases w
  {
    if w > 0 {
      PowSplit(w - 1, n - 1);
      assert Pow2(n) == 2 * (Pow2(w - 1) * Pow2(n - w));
    }
  }

  lemma {:induction false} ProductAssoc(x: nat, y: nat, z: nat)
    ensures x * y * z == x * (y * z)
  {
  }

  lemma {:induction false} WeightedSuffix(c: Cutter, q: seq<byte>, t: seq<byte>)
    ensures WeightedSum(c, q + t) % Pow2(|t|) == WeightedSum(c, t) % Pow2(|t|)
  {
    if q == [] {
      assert q + t == t;
    } else {
      var all := q + t;
      assert all[1..] == q[1..] + t;
      WeightedSuffix(c, q[1..], t);
      PowSplit(|t|, |all| - 1);
      var high, gear: nat := Pow2(|all| - 1 - |t|), c.gear(all[0]);
      ProductAssoc(Pow2(|t|), high, gear);
      MultipleDrops(Pow2(|t|), high * gear, WeightedSum(c, all[1..]));
    }
  }

  /** The low bits of the fingerprint are the weighted gear sum of as many last bytes, and of nothing before them. */
  lemma {:induction false} FingerprintWindow(c: Cutter, s: seq<byte>, w: nat)
    requires w <= |s| && w <= 32
    ensures Fingerprint(c, s) % Pow2(w) == WeightedSum(c, s[|s| - w..]) % Pow2(w)
  {
    FingerprintIsSum(c, s);
    NestedRemainder(WeightedSum(c, s), w);
    assert s == s[..|s| - w] + s[|s| - w..];
    WeightedSuffix(c, s[..|s| - w], s[|s| - w..]);
  }

  /** Whether to cut depends only on the size of the chunk and its last `maskBits` bytes. */
  lemma {:induction false} CutIsLocal(c: Cutter, x: seq<byte>, y: seq<byte>)
    requires c.Sound() && |x| == |y| >= c.maskBits
    requires x[|x| - c.maskBits..] == y[|y| - c.maskBits..]
    ensures ShouldCut(c, x) == ShouldCut(c, y)
  {
    FingerprintWindow(c, x, c.maskBits);
    FingerprintWindow(c, y, c.maskBits);
  }

  /** With the constants of the script, and any gear table: 32 to 128 KiB, and cuts that depend on 17 bytes. */
  lemma {:induction false} ScriptChunks(gear: byte -> word, buffer: seq<byte>, x: seq<byte>, y: seq<byte>)
    ensures var c := ScriptCutter(gear);
      var chunks := Chunks(c, buffer);
      && (forall i :: 0 <= i < |chunks| ==> 0 < |chunks[i]| <= 131_072)
      && (forall i :: 0 <= i < |chunks| - 1 ==> 32_768 <= |chunks[i]|)
      && (|x| == |y| >= 17 && x[|x| - 17..] == y[|y| - 17..] ==> ShouldCut(c, x) == ShouldCut(c, y))
      && (ShouldCut(c, x) <==>
            |x| >= 32_768 && (Fingerprint(c, x) % 0x2_0000 == 0 || |x| >= 131_072))
  {
    var c := ScriptCutter(gear);
    ChunkSizes(c, buffer);
    if |x| == |y| >= 17 && x[|x| - 17..] == y[|y| - 17..] {
      CutIsLocal(c, x, y);
    }
    assert Pow2(17) == 0x2_0000 by {
      assert Pow2(8) == 256 && Pow2(16) == 0x1_0000;
    }
  }
}
