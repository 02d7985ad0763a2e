/**
 The scan of an Ogg container for its last granule position, which gives the length of an Opus stream.
 Page layout as in section 6 of RFC 3533; 48 kHz granule units as in section 4 of RFC 7845.
 */
module OggScan {
  import opened Options

  type Byte = x: int | 0 <= x < 256

  const MARK: seq<Byte> := [0x4F, 0x67, 0x67, 0x53]  // "OggS"
  const HEADER_SIZE := 27
  const TWO_63 := 0x8000_0000_0000_0000
  const TWO_64 := 0x1_0000_0000_0000_0000

  function DecodeLE(b: seq<Byte>): nat {
    if b == [] then 0 else b[0] + 256 * DecodeLE(b[1..])
  }

  /** Reinterprets an unsigned 64-bit value as a signed one. */
  function ToInt64(u: int): int {
    if u >= TWO_63 then u - TWO_64 else u
  }

  function Max(a: int, b: int): int {
    if b > a then b else a
  }

  function Sum(b: seq<Byte>): nat {
    if b == [] then 0 else Sum(b[..|b| - 1]) + b[|b| - 1]
  }

  /** What one round of the scan leaves behind: the final value, or where to go on and with what. */
  datatype Round = Stop(best: int) | Go(pos: nat, best: int)

  function OneRound(data: seq<Byte>, pos: nat, best: int): (r: Round)
    ensures r.Go? ==> pos < r.pos && pos < |data|
  {
    if |data| < pos + HEADER_SIZE then Stop(best)
    else if data[pos..pos + 4] != MARK then Go(pos + 1, best)
    else
      var best' := Max(best, ToInt64(DecodeLE(data[pos + 6..pos + 14])));
      var table := pos + HEADER_SIZE;
      var body := table + data[pos + 26];
      if |data| < body then Stop(best') else Go(body + Sum(data[table..body]), best')
  }

  /** The largest granule position seen from `pos` on, or `best`. */
  function Scan(data: seq<Byte>, pos: nat, best: int): int
    decreases |data| - pos
  {
    var r := OneRound(data, pos, best);
    if r.Stop? then r.best else Scan(data, r.pos, r.best)
  }

  lemma ScanGo(data: seq<Byte>, pos: nat, best: int, pos': nat, best': int)
    requires OneRound(data, pos, best) == Go(pos', best')
    ensures Scan(data, pos, best) == Scan(data, pos', best')
  {
  }

  method PageSize(segmentTable: seq<Byte>) returns (size: nat)
    ensures size == Sum(segmentTable)
  {
    size := 0;
    for i := 0 to |segmentTable|
      invariant size == Sum(segmentTable[..i])
    {
      assert segmentTable[..i + 1][..i] == segmentTable[..i];
      size := size + segmentTable[i];
    }
    assert segmentTable[..|segmentTable|] == segmentTable;
  }

  /**
   The scan itself, on a reader whose reads are short only at the end. Seeking past the end is allowed,
   and the next read then finds the end. It terminates on every input because every round moves on.
   */
  method GetOpusDuration(data: seq<Byte>) returns (duration: real)
    ensures duration == Scan(data, 0, 0) as real / 48000.0
  {
    var totalGranulePos, pos: nat := 0, 0;
    ghost var last := Scan(data, 0, 0);
    while pos < |data|
      invariant Scan(data, pos, totalGranulePos) == last
      decreases |data| - pos
    {
      var n := if |data| - pos < HEADER_SIZE then |data| - pos else HEADER_SIZE;
      var buf := data[pos..pos + n];
      if n < HEADER_SIZE {
        break;
      }
      ghost var round := OneRound(data, pos, totalGranulePos);
      assert buf[0..4] == data[pos..pos + 4] && buf[6..14] == data[pos + 6..pos + 14];
      pos := pos + n;
      if buf[0..4] != MARK {
        pos := pos - 26;
        assert round == Go(pos, totalGranulePos);
        continue;
      }
      var granulePos := ToInt64(DecodeLE(buf[6..14]));
      if granulePos > totalGranulePos {
        totalGranulePos := granulePos;
      }
      var numSegments := buf[26];
      if |data| - pos < numSegments {
        assert round == Stop(totalGranulePos);
        break;
      }
      var segmentTable := data[pos..pos + numSegments];
      pos := pos + numSegments;
      var pageSize := PageSize(segmentTable);
      pos := pos + pageSize;
      assert round == Go(pos, totalGranulePos);
    }
    duration := totalGranulePos as real / 48000.0;
  }

  // ---------------------------------------------------------------------------
  // The scan over a stream cut into items
  // ---------------------------------------------------------------------------

  /** A stretch of bytes: one page with its granule position, or bytes that hold no page mark. */
  datatype Item = Item(length: nat, granule: Option<int>)

  ghost predicate MarkAt(data: seq<Byte>, i: nat) {
    i + 4 <= |data| && data[i..i + 4] == MARK
  }

  /** A whole page of `length` bytes with granule position `g` starts at `pos`. */
  ghost predicate PageAt(data: seq<Byte>, pos: nat, length: nat, g: int) {
    && pos + HEADER_SIZE <= |data| && data[pos..pos + 4] == MARK
    && ToInt64(DecodeLE(data[pos + 6..pos + 14])) == g
    && pos + HEADER_SIZE + data[pos + 26] <= |data|
    && length == HEADER_SIZE + data[pos + 26] + Sum(data[pos + HEADER_SIZE..pos + HEADER_SIZE + data[pos + 26]])
  }

  ghost predicate ItemFits(data: seq<Byte>, pos: nat, item: Item) {
    && pos + item.length <= |data|
    && match item.granule
       case Some(g) => PageAt(data, pos, item.length, g)
       case None => forall i :: pos <= i < pos + item.length ==> !MarkAt(data, i)
  }

  ghost predicate Fits(data: seq<Byte>, pos: nat, items: seq<Item>)
    decreases |items|
  {
    if items == [] then pos == |data|
    else ItemFits(data, pos, items[0]) && Fits(data, pos + items[0].length, items[1..])
  }

  function Better(item: Item, best: int): int {
    if item.granule.Some? then Max(best, item.granule.value) else best
  }

  function Largest(items: seq<Item>, best: int): int {
    if items == [] then best else Largest(items[1..], Better(items[0], best))
  }

  lemma {:induction false} ScanSkips(data: seq<Byte>, pos: nat, n: nat, best: int)
    requires pos + n <= |data| && forall i :: pos <= i < pos + n ==> !MarkAt(data, i)
    ensures Scan(data, pos, best) == Scan(data, pos + n, best)
    decreases n
  {
    if n > 0 && |data| >= pos + HEADER_SIZE {
      assert !MarkAt(data, pos);
      ScanSkips(data, pos + 1, n - 1, best);
    }
  }

  lemma ScanItem(data: seq<Byte>, pos: nat, item: Item, best: int)
    requires ItemFits(data, pos, item)
    ensures Scan(data, pos, best) == Scan(data, pos + item.length, Better(item, best))
  {
    if item.granule.Some? {
      ScanGo(data, pos, best, pos + item.length, Better(item, best));
    } else {
      ScanSkips(data, pos, item.length, best);
    }
  }

  lemma {:induction false} ScanItems(data: seq<Byte>, pos: nat, items: seq<Item>, best: int)
    requires Fits(data, pos, items)
    ensures Scan(data, pos, best) == Largest(items, best)
    decreases |items|
  {
    if items != [] {
      ScanItem(data, pos, items[0], best);
      ScanItems(data, pos + items[0].length, items[1..], Better(items[0], best));
    }
  }

  lemma {:induction false} LargestIsMaximum(items: seq<Item>, best: int)
    ensures Largest(items, best) >= best
    ensures forall i :: 0 <= i < |items| && items[i].granule.Some? ==> Largest(items, best) >= items[i].granule.value
    ensures Largest(items, best) == best || exists i ::
        0 <= i < |items| && items[i].granule == Some(Largest(items, best))
    decreases |items|
  {
    if items != [] {
      var rest := items[1..];
      LargestIsMaximum(rest, Better(items[0], best));
      forall i | 0 <= i < |items| && items[i].granule.Some? ensures Largest(items, best) >= items[i].granule.value {
        if i > 0 { assert items[i] == rest[i - 1]; }
      }
      if i :| 0 <= i < |rest| && rest[i].granule == Some(Largest(items, best)) {
        assert items[i + 1] == rest[i];
      }
    }
  }

  // ---------------------------------------------------------------------------
  // Well-formed streams
  // ---------------------------------------------------------------------------

  function EncodeLE(x: nat, k: nat): (b: seq<Byte>)
    ensures |b| == k
  {
    if k == 0 then [] else [x % 256] + EncodeLE(x / 256, k - 1)
  }

  function Pow256(k: nat): nat {
    if k == 0 then 1 else 256 * Pow256(k - 1)
  }

  lemma {:induction false} DecodeEncode(x: nat, k: nat)
    requires x < Pow256(k)
    ensures DecodeLE(EncodeLE(x, k)) == x
  {
    if k > 0 {
      DecodeEncode(x / 256, k - 1);
      assert EncodeLE(x, k)[1..] == EncodeLE(x / 256, k - 1);
    }
  }

  function FromInt64(g: int): int {
    if g < 0 then g + TWO_64 else g
  }

  /** Header fields the scan does not look at are kept as raw bytes. */
  datatype Page = Page(flags: seq<Byte>, granule: int, ids: seq<Byte>, segments: seq<Byte>, body: seq<Byte>)

  ghost predicate WellFormed(p: Page) {
    && |p.flags| == 2 && |p.ids| == 12 && |p.segments| <= 255
    && -TWO_63 <= p.granule < TWO_63
    && |p.body| == Sum(p.segments)
  }

  function Granule(g: int): seq<Byte>
    requires -TWO_63 <= g < TWO_63
  {
    EncodeLE(FromInt64(g), 8)
  }

  function Encode(p: Page): seq<Byte>
    requires -TWO_63 <= p.granule < TWO_63 && |p.segments| <= 255
  {
    MARK + p.flags + Granule(p.granule) + p.ids + [|p.segments|] + p.segments + p.body
  }

  lemma GranuleRoundTrip(g: int)
    requires -TWO_63 <= g < TWO_63
    ensures ToInt64(DecodeLE(Granule(g))) == g
  {
    assert Pow256(8) == 256 * Pow256(7) && Pow256(7) == 256 * Pow256(6) && Pow256(6) == 256 * Pow256(5);
    assert Pow256(5) == 256 * Pow256(4) && Pow256(4) == 256 * Pow256(3) && Pow256(3) == 256 * Pow256(2);
    assert Pow256(2) == 256 * Pow256(1) && Pow256(1) == 256;
    DecodeEncode(FromInt64(g), 8);
  }

  lemma SliceOfRest(all: seq<Byte>, pos: nat, piece: seq<Byte>, after: seq<Byte>, i: nat, j: nat)
    requires pos <= |all| && all[pos..] == piece + after && i <= j <= |piece|
    ensures all[pos + i..pos + j] == piece[i..j]
  {
    assert all[pos..][i..j] == all[pos + i..pos + j];
  }

  lemma EncodeParts(p: Page)
    requires WellFormed(p)
    ensures var e := Encode(p); var n := |p.segments|;
            && |e| == HEADER_SIZE + n + |p.body|
            && e[0..4] == MARK && e[6..14] == Granule(p.granule) && e[26..27] == [n]
            && e[HEADER_SIZE..HEADER_SIZE + n] == p.segments
  {
  }

  lemma EncodedPageAt(data: seq<Byte>, pos: nat, p: Page, after: seq<Byte>)
    requires WellFormed(p) && pos <= |data| && data[pos..] == Encode(p) + after
    ensures PageAt(data, pos, |Encode(p)|, p.granule)
  {
    var n := |p.segments|;
    EncodeParts(p);
    SliceOfRest(data, pos, Encode(p), after, 0, 4);
    SliceOfRest(data, pos, Encode(p), after, 6, 14);
    SliceOfRest(data, pos, Encode(p), after, 26, 27);
    SliceOfRest(data, pos, Encode(p), after, HEADER_SIZE, HEADER_SIZE + n);
    assert data[pos + 26..pos + 27] == [data[pos + 26]];
    GranuleRoundTrip(p.granule);
  }

  /** A stream is pages with bytes of any other kind before, between and after them. */
  datatype Chunk = Noise(bytes: seq<Byte>) | Whole(page: Page)

  ghost predicate ChunkOk(c: Chunk) {
    c.Whole? ==> WellFormed(c.page)
  }

  ghost function Piece(c: Chunk): seq<Byte>
    requires ChunkOk(c)
  {
    match c case Noise(b) => b case Whole(p) => Encode(p)
  }

  ghost function Bytes(chunks: seq<Chunk>): seq<Byte>
    requires forall i :: 0 <= i < |chunks| ==> ChunkOk(chunks[i])
  {
    if chunks == [] then [] else Piece(chunks[0]) + Bytes(chunks[1..])
  }

  /** No page mark starts in the bytes that are not pages. */
  ghost predicate Clean(chunks: seq<Chunk>) {
    && (forall i :: 0 <= i < |chunks| ==> ChunkOk(chunks[i]))
    && (chunks != [] ==>
          && Clean(chunks[1..])
          && (chunks[0].Noise? ==> forall i :: 0 <= i < |chunks[0].bytes| ==> !MarkAt(Bytes(chunks), i)))
  }

  ghost function ItemOf(c: Chunk): Item
    requires ChunkOk(c)
  {
    Item(|Piece(c)|, if c.Whole? then Some(c.page.granule) else None)
  }

  ghost function Items(chunks: seq<Chunk>): (items: seq<Item>)
    requires forall i :: 0 <= i < |chunks| ==> ChunkOk(chunks[i])
  {
    if chunks == [] then [] else [ItemOf(chunks[0])] + Items(chunks[1..])
  }

  lemma {:induction false} ItemsAt(chunks: seq<Chunk>, i: nat)
    requires i < |chunks| && forall i :: 0 <= i < |chunks| ==> ChunkOk(chunks[i])
    ensures |Items(chunks)| == |chunks| && Items(chunks)[i].granule == if chunks[i].Whole?
        then Some(chunks[i].page.granule) else None
  {
    if |chunks| > 1 { ItemsAt(chunks[1..], if i > 0 then i - 1 else 0); }
  }

  lemma FitsCons(data: seq<Byte>, pos: nat, item: Item, items: seq<Item>)
    requires ItemFits(data, pos, item) && Fits(data, pos + item.length, items)
    ensures Fits(data, pos, [item] + items)
  {
    assert ([item] + items)[1..] == items;
  }

  lemma ChunkFits(data: seq<Byte>, pos: nat, c: Chunk, after: seq<Byte>)
    requires pos <= |data| && ChunkOk(c) && data[pos..] == Piece(c) + after
    requires c.Noise? ==> forall i :: 0 <= i < |c.bytes| ==> !MarkAt(data[pos..], i)
    ensures ItemFits(data, pos, ItemOf(c))
  {
    match c
    case Whole(p) => EncodedPageAt(data, pos, p, after);
    case Noise(b) =>
      forall i | pos <= i < pos + |b| ensures !MarkAt(data, i) {
        assert !MarkAt(data[pos..], i - pos);
        assert i + 4 <= |data| ==> data[i..i + 4] == data[pos..][i - pos..i - pos + 4];
      }
  }

  lemma {:induction false} ChunksFit(data: seq<Byte>, pos: nat, chunks: seq<Chunk>)
    requires Clean(chunks) && pos <= |data| && data[pos..] == Bytes(chunks)
    ensures Fits(data, pos, Items(chunks))
    decreases |chunks|
  {
    if chunks != [] {
      var after := Bytes(chunks[1..]);
      ChunkFits(data, pos, chunks[0], after);
      var item := ItemOf(chunks[0]);
      RestAfter(data, pos, Piece(chunks[0]), after);
      ChunksFit(data, pos + item.length, chunks[1..]);
      FitsCons(data, pos, item, Items(chunks[1..]));
    }
  }

  lemma RestAfter(data: seq<Byte>, pos: nat, piece: seq<Byte>, after: seq<Byte>)
    requires pos <= |data| && data[pos..] == piece + after
    ensures pos + |piece| <= |data| && data[pos + |piece|..] == after
  {
    assert data[pos + |piece|..] == data[pos..][|piece|..];
  }

  /**
   On every stream of well-formed pages, whatever lies between them as long as no page mark starts
   there, the scan finds the start of every page and returns the largest granule position or 0.
   */
  lemma ScanFindsEveryPage(chunks: seq<Chunk>)
    requires Clean(chunks)
    ensures var last := Scan(Bytes(chunks), 0, 0);
            && last >= 0
            && (forall i :: 0 <= i < |chunks| && chunks[i].Whole? ==> last >= chunks[i].page.granule)
            && (last == 0 || exists i :: 0 <= i < |chunks| && chunks[i].Whole? && chunks[i].page.granule == last)
  {
    var data, items := Bytes(chunks), Items(chunks);
    assert data[0..] == data;
    ChunksFit(data, 0, chunks);
    ScanItems(data, 0, items, 0);
    LargestIsMaximum(items, 0);
    forall i | 0 <= i < |chunks| && chunks[i].Whole? ensures Largest(items, 0) >= chunks[i].page.granule {
      ItemsAt(chunks, i);
    }
    if i :| 0 <= i < |items| && items[i].granule == Some(Largest(items, 0)) {
      assert chunks != [];
      ItemsAt(chunks, 0);
      ItemsAt(chunks, i);
    }
  }
}
