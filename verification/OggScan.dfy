/** The Opus duration scanner: it walks the pages of an Ogg stream (the page format of
    section 6 of RFC 3533), resynchronising byte by byte, and keeps the largest granule
    position.  The reader is a byte sequence with a position. */
module OggScan {

  type Byte = x: int | 0 <= x < 256

  const HEADER := 27
  const CAPTURE: seq<Byte> := [0x4F, 0x67, 0x67, 0x53] // "OggS"
  const TWO_TO_THE_63 := 0x8000_0000_0000_0000
  const TWO_TO_THE_64 := 0x1_0000_0000_0000_0000

  function Max(a: int, b: int): int {
    if a > b then a else b
  }

  function Sum(s: seq<Byte>): nat {
    if s == [] then 0 else s[0] + Sum(s[1..])
  }

  /** binary.LittleEndian */
  function FromLittleEndian(s: seq<Byte>): nat {
    if s == [] then 0 else s[0] + 256 * FromLittleEndian(s[1..])
  }

  function ToLittleEndian(u: nat, n: nat): (s: seq<Byte>)
    ensures |s| == n
  {
    if n == 0 then [] else [u % 256] + ToLittleEndian(u / 256, n - 1)
  }

  function Pow256(n: nat): nat {
    if n == 0 then 1 else 256 * Pow256(n - 1)
  }

  lemma {:induction false} LittleEndianRoundTrip(u: nat, n: nat)
    requires u < Pow256(n)
    ensures FromLittleEndian(ToLittleEndian(u, n)) == u
  {
    if n > 0 {
      LittleEndianRoundTrip(u / 256, n - 1);
    }
  }

  /** int64(uint64) */
  function Signed(u: nat): int {
    if u % TWO_TO_THE_64 < TWO_TO_THE_63 then u % TWO_TO_THE_64 else u % TWO_TO_THE_64 - TWO_TO_THE_64
  }

  function Unsigned(i: int): nat
    requires -TWO_TO_THE_63 <= i < TWO_TO_THE_63
  {
    if i < 0 then i + TWO_TO_THE_64 else i
  }

  // ---------- the scanner ----------

  /** Granule positions count samples at 48 kHz. */
  function Duration(granulePos: int): real {
    granulePos as real / 48000.0
  }

  function Suffix(data: seq<Byte>, pos: nat): seq<Byte> {
    if pos <= |data| then data[pos..] else []
  }

  /** The capture pattern begins at offset `i`. */
  predicate StartsPage(rest: seq<Byte>, i: nat) {
    && i + 4 <= |rest|
    && rest[i] == CAPTURE[0] && rest[i + 1] == CAPTURE[1] && rest[i + 2] == CAPTURE[2] && rest[i + 3] == CAPTURE[3]
  }

  function Granule(rest: seq<Byte>): int
    requires |rest| >= HEADER
  {
    Signed(FromLittleEndian(rest[6..14]))
  }

  /** The largest granule position from here on, `total` being the largest so far. */
  function Scan(rest: seq<Byte>, total: int): int
    decreases |rest|
  {
    if |rest| < HEADER then total
    else if !StartsPage(rest, 0) then Scan(rest[1..], total)
    else
      var total' := Max(total, Granule(rest));
      var n := rest[26];
      if |rest| < HEADER + n then total'
      else Scan(Suffix(rest, HEADER + n + Sum(rest[HEADER..HEADER + n])), total')
  }

  lemma SuffixOfSuffix(data: seq<Byte>, pos: nat, k: nat)
    ensures Suffix(Suffix(data, pos), k) == Suffix(data, pos + k)
  {
  }

  /** An io.ReadSeeker over bytes already at hand. */
  class Reader {
    const data: seq<Byte>
    var pos: nat

    constructor (data: seq<Byte>)
      ensures this.data == data && pos == 0
    {
      this.data := data;
      pos := 0;
    }

    /** Reads up to `limit` bytes; nothing at the end of the data. */
    method Read(limit: nat) returns (buf: seq<Byte>)
      modifies this
      ensures var rest := Suffix(data, old(pos));
        buf == if |rest| < limit then rest else rest[..limit]
      ensures pos == old(pos) + |buf|
    {
      var rest := Suffix(data, pos);
      buf := if |rest| < limit then rest else rest[..limit];
      pos := pos + |buf|;
    }

    method SeekStart()
      modifies this
      ensures pos == 0
    {
      pos := 0;
    }

    /** Seeks relative to the current position; seeking past the end is allowed. */
    method SeekBy(offset: int)
      requires pos + offset >= 0
      modifies this
      ensures pos == old(pos) + offset
    {
      pos := pos + offset;
    }
  }

  /** What one iteration does: finish with a result, or go on at a later offset. */
  datatype Progress = More(rest: seq<Byte>, total: int) | Finished(total: int)

  function Advance(rest: seq<Byte>, total: int): Progress {
    if |rest| < HEADER then Finished(total)
    else if !StartsPage(rest, 0) then More(rest[1..], total)
    else if |rest| < HEADER + rest[26] then Finished(Max(total, Granule(rest)))
    else More(Suffix(rest, HEADER + rest[26] + Sum(rest[HEADER..HEADER + rest[26]])), Max(total, Granule(rest)))
  }

  /** Iterating to the end is scanning. */
  lemma ScanAdvances(rest: seq<Byte>, total: int)
    ensures Scan(rest, total) ==
      match Advance(rest, total)
      case More(rest', total') => Scan(rest', total')
      case Finished(total') => total'
  {
  }

  /** Reads the segment table and seeks past the page's data; fails when the table is cut off. */
  method SkipPayload(r: Reader, numSegments: Byte, ghost rest: seq<Byte>) returns (ok: bool)
    requires |rest| >= HEADER && rest[26] == numSegments && Suffix(r.data, r.pos) == Suffix(rest, HEADER)
    modifies r
    ensures ok <==> |rest| >= HEADER + numSegments
    ensures r.pos >= old(r.pos)
    ensures ok ==>
      Suffix(r.data, r.pos) == Suffix(rest, HEADER + numSegments + Sum(rest[HEADER..HEADER + numSegments]))
  {
    ghost var start := r.pos;
    var segmentTable := r.Read(numSegments);
    if |segmentTable| < numSegments { // io.ReadFull fails
      return false;
    }
    SegmentsRead(rest, segmentTable, numSegments);
    var pageSize := AddUp(segmentTable);
    r.SeekBy(pageSize);
    SuffixOfSuffix(r.data, start, numSegments + pageSize);
    SuffixOfSuffix(rest, HEADER, numSegments + pageSize);
    return true;
  }

  /** Counts the page whose header was read and skips the rest of it. */
  method CountPage(r: Reader, buf: seq<Byte>, totalGranulePos: int, ghost rest: seq<Byte>)
    returns (more: bool, newTotal: int)
    requires |rest| >= HEADER && StartsPage(rest, 0) && buf == rest[..HEADER]
    requires Suffix(r.data, r.pos) == Suffix(rest, HEADER)
    modifies r
    ensures r.pos >= old(r.pos)
    ensures Advance(rest, totalGranulePos) == if more then More(Suffix(r.data, r.pos), newTotal) else Finished(newTotal)
  {
    HeaderRead(rest, buf);
    newTotal := totalGranulePos;
    var granulePos := Granule(buf);
    if granulePos > newTotal {
      newTotal := granulePos;
    }
    more := SkipPayload(r, buf[26], rest);
  }

  /** The loop body: reads a header, resynchronises or counts the page and skips it.
      The read position moves forward whenever the loop goes on. */
  method ScanStep(r: Reader, totalGranulePos: int, ghost rest: seq<Byte>) returns (more: bool, newTotal: int)
    requires rest == Suffix(r.data, r.pos)
    modifies r
    ensures more ==> r.pos > old(r.pos)
    ensures Advance(rest, totalGranulePos) == if more then More(Suffix(r.data, r.pos), newTotal) else Finished(newTotal)
  {
    ghost var start := r.pos;
    var buf := r.Read(HEADER);
    if |buf| == 0 { // end of file
      return false, totalGranulePos;
    }
    if |buf| < HEADER {
      return false, totalGranulePos;
    }
    HeaderRead(rest, buf);
    if !StartsPage(buf, 0) {
      r.SeekBy(-26);
      SuffixOfSuffix(r.data, start, 1);
      return true, totalGranulePos;
    }
    SuffixOfSuffix(r.data, start, HEADER);
    more, newTotal := CountPage(r, buf, totalGranulePos, rest);
  }

  /** The duration in seconds, at 48000 samples a second.  On a stream of pages, with quiet
      bytes before, between and after them, it is that of the largest granule position, or
      zero when none is positive; on pages cut off at byte `k`, that of the largest one whose
      27 header bytes arrived. */
  method GetOpusDuration(r: Reader) returns (duration: real)
    modifies r
    ensures duration * 48000.0 == Scan(r.data, 0) as real
    ensures forall items: seq<Item>, tail: seq<Byte> ::
      AllWellFormed(items) && Quiet(items, tail) && r.data == Stream(items, tail) ==>
      && duration >= 0.0
      && (forall i :: 0 <= i < |items| ==> items[i].page.granule as real <= duration * 48000.0)
      && (duration == 0.0 || exists i :: 0 <= i < |items| && items[i].page.granule as real == duration * 48000.0)
    ensures forall pages: seq<Page>, k: nat ::
      AllPages(pages) && k <= |Pages(pages)| && r.data == Pages(pages)[..k] ==>
      && duration >= 0.0
      && (forall i :: 0 <= i < |pages| && Arrived(pages, i, k) ==>
            pages[i].granule as real <= duration * 48000.0)
      && (duration == 0.0
          || exists i :: 0 <= i < |pages| && Arrived(pages, i, k) && pages[i].granule as real == duration * 48000.0)
  {
    r.SeekStart();
    var totalGranulePos, more := 0, true;
    while more
      invariant more ==> Scan(Suffix(r.data, r.pos), totalGranulePos) == Scan(r.data, 0)
      invariant !more ==> totalGranulePos == Scan(r.data, 0)
      decreases more, |r.data| - r.pos
    {
      ghost var rest := Suffix(r.data, r.pos);
      ScanAdvances(rest, totalGranulePos);
      more, totalGranulePos := ScanStep(r, totalGranulePos, rest);
    }
    duration := Duration(totalGranulePos);
    SecondsOfStreams(r.data, duration);
    SecondsOfCutStreams(r.data, duration);
  }

  lemma HeaderRead(rest: seq<Byte>, buf: seq<Byte>)
    requires |rest| >= HEADER && buf == rest[..HEADER]
    ensures StartsPage(rest, 0) <==> StartsPage(buf, 0)
    ensures Granule(rest) == Granule(buf) && rest[26] == buf[26]
  {
    assert rest[6..14] == buf[6..14];
  }

  lemma SegmentsRead(rest: seq<Byte>, table: seq<Byte>, n: nat)
    requires |rest| >= HEADER && |table| == n
    requires var more := Suffix(rest, HEADER); table == if |more| < n then more else more[..n]
    ensures |rest| >= HEADER + n && rest[HEADER..HEADER + n] == table
  {
  }

  method AddUp(segmentTable: seq<Byte>) returns (pageSize: nat)
    ensures pageSize == Sum(segmentTable)
  {
    pageSize := 0;
    for i := 0 to |segmentTable|
      invariant pageSize + Sum(segmentTable[i..]) == Sum(segmentTable)
    {
      assert segmentTable[i..][1..] == segmentTable[i + 1..];
      pageSize := pageSize + segmentTable[i];
    }
  }

  // ---------- pages ----------

  datatype Page = Page(
    version: Byte, headerType: Byte, granule: int, serial: seq<Byte>, sequence: seq<Byte>,
    checksum: seq<Byte>, segments: seq<Byte>, body: seq<Byte>)

  predicate WellFormed(p: Page) {
    && -TWO_TO_THE_63 <= p.granule < TWO_TO_THE_63
    && |p.serial| == 4 && |p.sequence| == 4 && |p.checksum| == 4
    && |p.segments| <= 255 && |p.body| == Sum(p.segments)
  }

  function Header(p: Page): (h: seq<Byte>)
    requires WellFormed(p)
    ensures |h| == HEADER
  {
    CAPTURE + [p.version, p.headerType] + ToLittleEndian(Unsigned(p.granule), 8)
      + p.serial + p.sequence + p.checksum + [|p.segments|]
  }

  function Encode(p: Page): seq<Byte>
    requires WellFormed(p)
  {
    Header(p) + p.segments + p.body
  }

  lemma {:induction false} SumOfMore(s: seq<Byte>, b: Byte)
    ensures Sum([]) == 0 && Sum(s + [b]) == Sum(s) + b
  {
    if s != [] {
      assert (s + [b])[1..] == s[1..] + [b];
      SumOfMore(s[1..], b);
    } else {
      assert ([] + [b])[1..] == [];
    }
  }

  lemma EightBytes(u: nat)
    requires u < TWO_TO_THE_64
    ensures var b: seq<int> := ToLittleEndian(u, 8);
      u == b[0] + 0x100 * b[1] + 0x1_0000 * b[2] + 0x100_0000 * b[3] + 0x1_0000_0000 * b[4]
           + 0x100_0000_0000 * b[5] + 0x1_0000_0000_0000 * b[6] + 0x100_0000_0000_0000 * b[7]
  {
    var u1 := u / 0x100;
    var u2 := u1 / 0x100;
    var u3 := u2 / 0x100;
    var u4 := u3 / 0x100;
    var u5 := u4 / 0x100;
    var u6 := u5 / 0x100;
    var u7 := u6 / 0x100;
    assert ToLittleEndian(u, 8) == [u % 256] + ToLittleEndian(u1, 7);
    assert ToLittleEndian(u1, 7) == [u1 % 256] + ToLittleEndian(u2, 6);
    assert ToLittleEndian(u2, 6) == [u2 % 256] + ToLittleEndian(u3, 5);
    assert ToLittleEndian(u3, 5) == [u3 % 256] + ToLittleEndian(u4, 4);
    assert ToLittleEndian(u4, 4) == [u4 % 256] + ToLittleEndian(u5, 3);
    assert ToLittleEndian(u5, 3) == [u5 % 256] + ToLittleEndian(u6, 2);
    assert ToLittleEndian(u6, 2) == [u6 % 256] + ToLittleEndian(u7, 1);
    assert ToLittleEndian(u7, 1) == [u7 % 256] + ToLittleEndian(u7 / 256, 0);
  }

  /** The bytes of a page as section 6 of RFC 3533 lays them out. */
  lemma PageBytes(p: Page)
    requires WellFormed(p)
    ensures var e: seq<int> := Encode(p);
      && |e| == 27 + |p.segments| + Sum(p.segments)
      && e[..4] == [0x4F, 0x67, 0x67, 0x53] && e[26] == |p.segments| && e[27..27 + |p.segments|] == p.segments
      && e[6] + 0x100 * e[7] + 0x1_0000 * e[8] + 0x100_0000 * e[9] + 0x1_0000_0000 * e[10]
           + 0x100_0000_0000 * e[11] + 0x1_0000_0000_0000 * e[12] + 0x100_0000_0000_0000 * e[13]
         == if p.granule < 0 then p.granule + 0x1_0000_0000_0000_0000 else p.granule
  {
    var e := Encode(p);
    EightBytes(Unsigned(p.granule));
    assert e[6..14] == ToLittleEndian(Unsigned(p.granule), 8);
    assert forall i :: 0 <= i < 8 ==> e[6 + i] == e[6..14][i];
    assert e[27..27 + |p.segments|] == p.segments;
  }

  /** Reading a page's header gives back its granule position and segment count. */
  lemma HeaderFields(p: Page, more: seq<Byte>)
    requires WellFormed(p)
    ensures var rest := Header(p) + more;
      StartsPage(rest, 0) && Granule(rest) == p.granule && rest[26] == |p.segments|
  {
    var rest := Header(p) + more;
    var u := Unsigned(p.granule);
    assert rest[0..4] == CAPTURE;
    assert rest[6..14] == ToLittleEndian(u, 8);
    assert Pow256(8) == TWO_TO_THE_64 by {
      assert Pow256(2) == 0x1_0000 && Pow256(4) == 0x1_0000_0000;
    }
    LittleEndianRoundTrip(u, 8);
  }

  /** The scanner steps over a whole page, to its very end. */
  lemma ScanPage(p: Page, rest: seq<Byte>, total: int)
    requires WellFormed(p)
    ensures Scan(Encode(p) + rest, total) == Scan(rest, Max(total, p.granule))
  {
    var n := |p.segments|;
    var whole := Encode(p) + rest;
    assert whole == Header(p) + (p.segments + p.body + rest);
    HeaderFields(p, p.segments + p.body + rest);
    assert whole[HEADER..HEADER + n] == p.segments;
    assert Suffix(whole, HEADER + n + Sum(p.segments)) == rest;
  }

  /** A page cut off in its header is ignored; one cut off later still counts. */
  lemma ScanCutPage(p: Page, k: nat, total: int)
    requires WellFormed(p) && k < |Encode(p)|
    ensures Scan(Encode(p)[..k], total) == if k < HEADER then total else Max(total, p.granule)
  {
    if k >= HEADER {
      var n := |p.segments|;
      var part := Encode(p)[..k];
      var more := (p.segments + p.body)[..k - HEADER];
      assert part == Header(p) + more;
      HeaderFields(p, more);
      if |part| >= HEADER + n {
        var body := p.body[..k - HEADER - n];
        assert more == p.segments + body;
        assert (Header(p) + (p.segments + body))[HEADER..HEADER + n] == p.segments;
        assert Suffix(part, HEADER + n + Sum(p.segments)) == [];
      }
    }
  }

  // ---------- streams ----------

  /** A page preceded by bytes that belong to no page. */
  datatype Item = Item(gap: seq<Byte>, page: Page)

  predicate AllWellFormed(items: seq<Item>) {
    forall i :: 0 <= i < |items| ==> WellFormed(items[i].page)
  }

  function Stream(items: seq<Item>, tail: seq<Byte>): seq<Byte>
    requires AllWellFormed(items)
  {
    if items == [] then tail else items[0].gap + (Encode(items[0].page) + Stream(items[1..], tail))
  }

  /** No capture pattern begins in a gap or in the tail. */
  predicate Quiet(items: seq<Item>, tail: seq<Byte>)
    requires AllWellFormed(items)
  {
    if items == [] then forall i: nat :: i < |tail| ==> !StartsPage(tail, i)
    else
      && (forall i: nat :: i < |items[0].gap| ==> !StartsPage(Stream(items, tail), i))
      && Quiet(items[1..], tail)
  }

  /** The maximum of `total` and all granule positions. */
  function Largest(items: seq<Item>, total: int): int {
    if items == [] then total else Largest(items[1..], Max(total, items[0].page.granule))
  }

  lemma Shift(s: seq<Byte>, i: nat)
    requires s != []
    ensures StartsPage(s[1..], i) <==> StartsPage(s, i + 1)
  {
  }

  lemma {:induction false} SkipGap(gap: seq<Byte>, rest: seq<Byte>, total: int)
    requires |rest| >= HEADER || rest == []
    requires forall i: nat :: i < |gap| ==> !StartsPage(gap + rest, i)
    ensures Scan(gap + rest, total) == Scan(rest, total)
    decreases |gap|
  {
    var whole := gap + rest;
    if gap == [] {
      assert whole == rest;
    } else if |whole| >= HEADER {
      var gap' := gap[1..];
      assert whole[1..] == gap' + rest;
      forall i: nat | i < |gap'|
        ensures !StartsPage(gap' + rest, i)
      {
        assert !StartsPage(whole, i + 1);
        Shift(whole, i);
      }
      assert !StartsPage(whole, 0);
      SkipGap(gap', rest, total);
    }
  }

  /** For every stream of well-formed pages, with any bytes before, between and after
      them in which no capture pattern begins, the scanner meets exactly the pages. */
  lemma {:induction false} ScanStream(items: seq<Item>, tail: seq<Byte>, total: int)
    requires AllWellFormed(items) && Quiet(items, tail)
    ensures Scan(Stream(items, tail), total) == Largest(items, total)
    decreases |items|
  {
    if items == [] {
      assert tail + [] == tail;
      SkipGap(tail, [], total);
    } else {
      var page := items[0].page;
      var rest := Stream(items[1..], tail);
      assert Stream(items, tail) == items[0].gap + (Encode(page) + rest);
      SkipGap(items[0].gap, Encode(page) + rest, total);
      ScanPage(page, rest, total);
      ScanStream(items[1..], tail, Max(total, page.granule));
    }
  }

  lemma {:induction false} LargestIsMaximum(items: seq<Item>, total: int)
    ensures Largest(items, total) >= total
    ensures forall i :: 0 <= i < |items| ==> Largest(items, total) >= items[i].page.granule
    ensures Largest(items, total) == total
      || exists i :: 0 <= i < |items| && Largest(items, total) == items[i].page.granule
    decreases |items|
  {
    if items != [] {
      var total' := Max(total, items[0].page.granule);
      LargestIsMaximum(items[1..], total');
      assert forall i :: 0 <= i < |items| ==> items[i] == if i == 0 then items[0] else items[1..][i - 1];
      if Largest(items, total) != total && Largest(items, total) != items[0].page.granule {
        var j :| 0 <= j < |items[1..]| && Largest(items[1..], total') == items[1..][j].page.granule;
        assert items[j + 1] == items[1..][j];
      }
    }
  }

  /** What such a stream is measured by: its largest granule position, or zero when no
      granule position is positive. */
  lemma DurationOfStream(items: seq<Item>, tail: seq<Byte>)
    requires AllWellFormed(items) && Quiet(items, tail)
    ensures var best := Scan(Stream(items, tail), 0);
      && best >= 0
      && (forall i :: 0 <= i < |items| ==> best >= items[i].page.granule)
      && (best == 0 || exists i :: 0 <= i < |items| && best == items[i].page.granule)
  {
    ScanStream(items, tail, 0);
    LargestIsMaximum(items, 0);
  }

  lemma SecondsOfStreams(data: seq<Byte>, duration: real)
    requires duration * 48000.0 == Scan(data, 0) as real
    ensures forall items: seq<Item>, tail: seq<Byte> ::
      AllWellFormed(items) && Quiet(items, tail) && data == Stream(items, tail) ==>
      && duration >= 0.0
      && (forall i :: 0 <= i < |items| ==> items[i].page.granule as real <= duration * 48000.0)
      && (duration == 0.0 || exists i :: 0 <= i < |items| && items[i].page.granule as real == duration * 48000.0)
  {
    forall items: seq<Item>, tail: seq<Byte> | AllWellFormed(items) && Quiet(items, tail) {
      DurationOfStream(items, tail);
    }
  }

  // ---------- streams cut off anywhere ----------

  predicate AllPages(pages: seq<Page>) {
    forall i :: 0 <= i < |pages| ==> WellFormed(pages[i])
  }

  function Pages(pages: seq<Page>): seq<Byte>
    requires AllPages(pages)
  {
    if pages == [] then [] else Encode(pages[0]) + Pages(pages[1..])
  }

  /** The largest granule among the pages whose header lies within the first `k` bytes. */
  function LargestWithin(pages: seq<Page>, k: int, total: int): int
    requires AllPages(pages)
  {
    if pages == [] || k < HEADER then total
    else LargestWithin(pages[1..], k - |Encode(pages[0])|, Max(total, pages[0].granule))
  }

  /** A download broken off at any byte is measured by the pages whose header arrived. */
  lemma {:induction false} ScanCutStream(pages: seq<Page>, k: nat, total: int)
    requires AllPages(pages)
    requires k <= |Pages(pages)|
    ensures Scan(Pages(pages)[..k], total) == LargestWithin(pages, k, total)
    decreases |pages|
  {
    if pages != [] {
      var first, rest := Encode(pages[0]), Pages(pages[1..]);
      if k < |first| {
        assert Pages(pages)[..k] == first[..k];
        ScanCutPage(pages[0], k, total);
      } else {
        assert Pages(pages)[..k] == first + rest[..k - |first|];
        ScanPage(pages[0], rest[..k - |first|], total);
        ScanCutStream(pages[1..], k - |first|, Max(total, pages[0].granule));
      }
    }
  }

  /** The 27 header bytes of the page lie within the first `k` bytes. */
  predicate Arrived(pages: seq<Page>, i: nat, k: int)
    requires AllPages(pages) && i < |pages|
  {
    |Pages(pages[..i])| + 27 <= k
  }

  /** Where a page after the first begins. */
  lemma PageOffset(pages: seq<Page>, i: nat)
    requires AllPages(pages) && 0 < i <= |pages|
    ensures |Pages(pages[..i])| == |Encode(pages[0])| + |Pages(pages[1..][..i - 1])|
  {
    assert pages[..i][1..] == pages[1..][..i - 1];
  }

  /** That is the largest granule position of the pages whose header arrived. */
  lemma {:induction false} WithinIsMaximum(pages: seq<Page>, k: int, total: int)
    requires AllPages(pages)
    ensures var best := LargestWithin(pages, k, total);
      && best >= total
      && (forall i :: 0 <= i < |pages| && Arrived(pages, i, k) ==> pages[i].granule <= best)
      && (best == total || exists i :: 0 <= i < |pages| && Arrived(pages, i, k) && pages[i].granule == best)
    decreases |pages|
  {
    if pages != [] && k >= HEADER {
      var rest, total' := pages[1..], Max(total, pages[0].granule);
      var k' := k - |Encode(pages[0])|;
      WithinIsMaximum(rest, k', total');
      assert pages[..0] == [];
      forall i | 0 < i < |pages|
        ensures Arrived(pages, i, k) <==> Arrived(rest, i - 1, k')
        ensures pages[i] == rest[i - 1]
      {
        PageOffset(pages, i);
      }
      var best := LargestWithin(pages, k, total);
      if best != total && best != pages[0].granule {
        var j :| 0 <= j < |rest| && Arrived(rest, j, k') && rest[j].granule == best;
        assert pages[j + 1] == rest[j] && Arrived(pages, j + 1, k);
      }
    }
  }

  lemma DurationOfCut(pages: seq<Page>, k: nat)
    requires AllPages(pages) && k <= |Pages(pages)|
    ensures var best := Scan(Pages(pages)[..k], 0);
      && best >= 0
      && (forall i :: 0 <= i < |pages| && Arrived(pages, i, k) ==> pages[i].granule <= best)
      && (best == 0 || exists i :: 0 <= i < |pages| && Arrived(pages, i, k) && pages[i].granule == best)
  {
    ScanCutStream(pages, k, 0);
    WithinIsMaximum(pages, k, 0);
  }

  lemma SecondsOfCutStreams(data: seq<Byte>, duration: real)
    requires duration * 48000.0 == Scan(data, 0) as real
    ensures forall pages: seq<Page>, k: nat ::
      AllPages(pages) && k <= |Pages(pages)| && data == Pages(pages)[..k] ==>
      && duration >= 0.0
      && (forall i :: 0 <= i < |pages| && Arrived(pages, i, k) ==>
            pages[i].granule as real <= duration * 48000.0)
      && (duration == 0.0
          || exists i :: 0 <= i < |pages| && Arrived(pages, i, k) && pages[i].granule as real == duration * 48000.0)
  {
    forall pages: seq<Page>, k: nat | AllPages(pages) && k <= |Pages(pages)| {
      DurationOfCut(pages, k);
    }
  }
}
