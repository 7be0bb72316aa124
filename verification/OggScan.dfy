/** The Ogg page scan that finds an Opus file's length: the file position, the page header, and the
    largest granule position seen. Page layout is section 6 of RFC 3533; granule positions count 48 kHz
    samples, section 4 of RFC 7845.
 */
module OggScan {
  import opened Basics

  const HEADER_SIZE := 27
  const SAMPLE_RATE := 48000.0
  const TWO_63: int := 9223372036854775808
  const TWO_64: int := 18446744073709551616

  /** The capture pattern, "OggS". */
  function Capture(): seq<byte> {
    [0x4F, 0x67, 0x67, 0x53]
  }

  function LittleEndian(bs: seq<byte>): nat {
    if bs == [] then 0 else bs[0] + 256 * LittleEndian(bs[1..])
  }

  /** The two's complement reading of 64 bits. */
  function Signed(n: nat): int {
    if n >= TWO_63 then n - TWO_64 else n
  }

  function Sum(bs: seq<byte>): nat {
    if bs == [] then 0 else bs[0] + Sum(bs[1..])
  }

  function GranuleAt(data: seq<byte>, pos: nat): int
    requires pos + HEADER_SIZE <= |data|
  {
    Signed(LittleEndian(data[pos + 6..pos + 14]))
  }

  predicate CaptureAt(data: seq<byte>, pos: nat) {
    pos + 4 <= |data| && data[pos..pos + 4] == Capture()
  }

  function Max(a: int, b: int): int {
    if a > b then a else b
  }

  /** What the scan does at a file position: end on a short read, move by one byte when there is no page,
      move past a whole page, or end in one whose segment table is cut short. */
  datatype Move = End | Skip | Whole(granule: int, next: nat) | CutShort(granule: int)

  function MoveAt(data: seq<byte>, pos: nat): (m: Move)
    ensures m.End? <==> pos + HEADER_SIZE > |data|
    ensures m.Whole? ==> m.next > pos
  {
    if pos + HEADER_SIZE > |data| then End
    else if !CaptureAt(data, pos) then Skip
    else
      var table := pos + HEADER_SIZE + data[pos + 26];
      if table > |data| then CutShort(GranuleAt(data, pos))
      else Whole(GranuleAt(data, pos), table + Sum(data[pos + HEADER_SIZE..table]))
  }

  /** The largest granule position the scan meets from a file position on. */
  function ScanFrom(data: seq<byte>, pos: nat, best: int): (r: int)
    ensures r >= best
    decreases |data| - pos
  {
    match MoveAt(data, pos)
    case End => best
    case Skip => ScanFrom(data, pos + 1, best)
    case Whole(granule, next) => ScanFrom(data, next, Max(best, granule))
    case CutShort(granule) => Max(best, granule)
  }

  /** Where the scan finds page headers. */
  function Stops(data: seq<byte>, pos: nat): seq<nat>
    decreases |data| - pos
  {
    match MoveAt(data, pos)
    case End => []
    case Skip => Stops(data, pos + 1)
    case Whole(_, next) => [pos] + Stops(data, next)
    case CutShort(_) => [pos]
  }

  /** The loop over the file: every turn moves the position forward, so it ends on any bytes. */
  method OpusDuration(data: seq<byte>) returns (seconds: real, granules: int, pages: seq<nat>)
    ensures granules == ScanFrom(data, 0, 0) && pages == Stops(data, 0)
    ensures seconds == granules as real / SAMPLE_RATE
  {
    hide MoveAt, LittleEndian, Sum, Capture;
    granules, pages := 0, [];
    var pos := 0;
    while true
      invariant pos >= 0
      invariant ScanFrom(data, pos, granules) == ScanFrom(data, 0, 0)
      invariant pages + Stops(data, pos) == Stops(data, 0)
      decreases |data| - pos
    {
      if pos + HEADER_SIZE > |data| {
        break;
      }
      MoveByHeader(data, pos);
      var buf := data[pos..pos + HEADER_SIZE];
      pos := pos + HEADER_SIZE;
      if buf[..4] != Capture() {
        pos := pos - 26;
        continue;
      }
      pages := pages + [pos - HEADER_SIZE];
      var granule := Signed(LittleEndian(buf[6..14]));
      if granule > granules {
        granules := granule;
      }
      var segments := buf[26];
      if pos + segments > |data| {
        break;
      }
      var pageSize := PayloadSize(data[pos..pos + segments]);
      pos := pos + segments + pageSize;
    }
    seconds := granules as real / SAMPLE_RATE;
  }

  method PayloadSize(table: seq<byte>) returns (size: nat)
    ensures size == Sum(table)
  {
    size := 0;
    var i := |table|;
    while i > 0
      invariant 0 <= i <= |table|
      invariant size == Sum(table[i..])
    {
      i := i - 1;
      assert table[i..][1..] == table[i + 1..];
      size := size + table[i];
    }
    assert table[0..] == table;
  }

  /** The move, read off the 27 header bytes. */
  lemma MoveByHeader(data: seq<byte>, pos: nat)
    requires pos + HEADER_SIZE <= |data|
    ensures
      var buf := data[pos..pos + HEADER_SIZE];
      var next := pos + HEADER_SIZE;
      MoveAt(data, pos) ==
      if buf[..4] != Capture() then Skip
      else if next + buf[26] > |data| then CutShort(Signed(LittleEndian(buf[6..14])))
      else Whole(Signed(LittleEndian(buf[6..14])), next + buf[26] + Sum(data[next..next + buf[26]]))
  {
    hide LittleEndian, Sum, Capture;
    var buf := data[pos..pos + HEADER_SIZE];
    assert buf[..4] == data[pos..pos + 4];
    var a, b := buf[6..14], data[pos + 6..pos + 14];
    assert forall i :: 0 <= i < 8 ==> a[i] == buf[i + 6] == data[pos + 6 + i] == b[i];
    assert a == b;
  }

  // ---------------------------------------------------------------------------
  // Well-formed pages
  // ---------------------------------------------------------------------------

  /** A page: version and flags, granule position, twelve bytes of serial number, sequence number and
      checksum, the segment table and the payload it describes. */
  datatype Page = Page(version: byte, flags: byte, granule: int, ids: seq<byte>, table: seq<byte>, payload: seq<byte>)

  predicate WellFormed(p: Page) {
    -TWO_63 <= p.granule < TWO_63 && |p.ids| == 12 && |p.table| < 256 && |p.payload| == Sum(p.table)
  }

  function Power(k: nat): nat {
    if k == 0 then 1 else 256 * Power(k - 1)
  }

  function ToLittleEndian(n: nat, k: nat): (bs: seq<byte>)
    ensures |bs| == k
  {
    if k == 0 then [] else [n % 256] + ToLittleEndian(n / 256, k - 1)
  }

  lemma {:induction false} LittleEndianRoundTrip(n: nat, k: nat)
    requires n < Power(k)
    ensures LittleEndian(ToLittleEndian(n, k)) == n
  {
    if k > 0 {
      LittleEndianRoundTrip(n / 256, k - 1);
      var bs := ToLittleEndian(n, k);
      assert bs[1..] == ToLittleEndian(n / 256, k - 1);
    }
  }

  lemma PowerOfEight()
    ensures Power(8) == TWO_64
  {
    assert Power(4) == 256 * (256 * (256 * (256 * Power(0))));
    assert Power(8) == 256 * (256 * (256 * (256 * Power(4))));
  }

  function Unsigned(g: int): int {
    if g < 0 then g + TWO_64 else g
  }

  function Header(p: Page): seq<byte>
    requires WellFormed(p)
  {
    Capture() + [p.version, p.flags] + ToLittleEndian(Unsigned(p.granule), 8) + p.ids + [|p.table|]
  }

  function Encode(p: Page): seq<byte>
    requires WellFormed(p)
  {
    Header(p) + p.table + p.payload
  }

  predicate AllWellFormed(ps: seq<Page>) {
    forall i :: 0 <= i < |ps| ==> WellFormed(ps[i])
  }

  function EncodeAll(ps: seq<Page>): seq<byte>
    requires AllWellFormed(ps)
  {
    if ps == [] then [] else Encode(ps[0]) + EncodeAll(ps[1..])
  }

  /** The largest granule position, or `best` when none is larger. */
  function Largest(ps: seq<Page>, best: int): int {
    if ps == [] then best else Largest(ps[1..], Max(best, ps[0].granule))
  }

  /** Where the pages start when the first starts at `pos`. */
  function Boundaries(pos: nat, ps: seq<Page>): seq<nat>
    requires AllWellFormed(ps)
    decreases |ps|
  {
    if ps == [] then [] else [pos] + Boundaries(pos + |Encode(ps[0])|, ps[1..])
  }

  lemma HeaderFields(p: Page)
    requires WellFormed(p)
    ensures
      var h := Header(p);
      |h| == HEADER_SIZE && h[..4] == Capture() && h[26] == |p.table| && Signed(LittleEndian(h[6..14])) == p.granule
  {
    hide LittleEndian, ToLittleEndian, Sum, Power;
    var h := Header(p);
    assert h[6..14] == ToLittleEndian(Unsigned(p.granule), 8);
    PowerOfEight();
    LittleEndianRoundTrip(Unsigned(p.granule), 8);
  }

  /** A page at the position is read whole, and the scan goes on at the byte after it. */
  lemma ScanPage(before: seq<byte>, p: Page, after: seq<byte>, best: int)
    requires WellFormed(p)
    ensures
      var data := before + Encode(p) + after;
      && |before| + HEADER_SIZE <= |data| && CaptureAt(data, |before|)
      && ScanFrom(data, |before|, best) == ScanFrom(data, |before + Encode(p)|, Max(best, p.granule))
      && Stops(data, |before|) == [|before|] + Stops(data, |before + Encode(p)|)
  {
    hide LittleEndian, Sum, Header, MoveAt, Capture;
    var pos, data := |before|, before + Encode(p) + after;
    var h, next := Header(p), |before| + HEADER_SIZE;
    HeaderFields(p);
    assert data[pos..next] == h;
    assert data[next..next + |p.table|] == p.table;
    assert data[pos..pos + 4] == h[..4];
    MoveByHeader(data, pos);
  }

  lemma {:induction false} ScanPages(before: seq<byte>, ps: seq<Page>, best: int)
    requires AllWellFormed(ps)
    ensures ScanFrom(before + EncodeAll(ps), |before|, best) == Largest(ps, best)
    ensures Stops(before + EncodeAll(ps), |before|) == Boundaries(|before|, ps)
    decreases |ps|
  {
    hide MoveAt, Encode;
    if ps == [] {
      assert before + EncodeAll(ps) == before;
    } else {
      var p, rest := ps[0], EncodeAll(ps[1..]);
      assert before + EncodeAll(ps) == before + Encode(p) + rest;
      ScanPage(before, p, rest, best);
      ScanPages(before + Encode(p), ps[1..], Max(best, p.granule));
    }
  }

  /** On any sequence of well-formed pages, with anything before them that does not read as a page, the
      scan stops exactly at the page boundaries and the result is the largest granule position that is
      not negative. */
  lemma OggScanExact(junk: seq<byte>, ps: seq<Page>)
    requires AllWellFormed(ps)
    requires forall i :: 0 <= i < |junk| ==> !CaptureAt(junk + EncodeAll(ps), i)
    ensures ScanFrom(junk + EncodeAll(ps), 0, 0) == Largest(ps, 0)
    ensures Stops(junk + EncodeAll(ps), 0) == Boundaries(|junk|, ps)
  {
    hide ScanFrom, Stops, EncodeAll, Encode, CaptureAt;
    SkipJunk(junk + EncodeAll(ps), 0, |junk|, 0);
    ScanPages(junk, ps, 0);
  }

  lemma {:induction false} SkipJunk(data: seq<byte>, pos: nat, end: nat, best: int)
    requires pos <= end <= |data|
    requires forall i :: pos <= i < end ==> !CaptureAt(data, i)
    ensures ScanFrom(data, pos, best) == ScanFrom(data, end, best) && Stops(data, pos) == Stops(data, end)
    decreases end - pos
  {
    hide CaptureAt, LittleEndian, Sum, GranuleAt;
    if pos < end {
      SkipJunk(data, pos + 1, end, best);
      if pos + HEADER_SIZE > |data| {
        assert MoveAt(data, end) == End;
      } else {
        assert MoveAt(data, pos) == Skip;
      }
    }
  }

  /** On any bytes at all, the result is zero or the granule position of something that reads as a page
      header. */
  lemma {:induction false} ScanIsSound(data: seq<byte>, pos: nat, best: int)
    ensures
      var r := ScanFrom(data, pos, best);
      r == best || exists i :: pos <= i && i + HEADER_SIZE <= |data| && CaptureAt(data, i) && GranuleAt(data, i) == r
    decreases |data| - pos
  {
    hide CaptureAt, GranuleAt, Sum;
    match MoveAt(data, pos)
    case End =>
    case Skip => ScanIsSound(data, pos + 1, best);
    case Whole(granule, next) => ScanIsSound(data, next, Max(best, granule));
    case CutShort(_) =>
  }

  lemma {:induction false} LargestIsLargest(ps: seq<Page>, best: int)
    ensures
      var r := Largest(ps, best);
      && r >= best && (forall i :: 0 <= i < |ps| ==> r >= ps[i].granule)
      && (r == best || exists i :: 0 <= i < |ps| && r == ps[i].granule)
  {
    if ps != [] {
      LargestIsLargest(ps[1..], Max(best, ps[0].granule));
      assert forall i :: 1 <= i < |ps| ==> ps[1..][i - 1] == ps[i];
    }
  }

  // ---------------------------------------------------------------------------
  // The pre-skip
  // ---------------------------------------------------------------------------

  /** "OpusHead", the start of the identification header, section 5.1 of RFC 7845. */
  function OpusMagic(): seq<byte> {
    [0x4F, 0x70, 0x75, 0x73, 0x48, 0x65, 0x61, 0x64]
  }

  /** The first page carries the identification header alone. */
  predicate IsOpusHead(p: Page) {
    |p.payload| >= 19 && p.payload[..8] == OpusMagic()
  }

  /** The number of samples to discard, in two bytes after the version and the channel count. */
  function PreSkip(p: Page): nat
    requires IsOpusHead(p)
  {
    LittleEndian(p.payload[10..12])
  }

  /** An Opus file: well-formed pages, the first one an identification header. */
  predicate OpusFile(ps: seq<Page>) {
    AllWellFormed(ps) && ps != [] && IsOpusHead(ps[0])
  }

  /** The playing time of section 4 of RFC 7845, for a stream whose samples are counted from zero: the
      last sample position less the pre-skip. */
  function PlayingTime(ps: seq<Page>): real
    requires OpusFile(ps)
  {
    (Largest(ps, 0) - PreSkip(ps[0])) as real / SAMPLE_RATE
  }

  /** On every Opus file the computed duration is the playing time iff the pre-skip is zero; otherwise it is
      too long by exactly the pre-skip. */
  lemma DurationIgnoresPreSkip(ps: seq<Page>)
    requires OpusFile(ps)
    ensures
      var computed := ScanFrom(EncodeAll(ps), 0, 0) as real / SAMPLE_RATE;
      && computed == PlayingTime(ps) + PreSkip(ps[0]) as real / SAMPLE_RATE
      && (computed == PlayingTime(ps) <==> PreSkip(ps[0]) == 0)
  {
    hide EncodeAll, Largest, LittleEndian, ScanFrom, OpusMagic;
    assert [] + EncodeAll(ps) == EncodeAll(ps);
    OggScanExact([], ps);
    var g, skip := Largest(ps, 0), PreSkip(ps[0]);
    assert (g - skip) as real == g as real - skip as real;
  }

  function Zeros(n: nat): (bs: seq<byte>)
    ensures |bs| == n
  {
    seq(n, _ => 0)
  }

  /** An identification header with a pre-skip of 480 samples. */
  function HeadPage(): Page {
    Page(0, 2, 0, Zeros(12), [19], OpusMagic() + [1, 2, 0xE0, 0x01] + Zeros(7))
  }

  /** The page on which one second of sound behind that pre-skip ends. */
  function SoundPage(): Page {
    Page(0, 4, 48480, Zeros(12), [0], [])
  }

  lemma HeadPageShape()
    ensures WellFormed(HeadPage()) && IsOpusHead(HeadPage()) && PreSkip(HeadPage()) == 480
  {
    var p := HeadPage();
    assert Sum([19]) == 19 + Sum([19][1..]);
    assert p.payload[..8] == OpusMagic();
    var field := p.payload[10..12];
    assert field == [0xE0, 0x01] && field[1..] == [0x01];
    assert LittleEndian(field) == 0xE0 + 256 * LittleEndian([0x01]);
    assert LittleEndian([0x01]) == 1 + 256 * LittleEndian([0x01][1..]);
  }

  lemma SoundPageShape()
    ensures WellFormed(SoundPage())
  {
    assert Sum([0]) == 0 + Sum([0][1..]);
  }

  lemma LargestOfTwo(a: Page, b: Page)
    ensures Largest([a, b], 0) == Max(Max(0, a.granule), b.granule)
  {
    assert [a, b][1..] == [b] && [b][1..] == [];
    assert Largest([b], Max(0, a.granule)) == Max(Max(0, a.granule), b.granule);
  }

  /** An input: one second of sound behind a pre-skip of 480 samples is reported as 1.01 seconds. */
  lemma PreSkipIsCounted()
    ensures
      var ps := [HeadPage(), SoundPage()];
      && OpusFile(ps) && PreSkip(ps[0]) == 480 && PlayingTime(ps) == 1.0
      && ScanFrom(EncodeAll(ps), 0, 0) as real / SAMPLE_RATE == 1.01
  {
    hide EncodeAll, Largest, ScanFrom, WellFormed, IsOpusHead, PreSkip;
    var ps := [HeadPage(), SoundPage()];
    HeadPageShape();
    SoundPageShape();
    LargestOfTwo(ps[0], ps[1]);
    DurationIgnoresPreSkip(ps);
  }
}
