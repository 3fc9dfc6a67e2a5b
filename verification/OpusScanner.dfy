/** getOpusDuration of common/audio.go: a scanner that walks the pages of an Ogg stream (section 6 of RFC 3533)
    and keeps the greatest granule position, which for Opus counts 48 kHz samples (section 4 of RFC 7845).
    A position without the capture pattern is skipped one byte at a time. */
module OpusScanner {

  import opened Basics

  const HEADER := 27
  const CAPTURE_PATTERN: seq<Byte> := [0x4F, 0x67, 0x67, 0x53] // "OggS"
  const SAMPLE_RATE := 48000.0

  // ---------------------------------------------------------------------------------------------------
  // Integers in pages
  // ---------------------------------------------------------------------------------------------------

  function DecodeLE(bytes: seq<Byte>): nat {
    if bytes == [] then 0 else bytes[0] + 256 * DecodeLE(bytes[1..])
  }

  function EncodeLE(n: nat, width: nat): (r: seq<Byte>)
    ensures |r| == width
  {
    if width == 0 then [] else [n % 256] + EncodeLE(n / 256, width - 1)
  }

  function Power256(n: nat): nat {
    if n == 0 then 1 else 256 * Power256(n - 1)
  }

  lemma {:induction false} LittleEndianRoundTrip(n: nat, width: nat)
    requires n < Power256(width)
    ensures DecodeLE(EncodeLE(n, width)) == n
  {
    if width > 0 {
      LittleEndianRoundTrip(n / 256, width - 1);
    }
  }

  const TWO_63 := 0x8000_0000_0000_0000
  const TWO_64 := 0x1_0000_0000_0000_0000

  /** Go's conversion of a uint64 to an int64. */
  function AsInt64(n: nat): int {
    if n >= TWO_63 then n - TWO_64 else n
  }

  function AsUint64(n: int): nat
    requires -TWO_63 <= n < TWO_63
  {
    if n < 0 then n + TWO_64 else n
  }

  // ---------------------------------------------------------------------------------------------------
  // The scanner
  // ---------------------------------------------------------------------------------------------------

  /** A page the scanner saw: where, and the granule position it read there. */
  datatype Hit = Hit(offset: nat, granule: int)

  function SegmentSum(segments: seq<Byte>): nat {
    if segments == [] then 0 else segments[0] + SegmentSum(segments[1..])
  }

  predicate HasPattern(data: seq<Byte>, pos: nat)
    requires pos + 4 <= |data|
  {
    data[pos..pos + 4] == CAPTURE_PATTERN
  }

  function GranuleAt(data: seq<Byte>, pos: nat): int
    requires pos + HEADER <= |data|
  {
    AsInt64(DecodeLE(data[pos + 6..pos + 14]))
  }

  function SegmentsAt(data: seq<Byte>, pos: nat): seq<Byte>
    requires pos + HEADER <= |data| && pos + HEADER + data[pos + 26] <= |data|
  {
    data[pos + HEADER..pos + HEADER + data[pos + 26]]
  }

  /** All pages the scanner sees from a position on. */
  function Scan(data: seq<Byte>, pos: nat): seq<Hit>
    decreases if pos <= |data| then |data| - pos else 0, 1
  {
    if pos + HEADER > |data| then []
    else if !HasPattern(data, pos) then Scan(data, pos + 1)
    else [Hit(pos, GranuleAt(data, pos))] + AfterPage(data, pos)
  }

  /** What it sees after the page at pos; nothing if the segment table is cut off. */
  function AfterPage(data: seq<Byte>, pos: nat): seq<Hit>
    requires pos + HEADER <= |data|
    decreases |data| - pos, 0
  {
    if pos + HEADER + data[pos + 26] > |data| then []
    else
      var segments := SegmentsAt(data, pos);
      Scan(data, pos + HEADER + |segments| + SegmentSum(segments))
  }

  /** The greatest of zero and the granule positions. */
  function MaxGranule(hits: seq<Hit>): int {
    MaxFrom(0, hits)
  }

  function MaxFrom(total: int, hits: seq<Hit>): int
    decreases |hits|
  {
    if hits == [] then total else MaxFrom(if hits[0].granule > total then hits[0].granule else total, hits[1..])
  }

  lemma {:induction false} HeaderParts(data: seq<Byte>, pos: nat)
    requires pos + HEADER <= |data|
    ensures var buf := data[pos..pos + HEADER];
      buf[0..4] == data[pos..pos + 4] && buf[6..14] == data[pos + 6..pos + 14] && buf[26] == data[pos + 26]
  {
    var buf := data[pos..pos + HEADER];
    forall k | 0 <= k < 8 ensures buf[6..14][k] == data[pos + 6..pos + 14][k] {
      assert buf[6 + k] == data[pos + (6 + k)];
    }
  }

  /** What the loop reads from its buffer. */
  lemma {:induction false} HeaderRead(data: seq<Byte>, pos: nat, buf: seq<Byte>)
    requires pos + HEADER <= |data| && buf == data[pos..pos + HEADER]
    ensures (buf[0..4] == CAPTURE_PATTERN) == HasPattern(data, pos)
    ensures AsInt64(DecodeLE(buf[6..14])) == GranuleAt(data, pos) && buf[26] == data[pos + 26]
  {
    HeaderParts(data, pos);
  }

  /** The step of the maximum over a page. */
  lemma {:induction false} PageCounts(data: seq<Byte>, pos: nat, total: int)
    requires pos + HEADER <= |data| && HasPattern(data, pos)
    ensures var granule := GranuleAt(data, pos);
      MaxFrom(total, Scan(data, pos)) == MaxFrom(if granule > total then granule else total, AfterPage(data, pos))
  {
    ScanTakes(data, pos);
    MaxOfFirst(total, Hit(pos, GranuleAt(data, pos)), AfterPage(data, pos));
  }

  lemma {:induction false} NextPage(data: seq<Byte>, pos: nat, size: nat)
    requires pos + HEADER <= |data| && pos + HEADER + data[pos + 26] <= |data|
    requires size == SegmentSum(data[pos + HEADER..pos + HEADER + data[pos + 26]])
    ensures AfterPage(data, pos) == Scan(data, pos + HEADER + data[pos + 26] + size)
  {}

  lemma {:induction false} NoNextPage(data: seq<Byte>, pos: nat)
    requires pos + HEADER <= |data| && pos + HEADER + data[pos + 26] > |data|
    ensures AfterPage(data, pos) == []
  {}

  /** The two steps of the scanner. */
  lemma {:induction false} ScanSkips(data: seq<Byte>, pos: nat)
    requires pos + HEADER <= |data| && !HasPattern(data, pos)
    ensures Scan(data, pos) == Scan(data, pos + 1)
  {}

  lemma {:induction false} ScanTakes(data: seq<Byte>, pos: nat)
    requires pos + HEADER <= |data| && HasPattern(data, pos)
    ensures Scan(data, pos) == [Hit(pos, GranuleAt(data, pos))] + AfterPage(data, pos)
  {}

  lemma {:induction false} MaxOfFirst(total: int, hit: Hit, rest: seq<Hit>)
    ensures MaxFrom(total, [hit] + rest) == MaxFrom(if hit.granule > total then hit.granule else total, rest)
  {
    assert ([hit] + rest)[1..] == rest;
  }

  /** The scanning loop, for every content of the file. */
  method GetOpusDuration(data: seq<Byte>) returns (totalGranulePos: int, duration: real)
    ensures totalGranulePos == MaxGranule(Scan(data, 0))
    ensures duration == totalGranulePos as real / 48000.0
  {
    var pos := 0;
    totalGranulePos := 0;
    ghost var max := MaxGranule(Scan(data, pos));
    while true
      invariant MaxFrom(totalGranulePos, Scan(data, pos)) == max
      decreases if pos <= |data| then |data| - pos else 0
    {
      var n := if pos >= |data| then 0 else if |data| - pos < HEADER then |data| - pos else HEADER;
      if n < HEADER {
        break;
      }
      ghost var start := pos;
      var buf := data[pos..pos + HEADER];
      HeaderRead(data, start, buf);
      pos := pos + HEADER;
      if buf[0..4] != CAPTURE_PATTERN {
        ScanSkips(data, start);
        pos := pos - 26;
        assert pos == start + 1;
        continue;
      }
      var granulePos := AsInt64(DecodeLE(buf[6..14]));
      PageCounts(data, start, totalGranulePos);
      if granulePos > totalGranulePos {
        totalGranulePos := granulePos;
      }
      var numSegments := buf[26];
      if pos + numSegments > |data| {
        NoNextPage(data, start);
        return totalGranulePos, totalGranulePos as real / SAMPLE_RATE;
      }
      var segmentTable := data[pos..pos + numSegments];
      pos := pos + numSegments;
      var pageSize := SumLoop(segmentTable);
      NextPage(data, start, pageSize);
      pos := pos + pageSize;
      assert pos == start + HEADER + data[start + 26] + pageSize;
    }
    duration := totalGranulePos as real / SAMPLE_RATE;
  }

  method SumLoop(segments: seq<Byte>) returns (sum: nat)
    ensures sum == SegmentSum(segments)
  {
    sum := 0;
    for i := 0 to |segments|
      invariant sum + SegmentSum(segments[i..]) == SegmentSum(segments)
    {
      sum := sum + segments[i];
    }
  }

  /** The result is reached by some page, or is zero, and no page exceeds it. */
  lemma {:induction false} MaxGranuleMeaning(hits: seq<Hit>)
    ensures MaxGranule(hits) >= 0
    ensures forall i :: 0 <= i < |hits| ==> hits[i].granule <= MaxGranule(hits)
    ensures MaxGranule(hits) == 0 || exists i :: 0 <= i < |hits| && hits[i].granule == MaxGranule(hits)
  {
    MaxFromMeaning(0, hits);
  }

  lemma {:induction false} MaxFromMeaning(total: int, hits: seq<Hit>)
    ensures MaxFrom(total, hits) >= total
    ensures forall i :: 0 <= i < |hits| ==> hits[i].granule <= MaxFrom(total, hits)
    ensures MaxFrom(total, hits) == total || exists i :: 0 <= i < |hits| && hits[i].granule == MaxFrom(total, hits)
    decreases |hits|
  {
    if hits != [] {
      var first, rest := hits[0], hits[1..];
      var next := if first.granule > total then first.granule else total;
      MaxFromMeaning(next, rest);
      assert forall i :: 0 < i < |hits| ==> hits[i] == rest[i - 1];
      if MaxFrom(next, rest) != next {
        var i :| 0 <= i < |rest| && rest[i].granule == MaxFrom(next, rest);
        assert hits[i + 1].granule == MaxFrom(total, hits);
      } else if next != total {
        assert hits[0].granule == MaxFrom(total, hits);
      }
    }
  }

  // ---------------------------------------------------------------------------------------------------
  // Well-formed pages
  // ---------------------------------------------------------------------------------------------------

  datatype Page = Page(
    version: Byte, headerType: Byte, granule: int,
    serial: seq<Byte>, sequence: seq<Byte>, checksum: seq<Byte>,
    segments: seq<Byte>, payload: seq<Byte>)

  predicate IsPage(p: Page) {
    && -TWO_63 <= p.granule < TWO_63
    && |p.serial| == 4 && |p.sequence| == 4 && |p.checksum| == 4
    && |p.segments| <= 255 && |p.payload| == SegmentSum(p.segments)
  }

  function Encode(p: Page): seq<Byte>
    requires IsPage(p)
  {
    CAPTURE_PATTERN + [p.version, p.headerType] + EncodeLE(AsUint64(p.granule), 8) +
    p.serial + p.sequence + p.checksum + [|p.segments|] + p.segments + p.payload
  }

  lemma {:induction false} GranuleRoundTrip(granule: int)
    requires -TWO_63 <= granule < TWO_63
    ensures AsInt64(DecodeLE(EncodeLE(AsUint64(granule), 8))) == granule
  {
    assert Power256(8) == TWO_64 by {
      assert Power256(2) == 256 * 256;
      assert Power256(4) == 256 * 256 * Power256(2);
      assert Power256(6) == 256 * 256 * Power256(4);
    }
    LittleEndianRoundTrip(AsUint64(granule), 8);
  }

  /** The bytes of one page, seen from outside, and the granule position the scanner reads in them. */
  datatype Frame = Frame(bytes: seq<Byte>, granule: int)

  /** The pattern, and a length that agrees with the segments. */
  predicate IsFrame(c: Frame) {
    && |c.bytes| >= HEADER && HasPattern(c.bytes, 0) && HEADER + c.bytes[26] <= |c.bytes|
    && |c.bytes| == HEADER + |SegmentsAt(c.bytes, 0)| + SegmentSum(SegmentsAt(c.bytes, 0))
    && c.granule == GranuleAt(c.bytes, 0)
  }

  /** A page is written as a frame, with its granule position where the scanner reads it. */
  lemma {:induction false} EncodeIsFrame(p: Page)
    requires IsPage(p)
    ensures IsFrame(Frame(Encode(p), p.granule))
  {
    var c := Encode(p);
    assert c[0..4] == CAPTURE_PATTERN;
    assert c[6..14] == EncodeLE(AsUint64(p.granule), 8);
    GranuleRoundTrip(p.granule);
    assert c[26] == |p.segments|;
    assert c[HEADER..HEADER + |p.segments|] == p.segments;
  }

  function Flatten(frames: seq<Frame>): seq<Byte> {
    if frames == [] then [] else frames[0].bytes + Flatten(frames[1..])
  }

  predicate AreFrames(frames: seq<Frame>) {
    frames != [] ==> IsFrame(frames[0]) && AreFrames(frames[1..])
  }

  /** The frames with the offsets at which they begin. */
  function FrameHits(frames: seq<Frame>, offset: nat): seq<Hit> {
    if frames == [] then []
    else [Hit(offset, frames[0].granule)] + FrameHits(frames[1..], offset + |frames[0].bytes|)
  }

  /** Where a frame lies in the data its fields are read. */
  lemma {:induction false} FrameParts(data: seq<Byte>, pos: nat, c: seq<Byte>)
    requires |c| >= HEADER && pos + |c| <= |data| && data[pos..pos + |c|] == c && HEADER + c[26] <= |c|
    ensures HasPattern(data, pos) == HasPattern(c, 0) && GranuleAt(data, pos) == GranuleAt(c, 0)
    ensures data[pos + 26] == c[26] && SegmentsAt(data, pos) == SegmentsAt(c, 0)
  {
    SliceOf(data, pos, c, 0, 4);
    SliceOf(data, pos, c, 6, 14);
    assert data[pos + 26] == data[pos..pos + |c|][26];
    SliceOf(data, pos, c, HEADER, HEADER + c[26]);
  }

  lemma {:induction false} AfterFrame(data: seq<Byte>, pos: nat, c: seq<Byte>)
    requires |c| >= HEADER && pos + |c| <= |data| && data[pos + 26] == c[26] && HEADER + c[26] <= |c|
    requires SegmentsAt(data, pos) == SegmentsAt(c, 0)
    requires |c| == HEADER + |SegmentsAt(c, 0)| + SegmentSum(SegmentsAt(c, 0))
    ensures AfterPage(data, pos) == Scan(data, pos + |c|)
  {}

  /** At a frame the scanner takes its granule position and jumps to its end. */
  lemma {:induction false} ScanOneFrame(data: seq<Byte>, pos: nat, frame: Frame)
    requires IsFrame(frame) && pos + |frame.bytes| <= |data| && data[pos..pos + |frame.bytes|] == frame.bytes
    ensures Scan(data, pos) == [Hit(pos, frame.granule)] + Scan(data, pos + |frame.bytes|)
  {
    FrameParts(data, pos, frame.bytes);
    FrameEnds(data, pos, frame);
    ScanTakes(data, pos);
  }

  lemma {:induction false} FrameEnds(data: seq<Byte>, pos: nat, frame: Frame)
    requires IsFrame(frame) && pos + |frame.bytes| <= |data| && data[pos..pos + |frame.bytes|] == frame.bytes
    ensures AfterPage(data, pos) == Scan(data, pos + |frame.bytes|)
  {
    FrameParts(data, pos, frame.bytes);
    AfterFrame(data, pos, frame.bytes);
  }

  lemma {:induction false} SliceOf(data: seq<Byte>, pos: nat, c: seq<Byte>, i: nat, j: nat)
    requires pos + |c| <= |data| && data[pos..pos + |c|] == c && i <= j <= |c|
    ensures data[pos + i..pos + j] == c[i..j]
  {
    var d, slice := data[pos..pos + |c|], data[pos + i..pos + j];
    forall k | 0 <= k < |slice| ensures slice[k] == c[i..j][k] {
      assert slice[k] == data[pos + (i + k)] == d[i + k];
    }
  }

  lemma {:induction false} SplitSuffix(data: seq<Byte>, pos: nat, a: seq<Byte>, b: seq<Byte>)
    requires pos <= |data| && data[pos..] == a + b
    ensures pos + |a| <= |data| && data[pos..pos + |a|] == a && data[pos + |a|..] == b
  {
    assert data[pos..][..|a|] == a && data[pos..][|a|..] == b;
    assert data[pos..][..|a|] == data[pos..pos + |a|] && data[pos..][|a|..] == data[pos + |a|..];
  }

  /** The frames lie at pos, one after the other. */
  predicate Laid(data: seq<Byte>, pos: nat, frames: seq<Frame>)
    decreases |frames|
  {
    frames != [] ==>
      var c := frames[0].bytes;
      pos + |c| <= |data| && data[pos..pos + |c|] == c && Laid(data, pos + |c|, frames[1..])
  }

  lemma {:induction false} FlattenLays(data: seq<Byte>, pos: nat, frames: seq<Frame>, tail: seq<Byte>)
    requires pos <= |data| && data[pos..] == Flatten(frames) + tail
    ensures Laid(data, pos, frames)
    decreases |frames|
  {
    if frames != [] {
      var c, rest := frames[0].bytes, Flatten(frames[1..]) + tail;
      assert Flatten(frames) + tail == c + rest;
      SplitSuffix(data, pos, c, rest);
      FlattenLays(data, pos + |c|, frames[1..], tail);
    }
  }

  /** A scan that takes the frames one after the other. */
  predicate Takes(scan: nat -> seq<Hit>, frames: seq<Frame>, pos: nat) {
    frames != [] ==>
      var end := pos + |frames[0].bytes|;
      scan(pos) == [Hit(pos, frames[0].granule)] + scan(end) && Takes(scan, frames[1..], end)
  }

  lemma {:induction false} TakesAll(scan: nat -> seq<Hit>, frames: seq<Frame>, pos: nat)
    requires Takes(scan, frames, pos)
    ensures scan(pos) == FrameHits(frames, pos) + scan(pos + |Flatten(frames)|)
  {
    if frames != [] {
      TakesAll(scan, frames[1..], pos + |frames[0].bytes|);
    }
  }

  function Scanner(data: seq<Byte>): nat -> seq<Hit> {
    (pos: nat) => Scan(data, pos)
  }

  lemma {:induction false} ScanTakesFrames(data: seq<Byte>, pos: nat, frames: seq<Frame>)
    requires AreFrames(frames) && Laid(data, pos, frames)
    ensures Takes(Scanner(data), frames, pos)
    decreases |frames|
  {
    if frames != [] {
      ScanOneFrame(data, pos, frames[0]);
      ScanTakesFrames(data, pos + |frames[0].bytes|, frames[1..]);
    }
  }

  /** Frames followed by anything: the scanner sees the frames and then what it sees in the rest. */
  lemma {:induction false} ScanTaken(data: seq<Byte>, pos: nat, frames: seq<Frame>)
    requires Takes(Scanner(data), frames, pos)
    ensures Scan(data, pos) == FrameHits(frames, pos) + Scan(data, pos + |Flatten(frames)|)
  {
    TakesAll(Scanner(data), frames, pos);
  }

  lemma {:induction false} ScanFramesThen(data: seq<Byte>, pos: nat, frames: seq<Frame>, tail: seq<Byte>)
    requires AreFrames(frames) && pos <= |data| && data[pos..] == Flatten(frames) + tail
    ensures Scan(data, pos) == FrameHits(frames, pos) + Scan(data, pos + |Flatten(frames)|)
  {
    assert Takes(Scanner(data), frames, pos) by {
      FlattenLays(data, pos, frames, tail);
      ScanTakesFrames(data, pos, frames);
    }
    ScanTaken(data, pos, frames);
  }

  /** From a boundary the scanner lands on every frame boundary and on nothing else. */
  lemma {:induction false} ScanFrames(data: seq<Byte>, pos: nat, frames: seq<Frame>)
    requires AreFrames(frames) && pos <= |data| && data[pos..] == Flatten(frames)
    ensures Scan(data, pos) == FrameHits(frames, pos)
  {
    assert Flatten(frames) + [] == Flatten(frames);
    ScanFramesThen(data, pos, frames, []);
    assert FrameHits(frames, pos) + [] == FrameHits(frames, pos);
  }

  function EncodeAll(pages: seq<Page>): (r: seq<Frame>)
    requires forall i :: 0 <= i < |pages| ==> IsPage(pages[i])
    ensures |r| == |pages| && forall i :: 0 <= i < |pages| ==> r[i] == Frame(Encode(pages[i]), pages[i].granule)
  {
    if pages == [] then [] else [Frame(Encode(pages[0]), pages[0].granule)] + EncodeAll(pages[1..])
  }

  lemma {:induction false} EncodedFrames(pages: seq<Page>)
    requires forall i :: 0 <= i < |pages| ==> IsPage(pages[i])
    ensures AreFrames(EncodeAll(pages))
  {
    if pages != [] {
      EncodeIsFrame(pages[0]);
      EncodedFrames(pages[1..]);
      assert EncodeAll(pages)[1..] == EncodeAll(pages[1..]);
    }
  }

  lemma {:induction false} FrameHitsMeaning(frames: seq<Frame>, offset: nat)
    ensures |FrameHits(frames, offset)| == |frames|
    ensures forall i :: 0 <= i < |frames| ==>
      FrameHits(frames, offset)[i] == Hit(offset + |Flatten(frames[..i])|, frames[i].granule)
  {
    if frames != [] {
      var rest := frames[1..];
      FrameHitsMeaning(rest, offset + |frames[0].bytes|);
      forall i | 0 < i < |frames| ensures |Flatten(frames[..i])| == |frames[0].bytes| + |Flatten(rest[..i - 1])| {
        assert frames[..i][1..] == rest[..i - 1];
      }
    }
  }

  lemma {:induction false} StreamHits(pages: seq<Page>)
    requires forall i :: 0 <= i < |pages| ==> IsPage(pages[i])
    ensures var hits := Scan(Flatten(EncodeAll(pages)), 0);
      && |hits| == |pages|
      && (forall i :: 0 <= i < |pages| ==> hits[i] == Hit(|Flatten(EncodeAll(pages)[..i])|, pages[i].granule))
  {
    var frames := EncodeAll(pages);
    var data := Flatten(frames);
    EncodedFrames(pages);
    assert data[0..] == data;
    ScanFrames(data, 0, frames);
    FrameHitsMeaning(frames, 0);
  }

  /** The greatest of zero and the granule positions of the pages. */
  predicate IsGreatest(pages: seq<Page>, max: int) {
    && max >= 0
    && (forall i :: 0 <= i < |pages| ==> pages[i].granule <= max)
    && (max == 0 || exists i :: 0 <= i < |pages| && pages[i].granule == max)
  }

  lemma {:induction false} GreatestOfHits(pages: seq<Page>, hits: seq<Hit>)
    requires |hits| == |pages| && forall i :: 0 <= i < |pages| ==> hits[i].granule == pages[i].granule
    ensures IsGreatest(pages, MaxGranule(hits))
  {
    MaxGranuleMeaning(hits);
    if MaxGranule(hits) != 0 {
      var i :| 0 <= i < |hits| && hits[i].granule == MaxGranule(hits);
      assert pages[i].granule == MaxGranule(hits);
    }
  }

  /** For every concatenation of well-formed pages, payloads containing the capture pattern included, the
      scanner sees exactly the pages, each at its own boundary, and its result is the greatest non-negative
      granule position. */
  lemma {:induction false} ScanStream(pages: seq<Page>)
    requires forall i :: 0 <= i < |pages| ==> IsPage(pages[i])
    ensures
      var hits := Scan(Flatten(EncodeAll(pages)), 0);
      && |hits| == |pages|
      && (forall i :: 0 <= i < |pages| ==> hits[i] == Hit(|Flatten(EncodeAll(pages)[..i])|, pages[i].granule))
      && IsGreatest(pages, MaxGranule(hits))
  {
    StreamHits(pages);
    GreatestOfHits(pages, Scan(Flatten(EncodeAll(pages)), 0));
  }

  /** No capture pattern begins before end. */
  predicate Patternless(data: seq<Byte>, pos: nat, end: nat) {
    forall i {:trigger HasPattern(data, i)} :: pos <= i < end && i + 4 <= |data| ==> !HasPattern(data, i)
  }

  lemma {:induction false} SkipGarbage(data: seq<Byte>, pos: nat, end: nat)
    requires pos <= end && end + HEADER <= |data| && Patternless(data, pos, end)
    ensures Scan(data, pos) == Scan(data, end)
    decreases end - pos
  {
    if pos < end {
      assert !HasPattern(data, pos);
      SkipGarbage(data, pos + 1, end);
    }
  }

  /** Resynchronisation: bytes before the first page in which no capture pattern begins are skipped, and the
      scanner then sees exactly the frames. */
  lemma {:induction false} ScanAfterGarbage(garbage: seq<Byte>, frames: seq<Frame>)
    requires AreFrames(frames) && frames != []
    requires Patternless(garbage + Flatten(frames), 0, |garbage|)
    ensures Scan(garbage + Flatten(frames), 0) == FrameHits(frames, |garbage|)
  {
    var data := garbage + Flatten(frames);
    assert IsFrame(frames[0]);
    SkipGarbage(data, 0, |garbage|);
    assert data[|garbage|..] == Flatten(frames);
    ScanFrames(data, |garbage|, frames);
  }

  lemma {:induction false} ScanCut(data: seq<Byte>, pos: nat, frame: Frame, n: nat)
    requires IsFrame(frame) && n < |frame.bytes| && pos + n == |data| && data[pos..] == frame.bytes[..n]
    ensures Scan(data, pos) == if n < HEADER then [] else [Hit(pos, frame.granule)]
  {
    if n >= HEADER {
      var c := frame.bytes;
      assert data[pos..pos + HEADER] == data[pos..][..HEADER] == c[..HEADER];
      HeaderParts(data, pos);
      HeaderParts(c, 0);
      assert c[0..HEADER] == c[..HEADER];
      ScanTakes(data, pos);
      CutEnds(data, pos, frame, n);
    }
  }

  /** Behind a cut page there is nothing more to see. */
  lemma {:induction false} CutEnds(data: seq<Byte>, pos: nat, frame: Frame, n: nat)
    requires IsFrame(frame) && HEADER <= n < |frame.bytes| && pos + n == |data| && data[pos..] == frame.bytes[..n]
    ensures AfterPage(data, pos) == []
  {
    var c := frame.bytes;
    assert data[pos + 26] == data[pos..][26] == c[26];
    if HEADER + c[26] <= n {
      SliceOf(data, pos, c[..n], HEADER, HEADER + c[26]);
      SliceOf(c, 0, c[..n], HEADER, HEADER + c[26]);
      assert SegmentsAt(data, pos) == SegmentsAt(c, 0);
    }
  }

  /** A stream that breaks off within a page: the granule position of that page counts exactly if its 27 bytes of
      header are complete. */
  lemma {:induction false} ScanBrokenStream(data: seq<Byte>, pos: nat, frames: seq<Frame>, last: Frame, n: nat)
    requires AreFrames(frames) && IsFrame(last) && n < |last.bytes|
    requires pos <= |data| && data[pos..] == Flatten(frames) + last.bytes[..n]
    ensures var end := pos + |Flatten(frames)|;
      Scan(data, pos) == FrameHits(frames, pos) + if n < 27 then [] else [Hit(end, last.granule)]
  {
    var end := pos + |Flatten(frames)|;
    assert end + n == |data| && data[end..] == last.bytes[..n] by {
      SplitSuffix(data, pos, Flatten(frames), last.bytes[..n]);
    }
    ScanFramesThen(data, pos, frames, last.bytes[..n]);
    ScanCut(data, end, last, n);
  }
}
