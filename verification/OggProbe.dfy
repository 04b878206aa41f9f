/** Finding out whether bytes are Ogg Opus (RFC 7845), and how long they play. */
module OggProbe {
  import opened Wrappers
  import opened GoValues
  import opened OggPages

  const OPUS_MAGIC: Bytes := [0x4F, 0x70, 0x75, 0x73, 0x48, 0x65, 0x61, 0x64]

  const HEAD_LENGTH := 512
  const TAIL_SCAN := 65536

  // ----- the last granule position -----

  /** The granule position of the last hit at or before `i`. */
  function ScanBack(buf: Bytes, i: int): Option<nat>
    requires i + HEADER_LENGTH <= |buf|
    decreases i
  {
    if i < 0 then None else if Hit(buf, i) then Some(GranuleAt(buf, i)) else ScanBack(buf, i - 1)
  }

  /** No header after position `i` carries a granule position. */
  ghost predicate NoLaterHit(buf: Bytes, i: int) {
    forall j :: 0 <= j <= |buf| - HEADER_LENGTH && i < j ==> !Hit(buf, j)
  }

  ghost predicate IsLastHit(buf: Bytes, k: int) {
    0 <= k <= |buf| - HEADER_LENGTH && Hit(buf, k) && NoLaterHit(buf, k)
  }

  /** The granule position of the last header in the buffer that carries one. */
  method LastGranule(buf: Bytes) returns (r: Option<nat>)
    ensures r.None? <==> NoLaterHit(buf, -1)
    ensures r.Some? ==> exists k :: IsLastHit(buf, k) && r.value == GranuleAt(buf, k)
    ensures r == ScanBack(buf, |buf| - HEADER_LENGTH)
  {
    var i := |buf| - HEADER_LENGTH;
    while i >= 0
      invariant -HEADER_LENGTH <= i <= |buf| - HEADER_LENGTH
      invariant NoLaterHit(buf, i)
      decreases i + HEADER_LENGTH
    {
      if buf[i..i + 4] == MAGIC {
        var g := FromLittleEndian(buf[i + 6..i + 14]);
        if g != NO_GRANULE {
          ScanStopsAt(buf, |buf| - HEADER_LENGTH, i);
          assert IsLastHit(buf, i);
          return Some(g);
        }
      }
      i := i - 1;
    }
    ScanFindsNothing(buf, |buf| - HEADER_LENGTH);
    return None;
  }

  lemma {:induction false} ScanStopsAt(buf: Bytes, i: int, k: int)
    requires 0 <= k <= i <= |buf| - HEADER_LENGTH && Hit(buf, k) && forall j :: k < j <= i ==> !Hit(buf, j)
    ensures ScanBack(buf, i) == Some(GranuleAt(buf, k))
  {
    if k < i {
      ScanStopsAt(buf, i - 1, k);
    }
  }

  lemma {:induction false} ScanFindsNothing(buf: Bytes, i: int)
    requires i <= |buf| - HEADER_LENGTH && forall j :: 0 <= j <= i ==> !Hit(buf, j)
    ensures ScanBack(buf, i) == None
    decreases i
  {
    if i >= 0 {
      ScanFindsNothing(buf, i - 1);
    }
  }

  /** The part of a stream that is scanned. */
  function Tail(s: Bytes): Bytes {
    if |s| < TAIL_SCAN then s else s[|s| - TAIL_SCAN..]
  }

  function TailGranule(s: Bytes): Option<nat> {
    ScanBack(Tail(s), |Tail(s)| - HEADER_LENGTH)
  }

  // ----- the last page that completes a packet -----

  /** Where the pages of a stream start, counted from `start`. */
  ghost function Starts(start: nat, pages: seq<Page>): set<nat>
    decreases |pages|
  {
    if pages == [] then {} else {start} + Starts(start + |Encode(pages[0])|, pages[1..])
  }

  /** From `start` on, the four magic bytes occur only where a page starts. */
  ghost predicate NoFalseHeader(s: Bytes, start: nat, pages: seq<Page>) {
    forall i :: i >= start && MagicAt(s, i) ==> i in Starts(start, pages)
  }

  lemma SkippedPage(front: Bytes, p: Page, rest: Bytes)
    requires ValidPage(p)
    ensures var s := front + (Encode(p) + rest); MagicAt(s, |front|) && GranuleAt(s, |front|) == p.granule
  {
    EncodedPage(p, rest);
    Shifted(front, Encode(p) + rest, 0);
  }

  lemma NextStarts(front: Bytes, pages: seq<Page>, i: nat)
    requires i in Starts(|front|, pages) && i != |front|
    ensures pages != [] && i in Starts(|front + Encode(pages[0])|, pages[1..])
  {
  }

  lemma StreamShift(front: Bytes, pages: seq<Page>)
    requires pages != []
    ensures (front + Encode(pages[0])) + Stream(pages[1..]) == front + Stream(pages)
  {
  }

  lemma {:induction false} LaterPagesNoHit(front: Bytes, pages: seq<Page>, i: nat)
    requires forall p :: p in pages ==> ValidPage(p) && p.granule == NO_GRANULE
    requires i in Starts(|front|, pages)
    ensures !Hit(front + Stream(pages), i)
    decreases |pages|
  {
    if i == |front| {
      SkippedPage(front, pages[0], Stream(pages[1..]));
    } else {
      NextStarts(front, pages, i);
      LaterPagesNoHit(front + Encode(pages[0]), pages[1..], i);
      StreamShift(front, pages);
    }
  }

  /** In a stream that ends with page `p` and pages that complete no packet, `p` carries the last hit. */
  lemma LastHit(front: Bytes, p: Page, later: seq<Page>, s: Bytes)
    requires ValidPage(p) && p.granule != NO_GRANULE
    requires forall q :: q in later ==> ValidPage(q) && q.granule == NO_GRANULE
    requires s == front + (Encode(p) + Stream(later)) && NoFalseHeader(s, |front|, [p] + later)
    ensures Hit(s, |front|) && GranuleAt(s, |front|) == p.granule && NoHitAfter(s, |front|)
  {
    SkippedPage(front, p, Stream(later));
    forall i | i > |front| && MagicAt(s, i) ensures !Hit(s, i) {
      LaterHeader(front, p, later, s, i);
    }
  }

  lemma LaterHeader(front: Bytes, p: Page, later: seq<Page>, s: Bytes, i: nat)
    requires forall q :: q in later ==> ValidPage(q) && q.granule == NO_GRANULE
    requires s == front + (Encode(p) + Stream(later)) && i in Starts(|front|, [p] + later) && i > |front|
    ensures !Hit(s, i)
  {
    assert ([p] + later)[1..] == later;
    NextStarts(front, [p] + later, i);
    LaterPagesNoHit(front + Encode(p), later, i);
    Associate(front, Encode(p), Stream(later));
  }

  lemma Associate(a: Bytes, b: Bytes, c: Bytes)
    ensures (a + b) + c == a + (b + c)
  {
  }

  ghost predicate NoHitAfter(s: Bytes, k: nat) {
    forall i :: i > k ==> !Hit(s, i)
  }

  /** A hit in the scanned tail is a hit of the stream, the same number of bytes from the end. */
  lemma TailHit(s: Bytes, i: int)
    ensures var o := |s| - |Tail(s)|; i >= 0 ==> (Hit(Tail(s), i) <==> Hit(s, o + i))
    ensures var o := |s| - |Tail(s)|; Hit(Tail(s), i) ==> GranuleAt(Tail(s), i) == GranuleAt(s, o + i)
  {
    var o := |s| - |Tail(s)|;
    assert s == s[..o] + Tail(s);
    if i >= 0 {
      Shifted(s[..o], Tail(s), i);
    }
  }

  /** The scan of the tail sees the last hit of the stream if it starts within the tail, or else none. */
  lemma TailSeesLastHit(s: Bytes, k: nat)
    requires Hit(s, k) && NoHitAfter(s, k)
    ensures TailGranule(s) == if |s| - k <= TAIL_SCAN then Some(GranuleAt(s, k)) else None
  {
    var buf, o := Tail(s), |s| - |Tail(s)|;
    forall i | 0 <= i && o + i > k ensures !Hit(buf, i) {
      TailHit(s, i);
    }
    if |s| - k <= TAIL_SCAN {
      TailHit(s, k - o);
      ScanStopsAt(buf, |buf| - HEADER_LENGTH, k - o);
    } else {
      ScanFindsNothing(buf, |buf| - HEADER_LENGTH);
    }
  }

  /**
   The scan of the tail returns the granule position of the last page that completes a packet exactly
   when that page and the ones after it fit the scanned length.
   */
  lemma TailFindsLastPage(front: Bytes, p: Page, later: seq<Page>, s: Bytes)
    requires ValidPage(p) && p.granule != NO_GRANULE
    requires forall q :: q in later ==> ValidPage(q) && q.granule == NO_GRANULE
    requires s == front + (Encode(p) + Stream(later)) && NoFalseHeader(s, |front|, [p] + later)
    ensures TailGranule(s) == Some(p.granule) <==> |Encode(p) + Stream(later)| <= TAIL_SCAN
  {
    LastHit(front, p, later, s);
    TailSeesLastHit(s, |front|);
  }

  /** A stream whose last page completes a packet: the scanned length always suffices. */
  lemma LastPageIsFound(front: Bytes, p: Page)
    requires ValidPage(p) && p.granule != NO_GRANULE && NoFalseHeader(front + Encode(p), |front|, [p])
    ensures TailGranule(front + Encode(p)) == Some(p.granule)
  {
    PageBound(p);
    assert Encode(p) + Stream([]) == Encode(p) && [p] + [] == [p];
    TailFindsLastPage(front, p, [], front + Encode(p));
  }

  // ----- the identification header -----

  predicate OpusAt(b: Bytes, i: nat) {
    i + 8 <= |b| && b[i..i + 8] == OPUS_MAGIC
  }

  /** The first position at or after `i` where the identification header starts, or -1. */
  function OpusIndex(b: Bytes, i: nat): int
    requires i <= |b|
    decreases |b| - i
  {
    if OpusAt(b, i) then i else if i == |b| then -1 else OpusIndex(b, i + 1)
  }

  /** The pre-skip of a stream that starts with an identification header. */
  function OpusHead(head: Bytes): Option<nat> {
    if |head| < HEADER_LENGTH || head[..4] != MAGIC then None
    else
      var idx := OpusIndex(head, 0);
      if idx < HEADER_LENGTH || idx > 128 || |head| < idx + 12 then None
      else Some(FromLittleEndian(head[idx + 10..idx + 12]))
  }

  /**
   The page of the identification header: the first of its stream, at granule position 0, one packet. A
   header of 255 bytes or more, as for over 233 channels, takes two segments, the first of them full.
   */
  ghost predicate IsIdentification(p: Page, preSkip: nat) {
    && ValidPage(p) && p.granule == 0 && p.sequence == [0, 0, 0, 0]
    && (|p.lacing| == 1 || (|p.lacing| == 2 && p.lacing[0] == 255))
    && preSkip < 65536 && |p.body| >= 12
    && p.body[..8] == OPUS_MAGIC && p.body[10..12] == LittleEndian(preSkip, 2)
  }

  /** Where the packet starts: behind the header, the number of segments and their sizes. */
  function BodyStart(p: Page): nat {
    HEADER_LENGTH + |p.lacing|
  }

  lemma {:induction false} IndexIs(b: Bytes, i: nat, k: nat)
    requires i <= k <= |b| && OpusAt(b, k) && forall j :: i <= j < k ==> !OpusAt(b, j)
    ensures OpusIndex(b, i) == k
    decreases k - i
  {
    if i < k {
      IndexIs(b, i + 1, k);
    }
  }

  lemma ZeroGranule()
    ensures LittleEndian(0, 8) == [0, 0, 0, 0, 0, 0, 0, 0]
  {
    assert LittleEndian(0, 2) == [0, 0];
    assert LittleEndian(0, 4) == [0, 0] + LittleEndian(0, 2);
    assert LittleEndian(0, 6) == [0, 0] + LittleEndian(0, 4);
    assert LittleEndian(0, 8) == [0, 0] + LittleEndian(0, 6);
  }

  /** The fields of a header, by position. */
  lemma HeaderBytes(p: Page)
    requires ValidPage(p) && p.granule == 0 && p.sequence == [0, 0, 0, 0]
    ensures var h := Header(p); |h| == 26 && h[..4] == MAGIC && h[1] == 0x67 && h[6] == h[13] == 0 && h[18] == 0
  {
    ZeroGranule();
    var h, zeros := Header(p), LittleEndian(p.granule, 8);
    assert h == (MAGIC + [0, p.headerType]) + (zeros + (p.serial + (p.sequence + p.checksum)));
    assert h[6] == zeros[0] && h[13] == zeros[7] && h[18] == p.sequence[0];
  }

  /** What the bytes up to the pre-skip say, for a packet that starts at `k`. */
  ghost predicate ShowsHeader(b: Bytes, k: nat, preSkip: nat) {
    && 28 <= k <= 29 && |b| >= k + 12
    && b[..4] == MAGIC && b[6] == b[13] == 0 && b[18] == 0 && b[26] == k - 27 && (k == 29 ==> b[27] == 255)
    && OpusAt(b, k) && b[k + 10..k + 12] == LittleEndian(preSkip, 2)
  }

  lemma PageParts(p: Page)
    requires ValidPage(p) && p.granule == 0 && p.sequence == [0, 0, 0, 0]
    ensures var e, k := Encode(p), BodyStart(p);
            && |e| == k + |p.body| && e[..26] == Header(p) && e[26] == |p.lacing| && e[k..] == p.body
            && forall i :: 0 <= i < |p.lacing| ==> e[27 + i] == p.lacing[i]
  {
    HeaderBytes(p);
    assert Encode(p) == Header(p) + ([|p.lacing| % 256] + (p.lacing + p.body));
  }

  lemma IdentificationBytes(p: Page, preSkip: nat)
    requires IsIdentification(p, preSkip)
    ensures ShowsHeader(Encode(p), BodyStart(p), preSkip)
  {
    var e, k := Encode(p), BodyStart(p);
    PageParts(p);
    HeaderBytes(p);
    assert e[..4] == e[..26][..4];
    assert e[6] == e[..26][6] && e[13] == e[..26][13] && e[18] == e[..26][18];
    assert e[k..k + 8] == e[k..][..8] && e[k + 10..k + 12] == e[k..][10..12];
  }

  lemma OpusByte(b: Bytes, j: nat, i: nat)
    requires OpusAt(b, j) && i < 8
    ensures b[j + i] == OPUS_MAGIC[i]
  {
    assert b[j..j + 8][i] == b[j + i];
  }

  lemma NoOpusBefore(b: Bytes, k: nat, preSkip: nat, j: nat)
    requires ShowsHeader(b, k, preSkip) && j < k
    ensures !OpusAt(b, j)
  {
    OpusByte(b, k, 0);
    if OpusAt(b, j) {
      var known := if j <= 6 then 6 else if j <= 13 then 13 else if j <= 18 then 18 else if j <= 26 then 26
                   else if k == 29 && j == 27 then 27 else k;
      OpusByte(b, j, known - j);
    }
  }

  /** The part of a stream that is searched for the identification header. */
  function Head(s: Bytes): Bytes {
    if |s| < HEAD_LENGTH then s else s[..HEAD_LENGTH]
  }

  lemma PrefixShowsHeader(b: Bytes, c: Bytes, k: nat, preSkip: nat)
    requires ShowsHeader(c, k, preSkip) && |b| >= k + 12 && b[..k + 12] == c[..k + 12]
    ensures ShowsHeader(b, k, preSkip)
  {
    var shared := b[..k + 12];
    assert b[..4] == shared[..4] == c[..4];
    assert forall i :: 0 <= i < k + 12 ==> b[i] == shared[i] == c[i];
    assert b[k..k + 8] == shared[k..k + 8] == c[k..k + 8];
    assert b[k + 10..k + 12] == shared[k + 10..k + 12] == c[k + 10..k + 12];
  }

  lemma HeadBytes(p: Page, preSkip: nat, rest: Bytes)
    requires IsIdentification(p, preSkip)
    ensures ShowsHeader(Head(Encode(p) + rest), BodyStart(p), preSkip)
  {
    var k := BodyStart(p);
    IdentificationBytes(p, preSkip);
    assert Head(Encode(p) + rest)[..k + 12] == Encode(p)[..k + 12];
    PrefixShowsHeader(Head(Encode(p) + rest), Encode(p), k, preSkip);
  }

  lemma HeadIsRead(b: Bytes, k: nat, preSkip: nat)
    requires preSkip < 65536 && ShowsHeader(b, k, preSkip)
    ensures OpusHead(b) == Some(preSkip)
  {
    forall j | 0 <= j < k ensures !OpusAt(b, j) {
      NoOpusBefore(b, k, preSkip, j);
    }
    IndexIs(b, 0, k);
    assert Power256(2) == 65536;
    LittleEndianRoundTrip(preSkip, 2);
  }

  /** The pre-skip written in an identification header (RFC 7845, section 5.1) is the one read back. */
  lemma PreSkipRoundTrip(p: Page, preSkip: nat, rest: Bytes)
    requires IsIdentification(p, preSkip)
    ensures OpusHead(Head(Encode(p) + rest)) == Some(preSkip)
  {
    HeadBytes(p, preSkip, rest);
    HeadIsRead(Head(Encode(p) + rest), BodyStart(p), preSkip);
  }

  // ----- durations in 64-bit nanoseconds -----

  const SECOND := 1_000_000_000
  const OPUS_RATE := 48000
  const UINT32_LIMIT := 0x1_0000_0000

  /** Division that truncates toward zero. */
  function Quotient(a: int, b: nat): int
    requires b > 0
  {
    if a >= 0 then a / b else -(-a / b)
  }

  /** A sample count as nanoseconds, with the overflows of 64-bit arithmetic. */
  function DurationOf(samples: nat): int {
    Quotient(Wrap64(Wrap64(samples) * SECOND), OPUS_RATE)
  }

  /** Nanoseconds rounded to whole seconds, as an unsigned 32-bit number. */
  function Seconds(duration: int): nat {
    if duration <= 0 then 0 else Quotient(Wrap64(duration + SECOND / 2), SECOND) % UINT32_LIMIT
  }

  const MAX_SAMPLES := 9223372036

  lemma NoOverflow(samples: nat)
    requires samples <= MAX_SAMPLES
    ensures DurationOf(samples) == samples * SECOND / OPUS_RATE
  {
  }

  lemma TwoRoundings(samples: nat)
    ensures (samples * SECOND / OPUS_RATE + SECOND / 2) / SECOND == (samples + OPUS_RATE / 2) / OPUS_RATE
  {
    var q, r := (samples + 24000) / 48000, (samples + 24000) % 48000;
    var f := r * SECOND / OPUS_RATE;
    assert samples * SECOND == (q * SECOND - SECOND / 2) * OPUS_RATE + r * SECOND;
    assert samples * SECOND / OPUS_RATE == q * SECOND - SECOND / 2 + f;
    assert 0 <= f < SECOND;
  }

  lemma ShortDuration(duration: int)
    requires 0 <= duration <= INT64_LIMIT / OPUS_RATE
    ensures Seconds(duration) == (duration + SECOND / 2) / SECOND
  {
  }

  lemma DurationBound(samples: nat)
    ensures DurationOf(samples) <= INT64_LIMIT / OPUS_RATE
  {
  }

  /** Just above the limit the product wraps to a negative number. */
  lemma JustTooLong(samples: nat)
    requires MAX_SAMPLES < samples < 9223416000
    ensures DurationOf(samples) <= 0
  {
    assert Wrap64(samples) == samples;
    assert Wrap64(samples * SECOND) == samples * SECOND - 2 * INT64_LIMIT;
  }

  /** The seconds are the sample count divided by 48000, rounded, exactly up to 9223372036 samples. */
  lemma SecondsAreExact(samples: nat)
    requires samples <= NO_GRANULE
    ensures Seconds(DurationOf(samples)) == (samples + OPUS_RATE / 2) / OPUS_RATE <==> samples <= MAX_SAMPLES
  {
    DurationBound(samples);
    if samples <= MAX_SAMPLES {
      NoOverflow(samples);
      TwoRoundings(samples);
      ShortDuration(DurationOf(samples));
    } else if samples < 9223416000 {
      JustTooLong(samples);
    } else if DurationOf(samples) > 0 {
      ShortDuration(DurationOf(samples));
    }
  }

  // ----- the probe -----

  datatype Info = Info(isOggOpus: bool, duration: int)

  /** Samples played: the last granule position less the pre-skip. */
  function Played(granule: nat, preSkip: nat): nat {
    if granule > preSkip then granule - preSkip else 0
  }

  function DurationAfter(granule: Option<nat>, preSkip: nat): int {
    if granule.Some? && granule.value > preSkip then DurationOf(granule.value - preSkip) else 0
  }

  function ProbeOf(data: Bytes): Info {
    match OpusHead(Head(data))
    case None => Info(false, 0)
    case Some(preSkip) => Info(true, DurationAfter(TailGranule(data), preSkip))
  }

  /** A reader that can seek. */
  class Reader {
    const data: Bytes
    var position: nat

    constructor (data: Bytes)
      ensures this.data == data && position == 0
    {
      this.data := data;
      position := 0;
    }

    method SeekStart(offset: nat)
      modifies this
      ensures position == offset
    {
      position := offset;
    }

    method SeekEnd() returns (size: nat)
      modifies this
      ensures size == position == |data|
    {
      position := |data|;
      size := position;
    }

    /** Reads `n` bytes, or as many as are left. */
    method ReadFull(n: nat) returns (b: Bytes)
      requires position <= |data|
      modifies this
      ensures var end := if old(position) + n < |data| then old(position) + n else |data|;
              b == data[old(position)..end] && position == end
    {
      var end := if position + n < |data| then position + n else |data|;
      b := data[position..end];
      position := end;
    }
  }

  method ReadHead(r: Reader) returns (head: Bytes)
    modifies r
    ensures head == Head(r.data)
  {
    r.SeekStart(0);
    head := r.ReadFull(HEAD_LENGTH);
  }

  method ReadTail(r: Reader) returns (tail: Bytes)
    modifies r
    ensures tail == Tail(r.data)
  {
    var size := r.SeekEnd();
    var scan := if size < TAIL_SCAN then size else TAIL_SCAN;
    r.SeekStart(size - scan);
    tail := r.ReadFull(scan);
  }

  /** Reads the head and the tail of the stream and leaves the reader at its start. */
  method Probe(r: Reader) returns (info: Info)
    modifies r
    ensures info == ProbeOf(r.data) && r.position == 0
  {
    info := Info(false, 0);
    var head := ReadHead(r);
    var preSkip := OpusHead(head);
    if preSkip.Some? {
      var tail := ReadTail(r);
      var granule := LastGranule(tail);
      info := Info(true, DurationAfter(granule, preSkip.value));
    }
    r.SeekStart(0);
  }

  lemma ProbedDuration(data: Bytes, preSkip: nat, granule: nat)
    requires OpusHead(Head(data)) == Some(preSkip) && TailGranule(data) == Some(granule)
    ensures ProbeOf(data) == Info(true, DurationOf(Played(granule, preSkip)))
  {
    assert DurationOf(0) == 0;
  }

  lemma ProbedParts(id: Page, preSkip: nat, rest: Bytes, front: Bytes, last: Page, s: Bytes)
    requires IsIdentification(id, preSkip) && s == Encode(id) + rest
    requires ValidPage(last) && last.granule != NO_GRANULE && s == front + Encode(last)
    requires NoFalseHeader(s, |front|, [last])
    ensures ProbeOf(s) == Info(true, DurationOf(Played(last.granule, preSkip)))
  {
    LastPageIsFound(front, last);
    PreSkipRoundTrip(id, preSkip, rest);
    ProbedDuration(s, preSkip, last.granule);
  }

  /**
   For every stream that starts with an identification header and whose last page completes a packet,
   the probe reports the time of the last granule position less the pre-skip (RFC 7845, section 4).
   */
  lemma ProbeIsRight(id: Page, preSkip: nat, middle: seq<Page>, last: Page, s: Bytes)
    requires IsIdentification(id, preSkip) && ValidPage(last) && last.granule != NO_GRANULE
    requires s == (Encode(id) + Stream(middle)) + Encode(last)
    requires NoFalseHeader(s, |Encode(id) + Stream(middle)|, [last])
    ensures ProbeOf(s) == Info(true, DurationOf(Played(last.granule, preSkip)))
  {
    Associate(Encode(id), Stream(middle), Encode(last));
    ProbedParts(id, preSkip, Stream(middle) + Encode(last), Encode(id) + Stream(middle), last, s);
  }

  /** In whole seconds the answer is right exactly up to the 64-bit limit. */
  lemma ProbedSecondsAreRight(id: Page, preSkip: nat, middle: seq<Page>, last: Page, s: Bytes)
    requires IsIdentification(id, preSkip) && ValidPage(last) && last.granule != NO_GRANULE
    requires s == (Encode(id) + Stream(middle)) + Encode(last)
    requires NoFalseHeader(s, |Encode(id) + Stream(middle)|, [last])
    ensures var samples := Played(last.granule, preSkip);
            Seconds(ProbeOf(s).duration) == (samples + OPUS_RATE / 2) / OPUS_RATE <==> samples <= MAX_SAMPLES
  {
    ProbeIsRight(id, preSkip, middle, last, s);
    SecondsAreExact(Played(last.granule, preSkip));
  }
}
