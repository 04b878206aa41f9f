/** Ogg pages (RFC 3533, section 6) as bytes. */
module OggPages {
  type byte = x: int | 0 <= x < 256

  type Bytes = seq<byte>

  function Power256(n: nat): nat {
    if n == 0 then 1 else 256 * Power256(n - 1)
  }

  /** `v` in `n` bytes, least significant first. */
  function LittleEndian(v: nat, n: nat): (b: Bytes)
    ensures |b| == n
  {
    if n == 0 then [] else [v % 256] + LittleEndian(v / 256, n - 1)
  }

  function FromLittleEndian(b: Bytes): nat {
    if b == [] then 0 else b[0] + 256 * FromLittleEndian(b[1..])
  }

  lemma {:induction false} LittleEndianRoundTrip(v: nat, n: nat)
    requires v < Power256(n)
    ensures FromLittleEndian(LittleEndian(v, n)) == v
  {
    if n > 0 {
      LittleEndianRoundTrip(v / 256, n - 1);
      assert LittleEndian(v, n)[1..] == LittleEndian(v / 256, n - 1);
    }
  }

  /** The largest unsigned 64-bit value marks a page on which no packet ends. */
  const NO_GRANULE: nat := 0xFFFF_FFFF_FFFF_FFFF

  const MAGIC: Bytes := [0x4F, 0x67, 0x67, 0x53]

  const HEADER_LENGTH := 27

  /** A page: `serial`, `sequence` and `checksum` are four bytes each, `lacing` holds the segment sizes. */
  datatype Page = Page(headerType: byte, granule: nat, serial: Bytes, sequence: Bytes, checksum: Bytes,
                       lacing: Bytes, body: Bytes)

  function Total(lacing: Bytes): nat {
    if lacing == [] then 0 else lacing[0] + Total(lacing[1..])
  }

  ghost predicate ValidPage(p: Page) {
    && p.granule <= NO_GRANULE && |p.serial| == 4 && |p.sequence| == 4 && |p.checksum| == 4
    && |p.lacing| <= 255 && |p.body| == Total(p.lacing)
  }

  function Header(p: Page): Bytes {
    MAGIC + [0, p.headerType] + LittleEndian(p.granule, 8) + p.serial + p.sequence + p.checksum
  }

  function Encode(p: Page): Bytes {
    Header(p) + [|p.lacing| % 256] + p.lacing + p.body
  }

  function Stream(pages: seq<Page>): Bytes {
    if pages == [] then [] else Encode(pages[0]) + Stream(pages[1..])
  }

  lemma {:induction false} TotalBound(lacing: Bytes)
    ensures Total(lacing) <= 255 * |lacing|
  {
    if lacing != [] {
      TotalBound(lacing[1..]);
    }
  }

  /** A page has at least a header and never more than 65307 bytes. */
  lemma PageBound(p: Page)
    requires ValidPage(p)
    ensures HEADER_LENGTH <= |Encode(p)| <= 65307
  {
    TotalBound(p.lacing);
  }

  // ----- looking at a position of a buffer -----

  predicate MagicAt(buf: Bytes, i: int) {
    0 <= i <= |buf| - HEADER_LENGTH && buf[i..i + 4] == MAGIC
  }

  function GranuleAt(buf: Bytes, i: nat): nat
    requires i + 14 <= |buf|
  {
    FromLittleEndian(buf[i + 6..i + 14])
  }

  /** A header that carries the granule position of a completed packet. */
  predicate Hit(buf: Bytes, i: int) {
    MagicAt(buf, i) && GranuleAt(buf, i) != NO_GRANULE
  }

  lemma EncodedPage(p: Page, rest: Bytes)
    requires ValidPage(p)
    ensures MagicAt(Encode(p) + rest, 0) && GranuleAt(Encode(p) + rest, 0) == p.granule
  {
    var s := Encode(p) + rest;
    PageBound(p);
    assert s[0..4] == MAGIC;
    assert s[6..14] == LittleEndian(p.granule, 8);
    assert Power256(8) == NO_GRANULE + 1 by {
      assert Power256(2) == 65536 && Power256(4) == 0x1_0000_0000 && Power256(6) == 0x1_0000_0000_0000;
    }
    LittleEndianRoundTrip(p.granule, 8);
  }

  lemma Shifted(front: Bytes, s: Bytes, i: int)
    requires i >= 0
    ensures MagicAt(front + s, |front| + i) <==> MagicAt(s, i)
    ensures MagicAt(s, i) ==> GranuleAt(front + s, |front| + i) == GranuleAt(s, i)
  {
    if i + HEADER_LENGTH <= |s| {
      assert (front + s)[|front| + i..|front| + i + 4] == s[i..i + 4];
      assert (front + s)[|front| + i + 6..|front| + i + 14] == s[i + 6..i + 14];
    }
  }
}
