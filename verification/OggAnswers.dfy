/** What the probe answers for any bytes at all, said of the bytes themselves. */
module OggAnswers {
  import opened Wrappers
  import opened OggPages
  import opened OggProbe

  /** "OpusHead" stands at `k`. */
  predicate SaysOpus(data: Bytes, k: nat) {
    && k + 8 <= |data|
    && data[k] == 0x4F && data[k + 1] == 0x70 && data[k + 2] == 0x75 && data[k + 3] == 0x73
    && data[k + 4] == 0x48 && data[k + 5] == 0x65 && data[k + 6] == 0x61 && data[k + 7] == 0x64
  }

  /** "OggS" stands at `i`. */
  predicate SaysOgg(data: Bytes, i: nat) {
    && i + 4 <= |data|
    && data[i] == 0x4F && data[i + 1] == 0x67 && data[i + 2] == 0x67 && data[i + 3] == 0x53
  }

  /** The data starts as an Ogg page, and the first "OpusHead" stands at `k`, where its header belongs and fits. */
  ghost predicate IsOpusAt(data: Bytes, k: nat) {
    && |data| >= 27 && SaysOgg(data, 0)
    && 27 <= k <= 128 && k + 12 <= |data| && SaysOpus(data, k)
    && forall j :: 0 <= j < k ==> !SaysOpus(data, j)
  }

  function Byte(data: Bytes, i: nat): nat
    requires i < |data|
  {
    data[i]
  }

  /** Bytes 6 to 13 of a page header, least significant first. */
  function GranuleOf(data: Bytes, i: nat): nat
    requires i + 14 <= |data|
  {
    Byte(data, i + 6) + 0x100 * Byte(data, i + 7) + 0x1_0000 * Byte(data, i + 8) + 0x100_0000 * Byte(data, i + 9)
    + 0x1_0000_0000 * Byte(data, i + 10) + 0x100_0000_0000 * Byte(data, i + 11)
    + 0x1_0000_0000_0000 * Byte(data, i + 12) + 0x100_0000_0000_0000 * Byte(data, i + 13)
  }

  /** Bytes 10 and 11 of an identification header. */
  function PreSkipOf(data: Bytes, k: nat): nat
    requires k + 12 <= |data|
  {
    Byte(data, k + 10) + 0x100 * Byte(data, k + 11)
  }

  lemma ReadTwo(b: Bytes)
    requires |b| == 2
    ensures FromLittleEndian(b) == Byte(b, 0) + 0x100 * Byte(b, 1)
  {
    assert FromLittleEndian(b[1..]) == b[1];
  }

  lemma ReadMore(b: Bytes, n: nat)
    requires |b| >= 2 && n == FromLittleEndian(b[2..])
    ensures FromLittleEndian(b) == Byte(b, 0) + 0x100 * Byte(b, 1) + 0x1_0000 * n
  {
    assert b[1..][1..] == b[2..];
  }

  lemma GranuleReads(data: Bytes, i: nat)
    requires i + 14 <= |data|
    ensures FromLittleEndian(data[i + 6..i + 14]) == GranuleOf(data, i)
  {
    var b := data[i + 6..i + 14];
    var c, d, e := b[2..], b[4..], b[6..];
    assert c[2..] == d && d[2..] == e;
    ReadTwo(e);
    ReadMore(d, FromLittleEndian(e));
    ReadMore(c, FromLittleEndian(d));
    ReadMore(b, FromLittleEndian(c));
  }

  /** A page header with a granule position, in the part that is scanned. */
  predicate CarriesGranule(data: Bytes, i: nat) {
    && |data| <= i + 65536 && i + 27 <= |data| && SaysOgg(data, i)
    && GranuleOf(data, i) != 0xFFFF_FFFF_FFFF_FFFF
  }

  ghost predicate IsLastGranule(data: Bytes, i: nat) {
    CarriesGranule(data, i) && forall j :: i < j < |data| ==> !CarriesGranule(data, j)
  }

  lemma SameOpus(data: Bytes, k: nat)
    ensures OpusAt(data, k) <==> SaysOpus(data, k)
  {
    if k + 8 <= |data| {
      var s := data[k..k + 8];
      assert forall i :: 0 <= i < 8 ==> s[i] == data[k + i];
      assert SaysOpus(data, k) ==> s == OPUS_MAGIC;
    }
  }

  lemma SameOgg(data: Bytes, i: nat)
    requires i + 4 <= |data|
    ensures data[i..i + 4] == MAGIC <==> SaysOgg(data, i)
  {
    var s := data[i..i + 4];
    assert forall j :: 0 <= j < 4 ==> s[j] == data[i + j];
    assert SaysOgg(data, i) ==> s == MAGIC;
  }

  lemma HeadSays(data: Bytes, k: nat)
    requires k <= 128
    ensures OpusAt(Head(data), k) <==> SaysOpus(data, k)
  {
    SameOpus(Head(data), k);
  }

  /** The first position of the identification header, if it is early enough. */
  lemma {:induction false} OpusIndexIs(b: Bytes, i: nat)
    requires i <= |b|
    ensures var k := OpusIndex(b, i);
            && (k >= 0 ==> i <= k && OpusAt(b, k) && forall j :: i <= j < k ==> !OpusAt(b, j))
            && (k < 0 ==> forall j :: i <= j ==> !OpusAt(b, j))
    decreases |b| - i
  {
    if !OpusAt(b, i) && i < |b| {
      OpusIndexIs(b, i + 1);
    }
  }

  lemma HeadIsOpus(data: Bytes, k: nat)
    requires IsOpusAt(data, k)
    ensures OpusHead(Head(data)) == Some(PreSkipOf(data, k))
  {
    var head := Head(data);
    SameOgg(data, 0);
    assert head[..4] == data[0..4];
    HeadSays(data, k);
    forall j | 0 <= j < k ensures !OpusAt(head, j) {
      HeadSays(data, j);
    }
    IndexIs(head, 0, k);
    ReadTwo(head[k + 10..k + 12]);
  }

  lemma OpusIsInHead(data: Bytes)
    requires OpusHead(Head(data)).Some?
    ensures IsOpusAt(data, OpusIndex(Head(data), 0))
  {
    var head := Head(data);
    SameOgg(data, 0);
    assert head[..4] == data[0..4];
    OpusIndexIs(head, 0);
    var k := OpusIndex(head, 0);
    HeadSays(data, k);
    forall j | 0 <= j < k ensures !SaysOpus(data, j) {
      HeadSays(data, j);
    }
  }

  /** The answer is yes exactly for data that starts as Ogg Opus. */
  lemma OpusIsRecognised(data: Bytes)
    ensures ProbeOf(data).isOggOpus <==> exists k :: IsOpusAt(data, k)
  {
    if k :| IsOpusAt(data, k) {
      HeadIsOpus(data, k);
    }
    if ProbeOf(data).isOggOpus {
      OpusIsInHead(data);
    }
  }

  lemma TailSays(data: Bytes, i: nat)
    requires |data| <= i + 65536
    ensures var tail := Tail(data);
            var at := i - (|data| - |tail|);
            at >= 0 && (at + HEADER_LENGTH <= |tail| ==> (Hit(tail, at) <==> CarriesGranule(data, i)))
    ensures i + 27 <= |data| ==> GranuleAt(Tail(data), i - (|data| - |Tail(data)|)) == GranuleOf(data, i)
  {
    var tail := Tail(data);
    var at := i - (|data| - |tail|);
    if i + 27 <= |data| {
      SameOgg(data, i);
      GranuleReads(data, i);
      assert tail[at..at + 4] == data[i..i + 4] && tail[at + 6..at + 14] == data[i + 6..i + 14];
    }
  }

  lemma LastGranuleIsScanned(data: Bytes, i: nat)
    requires IsLastGranule(data, i)
    ensures TailGranule(data) == Some(GranuleOf(data, i))
  {
    var tail := Tail(data);
    var base := |data| - |tail|;
    TailSays(data, i);
    forall j | i - base < j <= |tail| - HEADER_LENGTH ensures !Hit(tail, j) {
      TailSays(data, base + j);
    }
    ScanStopsAt(tail, |tail| - HEADER_LENGTH, i - base);
  }

  lemma NothingIsScanned(data: Bytes)
    requires forall i :: 0 <= i < |data| ==> !CarriesGranule(data, i)
    ensures TailGranule(data) == None
  {
    var tail := Tail(data);
    forall j | 0 <= j <= |tail| - HEADER_LENGTH ensures !Hit(tail, j) {
      TailSays(data, |data| - |tail| + j);
    }
    ScanFindsNothing(tail, |tail| - HEADER_LENGTH);
  }

  lemma OpusDuration(data: Bytes, k: nat, i: nat)
    requires IsOpusAt(data, k) && IsLastGranule(data, i)
    ensures ProbeOf(data).duration ==
            if GranuleOf(data, i) > PreSkipOf(data, k) then DurationOf(GranuleOf(data, i) - PreSkipOf(data, k)) else 0
  {
    HeadIsOpus(data, k);
    LastGranuleIsScanned(data, i);
  }

  /**
   The duration is zero unless the data is Ogg Opus with a granule position in its last 65536 bytes that
   is above the pre-skip; then it is that of the last such position less the pre-skip.
   */
  lemma DurationIs(data: Bytes)
    ensures forall k, i :: IsOpusAt(data, k) && IsLastGranule(data, i) ==>
              ProbeOf(data).duration ==
              if GranuleOf(data, i) > PreSkipOf(data, k) then DurationOf(GranuleOf(data, i) - PreSkipOf(data, k)) else 0
    ensures (forall k :: !IsOpusAt(data, k)) ==> ProbeOf(data).duration == 0
    ensures (forall i :: 0 <= i < |data| ==> !CarriesGranule(data, i)) ==> ProbeOf(data).duration == 0
  {
    forall k, i | IsOpusAt(data, k) && IsLastGranule(data, i)
      ensures ProbeOf(data).duration ==
              if GranuleOf(data, i) > PreSkipOf(data, k) then DurationOf(GranuleOf(data, i) - PreSkipOf(data, k)) else 0
    {
      OpusDuration(data, k, i);
    }
    OpusIsRecognised(data);
    if forall i :: 0 <= i < |data| ==> !CarriesGranule(data, i) {
      NothingIsScanned(data);
    }
  }
}
