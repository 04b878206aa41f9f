/** File names of the blob store: digests, extensions and how the sweeper reads them back. */
module MediaNames {
  import opened Wrappers
  import opened GoValues

  const SIDECAR_EXT := ".json"
  const TEMP_PREFIX := ".tmp-"

  predicate IsLowerHex(c: char) {
    '0' <= c <= '9' || 'a' <= c <= 'f'
  }

  predicate IsUpperHex(c: char) {
    'A' <= c <= 'F'
  }

  function LowerHex(c: char): char {
    if IsUpperHex(c) then c - 'A' + 'a' else c
  }

  /** A name in the form every stored path is built from. */
  predicate IsDigest(s: string) {
    |s| == 64 && forall i :: 0 <= i < 64 ==> IsLowerHex(s[i])
  }

  predicate IsHexDigest(s: string) {
    |s| == 64 && forall i :: 0 <= i < 64 ==> IsLowerHex(s[i]) || IsUpperHex(s[i])
  }

  function Normalize(s: string): (r: Option<string>)
    ensures r.Some? ==> IsDigest(r.value)
    ensures IsDigest(s) ==> r == Some(s)
  {
    if IsHexDigest(s) then
      var out := seq(64, i requires 0 <= i < 64 => LowerHex(s[i]));
      assert IsDigest(s) ==> out == s;
      Some(out)
    else None
  }

  /** The gate every path passes through: hex digits only, folded to lower case. */
  method NormalizeDigest(s: string) returns (r: Option<string>)
    ensures r == Normalize(s)
    ensures r.Some? <==> IsHexDigest(s)
    ensures r.Some? ==> Normalize(r.value) == r
  {
    if |s| != 64 {
      return None;
    }
    var out := "";
    for i := 0 to 64
      invariant |out| == i
      invariant forall k :: 0 <= k < i ==> IsLowerHex(s[k]) || IsUpperHex(s[k])
      invariant forall k :: 0 <= k < i ==> out[k] == LowerHex(s[k])
    {
      var c := s[i];
      if IsLowerHex(c) {
        out := out + [c];
      } else if IsUpperHex(c) {
        out := out + [c - 'A' + 'a'];
      } else {
        return None;
      }
    }
    assert out == Normalize(s).value;
    r := Some(out);
  }

  // ----- extensions -----

  predicate IsAlnum(c: char) {
    '0' <= c <= '9' || 'a' <= c <= 'z' || 'A' <= c <= 'Z'
  }

  function Lower(c: char): char {
    if 'A' <= c <= 'Z' then c - 'A' + 'a' else c
  }

  /** What an extension looks like on disk: a dot, then at most 15 lower-case alphanumerics. */
  predicate SafeExt(ext: string) {
    && 1 <= |ext| <= 16
    && ext[0] == '.'
    && forall i :: 1 <= i < |ext| ==> IsAlnum(ext[i]) && Lower(ext[i]) == ext[i]
  }

  /** Nothing but letters and digits behind the dot. */
  predicate IsPlain(ext: string) {
    forall i :: 1 <= i < |ext| ==> IsAlnum(ext[i])
  }

  function SanitizeExt(raw: string): (r: string)
    ensures SafeExt(r)
    ensures SafeExt(raw) ==> r == raw
  {
    if raw == "" then ".bin"
    else
      var ext := if raw[0] == '.' then raw else "." + raw;
      if |ext| > 16 then ".bin"
      else if !IsPlain(ext) then ".bin"
      else
        var r := seq(|ext|, i requires 0 <= i < |ext| => Lower(ext[i]));
        assert SafeExt(raw) ==> r == raw;
        r
  }

  function TableExt(base: string): (r: Option<string>)
    ensures r.Some? ==> SafeExt(r.value) && r.value != SIDECAR_EXT
  {
    match base
    case "image/jpeg" => Some(".jpg")
    case "image/png" => Some(".png")
    case "image/webp" => Some(".webp")
    case "image/gif" => Some(".gif")
    case "video/mp4" => Some(".mp4")
    case "video/3gpp" => Some(".3gp")
    case "video/quicktime" => Some(".mov")
    case "video/webm" => Some(".webm")
    case "audio/ogg" => Some(".ogg")
    case "audio/opus" => Some(".opus")
    case "audio/mpeg" => Some(".mp3")
    case "audio/mp4" => Some(".m4a")
    case "audio/aac" => Some(".aac")
    case "audio/amr" => Some(".amr")
    case "audio/wav" => Some(".wav")
    case "audio/x-wav" => Some(".wav")
    case "application/pdf" => Some(".pdf")
    case "text/plain" => Some(".txt")
    case _ => None
  }

  /** `base` is the parsed media type, `system` what the system MIME database lists for it. */
  function ExtensionFor(base: string, system: seq<string>): (r: string)
    ensures SafeExt(r)
  {
    match TableExt(base)
    case Some(ext) => ext
    case None => if system != [] then SanitizeExt(system[0]) else ".bin"
  }

  // ----- reading a directory entry -----

  function Ext(name: string): (r: string)
    ensures |r| <= |name| && name[|name| - |r|..] == r
  {
    if name == "" then ""
    else
      var last := |name| - 1;
      if name[last] == '.' then "."
      else
        var r := Ext(name[..last]);
        if r == "" then "" else r + [name[last]]
  }

  function Stem(name: string): string {
    name[..|name| - |Ext(name)|]
  }

  predicate IsTemp(name: string) {
    TEMP_PREFIX <= name
  }

  function DigestOf(name: string): Option<string> {
    Normalize(Stem(name))
  }

  predicate IsSidecar(name: string) {
    !IsTemp(name) && DigestOf(name).Some? && HasSuffix(name, SIDECAR_EXT)
  }

  predicate IsBlob(name: string) {
    !IsTemp(name) && DigestOf(name).Some? && !HasSuffix(name, SIDECAR_EXT)
  }

  lemma {:induction false} ExtAppend(stem: string, ext: string)
    requires ext != "" && ext[0] == '.'
    requires forall i :: 1 <= i < |ext| ==> ext[i] != '.'
    ensures Ext(stem + ext) == ext
  {
    var name := stem + ext;
    assert name[..|name| - 1] == stem + ext[..|ext| - 1];
    if |ext| > 1 {
      ExtAppend(stem, ext[..|ext| - 1]);
      assert ext == ext[..|ext| - 1] + [ext[|ext| - 1]];
    }
  }

  /** A name built from a digest and a safe extension reads back as exactly those two parts. */
  lemma PathRoundTrip(digest: string, ext: string)
    requires IsDigest(digest) && SafeExt(ext)
    ensures Ext(digest + ext) == ext && Stem(digest + ext) == digest
    ensures DigestOf(digest + ext) == Some(digest)
    ensures if ext == SIDECAR_EXT then IsSidecar(digest + ext) else IsBlob(digest + ext)
  {
    ExtAppend(digest, ext);
    var name := digest + ext;
    assert name[..|name| - |ext|] == digest;
    assert name[0] == digest[0] != '.';
    if HasSuffix(name, SIDECAR_EXT) {
      var front := name[..|name| - 5];
      assert name == front + SIDECAR_EXT;
      ExtAppend(front, SIDECAR_EXT);
    }
  }

  /** Distinct digests, or distinct extensions, never share a path. */
  lemma PathInjective(d1: string, e1: string, d2: string, e2: string)
    requires |d1| == |d2| == 64 && d1 + e1 == d2 + e2
    ensures d1 == d2 && e1 == e2
  {
    assert d1 == (d1 + e1)[..64] && e1 == (d1 + e1)[64..];
    assert d2 == (d2 + e2)[..64] && e2 == (d2 + e2)[64..];
  }
}
