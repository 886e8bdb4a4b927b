/** The tunnel wire format: a two-byte big-endian length, then that many bytes of UTF-8 text. */
module Wire {

  newtype byte = x: int | 0 <= x < 256

  type Bytes = seq<byte>

  /** One step of UTF-8 decoding: the length of the well-formed sequence that starts `s`, if there is one
      (RFC 3629 section 4, which is what Rust's `String::from_utf8` accepts). */
  function LeadLength(s: Bytes): (n: nat)
    requires s != []
    ensures n <= 4 && n <= |s|
  {
    var a := s[0];
    if a < 0x80 then 1
    else if 0xC2 <= a <= 0xDF && |s| >= 2 && Cont(s[1]) then 2
    else if 0xE0 <= a <= 0xEF && |s| >= 3 && Cont(s[1]) && Cont(s[2])
            && (a == 0xE0 ==> s[1] >= 0xA0) && (a == 0xED ==> s[1] < 0xA0) then 3
    else if 0xF0 <= a <= 0xF4 && |s| >= 4 && Cont(s[1]) && Cont(s[2]) && Cont(s[3])
            && (a == 0xF0 ==> s[1] >= 0x90) && (a == 0xF4 ==> s[1] < 0x90) then 4
    else 0
  }

  predicate Cont(b: byte) { 0x80 <= b < 0xC0 }

  predicate ValidUtf8(s: Bytes)
    decreases |s|
  {
    s == [] || (LeadLength(s) > 0 && ValidUtf8(s[LeadLength(s)..]))
  }

  predicate Ascii(s: Bytes) { forall i :: 0 <= i < |s| ==> s[i] < 0x80 }

  lemma {:induction false} AsciiIsUtf8(s: Bytes)
    requires Ascii(s)
    ensures ValidUtf8(s)
    decreases |s|
  {
    if s != [] { AsciiIsUtf8(s[1..]); }
  }

  /** `(len as u16).to_be_bytes()`: the length is truncated to sixteen bits. */
  function LengthBytes(n: nat): (b: Bytes)
    ensures |b| == 2
  {
    var m := n % 0x1_0000;
    [(m / 256) as byte, (m % 256) as byte]
  }

  function LengthOf(hi: byte, lo: byte): nat { hi as nat * 256 + lo as nat }

  lemma LengthRoundTrip(n: nat)
    ensures var b := LengthBytes(n); LengthOf(b[0], b[1]) == n % 0x1_0000
  {
  }

  /** What the initiator writes to introduce the next hop or the final target. */
  function Frame(text: Bytes): Bytes { LengthBytes(|text|) + text }

  /** How many bytes the handler's two `read_exact` calls still want, given what they have read. */
  function Wanted(buf: Bytes): int
  {
    if |buf| < 2 then 2 - |buf|
    else 2 + LengthOf(buf[0], buf[1]) - |buf|
  }

  /** The text a complete header carries. */
  function Body(buf: Bytes): Bytes
    requires |buf| >= 2
  {
    buf[2..]
  }

  /** A frame in front of any other bytes is cut off exactly where it ends, and gives its text back,
      precisely when the text fits the sixteen-bit length. */
  ghost predicate CutsExactly(text: Bytes)
  {
    && Wanted(Frame(text)) == 0
    && (forall k :: 0 <= k < |Frame(text)| ==> Wanted(Frame(text)[..k]) > 0)
    && Body(Frame(text)) == text
  }

  lemma FrameCutsExactly(text: Bytes)
    ensures CutsExactly(text) <==> |text| <= 0xFFFF
  {
    var f := Frame(text);
    LengthRoundTrip(|text|);
    assert f[0] == LengthBytes(|text|)[0] && f[1] == LengthBytes(|text|)[1];
    assert Wanted(f) == |text| % 0x1_0000 - |text|;
    assert f[2..] == text;
    if |text| <= 0xFFFF {
      forall k | 0 <= k < |f| ensures Wanted(f[..k]) > 0 {
        if k >= 2 { assert f[..k][0] == f[0] && f[..k][1] == f[1]; }
      }
    }
  }

  const PEER_PREFIX: Bytes := [0x70, 0x65, 0x65, 0x72, 0x3A]  // "peer:"

  predicate StartsWith(s: Bytes, p: Bytes) { |p| <= |s| && s[..|p|] == p }
}
