/** How the portable storage layout renders keys, byte strings and enum
    discriminants as text.

    A `LayoutKey` is a 32-bit storage key; the metadata writes it as `0x`
    followed by the hexadecimal digits of its four big-endian bytes, so a key
    always takes exactly ten characters.  A byte string (a hashing prefix or
    postfix) is written the same way, with one exception: the empty byte string
    is written as the empty string, not as `0x`.  Enum variants are keyed by the
    decimal digits of their discriminant. */
module Render {

  import opened Wrappers

  type byte = b: int | 0 <= b < 256

  /** The width of a storage key: a `u32`. */
  const KeyModulus: nat := 0x1_0000_0000

  type StorageKey = k: int | 0 <= k < 0x1_0000_0000

  // ---------------------------------------------------------------------------
  // Hex digits

  predicate IsLowerHex(c: char) {
    ('0' <= c <= '9') || ('a' <= c <= 'f')
  }

  function HexDigit(n: nat): (c: char)
    requires n < 16
    ensures IsLowerHex(c) && DigitValue(c) == n
  {
    if n < 10 then ('0' as int + n) as char else ('a' as int + n - 10) as char
  }

  /** The value of one lowercase hex digit; an inverse of `HexDigit`. */
  function DigitValue(c: char): nat
    requires IsLowerHex(c)
  {
    if c <= '9' then (c - '0') as nat else (c - 'a') as nat + 10
  }

  /** The big-endian value of a string of hex digits. */
  function HexValue(s: string): nat
    requires forall i :: 0 <= i < |s| ==> IsLowerHex(s[i])
  {
    if s == [] then 0 else HexValue(s[..|s| - 1]) * 16 + DigitValue(s[|s| - 1])
  }

  /** The big-endian value of a byte string. */
  function BytesValue(bs: seq<byte>): nat {
    if bs == [] then 0 else BytesValue(bs[..|bs| - 1]) * 256 + bs[|bs| - 1]
  }

  // ---------------------------------------------------------------------------
  // Byte strings

  /** Two digits per byte, high nibble first, no prefix. */
  function BytesHex(bs: seq<byte>): (s: string)
    ensures |s| == 2 * |bs|
    ensures forall i :: 0 <= i < |s| ==> IsLowerHex(s[i])
  {
    if bs == [] then ""
    else BytesHex(bs[..|bs| - 1]) + [HexDigit(bs[|bs| - 1] / 16), HexDigit(bs[|bs| - 1] % 16)]
  }

  /** Hex digits of a concatenation are the concatenation of the digits. */
  lemma {:induction false} BytesHexAppend(a: seq<byte>, b: seq<byte>)
    ensures BytesHex(a + b) == BytesHex(a) + BytesHex(b)
    decreases |b|
  {
    if b != [] {
      var init, last := b[..|b| - 1], b[|b| - 1];
      var ab := a + b;
      assert ab[..|ab| - 1] == a + init && ab[|ab| - 1] == last;
      BytesHexAppend(a, init);
      var pair := [HexDigit(last / 16), HexDigit(last % 16)];
      assert BytesHex(ab) == BytesHex(a + init) + pair;
      assert BytesHex(b) == BytesHex(init) + pair;
    } else {
      assert a + b == a;
    }
  }

  /** The rendering of a byte string in the metadata: empty stays empty,
      anything else is `0x` and its hex digits. */
  function RenderBytes(bs: seq<byte>): (s: string)
    ensures bs == [] <==> s == ""
    ensures bs != [] ==> |s| == 2 + 2 * |bs| && s[..2] == "0x"
    ensures bs != [] ==> forall i :: 2 <= i < |s| ==> IsLowerHex(s[i])
  {
    if bs == [] then "" else "0x" + BytesHex(bs)
  }

  /** Reads back a hex string of even length, two digits per byte. */
  function ParseHexPairs(s: string): Option<seq<byte>>
    decreases |s|
  {
    if s == [] then Some([])
    else if |s| < 2 || !IsLowerHex(s[|s| - 2]) || !IsLowerHex(s[|s| - 1]) then None
    else
      match ParseHexPairs(s[..|s| - 2])
      case None => None
      case Some(init) => Some(init + [DigitValue(s[|s| - 2]) * 16 + DigitValue(s[|s| - 1])])
  }

  /** The reading a metadata consumer applies to a rendered byte string. */
  function ParseBytes(s: string): Option<seq<byte>> {
    if s == "" then Some([])
    else if |s| < 4 || s[..2] != "0x" then None
    else ParseHexPairs(s[2..])
  }

  lemma {:induction false} ParseHexPairsOfBytesHex(bs: seq<byte>)
    ensures ParseHexPairs(BytesHex(bs)) == Some(bs)
    decreases |bs|
  {
    if bs != [] {
      var init, b := bs[..|bs| - 1], bs[|bs| - 1];
      var s := BytesHex(bs);
      var hi, lo := HexDigit(b / 16), HexDigit(b % 16);
      assert s == BytesHex(init) + [hi, lo];
      ParseHexPairsOfBytesHex(init);
      ParseHexPairsSnoc(BytesHex(init), hi, lo);
      NibblesRecombine(b);
      assert init + [b] == bs;
    }
  }

  /** Two more digits read as one more byte. */
  lemma ParseHexPairsSnoc(t: string, hi: char, lo: char)
    requires IsLowerHex(hi) && IsLowerHex(lo) && ParseHexPairs(t).Some?
    ensures ParseHexPairs(t + [hi, lo]) == Some(ParseHexPairs(t).value + [DigitValue(hi) * 16 + DigitValue(lo)])
  {
    var s := t + [hi, lo];
    assert s[..|s| - 2] == t && s[|s| - 2] == hi && s[|s| - 1] == lo;
  }

  /** The high and the low nibble give the byte back. */
  lemma NibblesRecombine(b: byte)
    ensures DigitValue(HexDigit(b / 16)) * 16 + DigitValue(HexDigit(b % 16)) == b
  {
  }

  /** Rendering a byte string loses nothing: the consumer reads back the very
      same bytes, the empty string included. */
  lemma RenderBytesRoundTrip(bs: seq<byte>)
    ensures ParseBytes(RenderBytes(bs)) == Some(bs)
  {
    if bs != [] {
      var s := RenderBytes(bs);
      assert s[2..] == BytesHex(bs);
      ParseHexPairsOfBytesHex(bs);
    }
  }

  lemma {:induction false} HexValueOfBytesHex(bs: seq<byte>)
    ensures HexValue(BytesHex(bs)) == BytesValue(bs)
    decreases |bs|
  {
    if bs != [] {
      var init, b := bs[..|bs| - 1], bs[|bs| - 1];
      var s := BytesHex(bs);
      var h := BytesHex(init);
      assert s == h + [HexDigit(b / 16), HexDigit(b % 16)];
      assert s[..|s| - 1] == h + [HexDigit(b / 16)];
      assert s[..|s| - 1][..|s| - 2] == h;
      HexValueOfBytesHex(init);
      calc {
        HexValue(s);
        HexValue(s[..|s| - 1]) * 16 + b % 16;
        (HexValue(h) * 16 + b / 16) * 16 + b % 16;
        HexValue(h) * 256 + b;
      }
    }
  }

  // ---------------------------------------------------------------------------
  // Keys

  /** The four big-endian bytes of a 32-bit key. */
  function KeyBytes(k: StorageKey): (bs: seq<byte>)
    ensures |bs| == 4
  {
    [k / 0x100_0000, (k / 0x1_0000) % 256, (k / 256) % 256, k % 256]
  }

  /** The value of a four-byte string, written out. */
  lemma FourBytesValue(bs: seq<byte>)
    requires |bs| == 4
    ensures BytesValue(bs) == ((bs[0] as int * 256 + bs[1]) * 256 + bs[2]) * 256 + bs[3]
  {
    var p1, p2, p3 := bs[..1], bs[..2], bs[..3];
    assert p1[..0] == [] && p2[..1] == p1 && p3[..2] == p2 && bs[..3] == p3;
    assert BytesValue(p1) == bs[0];
    assert BytesValue(p2) == bs[0] as int * 256 + bs[1];
    assert BytesValue(p3) == (bs[0] as int * 256 + bs[1]) * 256 + bs[2];
  }

  /** The digits of a four-byte string, written out. */
  lemma FourBytesHex(bs: seq<byte>)
    requires |bs| == 4
    ensures BytesHex(bs) == [HexDigit(bs[0] / 16), HexDigit(bs[0] % 16), HexDigit(bs[1] / 16), HexDigit(bs[1] % 16),
                             HexDigit(bs[2] / 16), HexDigit(bs[2] % 16), HexDigit(bs[3] / 16), HexDigit(bs[3] % 16)]
  {
    var p1, p2, p3 := bs[..1], bs[..2], bs[..3];
    assert p1[..0] == [] && p2[..1] == p1 && p3[..2] == p2 && bs[..3] == p3;
    assert BytesHex(p1) == [HexDigit(bs[0] / 16), HexDigit(bs[0] % 16)];
    assert BytesHex(p2) == BytesHex(p1) + [HexDigit(bs[1] / 16), HexDigit(bs[1] % 16)];
    assert BytesHex(p3) == BytesHex(p2) + [HexDigit(bs[2] / 16), HexDigit(bs[2] % 16)];
  }

  lemma KeyBytesValue(k: StorageKey)
    ensures BytesValue(KeyBytes(k)) == k
  {
    FourBytesValue(KeyBytes(k));
    assert k / 0x1_0000 == (k / 0x100_0000) * 256 + (k / 0x1_0000) % 256;
    assert k / 256 == (k / 0x1_0000) * 256 + (k / 256) % 256;
  }

  /** The rendering of a `LayoutKey`. */
  function RenderKey(k: StorageKey): (s: string)
    ensures |s| == 10 && s[..2] == "0x"
    ensures forall i :: 2 <= i < |s| ==> IsLowerHex(s[i])
  {
    RenderBytes(KeyBytes(k))
  }

  /** A rendered key is `0x` followed by exactly eight lowercase hex digits
      whose value is the key itself. */
  lemma RenderKeyShape(k: StorageKey)
    ensures |RenderKey(k)| == 10 && RenderKey(k)[..2] == "0x"
    ensures forall i :: 2 <= i < 10 ==> IsLowerHex(RenderKey(k)[i])
    ensures HexValue(RenderKey(k)[2..]) == k
  {
    var s := RenderKey(k);
    assert s[2..] == BytesHex(KeyBytes(k));
    HexValueOfBytesHex(KeyBytes(k));
    KeyBytesValue(k);
  }

  /** Distinct keys never render alike. */
  lemma RenderKeyInjective(k1: StorageKey, k2: StorageKey)
    requires RenderKey(k1) == RenderKey(k2)
    ensures k1 == k2
  {
    RenderKeyShape(k1);
    RenderKeyShape(k2);
  }

  // ---------------------------------------------------------------------------
  // Decimal discriminants

  function DecimalDigit(n: nat): (c: char)
    requires n < 10
    ensures '0' <= c <= '9'
  {
    ('0' as int + n) as char
  }

  /** The decimal digits of `n`, without leading zeros (`0` is "0"). */
  function Decimal(n: nat): (s: string)
    ensures |s| > 0 && forall i :: 0 <= i < |s| ==> '0' <= s[i] <= '9'
    ensures |s| > 1 ==> s[0] != '0'
  {
    if n < 10 then [DecimalDigit(n)] else Decimal(n / 10) + [DecimalDigit(n % 10)]
  }

  /** The value of a string of decimal digits. */
  function DecimalValue(s: string): nat
    requires forall i :: 0 <= i < |s| ==> '0' <= s[i] <= '9'
  {
    if s == [] then 0 else DecimalValue(s[..|s| - 1]) * 10 + (s[|s| - 1] - '0') as nat
  }

  lemma {:induction false} DecimalRoundTrip(n: nat)
    ensures DecimalValue(Decimal(n)) == n
  {
    if n >= 10 {
      var s := Decimal(n);
      assert s[..|s| - 1] == Decimal(n / 10);
      DecimalRoundTrip(n / 10);
    }
  }

  /** Variant keys never collide: distinct discriminants have distinct names. */
  lemma DecimalInjective(m: nat, n: nat)
    requires Decimal(m) == Decimal(n)
    ensures m == n
  {
    DecimalRoundTrip(m);
    DecimalRoundTrip(n);
  }

  // ---------------------------------------------------------------------------
  // The concrete renderings the metadata tests expect

  lemma RenderedKeyOne()
    ensures RenderKey(1) == "0x00000001"
  {
    assert KeyBytes(1) == [0, 0, 0, 1];
    FourBytesHex(KeyBytes(1));
  }

  lemma RenderedKey345()
    ensures RenderKey(345) == "0x00000159"
  {
    assert KeyBytes(345) == [0, 0, 1, 89];
    FourBytesHex(KeyBytes(345));
  }

  lemma RenderedKey234()
    ensures RenderKey(234) == "0x000000ea"
  {
    assert KeyBytes(234) == [0, 0, 0, 234];
    FourBytesHex(KeyBytes(234));
  }

  lemma RenderedKey123()
    ensures RenderKey(123) == "0x0000007b"
  {
    assert KeyBytes(123) == [0, 0, 0, 123];
    FourBytesHex(KeyBytes(123));
  }

  lemma RenderedKey456()
    ensures RenderKey(456) == "0x000001c8"
  {
    assert KeyBytes(456) == [0, 0, 1, 200];
    FourBytesHex(KeyBytes(456));
  }

  lemma RenderedKey567()
    ensures RenderKey(567) == "0x00000237"
  {
    assert KeyBytes(567) == [0, 0, 2, 55];
    FourBytesHex(KeyBytes(567));
  }
}
