/**
 * UTF-8 as Python's strict decoder reads it (`bytes.decode('utf-8')`): a
 * byte string decodes only when it is a sequence of well-formed code-unit
 * sequences (Table 3-7 of the Unicode Standard, section 3.9); otherwise the
 * decode raises UnicodeDecodeError. `str.encode()` is the encoder.
 */
module Utf8 {
  import opened Bytes

  /** A continuation byte, 80..BF. */
  predicate Cont(x: byte) {
    0x80 <= x <= 0xBF
  }

  /** The second byte of a three-byte sequence: narrower after E0 (no overlongs) and ED (no surrogates). */
  predicate Second3(b0: byte, b1: byte) {
    if b0 == 0xE0 then 0xA0 <= b1 <= 0xBF
    else if b0 == 0xED then 0x80 <= b1 <= 0x9F
    else Cont(b1)
  }

  /** The second byte of a four-byte sequence: narrower after F0 (no overlongs) and F4 (nothing past U+10FFFF). */
  predicate Second4(b0: byte, b1: byte) {
    if b0 == 0xF0 then 0x90 <= b1 <= 0xBF
    else if b0 == 0xF4 then 0x80 <= b1 <= 0x8F
    else Cont(b1)
  }

  /** The length of the well-formed sequence at the front of `b`, or 0 when the front is ill-formed. */
  function Leading(b: seq<byte>): (n: nat)
    requires |b| > 0
    ensures n <= 4 && n <= |b|
  {
    var b0 := b[0];
    if b0 <= 0x7F then 1
    else if 0xC2 <= b0 <= 0xDF then
      (if |b| >= 2 && Cont(b[1]) then 2 else 0)
    else if 0xE0 <= b0 <= 0xEF then
      (if |b| >= 3 && Second3(b0, b[1]) && Cont(b[2]) then 3 else 0)
    else if 0xF0 <= b0 <= 0xF4 then
      (if |b| >= 4 && Second4(b0, b[1]) && Cont(b[2]) && Cont(b[3]) then 4 else 0)
    else 0
  }

  /** Whether `b.decode('utf-8')` succeeds. */
  predicate Valid(b: seq<byte>)
    decreases |b|
  {
    |b| == 0 || (Leading(b) > 0 && Valid(b[Leading(b)..]))
  }

  /** The UTF-8 bytes of one Unicode scalar value. */
  function EncodeChar(c: char): (b: seq<byte>)
    ensures 1 <= |b| <= 4 && Leading(b) == |b|
  {
    var cp := c as int;
    if cp < 0x80 then [cp]
    else if cp < 0x800 then Encode2(cp)
    else if cp < 0x1_0000 then Encode3(cp)
    else Encode4(cp)
  }

  /** Two bytes for U+0080..U+07FF: five high bits, then six. */
  function Encode2(cp: int): (b: seq<byte>)
    requires 0x80 <= cp < 0x800
    ensures |b| == 2 && Leading(b) == 2
  {
    var hi, lo := cp / 64, cp % 64;
    assert 2 <= hi < 32;
    [0xC0 + hi, 0x80 + lo]
  }

  /** Three bytes for U+0800..U+FFFF outside the surrogates: four high bits, then six and six. */
  function Encode3(cp: int): (b: seq<byte>)
    requires 0x800 <= cp < 0x1_0000 && !(0xD800 <= cp < 0xE000)
    ensures |b| == 3 && Leading(b) == 3
  {
    var hi, rest := cp / 0x1000, cp % 0x1000;
    var mid, lo := rest / 64, rest % 64;
    assert 0 <= hi < 16 && 0 <= mid < 64;
    assert hi == 0 ==> mid >= 32;
    assert hi == 13 ==> mid < 32;
    [0xE0 + hi, 0x80 + mid, 0x80 + lo]
  }

  /** Four bytes for U+10000..U+10FFFF: three high bits, then three groups of six. */
  function Encode4(cp: int): (b: seq<byte>)
    requires 0x1_0000 <= cp < 0x11_0000
    ensures |b| == 4 && Leading(b) == 4
  {
    var hi, rest := cp / 0x4_0000, cp % 0x4_0000;
    var top, low := rest / 0x1000, rest % 0x1000;
    var mid, lo := low / 64, low % 64;
    assert 0 <= hi <= 4 && 0 <= top < 64 && 0 <= mid < 64;
    assert hi == 0 ==> top >= 16;
    assert hi == 4 ==> top < 16;
    [0xF0 + hi, 0x80 + top, 0x80 + mid, 0x80 + lo]
  }

  /** `s.encode('utf-8')`. */
  function Encode(s: string): (b: seq<byte>)
    ensures Valid(b)
    ensures |s| <= |b| <= 4 * |s|
  {
    if |s| == 0 then []
    else
      var head, tail := EncodeChar(s[0]), Encode(s[1..]);
      PrefixThenValid(head, tail);
      head + tail
  }

  /** A well-formed sequence in front of valid bytes keeps them valid. */
  lemma PrefixThenValid(x: seq<byte>, y: seq<byte>)
    requires |x| > 0 && Leading(x) == |x| && Valid(y)
    ensures Valid(x + y)
  {
    var b := x + y;
    assert b[..|x|] == x;
    assert Leading(b) == |x|;
    assert b[|x|..] == y;
  }

  /** Bytes after a well-formed front sequence do not change where it ends. */
  lemma LeadingExtends(x: seq<byte>, y: seq<byte>)
    requires |x| > 0 && Leading(x) > 0
    ensures Leading(x + y) == Leading(x)
  {
    var b := x + y;
    assert b[0] == x[0];
    if |x| >= 2 { assert b[1] == x[1]; }
    if |x| >= 3 { assert b[2] == x[2]; }
    if |x| >= 4 { assert b[3] == x[3]; }
  }

  /** Valid byte strings concatenate to a valid byte string: decoding is per sequence. */
  lemma {:induction false} AppendValid(x: seq<byte>, y: seq<byte>)
    requires Valid(x) && Valid(y)
    ensures Valid(x + y)
    decreases |x|
  {
    if |x| > 0 {
      var n := Leading(x);
      var b := x + y;
      LeadingExtends(x, y);
      AppendValid(x[n..], y);
      assert b[n..] == x[n..] + y;
    } else {
      assert x + y == y;
    }
  }

  /** Plain ASCII always decodes; a lone byte above 7F (a continuation or a bare lead) never does. */
  lemma {:induction false} AsciiOnly(b: seq<byte>)
    requires forall i :: 0 <= i < |b| ==> b[i] <= 0x7F
    ensures Valid(b)
    decreases |b|
  {
    if |b| > 0 {
      AsciiOnly(b[1..]);
    }
  }

  /** `b'\xff'.decode('utf-8')` and `b'\xc3'.decode('utf-8')` raise. */
  lemma HighBytesInvalid()
    ensures !Valid([0xFF]) && !Valid([0xC3]) && !Valid([0x80])
    ensures Valid([0xC3, 0xA9]) && !Valid([0xED, 0xA0, 0x80])
  {
    assert Leading([0xC3, 0xA9]) == 2 && [0xC3, 0xA9][2..] == [];
  }
}
