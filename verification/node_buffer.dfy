/** The text encodings of Node's `Buffer` that the Node authorization helper
    uses: `Buffer.from(text)` writes UTF-8, `buf.toString('ascii')` clears
    the high bit of every byte and reads each one as a character. Also a
    UTF-8 decoder, the reading that undoes `Buffer.from(text)`. */
module NodeBuffer {

  newtype Byte = b: int | 0 <= b < 256

  predicate IsAscii(s: string) {
    forall i :: 0 <= i < |s| ==> s[i] as int < 128
  }

  /** `buf.toString('ascii')`: one character per byte, the byte with its
      high bit cleared. */
  function AsciiText(bytes: seq<Byte>): (s: string)
    ensures |s| == |bytes|
    ensures IsAscii(s)
    ensures forall i :: 0 <= i < |bytes| ==> s[i] as int == bytes[i] as int % 128
  {
    seq(|bytes|, i requires 0 <= i < |bytes| => (bytes[i] as int % 128) as char)
  }

  /** The UTF-8 bytes of one Unicode scalar value. */
  function Utf8Char(c: char): (b: seq<Byte>)
    ensures 1 <= |b| <= 4
    ensures |b| == 1 <==> c as int < 128
    ensures |b| == 1 ==> b[0] as int == c as int
  {
    var n := c as int;
    if n < 0x80 then [n as Byte]
    else if n < 0x800 then [(0xC0 + n / 64) as Byte, (0x80 + n % 64) as Byte]
    else if n < 0x10000 then
      [(0xE0 + n / 4096) as Byte, (0x80 + n / 64 % 64) as Byte, (0x80 + n % 64) as Byte]
    else
      [(0xF0 + n / 0x40000) as Byte, (0x80 + n / 4096 % 64) as Byte,
       (0x80 + n / 64 % 64) as Byte, (0x80 + n % 64) as Byte]
  }

  /** `Buffer.from(text)`: the UTF-8 encoding. It is as long as the text
      exactly when the text is ASCII, and then it is the text's own codes. */
  function Utf8Encode(s: string): (b: seq<Byte>)
    ensures |b| >= |s|
    ensures |b| == |s| <==> IsAscii(s)
    ensures IsAscii(s) ==> forall i :: 0 <= i < |s| ==> b[i] as int == s[i] as int
  {
    if s == [] then []
    else
      var rest := Utf8Encode(s[1..]);
      assert IsAscii(s) ==> IsAscii(s[1..]) by {
        if IsAscii(s) {
          forall i | 0 <= i < |s[1..]| ensures s[1..][i] as int < 128 {
            assert s[1..][i] == s[i + 1];
          }
        }
      }
      assert IsAscii(s[1..]) && s[0] as int < 128 ==> IsAscii(s) by {
        if IsAscii(s[1..]) && s[0] as int < 128 {
          forall i | 0 <= i < |s| ensures s[i] as int < 128 {
            if i > 0 { assert s[i] == s[1..][i - 1]; }
          }
        }
      }
      Utf8Char(s[0]) + rest
  }

  /** Reading `toString('ascii')` back gives the text written by
      `Buffer.from` exactly when that text is ASCII. */
  lemma {:induction false} AsciiReadsBackUtf8(s: string)
    ensures AsciiText(Utf8Encode(s)) == s <==> IsAscii(s)
  {
    var b := Utf8Encode(s);
    if IsAscii(s) {
      var t := AsciiText(b);
      assert |t| == |s|;
      forall i | 0 <= i < |s| ensures t[i] == s[i] {
        assert t[i] as int == s[i] as int;
      }
    }
  }

  /** A non-ASCII character comes back as other characters: "é" is written as
      the bytes C3 A9 and read as "C)". */
  lemma NonAsciiIsGarbled()
    ensures Utf8Encode("é") == [0xC3, 0xA9]
    ensures AsciiText(Utf8Encode("é")) == "C)"
  {
    assert Utf8Encode("é") == Utf8Char('é') + Utf8Encode([]);
    var t := AsciiText([0xC3, 0xA9]);
    assert t[0] as int == 0x43 && t[1] as int == 0x29;
  }

  predicate IsContinuation(b: Byte) {
    0x80 <= b < 0xC0
  }

  /** The scalar value carried by the two, three or four bytes at the head of `b`. */
  function Value2(b: seq<Byte>): int
    requires |b| >= 2
  {
    (b[0] as int - 0xC0) * 64 + (b[1] as int - 0x80)
  }

  function Value3(b: seq<Byte>): int
    requires |b| >= 3
  {
    (b[0] as int - 0xE0) * 4096 + (b[1] as int - 0x80) * 64 + (b[2] as int - 0x80)
  }

  function Value4(b: seq<Byte>): int
    requires |b| >= 4
  {
    (b[0] as int - 0xF0) * 0x40000 + (b[1] as int - 0x80) * 4096 + (b[2] as int - 0x80) * 64 + (b[3] as int - 0x80)
  }

  /** One step of UTF-8 decoding: a well-formed sequence of one to four bytes
      gives its character; any other lead byte gives U+FFFD and is skipped. */
  function DecodeOne(b: seq<Byte>): (r: (char, nat))
    requires |b| > 0
    ensures 1 <= r.1 <= |b|
  {
    var b0 := b[0];
    if b0 < 0x80 then (b0 as int as char, 1)
    else if 0xC2 <= b0 < 0xE0 && |b| >= 2 && IsContinuation(b[1]) then
      (Value2(b) as char, 2)
    else if 0xE0 <= b0 < 0xF0 && |b| >= 3 && IsContinuation(b[1]) && IsContinuation(b[2])
         && 0x800 <= Value3(b) && !(0xD800 <= Value3(b) < 0xE000) then
      (Value3(b) as char, 3)
    else if 0xF0 <= b0 < 0xF5 && |b| >= 4 && IsContinuation(b[1]) && IsContinuation(b[2]) && IsContinuation(b[3])
         && 0x10000 <= Value4(b) < 0x110000 then
      (Value4(b) as char, 4)
    else (0xFFFD as char, 1)
  }

  /** UTF-8 decoding, the reading `buf.toString('utf8')` performs on
      well-formed input; on malformed input this one gives one U+FFFD per
      rejected lead byte. */
  function Utf8Text(bytes: seq<Byte>): string
    decreases |bytes|
  {
    if bytes == [] then []
    else
      var (c, k) := DecodeOne(bytes);
      [c] + Utf8Text(bytes[k..])
  }

  /** Decoding reads one encoded character back, whatever follows it. */
  lemma DecodeOneInvertsUtf8Char(c: char, rest: seq<Byte>)
    ensures DecodeOne(Utf8Char(c) + rest) == (c, |Utf8Char(c)|)
  {
    var n := c as int;
    if n >= 0x800 && n < 0x10000 {
      assert n == n / 4096 * 4096 + n / 64 % 64 * 64 + n % 64;
    } else if n >= 0x10000 {
      assert n == n / 0x40000 * 0x40000 + n / 4096 % 64 * 4096 + n / 64 % 64 * 64 + n % 64;
    }
  }

  /** UTF-8 decoding undoes `Buffer.from(text)` for every text. */
  lemma {:induction false} Utf8RoundTrip(s: string)
    ensures Utf8Text(Utf8Encode(s)) == s
  {
    if s != [] {
      var head := Utf8Char(s[0]);
      var rest := Utf8Encode(s[1..]);
      DecodeOneInvertsUtf8Char(s[0], rest);
      assert Utf8Encode(s) == head + rest;
      assert (head + rest)[|head|..] == rest;
      Utf8RoundTrip(s[1..]);
    }
  }
}
