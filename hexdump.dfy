/**
 * dump_byte_slice of the xlutil package: each byte of a bytes-like object
 * becomes its two-digit lower-case hex text ("%02x"), and the pieces are
 * joined with ''.join.
 */
module HexDump {
  import opened Common

  /** The lower-case hex digit of 0..15. */
  function HexDigit(k: int): (c: char)
    requires 0 <= k < 16
    ensures IsHexDigit(c)
  {
    if k < 10 then ('0' as int + k) as char else ('a' as int + k - 10) as char
  }

  predicate IsHexDigit(c: char) { '0' <= c <= '9' || 'a' <= c <= 'f' }

  /** The value of a lower-case hex digit. */
  function HexValue(c: char): (k: int)
    requires IsHexDigit(c)
    ensures 0 <= k < 16
  {
    if c <= '9' then c as int - '0' as int else c as int - 'a' as int + 10
  }

  lemma HexValueOfDigit(k: int)
    requires 0 <= k < 16
    ensures HexValue(HexDigit(k)) == k
  {
  }

  /** "%02x" % b: two digits, high nibble first. */
  function Hex2(b: byte): string
  {
    [HexDigit(b as int / 16), HexDigit(b as int % 16)]
  }

  /** The specification: the hex pairs of the bytes, in order. */
  function HexOf(bytes: seq<byte>): string
  {
    if |bytes| == 0 then "" else HexOf(bytes[..|bytes| - 1]) + Hex2(bytes[|bytes| - 1])
  }

  /** ''.join(parts). */
  function Concat(parts: seq<string>): string
  {
    if |parts| == 0 then "" else Concat(parts[..|parts| - 1]) + parts[|parts| - 1]
  }

  /** dump_byte_slice: the loop appends one pair per byte, then joins. */
  method DumpByteSlice(bytes: seq<byte>) returns (s: string)
    ensures s == HexOf(bytes)
  {
    var sss: seq<string> := [];
    var i := 0;
    while i < |bytes|
      invariant 0 <= i <= |bytes|
      invariant |sss| == i
      invariant Concat(sss) == HexOf(bytes[..i])
    {
      var pair := Hex2(bytes[i]);
      assert (sss + [pair])[..i] == sss;
      assert bytes[..i + 1][..i] == bytes[..i];
      sss := sss + [pair];
      i := i + 1;
    }
    assert bytes[..i] == bytes;
    s := Concat(sss);
  }

  /** The result has two characters per byte, and pair i is "%02x" of byte i. */
  lemma {:induction false} HexOfPairs(bytes: seq<byte>)
    ensures |HexOf(bytes)| == 2 * |bytes|
    ensures forall i :: 0 <= i < |bytes| ==> HexOf(bytes)[2 * i..2 * i + 2] == Hex2(bytes[i])
  {
    if |bytes| > 0 {
      var init := bytes[..|bytes| - 1];
      HexOfPairs(init);
      var h := HexOf(bytes);
      assert h == HexOf(init) + Hex2(bytes[|bytes| - 1]);
      forall i | 0 <= i < |bytes|
        ensures h[2 * i..2 * i + 2] == Hex2(bytes[i])
      {
        if i < |bytes| - 1 {
          assert h[2 * i..2 * i + 2] == HexOf(init)[2 * i..2 * i + 2];
          assert init[i] == bytes[i];
        }
      }
    }
  }

  /** Text made of whole pairs of lower-case hex digits. */
  predicate IsHexText(s: string)
  {
    |s| % 2 == 0 && forall i :: 0 <= i < |s| ==> IsHexDigit(s[i])
  }

  /** The inverse: reads the pairs back into bytes. */
  function Unhex(s: string): seq<byte>
    requires IsHexText(s)
  {
    if |s| == 0 then []
    else
      var n := |s|;
      Unhex(s[..n - 2]) + [(HexValue(s[n - 2]) * 16 + HexValue(s[n - 1])) as byte]
  }

  /** Decoding one more pair appends one more byte. */
  lemma UnhexSnoc(s: string, b: byte)
    requires IsHexText(s)
    ensures IsHexText(s + Hex2(b))
    ensures Unhex(s + Hex2(b)) == Unhex(s) + [b]
  {
    var t := s + Hex2(b);
    assert t[..|t| - 2] == s;
    assert t[|t| - 2] == HexDigit(b as int / 16) && t[|t| - 1] == HexDigit(b as int % 16);
    HexValueOfDigit(b as int / 16);
    HexValueOfDigit(b as int % 16);
  }

  /** Decoding the dump gives back the bytes. */
  lemma {:induction false} UnhexHexOf(bytes: seq<byte>)
    ensures IsHexText(HexOf(bytes))
    ensures Unhex(HexOf(bytes)) == bytes
  {
    if |bytes| > 0 {
      var init := bytes[..|bytes| - 1];
      var b := bytes[|bytes| - 1];
      UnhexHexOf(init);
      UnhexSnoc(HexOf(init), b);
      assert bytes == init + [b];
    }
  }
}
