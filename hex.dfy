/** Go's `encoding/hex`: each byte becomes two lower-case hexadecimal digits,
    high nibble first; decoding accepts either case and rejects an odd
    length or a non-hexadecimal character. */
module Hex {
  import opened Wrappers

  /** One element of a Go `[]byte`. */
  type Byte = b: int | 0 <= b < 256

  predicate IsLowerHexDigit(c: char) {
    '0' <= c <= '9' || 'a' <= c <= 'f'
  }

  /** The digit for a nibble: entry `v` of the table "0123456789abcdef". */
  function HexDigit(v: int): (c: char)
    requires 0 <= v < 16
    ensures IsLowerHexDigit(c)
  {
    if v < 10 then ('0' as int + v) as char else ('a' as int + v - 10) as char
  }

  /** HexDigit agrees with Go's table "0123456789abcdef". */
  lemma HexDigitTable()
    ensures forall v :: 0 <= v < 16 ==> HexDigit(v) == "0123456789abcdef"[v]
  {
    forall v | 0 <= v < 16 ensures HexDigit(v) == "0123456789abcdef"[v] {
      if v < 10 {
        assert "0123456789abcdef"[v] == ('0' as int + v) as char by {
          assert "0123456789"[v] == "0123456789abcdef"[v];
          assert v == 0 || v == 1 || v == 2 || v == 3 || v == 4 || v == 5 || v == 6 || v == 7 || v == 8 || v == 9;
        }
      } else {
        assert v == 10 || v == 11 || v == 12 || v == 13 || v == 14 || v == 15;
      }
    }
  }

  /** Encoding a concatenation encodes its parts. */
  lemma {:induction false} EncodeAppend(a: seq<Byte>, b: seq<Byte>)
    ensures EncodeToString(a + b) == EncodeToString(a) + EncodeToString(b)
    decreases |a|
  {
    if a == [] {
      assert a + b == b;
    } else {
      assert (a + b)[0] == a[0];
      assert (a + b)[1..] == a[1..] + b;
      EncodeAppend(a[1..], b);
    }
  }

  /** The value of one hexadecimal digit of either case, as hex.DecodeString reads it. */
  function FromHexChar(c: char): (r: Option<int>)
    ensures r.Some? ==> 0 <= r.value < 16
    ensures IsLowerHexDigit(c) ==> r.Some? && HexDigit(r.value) == c
  {
    if '0' <= c <= '9' then Some(c as int - '0' as int)
    else if 'a' <= c <= 'f' then Some(c as int - 'a' as int + 10)
    else if 'A' <= c <= 'F' then Some(c as int - 'A' as int + 10)
    else None
  }

  /** hex.EncodeToString */
  function EncodeToString(src: seq<Byte>): (s: string)
    ensures |s| == 2 * |src|
    ensures forall i :: 0 <= i < |s| ==> IsLowerHexDigit(s[i])
  {
    if src == [] then []
    else [HexDigit(src[0] / 16), HexDigit(src[0] % 16)] + EncodeToString(src[1..])
  }

  /** hex.DecodeString, with the error reduced to None. */
  function DecodeString(s: string): Option<seq<Byte>>
    decreases |s|
  {
    if s == [] then Some([])
    else if |s| == 1 then None
    else match (FromHexChar(s[0]), FromHexChar(s[1]), DecodeString(s[2..]))
      case (Some(hi), Some(lo), Some(rest)) => Some([hi * 16 + lo] + rest)
      case _ => None
  }

  /** Decoding undoes encoding. */
  lemma {:induction false} DecodeEncode(src: seq<Byte>)
    ensures DecodeString(EncodeToString(src)) == Some(src)
    decreases |src|
  {
    if src != [] {
      var s := EncodeToString(src);
      var b := src[0];
      assert s[2..] == EncodeToString(src[1..]);
      assert FromHexChar(s[0]) == Some(b / 16);
      assert FromHexChar(s[1]) == Some(b % 16);
      DecodeEncode(src[1..]);
      assert [b] + src[1..] == src;
    }
  }

  /** Distinct byte strings have distinct encodings. */
  lemma EncodeInjective(a: seq<Byte>, b: seq<Byte>)
    requires EncodeToString(a) == EncodeToString(b)
    ensures a == b
  {
    DecodeEncode(a);
    DecodeEncode(b);
  }
}
