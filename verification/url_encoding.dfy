/** PHP's `urlencode`, the application/x-www-form-urlencoded escaping of a
    byte string, and its inverse `urldecode`. */
module UrlEncoding {
  import opened Bytes

  const Space: Byte := ' ' as int
  const Plus: Byte := '+' as int
  const Percent: Byte := '%' as int

  /** Bytes that `urlencode` copies unchanged: ASCII letters and digits and
      the three marks `-`, `_` and `.`. */
  predicate IsUnreserved(b: Byte)
  {
    || ('A' as int <= b <= 'Z' as int)
    || ('a' as int <= b <= 'z' as int)
    || IsDigit(b)
    || b == '-' as int
    || b == '_' as int
    || b == '.' as int
  }

  /** Digits and the upper-case letters `A` to `F`: the hexadecimal digits
      `urlencode` writes. */
  predicate IsUpperHex(b: Byte)
  {
    IsDigit(b) || ('A' as int <= b <= 'F' as int)
  }

  /** The upper-case hexadecimal digit for 0 <= n < 16. */
  function HexDigit(n: int): (r: Byte)
    requires 0 <= n < 16
    ensures IsUnreserved(r)
    ensures IsUpperHex(r) && IsHexDigit(r) && HexValue(r) == n
  {
    if n < 10 then '0' as int + n else 'A' as int + (n - 10)
  }

  /** Bytes `urldecode` accepts as a hexadecimal digit (either case). */
  predicate IsHexDigit(b: Byte)
  {
    || IsDigit(b)
    || ('A' as int <= b <= 'F' as int)
    || ('a' as int <= b <= 'f' as int)
  }

  function HexValue(b: Byte): (v: int)
    requires IsHexDigit(b)
    ensures 0 <= v < 16
  {
    if IsDigit(b) then b - '0' as int
    else if b <= 'F' as int then b - 'A' as int + 10
    else b - 'a' as int + 10
  }

  /** The escape of a single byte. */
  function EncodeByte(b: Byte): (r: ByteString)
    ensures r == [b] <==> IsUnreserved(b)
    ensures b == Space <==> r == [Plus]
    ensures |r| == 1 || (|r| == 3 && r[0] == Percent)
    ensures |r| == 3 <==> !IsUnreserved(b) && b != Space
    ensures |r| == 3 ==>
      && IsUpperHex(r[1]) && IsUpperHex(r[2])
      && IsHexDigit(r[1]) && IsHexDigit(r[2])
      && HexValue(r[1]) * 16 + HexValue(r[2]) == b
  {
    if IsUnreserved(b) then [b]
    else if b == Space then [Plus]
    else [Percent, HexDigit(b / 16), HexDigit(b % 16)]
  }

  /** Every byte `urlencode` can emit: an unreserved byte, `+` or `%`. */
  predicate IsEncodedByte(b: Byte)
  {
    IsUnreserved(b) || b == Plus || b == Percent
  }

  /** PHP `urlencode`. */
  function Encode(s: ByteString): (r: ByteString)
    ensures |s| <= |r| <= 3 * |s|
    ensures forall i :: 0 <= i < |r| ==> IsEncodedByte(r[i])
    decreases |s|
  {
    if s == [] then [] else EncodeByte(s[0]) + Encode(s[1..])
  }

  /** PHP `urldecode`: `+` becomes a space, `%` followed by two hexadecimal
      digits becomes the byte they denote, and every other byte (including
      a `%` not followed by two hexadecimal digits) is kept. */
  function Decode(s: ByteString): ByteString
    decreases |s|
  {
    if s == [] then []
    else if s[0] == Percent && |s| >= 3 && IsHexDigit(s[1]) && IsHexDigit(s[2]) then
      [HexValue(s[1]) * 16 + HexValue(s[2])] + Decode(s[3..])
    else if s[0] == Plus then [Space] + Decode(s[1..])
    else [s[0]] + Decode(s[1..])
  }

  lemma DecodeEncodeByte(b: Byte, t: ByteString)
    ensures Decode(EncodeByte(b) + t) == [b] + Decode(t)
  {
    var s := EncodeByte(b) + t;
    if IsUnreserved(b) {
      assert s[1..] == t;
    } else if b == Space {
      assert s[1..] == t;
    } else {
      assert s[3..] == t;
    }
  }

  /** `urldecode` undoes `urlencode`. */
  lemma {:induction false} DecodeEncode(s: ByteString)
    ensures Decode(Encode(s)) == s
    decreases |s|
  {
    if s != [] {
      DecodeEncode(s[1..]);
      DecodeEncodeByte(s[0], Encode(s[1..]));
      assert [s[0]] + s[1..] == s;
    }
  }

  /** Distinct byte strings have distinct encodings. */
  lemma EncodeInjective(s: ByteString, t: ByteString)
    requires Encode(s) == Encode(t)
    ensures s == t
  {
    DecodeEncode(s);
    DecodeEncode(t);
  }

  /** `urlencode` leaves a string unchanged exactly when every byte of it is
      unreserved. */
  lemma {:induction false} EncodeIdentity(s: ByteString)
    ensures Encode(s) == s <==> forall i :: 0 <= i < |s| ==> IsUnreserved(s[i])
    decreases |s|
  {
    if s != [] {
      EncodeIdentity(s[1..]);
      var e := EncodeByte(s[0]);
      if Encode(s) == s {
        assert |e| == 1 by {
          assert |Encode(s[1..])| >= |s| - 1;
        }
        assert e == [s[0]];
        assert Encode(s[1..]) == s[1..];
      }
      if forall i :: 0 <= i < |s| ==> IsUnreserved(s[i]) {
        assert IsUnreserved(s[0]);
        assert forall i :: 0 <= i < |s[1..]| ==> IsUnreserved(s[1..][i]) by {
          forall i | 0 <= i < |s[1..]| ensures IsUnreserved(s[1..][i]) {
            assert s[1..][i] == s[i + 1];
          }
        }
        assert [s[0]] + s[1..] == s;
      }
    }
  }

  /** An encoding never holds a byte outside its alphabet, so in particular
      never the query separators `&` and `=` nor the path delimiter `?`. */
  lemma EncodeAvoids(s: ByteString, b: Byte)
    requires !IsEncodedByte(b)
    ensures b !in Encode(s)
  {
  }
}
