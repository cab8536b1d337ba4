/** Byte strings, the value type of every PHP string in this client, and the
    few list operations on them the client relies on: `implode` (Join), its
    inverse `explode` (Split), and decimal rendering of an integer. */
module Bytes {
  import opened Wrappers

  type Byte = b: int | 0 <= b < 256

  type ByteString = seq<Byte>

  /** The bytes of a string literal. Every literal in this model is ASCII,
      where a character and its byte coincide; a wider character would keep
      only its low byte. */
  function Str(s: string): (r: ByteString)
    ensures |r| == |s|
    ensures forall i :: 0 <= i < |s| && s[i] as int < 256 ==> r[i] == s[i] as int
  {
    seq(|s|, i requires 0 <= i < |s| => (s[i] as int) % 256)
  }

  /** Number of occurrences of byte `b` in `s`. */
  function Count(s: ByteString, b: Byte): nat
  {
    if s == [] then 0 else (if s[0] == b then 1 else 0) + Count(s[1..], b)
  }

  lemma {:induction false} CountConcat(s: ByteString, t: ByteString, b: Byte)
    ensures Count(s + t, b) == Count(s, b) + Count(t, b)
  {
    if s == [] {
      assert s + t == t;
    } else {
      assert (s + t)[1..] == s[1..] + t;
      CountConcat(s[1..], t, b);
    }
  }

  lemma {:induction false} CountAbsent(s: ByteString, b: Byte)
    ensures b !in s <==> Count(s, b) == 0
  {
    if s != [] {
      CountAbsent(s[1..], b);
      assert s == [s[0]] + s[1..];
    }
  }

  /** PHP `implode(sep, parts)`: the parts with one `sep` between neighbours. */
  function Join(parts: seq<ByteString>, sep: Byte): ByteString
  {
    if |parts| == 0 then []
    else if |parts| == 1 then parts[0]
    else parts[0] + [sep] + Join(parts[1..], sep)
  }

  /** None of the parts contains the separator. */
  predicate SeparatorFree(parts: seq<ByteString>, sep: Byte)
  {
    forall i :: 0 <= i < |parts| ==> sep !in parts[i]
  }

  /** PHP `explode(sep, s)`: the maximal `sep`-free pieces of `s`, in order.
      There is always at least one piece. */
  function Split(s: ByteString, sep: Byte): (r: seq<ByteString>)
    ensures |r| >= 1
    decreases |s|
  {
    if s == [] then [[]]
    else if s[0] == sep then [[]] + Split(s[1..], sep)
    else
      var rest := Split(s[1..], sep);
      [[s[0]] + rest[0]] + rest[1..]
  }

  lemma {:induction false} SplitSeparatorFree(a: ByteString, sep: Byte)
    requires sep !in a
    ensures Split(a, sep) == [a]
    decreases |a|
  {
    if a != [] {
      SplitSeparatorFree(a[1..], sep);
      assert [a[0]] + a[1..] == a;
    }
  }

  lemma {:induction false} SplitAfterPiece(a: ByteString, t: ByteString, sep: Byte)
    requires sep !in a
    ensures Split(a + [sep] + t, sep) == [a] + Split(t, sep)
    decreases |a|
  {
    var s := a + [sep] + t;
    if a == [] {
      assert s[1..] == t;
    } else {
      assert s[0] == a[0];
      assert s[1..] == a[1..] + [sep] + t;
      SplitAfterPiece(a[1..], t, sep);
      assert [a[0]] + a[1..] == a;
    }
  }

  /** Splitting undoes joining, as long as no part contains the separator. */
  lemma {:induction false} SplitJoin(parts: seq<ByteString>, sep: Byte)
    requires |parts| >= 1
    requires SeparatorFree(parts, sep)
    ensures Split(Join(parts, sep), sep) == parts
    decreases |parts|
  {
    if |parts| == 1 {
      SplitSeparatorFree(parts[0], sep);
    } else {
      SplitJoin(parts[1..], sep);
      SplitAfterPiece(parts[0], Join(parts[1..], sep), sep);
      assert [parts[0]] + parts[1..] == parts;
    }
  }

  /** Joining n separator-free parts places exactly n - 1 separators. */
  lemma {:induction false} CountJoin(parts: seq<ByteString>, sep: Byte)
    requires |parts| >= 1
    requires SeparatorFree(parts, sep)
    ensures Count(Join(parts, sep), sep) == |parts| - 1
    decreases |parts|
  {
    CountAbsent(parts[0], sep);
    if |parts| > 1 {
      CountJoin(parts[1..], sep);
      CountConcat(parts[0], [sep], sep);
      CountConcat(parts[0] + [sep], Join(parts[1..], sep), sep);
    }
  }

  /** Joining after appending one part puts it after one more separator. */
  lemma {:induction false} JoinAppend(parts: seq<ByteString>, last: ByteString, sep: Byte)
    requires |parts| >= 1
    ensures Join(parts + [last], sep) == Join(parts, sep) + [sep] + last
    decreases |parts|
  {
    if |parts| > 1 {
      assert (parts + [last])[1..] == parts[1..] + [last];
      JoinAppend(parts[1..], last, sep);
    }
  }

  predicate IsDigit(b: Byte)
  {
    '0' as int <= b <= '9' as int
  }

  /** PHP's string conversion of a non-negative integer: its decimal digits,
      with no leading zero. */
  function Decimal(n: nat): (r: ByteString)
    ensures |r| >= 1
    ensures forall i :: 0 <= i < |r| ==> IsDigit(r[i])
    ensures r[0] == '0' as int ==> n == 0
    ensures r[0] == '0' as int ==> r == ['0' as int]
    decreases n
  {
    if n < 10 then [('0' as int) + n]
    else Decimal(n / 10) + [('0' as int) + n % 10]
  }

  /** The number a string of decimal digits denotes. */
  function DigitsValue(s: ByteString): nat
    requires forall i :: 0 <= i < |s| ==> IsDigit(s[i])
  {
    if s == [] then 0
    else
      var last := s[|s| - 1];
      assert IsDigit(last);
      DigitsValue(s[..|s| - 1]) * 10 + (last - '0' as int)
  }

  /** Reading the decimal rendering back gives the number. */
  lemma {:induction false} DigitsValueDecimal(n: nat)
    ensures DigitsValue(Decimal(n)) == n
    decreases n
  {
    if n >= 10 {
      DigitsValueDecimal(n / 10);
      var d := Decimal(n);
      assert d[..|d| - 1] == Decimal(n / 10);
    }
  }
}
