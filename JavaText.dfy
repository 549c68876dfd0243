/**
 * The pieces of the Java and C runtimes that the modelled code leans on:
 * two's-complement wrap-around of `int` and `long`, decimal digits,
 * `Integer.toString`, `Integer.parseInt`, `String.trim` and `String.split`
 * with a one-character delimiter.
 */
module JavaText {
  import opened Nullable

  // ---------------------------------------------------------------------------
  // Fixed-width integers
  // ---------------------------------------------------------------------------

  const INT32_MIN: int := -0x8000_0000
  const INT32_MAX: int := 0x7FFF_FFFF
  const INT64_MIN: int := -0x8000_0000_0000_0000
  const INT64_MAX: int := 0x7FFF_FFFF_FFFF_FFFF

  predicate IsInt32(x: int) { INT32_MIN <= x <= INT32_MAX }
  predicate IsInt64(x: int) { INT64_MIN <= x <= INT64_MAX }

  const TWO32: int := 0x1_0000_0000
  const TWO64: int := 0x1_0000_0000_0000_0000

  /** Java `int` arithmetic: the low 32 bits of an exact result, read back
      as a two's-complement value. */
  function Wrap32(x: int): (r: int)
    ensures IsInt32(r)
    ensures IsInt32(x) ==> r == x
    ensures (x - r) % TWO32 == 0
  {
    var m := x % TWO32;
    if m > INT32_MAX then m - TWO32 else m
  }

  /** `long` (C `jlong`) arithmetic reduced to 64 bits. */
  function Wrap64(x: int): (r: int)
    ensures IsInt64(r)
    ensures IsInt64(x) ==> r == x
    ensures (x - r) % TWO64 == 0
  {
    var m := x % TWO64;
    if m > INT64_MAX then m - TWO64 else m
  }

  /** Two integers that agree modulo 2^32 wrap to the same `int`. */
  lemma Wrap32Congruent(x: int, y: int, j: int)
    requires x == y + TWO32 * j
    ensures Wrap32(x) == Wrap32(y)
  {
    assert x % TWO32 == y % TWO32;
  }

  /** Wrapping an intermediate result of `a * k + d` does not change the
      wrapped final result: what lets a Java loop that multiplies and adds be
      reasoned about as one unbounded computation wrapped at the end. */
  lemma {:induction false} Wrap32MulAdd(a: int, k: int, d: int)
    ensures Wrap32(Wrap32(a) * k + d) == Wrap32(a * k + d)
  {
    var w := Wrap32(a);
    var q := (a - w) / TWO32;
    assert a - w == TWO32 * q;
    assert a * k + d == (w * k + d) + TWO32 * (q * k) by {
      assert a * k == (w + TWO32 * q) * k;
    }
    Wrap32Congruent(a * k + d, w * k + d, q * k);
  }

  /** `strtoll` saturates instead of wrapping. */
  function Clamp64(x: int): (r: int)
    ensures IsInt64(r)
    ensures IsInt64(x) ==> r == x
    ensures x > INT64_MAX ==> r == INT64_MAX
    ensures x < INT64_MIN ==> r == INT64_MIN
  {
    if x > INT64_MAX then INT64_MAX else if x < INT64_MIN then INT64_MIN else x
  }

  // ---------------------------------------------------------------------------
  // Decimal digits
  // ---------------------------------------------------------------------------

  predicate IsDigit(c: char) { '0' <= c <= '9' }

  predicate AllDigits(s: string) { forall i :: 0 <= i < |s| ==> IsDigit(s[i]) }

  function DigitValue(c: char): nat
    requires IsDigit(c)
  {
    (c - '0') as nat
  }

  function DigitChar(d: nat): (c: char)
    requires d < 10
    ensures IsDigit(c) && DigitValue(c) == d
  {
    ('0' as int + d) as char
  }

  /** The value of a run of decimal digits, most significant first. */
  function DigitsValue(s: string): nat
    requires AllDigits(s)
  {
    if s == [] then 0 else DigitsValue(s[..|s| - 1]) * 10 + DigitValue(s[|s| - 1])
  }

  /** The longest prefix of `s` made of decimal digits. */
  function DigitPrefix(s: string): (p: string)
    ensures AllDigits(p) && |p| <= |s| && p == s[..|p|]
    ensures |p| < |s| ==> !IsDigit(s[|p|])
  {
    if s == [] || !IsDigit(s[0]) then [] else [s[0]] + DigitPrefix(s[1..])
  }

  /** A run of digits followed by anything is its own digit prefix, extended
      by that of what follows. */
  lemma {:induction false} DigitPrefixOfDigits(d: string, rest: string)
    requires AllDigits(d)
    ensures DigitPrefix(d + rest) == d + DigitPrefix(rest)
  {
    if d == [] {
      assert d + rest == rest;
    } else {
      assert (d + rest)[0] == d[0] && IsDigit(d[0]);
      assert (d + rest)[1..] == d[1..] + rest;
      DigitPrefixOfDigits(d[1..], rest);
      assert d == [d[0]] + d[1..];
    }
  }

  /** `Integer.toString` for a non-negative value: no leading zeros. */
  function NatToString(n: nat): (s: string)
    ensures |s| >= 1 && AllDigits(s)
    ensures |s| > 1 ==> s[0] != '0'
  {
    if n < 10 then [DigitChar(n)] else NatToString(n / 10) + [DigitChar(n % 10)]
  }

  /** `Integer.toString` / `%d`: a minus sign, then the magnitude. */
  function IntToString(n: int): (s: string)
    ensures |s| >= 1
    ensures n >= 0 ==> s == NatToString(n)
    ensures n < 0 ==> s == "-" + NatToString(-n)
  {
    if n < 0 then "-" + NatToString(-n) else NatToString(n)
  }

  lemma {:induction false} NatToStringValue(n: nat)
    ensures DigitsValue(NatToString(n)) == n
  {
    if n >= 10 {
      NatToStringValue(n / 10);
      var s := NatToString(n);
      assert s[..|s| - 1] == NatToString(n / 10);
    }
  }

  /** A value below `10^k` prints in at most `k` digits. */
  lemma {:induction false} NatToStringLength(n: nat, k: nat, bound: nat)
    requires k >= 1 && bound == Pow10(k) && n < bound
    ensures |NatToString(n)| <= k
  {
    if n >= 10 {
      assert k != 1;
      assert n / 10 < Pow10(k - 1);
      NatToStringLength(n / 10, k - 1, Pow10(k - 1));
    }
  }

  function Pow10(k: nat): (r: nat)
    ensures r >= 1
  {
    if k == 0 then 1 else 10 * Pow10(k - 1)
  }

  /** The powers that bound the decimal width of an `int` and a `long`. */
  lemma Pow10Bounds()
    ensures Pow10(10) == 10_000_000_000
    ensures Pow10(19) == 10_000_000_000_000_000_000
  {
    assert Pow10(1) == 10;
    assert Pow10(2) == 100;
    assert Pow10(3) == 1000;
    assert Pow10(4) == 10000;
    assert Pow10(5) == 100000;
    assert Pow10(6) == 1000000;
    assert Pow10(7) == 10000000;
    assert Pow10(8) == 100000000;
    assert Pow10(9) == 1000000000;
    assert Pow10(10) == 10000000000;
    assert Pow10(11) == 100000000000;
    assert Pow10(12) == 1000000000000;
    assert Pow10(13) == 10000000000000;
    assert Pow10(14) == 100000000000000;
    assert Pow10(15) == 1000000000000000;
    assert Pow10(16) == 10000000000000000;
    assert Pow10(17) == 100000000000000000;
    assert Pow10(18) == 1000000000000000000;
  }

  // ---------------------------------------------------------------------------
  // Integer.parseInt (radix 10)
  // ---------------------------------------------------------------------------

  /** `Integer.parseInt(s)`: an optional minus sign (a leading '+' is
      rejected by this runtime's parser), at least one digit, nothing else,
      and a value that fits an `int`; `None` where Java throws
      `NumberFormatException`. */
  function ParseInt(s: string): (r: Option<int>)
    ensures r.Some? ==> IsInt32(r.value)
    ensures r.Some? ==> |s| >= 1
  {
    if |s| == 0 then None
    else
      var signed := s[0] == '-';
      var digits := if signed then s[1..] else s;
      if |digits| == 0 || !AllDigits(digits) then None
      else
        var v: int := if s[0] == '-' then -(DigitsValue(digits) as int) else DigitsValue(digits) as int;
        if IsInt32(v) then Some(v) else None
  }

  /** A minus sign followed by digits parses as the negated digit value
      when that fits an `int`. */
  lemma ParseIntNegative(d: string)
    requires |d| >= 1 && AllDigits(d)
    ensures ParseInt("-" + d) == if IsInt32(-(DigitsValue(d) as int)) then Some(-(DigitsValue(d) as int)) else None
  {
    assert ("-" + d)[1..] == d;
  }

  /** A leading '+' makes the parse fail, whatever follows it. */
  lemma ParseIntRejectsPlus(d: string)
    ensures ParseInt("+" + d) == None
  {
    assert ("+" + d)[0] == '+';
    assert !IsDigit('+');
    assert !AllDigits("+" + d);
  }

  /** `Integer.parseInt(Integer.toString(n)) == n` for every `int`. */
  lemma ParseIntToString(n: int)
    requires IsInt32(n)
    ensures ParseInt(IntToString(n)) == Some(n)
  {
    if n < 0 {
      NatToStringValue(-n);
      ParseIntNegative(NatToString(-n));
    } else {
      NatToStringValue(n);
      assert IsDigit(IntToString(n)[0]);
    }
  }

  // ---------------------------------------------------------------------------
  // String.trim and String.split
  // ---------------------------------------------------------------------------

  predicate IsTrimmable(c: char) { c <= ' ' }

  /** The first index from `i` on that holds a character `trim()` keeps. */
  function TrimStart(s: string, i: nat): (r: nat)
    requires i <= |s|
    ensures i <= r <= |s|
    ensures forall k :: i <= k < r ==> IsTrimmable(s[k])
    ensures r < |s| ==> !IsTrimmable(s[r])
    decreases |s| - i
  {
    if i < |s| && IsTrimmable(s[i]) then TrimStart(s, i + 1) else i
  }

  /** The end of the kept part: `len` moved down past trimmable characters,
      never below `st`. */
  function TrimEnd(s: string, st: nat, len: nat): (r: nat)
    requires st <= len <= |s|
    ensures st <= r <= len
    ensures forall k :: r <= k < len ==> IsTrimmable(s[k])
    ensures r > st ==> !IsTrimmable(s[r - 1])
  {
    if st < len && IsTrimmable(s[len - 1]) then TrimEnd(s, st, len - 1) else len
  }

  /** `String.trim()`: drops every character up to U+0020 from both ends;
      what is kept neither starts nor ends with one. */
  function Trim(s: string): (r: string)
    ensures |r| <= |s|
    ensures r == [] || (!IsTrimmable(r[0]) && !IsTrimmable(r[|r| - 1]))
  {
    var st := TrimStart(s, 0);
    s[st..TrimEnd(s, st, |s|)]
  }

  /** Trimming keeps a middle part of the string: everything cut from either
      end is trimmable. */
  lemma TrimIsInfix(s: string)
    ensures var i := TrimStart(s, 0);
            var j := TrimEnd(s, i, |s|);
            && Trim(s) == s[i..j]
            && (forall k :: 0 <= k < i ==> IsTrimmable(s[k]))
            && (forall k :: j <= k < |s| ==> IsTrimmable(s[k]))
  {
  }

  /** A string with nothing to trim at either end is its own trim; so
      trimming twice is trimming once. */
  lemma {:induction false} TrimIdempotent(s: string)
    ensures s == [] || (!IsTrimmable(s[0]) && !IsTrimmable(s[|s| - 1])) ==> Trim(s) == s
    ensures Trim(Trim(s)) == Trim(s)
  {
    var r := Trim(s);
    if r != [] {
      assert TrimStart(r, 0) == 0;
      assert TrimEnd(r, 0, |r|) == |r|;
    }
    if s != [] && !IsTrimmable(s[0]) && !IsTrimmable(s[|s| - 1]) {
      assert TrimStart(s, 0) == 0;
      assert TrimEnd(s, 0, |s|) == |s|;
    }
  }

  /** Every piece between occurrences of `d`, empty pieces included. */
  function SplitAll(s: string, d: char): (r: seq<string>)
    ensures |r| >= 1
    ensures forall k :: 0 <= k < |r| ==> d !in r[k]
  {
    if |s| == 0 then [""]
    else
      var rest := SplitAll(s[1..], d);
      if s[0] == d then [""] + rest else [[s[0]] + rest[0]] + rest[1..]
  }

  function Join(parts: seq<string>, d: char): string
  {
    if |parts| == 0 then "" else if |parts| == 1 then parts[0] else parts[0] + [d] + Join(parts[1..], d)
  }

  /** Joining the pieces back with the delimiter gives the original string. */
  lemma {:induction false} SplitAllJoin(s: string, d: char)
    ensures Join(SplitAll(s, d), d) == s
  {
    if |s| > 0 {
      SplitAllJoin(s[1..], d);
      var rest := SplitAll(s[1..], d);
      if s[0] == d {
        assert s == [d] + s[1..];
      } else {
        var r := SplitAll(s, d);
        assert r[0] == [s[0]] + rest[0] && r[1..] == rest[1..];
        if |rest| == 1 {
          assert s == [s[0]] + rest[0];
        } else {
          assert Join(rest, d) == rest[0] + [d] + Join(rest[1..], d);
          assert s == [s[0]] + s[1..];
        }
      }
    }
  }

  /** Splitting a piece with no delimiter, followed by a delimiter and more
      text, yields that piece first. */
  lemma {:induction false} SplitAllPiece(a: string, d: char, b: string)
    requires d !in a
    ensures SplitAll(a + [d] + b, d) == [a] + SplitAll(b, d)
  {
    if |a| == 0 {
      assert a + [d] + b == [d] + b;
      assert ([d] + b)[1..] == b;
    } else {
      SplitAllPiece(a[1..], d, b);
      assert (a + [d] + b)[1..] == a[1..] + [d] + b;
      assert a == [a[0]] + a[1..];
    }
  }

  /** A string without the delimiter is one piece. */
  lemma {:induction false} SplitAllWhole(a: string, d: char)
    requires d !in a
    ensures SplitAll(a, d) == [a]
  {
    if |a| > 0 {
      SplitAllWhole(a[1..], d);
      assert a == [a[0]] + a[1..];
    }
  }

  /** Splitting pieces joined by the delimiter gives the pieces back, when
      no piece holds the delimiter. */
  lemma {:induction false} JoinSplitAll(parts: seq<string>, d: char)
    requires |parts| >= 1
    requires forall k :: 0 <= k < |parts| ==> d !in parts[k]
    ensures SplitAll(Join(parts, d), d) == parts
  {
    if |parts| == 1 {
      SplitAllWhole(parts[0], d);
    } else {
      JoinSplitAll(parts[1..], d);
      SplitAllPiece(parts[0], d, Join(parts[1..], d));
      assert parts == [parts[0]] + parts[1..];
    }
  }

  function DropTrailingEmpty(parts: seq<string>): (r: seq<string>)
    ensures r <= parts
    ensures r == [] || r[|r| - 1] != ""
    ensures forall k :: |r| <= k < |parts| ==> parts[k] == ""
  {
    if |parts| > 0 && parts[|parts| - 1] == "" then DropTrailingEmpty(parts[..|parts| - 1]) else parts
  }

  /** `s.split(d)` for a one-character, non-special delimiter: a string with
      no delimiter is returned whole (even the empty string); otherwise the
      pieces, with trailing empty pieces removed. */
  function JavaSplit(s: string, d: char): (r: seq<string>)
    ensures d !in s ==> r == [s]
    ensures forall k :: 0 <= k < |r| ==> d !in r[k]
  {
    if d !in s then [s] else DropTrailingEmpty(SplitAll(s, d))
  }

  /** `String.split` undoes the joining of pieces that hold no delimiter
      when the last piece is non-empty (empty pieces before it are kept). */
  lemma JavaSplitJoin(parts: seq<string>, d: char)
    requires |parts| >= 1 && parts[|parts| - 1] != ""
    requires forall k :: 0 <= k < |parts| ==> d !in parts[k]
    ensures JavaSplit(Join(parts, d), d) == parts
  {
    JoinSplitAll(parts, d);
    if |parts| >= 2 {
      assert d in Join(parts, d) by {
        assert Join(parts, d) == parts[0] + [d] + Join(parts[1..], d);
        assert Join(parts, d)[|parts[0]|] == d;
      }
    } else {
      assert Join(parts, d) == parts[0];
    }
  }
}
