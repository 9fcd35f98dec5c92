/**
 * Shared vocabulary of the driver model: optional values and results, the
 * Java exceptions the core can raise, 32-bit integers, Java's String.trim,
 * decimal rendering of integers and the decimal number syntax that
 * Double.parseDouble accepts over the characters [0-9.+-].
 */
module Common {

  datatype Option<+T> = None | Some(value: T)

  /** The Java exceptions (and the one checked RetryException) the core raises. */
  datatype Exception =
    | IllegalArgument(message: string)
    | IllegalState(message: string)
    | NumberFormat(input: string)
    | NoSuchElement
    | BuildFailure(message: string)
    | Runtime(message: string)
    | Retry
    | NullPointer
    | IndexOutOfBounds(index: int)
    | NoSuchTool(index: int)

  /** A value, or the exception thrown instead of returning it. */
  datatype Result<+T> = Ok(value: T) | Err(error: Exception)

  /** The completion of a void Java method: normal return or a thrown exception. */
  datatype Status = Done | Thrown(error: Exception)

  // ---------------------------------------------------------------------------
  // 32-bit Java integers

  const TwoTo31: int := 0x8000_0000
  const TwoTo32: int := 0x1_0000_0000

  type Int32 = x: int | -TwoTo31 <= x < TwoTo31

  const TwoTo63: int := 0x8000_0000_0000_0000

  /** Java `long`. */
  type Int64 = x: int | -TwoTo63 <= x < TwoTo63

  /** Two's-complement wrap-around of Java `int` arithmetic. */
  function Wrap32(x: int): (r: Int32)
    ensures (r - x) % TwoTo32 == 0
    ensures -TwoTo31 <= x < TwoTo31 ==> r == x
  {
    (x + TwoTo31) % TwoTo32 - TwoTo31
  }

  // ---------------------------------------------------------------------------
  // Points (javax.vecmath.Point3d and replicatorg.util.Point5d as values)

  datatype Point3d = Point3d(x: real, y: real, z: real)
  datatype Point5d = Point5d(x: real, y: real, z: real, a: real, b: real)

  const Origin3: Point3d := Point3d(0.0, 0.0, 0.0)
  const Origin5: Point5d := Point5d(0.0, 0.0, 0.0, 0.0, 0.0)

  // ---------------------------------------------------------------------------
  // Characters and strings

  /** Characters removed by Java's String.trim (code point <= U+0020). */
  predicate IsTrimmed(c: char) { c <= ' ' }

  /**
   * The characters that a regular-expression `.` does not match in Java's
   * default mode: LF, CR, NEL, LINE SEPARATOR and PARAGRAPH SEPARATOR.
   */
  predicate IsLineTerminator(c: char)
  {
    c == '\n' || c == '\r' || c == '\U{0085}' || c == '\U{2028}' || c == '\U{2029}'
  }

  predicate IsDigit(c: char) { '0' <= c <= '9' }

  /** The class [0-9.] of the driver's temperature and fix-up patterns. */
  predicate IsDigitOrDot(c: char) { IsDigit(c) || c == '.' }

  predicate AllDigits(s: string) { forall i :: 0 <= i < |s| ==> IsDigit(s[i]) }

  predicate StartsWith(s: string, prefix: string)
  {
    |prefix| <= |s| && s[..|prefix|] == prefix
  }

  /** Java String.indexOf(char): the first index holding `c`. */
  function IndexOf(s: string, c: char): (r: Option<nat>)
    ensures r.None? <==> c !in s
    ensures r.Some? ==> r.value < |s| && s[r.value] == c && c !in s[..r.value]
  {
    if |s| == 0 then None
    else if s[0] == c then Some(0)
    else match IndexOf(s[1..], c)
      case None => None
      case Some(k) => assert s[..k + 1] == [s[0]] + s[1..][..k]; Some(k + 1)
  }

  /**
   * The last index of `c` in s[lo..hi): where a greedy `.*` followed by `c`
   * backtracks to.
   */
  function LastIndexIn(s: string, c: char, lo: nat, hi: nat): (r: Option<nat>)
    requires lo <= hi <= |s|
    ensures r.Some? ==> lo <= r.value < hi && s[r.value] == c
    ensures r.Some? ==> forall k :: r.value < k < hi ==> s[k] != c
    ensures r.None? ==> forall k :: lo <= k < hi ==> s[k] != c
    decreases hi - lo
  {
    if hi == lo then None
    else if s[hi - 1] == c then Some(hi - 1)
    else LastIndexIn(s, c, lo, hi - 1)
  }

  /**
   * Java String.trim: the part of `s` between its first and its last
   * character above U+0020; everything cut off on either side is at or
   * below U+0020.
   */
  function Trim(s: string): (r: string)
    ensures |r| <= |s|
    ensures |r| > 0 ==> !IsTrimmed(r[0]) && !IsTrimmed(r[|r| - 1])
    ensures exists i, j :: 0 <= i <= j <= |s| && r == s[i..j] &&
              (forall k :: 0 <= k < i ==> IsTrimmed(s[k])) && (forall k :: j <= k < |s| ==> IsTrimmed(s[k]))
    ensures (forall i :: 0 <= i < |s| ==> !IsTrimmed(s[i])) ==> r == s
  {
    var st := TrimStart(s, 0);
    var len := TrimEnd(s, st, |s|);
    assert (forall i :: 0 <= i < |s| ==> !IsTrimmed(s[i])) ==> st == 0 && len == |s| && s[st..len] == s;
    s[st..len]
  }

  /** The first loop of String.trim: the first index from `i` on whose character is above U+0020, or |s|. */
  function TrimStart(s: string, i: nat): (st: nat)
    requires i <= |s|
    ensures i <= st <= |s|
    ensures forall k :: i <= k < st ==> IsTrimmed(s[k])
    ensures st < |s| ==> !IsTrimmed(s[st])
    decreases |s| - i
  {
    if i < |s| && IsTrimmed(s[i]) then TrimStart(s, i + 1) else i
  }

  /** The second loop: `len` lowered past the characters at or below U+0020 that end s[st..len]. */
  function TrimEnd(s: string, st: nat, len: nat): (e: nat)
    requires st <= len <= |s|
    ensures st <= e <= len
    ensures forall k :: e <= k < len ==> IsTrimmed(s[k])
    ensures st < e ==> !IsTrimmed(s[e - 1])
    decreases len - st
  {
    if st < len && IsTrimmed(s[len - 1]) then TrimEnd(s, st, len - 1) else len
  }

  /** A string with no character at or below U+0020 at either end is its own trim. */
  lemma TrimFixed(s: string)
    requires |s| > 0 ==> !IsTrimmed(s[0]) && !IsTrimmed(s[|s| - 1])
    ensures Trim(s) == s
  {
    if |s| > 0 {
      assert TrimStart(s, 0) == 0;
      assert TrimEnd(s, 0, |s|) == |s|;
      assert s[0..|s|] == s;
    }
  }

  /** Concatenation regrouped. */
  lemma AppendAssoc<T>(a: seq<T>, b: seq<T>, c: seq<T>)
    ensures (a + b) + c == a + (b + c)
  {
  }

  /** String.replace(char, char). */
  function ReplaceChar(s: string, from: char, to: char): (r: string)
    ensures |r| == |s|
    ensures forall i :: 0 <= i < |s| ==> r[i] == (if s[i] == from then to else s[i])
  {
    seq(|s|, i requires 0 <= i < |s| => if s[i] == from then to else s[i])
  }

  // ---------------------------------------------------------------------------
  // Decimal text of integers (Integer.toString, Long.toString)

  function DigitChar(d: nat): (c: char)
    requires d < 10
    ensures IsDigit(c)
  {
    "0123456789"[d]
  }

  function DigitValue(c: char): (d: nat)
    requires IsDigit(c)
    ensures d < 10
  {
    (c as int) - ('0' as int)
  }

  /** Decimal digits of a natural number, most significant first, no leading zero. */
  function NatString(n: nat): (s: string)
    ensures |s| > 0 && AllDigits(s)
    ensures |s| > 1 ==> s[0] != '0'
  {
    if n < 10 then [DigitChar(n)] else NatString(n / 10) + [DigitChar(n % 10)]
  }

  /** Integer.toString: a leading '-' for negative values, then the digits. */
  function IntString(n: int): (s: string)
    ensures |s| > 0
    ensures n < 0 <==> s[0] == '-'
  {
    if n < 0 then "-" + NatString(-n) else NatString(n)
  }

  /** The value of a string of decimal digits (empty string: 0). */
  function DigitsValue(s: string): (v: nat)
    requires AllDigits(s)
  {
    if |s| == 0 then 0 else 10 * DigitsValue(s[..|s| - 1]) + DigitValue(s[|s| - 1])
  }

  lemma {:induction false} NatStringRoundTrip(n: nat)
    ensures DigitsValue(NatString(n)) == n
  {
    if n >= 10 {
      var s := NatString(n);
      assert s[..|s| - 1] == NatString(n / 10);
      NatStringRoundTrip(n / 10);
      assert DigitValue(DigitChar(n % 10)) == n % 10 by {
        assert "0123456789"[n % 10] as int - '0' as int == n % 10;
      }
    } else {
      assert DigitValue(DigitChar(n)) == n by {
        assert "0123456789"[n] as int - '0' as int == n;
      }
    }
  }

  /** Decimal text of natural numbers is injective. */
  lemma NatStringInjective(m: nat, n: nat)
    requires NatString(m) == NatString(n)
    ensures m == n
  {
    NatStringRoundTrip(m);
    NatStringRoundTrip(n);
  }

  /** Decimal text of integers is injective: distinct values print differently. */
  lemma IntStringInjective(m: int, n: int)
    requires IntString(m) == IntString(n)
    ensures m == n
  {
    var s := IntString(m);
    if m < 0 {
      assert s[1..] == NatString(-m) && s[1..] == NatString(-n);
      NatStringInjective(-m, -n);
    } else {
      NatStringInjective(m, n);
    }
  }

  function Pow10(k: nat): (p: nat)
    ensures p >= 1
  {
    if k == 0 then 1 else 10 * Pow10(k - 1)
  }

  // ---------------------------------------------------------------------------
  // Double.parseDouble restricted to the characters [0-9.+-]

  /**
   * Over the characters [0-9.+-], Java's decimal floating-point syntax is an
   * optional sign followed by digits with at most one '.', and at least one
   * digit overall. The value is the exact decimal (rounding to the nearest
   * double is not modelled). None stands for NumberFormatException.
   */
  function ParseDecimal(s: string): (r: Option<real>)
    ensures r.Some? ==> |s| > 0
  {
    if |s| > 0 && (s[0] == '+' || s[0] == '-') then
      match ParseUnsigned(s[1..])
      case None => None
      case Some(v) => Some(if s[0] == '-' then -v else v)
    else
      ParseUnsigned(s)
  }

  function ParseUnsigned(s: string): (r: Option<real>)
    ensures r.Some? ==> r.value >= 0.0
  {
    var dot := IndexOf(s, '.');
    var whole := if dot.Some? then s[..dot.value] else s;
    var fraction := if dot.Some? then s[dot.value + 1..] else "";
    if AllDigits(whole) && AllDigits(fraction) && |whole| + |fraction| > 0 then
      Some(DigitsValue(whole) as real + DigitsValue(fraction) as real / Pow10(|fraction|) as real)
    else
      None
  }

  /** A second '.' (as in "1.2.3") makes the token malformed. */
  lemma {:induction false} TwoDotsRejected(s: string, i: nat, j: nat)
    requires i < j < |s| && s[i] == '.' && s[j] == '.'
    ensures ParseDecimal(s) == None
  {
    var u := if |s| > 0 && (s[0] == '+' || s[0] == '-') then s[1..] else s;
    assert ParseUnsigned(u) == None by {
      var dot := IndexOf(u, '.');
      var off := |s| - |u|;
      assert u[j - off] == '.';
      assert off == 1 ==> i >= 1;
      assert u[i - off] == '.';
      assert dot.Some? && dot.value <= i - off;
      var fraction := u[dot.value + 1..];
      assert fraction[j - off - dot.value - 1] == '.';
      assert !AllDigits(fraction);
    }
  }

  /** Decimal text of an int parses back to that int: Integer.toString and parseDouble round-trip. */
  lemma IntStringParses(n: int)
    ensures ParseDecimal(IntString(n)) == Some(n as real)
  {
    var a: nat := if n < 0 then -n else n;
    var d := NatString(a);
    DigitsParse(d);
    NatStringRoundTrip(a);
    assert IsDigit(d[0]);
    if n < 0 {
      var s := IntString(n);
      assert s[0] == '-' && s[1..] == d;
      assert ParseUnsigned(d) == ParseDecimal(d);
    }
  }

  /** Plain digit strings parse to their value. */
  lemma DigitsParse(s: string)
    requires |s| > 0 && AllDigits(s)
    ensures ParseDecimal(s) == Some(DigitsValue(s) as real)
  {
    assert forall k :: 0 <= k < |s| ==> s[k] != '.' by {
      forall k | 0 <= k < |s| ensures s[k] != '.' { assert IsDigit(s[k]); }
    }
    assert IndexOf(s, '.') == None;
    assert IsDigit(s[0]);
    assert DigitsValue("") == 0 && AllDigits("");
    assert ParseUnsigned(s) == Some(DigitsValue(s) as real + 0.0 / Pow10(0) as real);
  }
}
