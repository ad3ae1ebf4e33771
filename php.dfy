/** The PHP 8 semantics of the few language features and built-ins the user
    controller relies on: truthiness of a request string, `ceil` of an integer
    quotient and how that float prints, the `%` operator, `array_slice` and
    `ucfirst`. Integers are unbounded here; PHP's 64-bit limits and float
    precision are not modelled. */
module Php {

  datatype Option<T> = None | Some(value: T)

  /** The value of an integer expression that may throw `DivisionByZeroError`. */
  datatype Computed = Num(value: int) | DivisionByZeroError

  /** PHP truthiness of a request parameter that is either absent (null) or a
      string: null, "" and "0" are falsy, every other string is truthy. */
  predicate Truthy(s: Option<string>)
    // absent and empty are falsy
    ensures Truthy(s) ==> s.Some? && |s.value| >= 1
    // of the one-character strings only "0" is falsy
    ensures s.Some? && |s.value| == 1 ==> (Truthy(s) <==> s.value[0] != '0')
    // every longer string is truthy, "00" and "false" included
    ensures s.Some? && |s.value| >= 2 ==> Truthy(s)
  {
    s.Some? && s.value != "" && s.value != "0"
  }

  /** `$s ?: $default`. */
  function OrElse(s: Option<string>, default: string): (r: string)
    // the parameter itself when it is truthy, so the result is then truthy
    ensures Truthy(s) ==> r == s.value && Truthy(Some(r))
    // the default for null, "" and "0"
    ensures !Truthy(s) ==> r == default
  {
    if Truthy(s) then s.value else default
  }

  function Abs(n: int): nat {
    if n < 0 then -n else n
  }

  /** `ceil($a / $b)` for a positive divisor, as the integer it denotes. */
  function CeilDiv(a: int, b: int): (r: int)
    requires b > 0
    ensures b * (r - 1) < a <= b * r
  {
    var q := (-a) / b;
    assert -a == b * q + (-a) % b;
    -q
  }

  /** The ceiling is the only integer with that property. */
  lemma CeilDivUnique(a: int, b: int, r: int)
    requires b > 0 && b * (r - 1) < a <= b * r
    ensures CeilDiv(a, b) == r
  {
    var c := CeilDiv(a, b);
    if c < r {
      MulMonotonic(b, c, r - 1);
    } else if c > r {
      MulMonotonic(b, r, c - 1);
    }
  }

  lemma MulMonotonic(m: int, x: int, y: int)
    requires m > 0 && x <= y
    ensures m * x <= m * y
  {
  }

  /** Dafny's `%` is the only remainder in [0, m) that completes a quotient. */
  lemma ModUnique(x: int, m: int, q: int, r: int)
    requires m > 0 && 0 <= r < m && x == m * q + r
    ensures x % m == r && x / m == q
  {
    var q', r' := x / m, x % m;
    assert m * q + r == m * q' + r';
    if q < q' {
      MulMonotonic(m, q + 1, q');
    } else if q > q' {
      MulMonotonic(m, q' + 1, q);
    }
  }

  /** `intdiv($a, $b)`: the quotient rounded toward zero. */
  function TruncDiv(a: int, b: int): int
    requires b != 0
  {
    if a >= 0 then
      (if b > 0 then a / b else -(a / -b))
    else
      (if b > 0 then -((-a) / b) else (-a) / (-b))
  }

  /** The truncated quotient and the remainder of the dividend's sign rebuild
      the dividend. */
  lemma TruncDivRebuilds(a: int, b: int)
    requires b != 0
    ensures a >= 0 ==> a == b * TruncDiv(a, b) + a % Abs(b)
    ensures a < 0 ==> a == b * TruncDiv(a, b) - (-a) % Abs(b)
  {
    var d: int := Abs(b);
    var n: int := if a >= 0 then a else -a;
    var q := n / d;
    assert n == d * q + n % d;
    if b > 0 {
      assert d == b;
      assert TruncDiv(a, b) == (if a >= 0 then q else -q);
    } else {
      assert d == -b;
      assert TruncDiv(a, b) == (if a >= 0 then -q else q);
      assert b * -q == d * q;
    }
  }

  /** `$a % $b`. A zero divisor throws; otherwise the remainder takes the sign
      of the dividend (it completes the quotient rounded toward zero), unlike
      Dafny's `%`, whose remainder is never negative. */
  function Mod(a: int, b: int): (r: Computed)
    ensures r.DivisionByZeroError? <==> b == 0
    ensures r.Num? ==> a == b * TruncDiv(a, b) + r.value
    ensures r.Num? ==> Abs(r.value) < Abs(b)
    ensures r.Num? ==> if a >= 0 then r.value >= 0 else r.value <= 0
  {
    if b == 0 then DivisionByZeroError
    else
      TruncDivRebuilds(a, b);
      if a >= 0 then Num(a % Abs(b)) else Num(-((-a) % Abs(b)))
  }

  /** On a non-negative dividend and a positive divisor PHP's `%` agrees with
      Dafny's. */
  lemma ModNonNegative(a: int, b: int)
    requires a >= 0 && b > 0
    ensures Mod(a, b) == Num(a % b)
  {
  }

  /** The first index `array_slice($xs, $offset, ...)` keeps: an offset past
      the end keeps nothing, a negative offset counts back from the end and is
      clipped at the first element. */
  function SliceStart(n: nat, offset: int): (s: nat)
    ensures s <= n
    ensures 0 <= offset <= n ==> s == offset
    // an offset past the end keeps nothing
    ensures offset > n ==> s == n
    ensures offset < 0 && n + offset >= 0 ==> s == n + offset
    // a negative offset reaching before the first element is clipped to it
    ensures offset < 0 && n + offset < 0 ==> s == 0
  {
    if offset > n then n
    else if offset < 0 then (if n + offset < 0 then 0 else n + offset)
    else offset
  }

  /** `array_slice($xs, $offset, $length)` on a list with a non-negative
      length: a contiguous, order-preserving window of at most `length`
      elements, short only where it runs into the end of the list. */
  function ArraySlice<T>(xs: seq<T>, offset: int, length: nat): (r: seq<T>)
    ensures |r| <= length
    ensures SliceStart(|xs|, offset) + |r| <= |xs|
    ensures |r| == length || SliceStart(|xs|, offset) + |r| == |xs|
    ensures forall i :: 0 <= i < |r| ==> r[i] == xs[SliceStart(|xs|, offset) + i]
  {
    var s := SliceStart(|xs|, offset);
    var e := if s + length <= |xs| then s + length else |xs|;
    xs[s..e]
  }

  predicate IsLower(c: char) {
    'a' <= c <= 'z'
  }

  /** `ucfirst($s)`: the first character upper-cased when it is an ASCII
      lower-case letter, the rest untouched. */
  function Ucfirst(s: string): (r: string)
    ensures |r| == |s|
    ensures |s| > 0 ==> r[1..] == s[1..]
    ensures |s| > 0 && IsLower(s[0]) ==> r[0] as int == s[0] as int - 32 && !IsLower(r[0])
    ensures |s| > 0 && !IsLower(s[0]) ==> r[0] == s[0]
  {
    if |s| > 0 && IsLower(s[0]) then [(s[0] as int - 32) as char] + s[1..] else s
  }

  function Digit(d: int): (c: char)
    requires 0 <= d < 10
    ensures '0' <= c <= '9'
  {
    ('0' as int + d) as char
  }

  /** The decimal digits of a natural number, without leading zeros. */
  function NatString(n: nat): (s: string)
    ensures |s| >= 1
    ensures |s| == 1 <==> n < 10
    ensures forall i :: 0 <= i < |s| ==> '0' <= s[i] <= '9'
  {
    if n < 10 then [Digit(n)] else NatString(n / 10) + [Digit(n % 10)]
  }

  /** Distinct numbers print differently. */
  lemma {:induction false} NatStringInjective(m: nat, n: nat)
    requires NatString(m) == NatString(n)
    ensures m == n
  {
    if m >= 10 {
      var sm, sn := NatString(m), NatString(n);
      assert sm[|sm| - 1] == Digit(m % 10);
      assert sn[|sn| - 1] == Digit(n % 10);
      assert NatString(m / 10) == sm[..|sm| - 1] == sn[..|sn| - 1] == NatString(n / 10);
      NatStringInjective(m / 10, n / 10);
    }
  }

  /** How PHP prints an integer (or an integral float of small magnitude). */
  function IntString(n: int): (s: string)
    ensures |s| > 0 && (s[0] == '-' <==> n < 0)
    ensures forall i :: 0 <= i < |s| ==> s[i] == '-' || '0' <= s[i] <= '9'
  {
    if n < 0 then "-" + NatString(-n) else NatString(n)
  }

  lemma IntStringInjective(m: int, n: int)
    requires IntString(m) == IntString(n)
    ensures m == n
  {
    if m < 0 && n < 0 {
      assert NatString(-m) == IntString(m)[1..];
      NatStringInjective(-m, -n);
    } else if m >= 0 && n >= 0 {
      NatStringInjective(m, n);
    }
  }

  /** How the float `ceil($a / $b)` prints in a string concatenation: an
      integral value prints without a fraction, and a quotient in (-1, 0)
      rounds up to negative zero, which prints as "-0". */
  function CeilString(a: int, b: int): (s: string)
    requires b > 0
    ensures forall i :: 0 <= i < |s| ==> s[i] == '-' || '0' <= s[i] <= '9'
  {
    if -b < a < 0 then "-0" else IntString(CeilDiv(a, b))
  }

  /** An integer, or a negative zero standing for 0, prints apart from every
      other such value. */
  lemma PrintedInjective(z1: bool, c1: int, z2: bool, c2: int)
    requires z1 ==> c1 == 0
    requires z2 ==> c2 == 0
    ensures (if z1 then "-0" else IntString(c1)) == (if z2 then "-0" else IntString(c2))
            <==> c1 == c2 && z1 == z2
  {
    if !z1 && !z2 && IntString(c1) == IntString(c2) {
      IntStringInjective(c1, c2);
    } else if z1 && !z2 {
      NotNegativeZero(c2);
    } else if !z1 && z2 {
      NotNegativeZero(c1);
    }
  }

  /** Two quotients print alike exactly when their ceilings agree and neither
      or both of them is negative zero. */
  lemma CeilStringInjective(a1: int, a2: int, b: int)
    requires b > 0
    ensures CeilString(a1, b) == CeilString(a2, b) <==>
              CeilDiv(a1, b) == CeilDiv(a2, b) && ((-b < a1 < 0) <==> (-b < a2 < 0))
  {
    var z1, z2 := -b < a1 < 0, -b < a2 < 0;
    var c1, c2 := CeilDiv(a1, b), CeilDiv(a2, b);
    if z1 {
      CeilDivUnique(a1, b, 0);
    }
    if z2 {
      CeilDivUnique(a2, b, 0);
    }
    PrintedInjective(z1, c1, z2, c2);
  }

  /** No integer prints as "-0". */
  lemma NotNegativeZero(n: int)
    ensures IntString(n) != "-0"
  {
    if n < 0 {
      var digits := NatString(-n);
      assert IntString(n) == "-" + digits;
      if -n < 10 {
        assert digits == [Digit(-n)];
        assert digits[0] as int == '0' as int - n != '0' as int;
        assert IntString(n)[1] != "-0"[1];
      }
    }
  }
}
