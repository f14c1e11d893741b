/** The JavaScript string operations the payment code relies on, on `seq<char>`:
    `slice(-k)`, `padStart`, `Number.prototype.toString` for non-negative
    integers and `split(' ')`, with the facts the rest of the model needs. */
module Text {

  predicate IsDigit(c: char) { '0' <= c <= '9' }

  predicate AllDigits(s: string) { forall i :: 0 <= i < |s| ==> IsDigit(s[i]) }

  function Min(a: int, b: int): (m: int) { if a <= b then a else b }

  function Pow10(k: nat): (p: nat)
    ensures p >= 1
  {
    if k == 0 then 1 else 10 * Pow10(k - 1)
  }

  /** `s.slice(-k)` for `k >= 1`: the last `k` characters, or all of `s` when
      it is shorter (`slice(-0)` would be the whole string). */
  function SliceLast(s: string, k: nat): (r: string)
    requires k >= 1
    ensures |r| == Min(k, |s|)
    ensures r == s[|s| - |r|..]
  {
    if |s| <= k then s else s[|s| - k..]
  }

  /** `c` repeated `n` times. */
  function Repeat(c: char, n: nat): (r: string)
    ensures |r| == n && forall i :: 0 <= i < n ==> r[i] == c
  {
    seq(n, _ => c)
  }

  /** `s.padStart(len, c)`: `c` repeated in front of `s` until it is `len` long. */
  function PadStart(s: string, len: nat, c: char): (r: string)
    ensures |r| == if |s| >= len then |s| else len
    ensures r == Repeat(c, |r| - |s|) + s
  {
    if |s| >= len then (assert s == [] + s; s) else Repeat(c, len - |s|) + s
  }

  function DigitChar(d: nat): (c: char)
    requires d < 10
    ensures IsDigit(c) && c as int == '0' as int + d
  {
    ('0' as int + d) as char
  }

  function DigitValue(c: char): (d: nat)
    requires IsDigit(c)
    ensures d < 10 && DigitChar(d) == c
  {
    (c as int - '0' as int) as nat
  }

  /** `n.toString()` for a non-negative integer (no sign, no leading zero, no
      exponent): it ends in the units digit. */
  function Decimal(n: nat): (s: string)
    decreases n
  {
    if n < 10 then [DigitChar(n)] else Decimal(n / 10) + [DigitChar(n % 10)]
  }

  /** The value of a string of decimal digits, read most significant digit first. */
  function ParseDecimal(s: string): (n: nat)
    requires AllDigits(s)
  {
    if s == [] then 0 else 10 * ParseDecimal(s[..|s| - 1]) + DigitValue(s[|s| - 1])
  }

  lemma {:induction false} DecimalWellFormed(n: nat)
    ensures |Decimal(n)| >= 1 && AllDigits(Decimal(n))
    ensures Decimal(n)[0] == '0' <==> n == 0
    decreases n
  {
    if n >= 10 {
      DecimalWellFormed(n / 10);
      var s := Decimal(n / 10);
      assert Decimal(n) == s + [DigitChar(n % 10)];
      assert Decimal(n)[0] == s[0];
    }
  }

  /** The decimal text of `n` has `L` digits exactly when `10^(L-1) <= n < 10^L` (n > 0). */
  lemma {:induction false} DecimalLength(n: nat)
    ensures n < Pow10(|Decimal(n)|)
    ensures |Decimal(n)| > 1 ==> n >= Pow10(|Decimal(n)| - 1)
    decreases n
  {
    if n >= 10 {
      DecimalLength(n / 10);
      var l := |Decimal(n / 10)|;
      assert |Decimal(n)| == l + 1;
      assert n / 10 < Pow10(l);
      assert n < 10 * Pow10(l);
      if l > 1 {
        assert n / 10 >= Pow10(l - 1);
        assert n >= 10 * Pow10(l - 1);
      } else {
        assert Pow10(1) == 10;
      }
    }
  }

  lemma {:induction false} Pow10Monotone(i: nat, j: nat)
    requires i <= j
    ensures Pow10(i) <= Pow10(j)
    decreases j
  {
    if i < j { Pow10Monotone(i, j - 1); }
  }

  /** At least six digits exactly from 100000 on. */
  lemma SixDigits(n: nat)
    ensures |Decimal(n)| >= 6 <==> n >= 100000
  {
    DecimalLength(n);
    var l := |Decimal(n)|;
    assert Pow10(5) == 100000 && Pow10(6) == 1000000;
    if l >= 6 {
      Pow10Monotone(5, l - 1);
    } else {
      Pow10Monotone(l, 5);
    }
  }

  /** Parsing the decimal text of `n` gives `n` back. */
  lemma {:induction false} ParseDecimalRoundTrip(n: nat)
    ensures AllDigits(Decimal(n)) && ParseDecimal(Decimal(n)) == n
    decreases n
  {
    DecimalWellFormed(n);
    if n >= 10 {
      ParseDecimalRoundTrip(n / 10);
      var s := Decimal(n);
      assert s[..|s| - 1] == Decimal(n / 10);
    } else {
      assert Decimal(n)[..0] == [];
    }
  }

  lemma MulAtLeast(m: int, x: int)
    requires m >= 1 && x >= 1
    ensures m * x >= m
  {
    var y := x - 1;
    assert m * x == m * y + m;
    assert m * y >= 0;
  }

  /** Euclidean division is unique: a representation `m * a + b` with `0 <= b < m` is the one. */
  lemma ModUnique(n: int, m: int, a: int, b: int)
    requires m >= 1 && n == m * a + b && 0 <= b < m
    ensures n % m == b
  {
    var a0, b0 := n / m, n % m;
    assert n == m * a0 + b0;
    if a > a0 {
      MulAtLeast(m, a - a0);
      assert false;
    } else if a < a0 {
      MulAtLeast(m, a0 - a);
      assert false;
    }
  }

  lemma ModOfSplit(n: nat, p: nat)
    requires p >= 1
    ensures ((n / 10) % p) * 10 + n % 10 == n % (10 * p)
  {
    var q, d := n / 10, n % 10;
    var a, b := q / p, q % p;
    assert n == 10 * q + d;
    assert q == p * a + b;
    assert 10 * q == (10 * p) * a + 10 * b;
    assert n == (10 * p) * a + (10 * b + d);
    assert 10 * b + d < 10 * p;
    ModUnique(n, 10 * p, a, 10 * b + d);
  }

  /** Appending a digit multiplies the value by ten and adds the digit. */
  lemma ParseDecimalSnoc(u: string, d: nat)
    requires AllDigits(u) && d < 10
    ensures AllDigits(u + [DigitChar(d)])
    ensures ParseDecimal(u + [DigitChar(d)]) == 10 * ParseDecimal(u) + d
  {
    var t := u + [DigitChar(d)];
    assert t[..|t| - 1] == u;
  }

  /** The last `k` digits of the decimal text of `n` spell `n % 10^k`. */
  lemma ParseDecimalSuffix(n: nat, k: nat)
    requires k <= |Decimal(n)|
    ensures AllDigits(Decimal(n))
    ensures ParseDecimal(Decimal(n)[|Decimal(n)| - k..]) == n % Pow10(k)
  {
    ParseDecimalRoundTrip(n);
    ParseDigitsSuffix(Decimal(n), k);
  }

  /** The last `k` characters of a digit string spell its value mod `10^k`. */
  lemma {:induction false} ParseDigitsSuffix(s: string, k: nat)
    requires AllDigits(s) && k <= |s|
    ensures AllDigits(s[|s| - k..])
    ensures ParseDecimal(s[|s| - k..]) == ParseDecimal(s) % Pow10(k)
    decreases k
  {
    if k == 0 {
      assert s[|s| - k..] == [];
    } else {
      var u, c := s[..|s| - 1], s[|s| - 1];
      var d := DigitValue(c);
      assert s == u + [c];
      assert AllDigits(u);
      var v := u[|u| - (k - 1)..];
      SuffixSnoc(u, c, k - 1);
      assert s[|s| - k..] == v + [c];
      ParseDigitsSuffix(u, k - 1);
      var p := Pow10(k - 1);
      var n := ParseDecimal(s);
      assert n == 10 * ParseDecimal(u) + d;
      assert n / 10 == ParseDecimal(u) && n % 10 == d;
      assert c == DigitChar(d);
      ParseDecimalSnoc(v, d);
      assert ParseDecimal(s[|s| - k..]) == 10 * ((n / 10) % p) + n % 10;
      ModOfSplit(n, p);
      assert Pow10(k) == 10 * p;
    }
  }

  /** The last `j + 1` characters of `u + [c]` are the last `j` of `u`, then `c`. */
  lemma SuffixSnoc(u: string, c: char, j: nat)
    requires j <= |u| && AllDigits(u)
    ensures AllDigits(u[|u| - j..])
    ensures (u + [c])[|u| - j..] == u[|u| - j..] + [c]
  {
    var v := u[|u| - j..];
    forall i | 0 <= i < |v| ensures IsDigit(v[i]) { assert v[i] == u[|u| - j + i]; }
  }

  /** Leading zeros do not change the value of a digit string. */
  lemma {:induction false} ParseDecimalLeadingZeros(z: string, s: string)
    requires forall i :: 0 <= i < |z| ==> z[i] == '0'
    requires AllDigits(s)
    ensures AllDigits(z + s) && ParseDecimal(z + s) == ParseDecimal(s)
    decreases |s|, |z|
  {
    var zs := z + s;
    assert AllDigits(zs) by {
      forall i | 0 <= i < |zs| ensures IsDigit(zs[i]) {
        if i < |z| { assert zs[i] == z[i]; } else { assert zs[i] == s[i - |z|]; }
      }
    }
    if s == [] {
      assert zs == z;
      if z != [] {
        assert z[..|z| - 1] + [] == z[..|z| - 1];
        ParseDecimalLeadingZeros(z[..|z| - 1], []);
      }
    } else {
      assert zs[..|zs| - 1] == z + s[..|s| - 1];
      assert zs[|zs| - 1] == s[|s| - 1];
      ParseDecimalLeadingZeros(z, s[..|s| - 1]);
    }
  }

  /** `s.split(' ')`: the fields between single spaces, always at least one. */
  function Split(s: string): (parts: seq<string>)
    ensures |parts| >= 1
    ensures forall i :: 0 <= i < |parts| ==> ' ' !in parts[i]
  {
    if s == [] then [[]]
    else
      var rest := Split(s[1..]);
      if s[0] == ' ' then [[]] + rest else [[s[0]] + rest[0]] + rest[1..]
  }

  /** `parts.join(' ')`. */
  function Join(parts: seq<string>): (s: string)
    requires |parts| >= 1
  {
    if |parts| == 1 then parts[0] else parts[0] + " " + Join(parts[1..])
  }

  /** Splitting loses nothing: joining the fields again gives the original text. */
  lemma {:induction false} JoinSplit(s: string)
    ensures Join(Split(s)) == s
  {
    if s != [] {
      var rest := Split(s[1..]);
      JoinSplit(s[1..]);
      if s[0] == ' ' {
        assert Split(s)[1..] == rest;
      } else {
        var parts := Split(s);
        assert parts[0] == [s[0]] + rest[0];
        if |rest| > 1 {
          assert parts[1..] == rest[1..];
          assert Join(rest) == rest[0] + " " + Join(rest[1..]);
        }
      }
    }
  }

  /** Text without a space is a single field. */
  lemma {:induction false} SplitNoSpace(s: string)
    requires ' ' !in s
    ensures Split(s) == [s]
  {
    if s != [] {
      assert ' ' !in s[1..] by {
        forall i | 0 <= i < |s[1..]| ensures s[1..][i] != ' ' { assert s[1..][i] == s[i + 1]; }
      }
      SplitNoSpace(s[1..]);
      assert [s[0]] + s[1..] == s;
    }
  }

  /** The first space ends the first field; the rest is split on its own. */
  lemma {:induction false} SplitAtFirstSpace(a: string, b: string)
    requires ' ' !in a
    ensures Split(a + " " + b) == [a] + Split(b)
  {
    if a == [] {
      assert ([] + " " + b)[1..] == b;
    } else {
      var s := a + " " + b;
      assert s[1..] == a[1..] + " " + b;
      assert ' ' !in a[1..] by {
        forall i | 0 <= i < |a[1..]| ensures a[1..][i] != ' ' { assert a[1..][i] == a[i + 1]; }
      }
      SplitAtFirstSpace(a[1..], b);
      assert [a[0]] + a[1..] == a;
    }
  }
}
