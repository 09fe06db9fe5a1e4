/**
 The two renderings of a JSON-RPC request id that `ACPServer` uses as a key of `pending`.

 A request is filed under the decimal rendering of an int64. A reply comes back through a JSON
 decoder that turns every number into a float64, and `fmt.Sprint` renders a float64 from 1e6 on
 in scientific notation. The two renderings therefore name the same entry only below one million.
 */
module RequestKeys {

  const EXPONENT_FROM := 1_000_000
  const FLOAT_EXACT := 0x20_0000_0000_0000  // 2^53
  const HALF_EXACT := 0x10_0000_0000_0000   // 2^52

  function Digit(d: nat): char
    requires d < 10
  {
    '0' + d as char
  }

  /** `fmt.Sprint` of a non-negative integer. */
  function Decimal(n: nat): (s: string)
    ensures |s| > 0
  {
    if n < 10 then [Digit(n)] else Decimal(n / 10) + [Digit(n % 10)]
  }

  /** The spacing of the float64 values around n. */
  function Ulp(n: nat): (u: nat)
    ensures u > 0
  {
    if n < FLOAT_EXACT then 1 else 2 * Ulp(n / 2)
  }

  /** The float64 nearest to n, ties to even. */
  function Float64(n: nat): nat {
    var u := Ulp(n);
    var q, r := n / u, n % u;
    if 2 * r > u || (2 * r == u && q % 2 == 1) then (q + 1) * u else q * u
  }

  /** The decimal digits of n without its trailing zeros. */
  function Mantissa(n: nat): (s: string)
    requires n > 0
    ensures |s| > 0
  {
    if n % 10 == 0 then Mantissa(n / 10) else Decimal(n)
  }

  function Scientific(n: nat): string
    requires n > 0
  {
    var m, exponent := Mantissa(n), |Decimal(n)| - 1;
    m[..1] + (if |m| == 1 then "" else "." + m[1..])
    + "e+" + (if exponent < 10 then "0" else "") + Decimal(exponent)
  }

  /** The key under which `request` files the caller's channel. */
  function KeyOut(id: nat): string {
    Decimal(id)
  }

  /** The key `dispatch` looks up for a reply that carries this id. */
  function KeyIn(id: nat): string {
    var f := Float64(id);
    if f < EXPONENT_FROM then Decimal(f) else Scientific(f)
  }

  // ---------------------------------------------------------------------------------------

  ghost predicate AllDigits(s: string) {
    forall i :: 0 <= i < |s| ==> '0' <= s[i] <= '9'
  }

  lemma {:induction false} DecimalDigits(n: nat)
    ensures |Decimal(n)| > 0 && AllDigits(Decimal(n))
  {
    if n >= 10 {
      DecimalDigits(n / 10);
    }
  }

  /** The number a string of decimal digits denotes, the most significant first. */
  function Denoted(s: string): int {
    if s == "" then 0 else 10 * Denoted(s[..|s| - 1]) + (s[|s| - 1] as int - '0' as int)
  }

  lemma {:induction false} DecimalDenotes(n: nat)
    ensures Denoted(Decimal(n)) == n && (n > 0 ==> Decimal(n)[0] != '0')
  {
    if n >= 10 {
      DecimalDenotes(n / 10);
      assert Decimal(n)[..|Decimal(n)| - 1] == Decimal(n / 10);
    } else {
      assert [Digit(n)][..0] == "";
    }
  }

  lemma {:induction false} DecimalInjective(m: nat, n: nat)
    requires Decimal(m) == Decimal(n)
    ensures m == n
  {
    DecimalDigits(m / 10);
    DecimalDigits(n / 10);
    var s, t := Decimal(m), Decimal(n);
    assert s[|s| - 1] == Digit(m % 10) && t[|t| - 1] == Digit(n % 10);
    assert m % 10 == n % 10;
    if m >= 10 && n >= 10 {
      assert s[..|s| - 1] == Decimal(m / 10) && t[..|t| - 1] == Decimal(n / 10);
      DecimalInjective(m / 10, n / 10);
    }
  }

  lemma {:induction false} UlpSmall(n: nat)
    requires n >= FLOAT_EXACT
    ensures Ulp(n) * HALF_EXACT <= n
  {
    if n / 2 >= FLOAT_EXACT {
      UlpSmall(n / 2);
    }
  }

  lemma QuotientLowerBound(n: nat, u: nat, h: nat)
    requires u > 0 && u * h <= n
    ensures n / u >= h
  {
    var q := n / u;
    assert n == q * u + n % u < (q + 1) * u;
    if q < h {
      MulMonotone(q + 1, h, u);
      assert false;
    }
  }

  lemma MulMonotone(a: nat, b: nat, u: nat)
    requires a <= b
    ensures a * u <= b * u
  {
    assert b * u == a * u + (b - a) * u;
  }

  lemma {:induction false} Float64OfLarge(n: nat)
    requires n >= FLOAT_EXACT
    ensures Float64(n) >= HALF_EXACT
  {
    UlpSmall(n);
    var u := Ulp(n);
    var q := n / u;
    QuotientLowerBound(n, u, HALF_EXACT);
    MulMonotone(1, u, q);
    MulMonotone(1, u, q + 1);
    assert Float64(n) == q * u || Float64(n) == (q + 1) * u;
  }

  /** Rounding is the identity on small ids and never brings a large id below one million. */
  lemma {:induction false} Float64Threshold(n: nat)
    ensures n < EXPONENT_FROM ==> Float64(n) == n
    ensures n >= EXPONENT_FROM ==> Float64(n) >= EXPONENT_FROM
  {
    if n >= FLOAT_EXACT {
      Float64OfLarge(n);
    } else {
      assert n / 1 == n && n % 1 == 0;
    }
  }

  /**
   The channel filed for request `sent` is found by the reply to request `answered` exactly when
   the reply answers that request and its id is below one million.
   */
  lemma {:induction false} KeysAgreeIff(sent: nat, answered: nat)
    ensures KeyOut(sent) == KeyIn(answered) <==> sent == answered && answered < EXPONENT_FROM
  {
    Float64Threshold(answered);
    DecimalDigits(sent);
    if answered < EXPONENT_FROM {
      if KeyOut(sent) == KeyIn(answered) {
        DecimalInjective(sent, answered);
      }
    } else {
      var f := Float64(answered);
      var m := Mantissa(f);
      var prefix := m[..1] + (if |m| == 1 then "" else "." + m[1..]);
      assert Scientific(f)[|prefix|] == 'e';
    }
  }

  lemma KeyOutInjective(i: nat, j: nat)
    ensures KeyOut(i) == KeyOut(j) <==> i == j
  {
    if KeyOut(i) == KeyOut(j) {
      DecimalInjective(i, j);
    }
  }
}
