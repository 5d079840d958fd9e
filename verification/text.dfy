/** Rendering and parsing of natural numbers as digit strings, and ASCII lower-casing. */
module Text {
  import opened Basics

  /** The digit alphabet used by `toString(16)` and `toString(10)`: lower-case letters. */
  const Alphabet: string := "0123456789abcdef"

  predicate IsHexChar(c: char) {
    ('0' <= c <= '9') || ('a' <= c <= 'f') || ('A' <= c <= 'F')
  }

  /** The value of one digit, upper- or lower-case. */
  function DigitValue(c: char): (d: nat)
    requires IsHexChar(c)
    ensures d < 16
    ensures c in "0123456789" <==> d < 10
  {
    if '0' <= c <= '9' then (c - '0') as nat
    else if 'a' <= c <= 'f' then (c - 'a') as nat + 10
    else (c - 'A') as nat + 10
  }

  /** `c` is a digit of base `base`. */
  predicate IsDigit(c: char, base: nat) {
    IsHexChar(c) && DigitValue(c) < base
  }

  predicate AllDigits(s: string, base: nat) {
    forall i :: 0 <= i < |s| ==> IsDigit(s[i], base)
  }

  /** The value of a digit string, most significant digit first; the empty string is 0. */
  function Value(s: string, base: nat): nat
    requires AllDigits(s, base)
    decreases |s|
  {
    if s == [] then 0
    else
      var init := s[..|s| - 1];
      assert AllDigits(init, base) by {
        forall i | 0 <= i < |init| ensures IsDigit(init[i], base) { assert init[i] == s[i]; }
      }
      NatProduct(Value(init, base), base);
      Value(init, base) * base + DigitValue(s[|s| - 1])
  }

  lemma NatProduct(a: nat, b: nat)
    ensures a * b >= 0
  {
  }

  /** The character for digit `d`, lower-case. */
  function DigitChar(d: nat): (c: char)
    requires d < 16
    ensures IsHexChar(c) && DigitValue(c) == d
    ensures c in Alphabet
  {
    Alphabet[d]
  }

  /** `n.toString(base)`: the shortest digit string, lower-case, "0" for zero. */
  function Show(n: nat, base: nat): (r: string)
    requires 2 <= base <= 16
    ensures |r| >= 1
    ensures AllDigits(r, base)
    decreases n
  {
    if n < base then [DigitChar(n)]
    else
      DivMod(n, base);
      var prefix := Show(n / base, base);
      var last := DigitChar(n % base);
      assert AllDigits(prefix + [last], base) by {
        forall i | 0 <= i < |prefix| + 1 ensures IsDigit((prefix + [last])[i], base) {
          if i < |prefix| { assert (prefix + [last])[i] == prefix[i]; }
        }
      }
      prefix + [last]
  }

  lemma {:induction false} ShowValue(n: nat, base: nat)
    requires 2 <= base <= 16
    ensures Value(Show(n, base), base) == n
    decreases n
  {
    var r := Show(n, base);
    if n >= base {
      var q, m := n / base, n % base;
      DivMod(n, base);
      assert r == Show(q, base) + [DigitChar(m)];
      assert r[..|r| - 1] == Show(q, base);
      assert r[|r| - 1] == DigitChar(m);
      ShowValue(q, base);
      assert Value(r, base) == Value(Show(q, base), base) * base + m;
    } else {
      assert r[..0] == [];
    }
  }

  lemma DivMod(n: nat, base: nat)
    requires 2 <= base <= n
    ensures n / base < n
    ensures n == (n / base) * base + n % base
  {
    var q, r := n / base, n % base;
    assert n == q * base + r && 0 <= r < base;
    var e: nat := base - 2;
    NatProduct(q, e);
    assert q * base == q * e + 2 * q by { Distribute(q, e, 2); }
  }

  lemma Distribute(a: int, b: int, c: int)
    ensures a * (b + c) == a * b + a * c
  {
  }

  /** Digits produced by `Show` are all lower-case. */
  predicate IsLowerHex(s: string) {
    forall i :: 0 <= i < |s| ==> s[i] in Alphabet
  }

  lemma {:induction false} ShowIsLower(n: nat, base: nat)
    requires 2 <= base <= 16
    ensures IsLowerHex(Show(n, base))
    decreases n
  {
    if n >= base {
      ShowIsLower(n / base, base);
    }
  }

  /** `n` copies of `c`. */
  function Repeat(c: char, n: nat): (r: string)
    ensures |r| == n
    ensures forall i :: 0 <= i < n ==> r[i] == c
  {
    if n == 0 then [] else Repeat(c, n - 1) + [c]
  }

  /** `s.padStart(width, c)`: left padding up to `width`; a longer `s` is kept whole. */
  function PadStart(s: string, width: nat, c: char): (r: string)
    ensures |r| == if |s| >= width then |s| else width
    ensures r[|r| - |s|..] == s
    ensures forall i :: 0 <= i < |r| - |s| ==> r[i] == c
  {
    if |s| >= width then s else Repeat(c, width - |s|) + s
  }

  /** Leading zeros do not change the value of a digit string. */
  lemma {:induction false} LeadingZeros(z: nat, s: string, base: nat)
    requires 2 <= base <= 16
    requires AllDigits(s, base)
    ensures AllDigits(Repeat('0', z) + s, base)
    ensures Value(Repeat('0', z) + s, base) == Value(s, base)
    decreases |s|
  {
    var t := Repeat('0', z) + s;
    assert AllDigits(t, base) by {
      forall i | 0 <= i < |t| ensures IsDigit(t[i], base) {
        if i >= z { assert t[i] == s[i - z]; }
      }
    }
    if s == [] {
      ZerosValue(z, base);
      assert t == Repeat('0', z);
    } else {
      var s' := s[..|s| - 1];
      assert t[..|t| - 1] == Repeat('0', z) + s';
      LeadingZeros(z, s', base);
    }
  }

  lemma {:induction false} ZerosValue(z: nat, base: nat)
    requires 2 <= base <= 16
    ensures AllDigits(Repeat('0', z), base)
    ensures Value(Repeat('0', z), base) == 0
    decreases z
  {
    var r := Repeat('0', z);
    assert AllDigits(r, base) by {
      forall i | 0 <= i < z ensures IsDigit(r[i], base) { assert r[i] == '0'; }
    }
    if z > 0 {
      var init := r[..z - 1];
      assert init == Repeat('0', z - 1);
      ZerosValue(z - 1, base);
      assert Value(init, base) == 0;
      assert DigitValue(r[z - 1]) == 0;
    }
  }

  /** Decimal parse of a non-empty all-digit string; anything else is refused. */
  function ParseDecimal(s: string): (r: Option<nat>)
    ensures r.Some? <==> s != [] && AllDigits(s, 10)
  {
    if s != [] && AllDigits(s, 10) then Some(Value(s, 10)) else None
  }

  /** `n.toString()` in base 10 parses back to `n`. */
  lemma DecimalRoundTrip(n: nat)
    ensures ParseDecimal(Show(n, 10)) == Some(n)
  {
    ShowValue(n, 10);
  }

  /** Hexadecimal parse of an all-digit string, either case; the empty string is 0. */
  function ParseHex(s: string): (r: Option<nat>)
    ensures r.Some? <==> AllDigits(s, 16)
  {
    if AllDigits(s, 16) then Some(Value(s, 16)) else None
  }

  /** ASCII lower-casing of one character. */
  function LowerChar(c: char): (r: char)
    ensures 'A' <= c <= 'Z' ==> 'a' <= r <= 'z' && r as int == c as int + 32
    ensures !('A' <= c <= 'Z') ==> r == c
  {
    if 'A' <= c <= 'Z' then (c as int + 32) as char else c
  }

  /** `s.toLowerCase()` restricted to ASCII letters. */
  function ToLower(s: string): (r: string)
    ensures |r| == |s|
    ensures forall i :: 0 <= i < |s| ==> r[i] == LowerChar(s[i])
  {
    seq(|s|, i requires 0 <= i < |s| => LowerChar(s[i]))
  }

  lemma ToLowerIdempotent(s: string)
    ensures ToLower(ToLower(s)) == ToLower(s)
  {
  }
}
