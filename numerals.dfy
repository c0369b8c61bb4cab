/** Digit strings in base 10 (the `\d+` of a TTL) and base 16 (an ObjectId's hex form). */
module Numerals {

  /** True when `c` is a lower-case digit of `base` (2..16). */
  predicate IsDigit(c: char, base: nat)
  {
    if '0' <= c <= '9' then (c as int - '0' as int) < base
    else if 'a' <= c <= 'f' then 10 + (c as int - 'a' as int) < base
    else false
  }

  function DigitValue(c: char): nat
  {
    if '0' <= c <= '9' then c as int - '0' as int
    else if 'a' <= c <= 'f' then 10 + (c as int - 'a' as int)
    else 0
  }

  function DigitChar(d: nat): (c: char)
    requires d < 16
    ensures DigitValue(c) == d
  {
    if d < 10 then ('0' as int + d) as char else ('a' as int + d - 10) as char
  }

  predicate AllDigits(s: string, base: nat)
  {
    forall i :: 0 <= i < |s| ==> IsDigit(s[i], base)
  }

  /** The number a digit string denotes, most significant digit first
      (leading zeros allowed, as `parseInt` reads them). */
  function Value(s: string, base: nat): nat
  {
    if s == [] then 0 else Value(s[..|s| - 1], base) * base + DigitValue(s[|s| - 1])
  }

  /** A digit string denotes zero exactly when every digit is zero, which is
      why "0h" and "000s" have a zero value. */
  lemma {:induction false} ValueIsZero(s: string, base: nat)
    requires 2 <= base
    ensures Value(s, base) == 0 <==> forall i :: 0 <= i < |s| ==> DigitValue(s[i]) == 0
  {
    if s != [] {
      var prefix := s[..|s| - 1];
      assert forall i :: 0 <= i < |prefix| ==> prefix[i] == s[i];
      ValueIsZero(prefix, base);
    }
  }

  /** Leading zeros do not change the value, as `parseInt` reads them. */
  lemma {:induction false} ValueLeadingZero(s: string, base: nat)
    ensures Value(['0'] + s, base) == Value(s, base)
  {
    if s != [] {
      var t := ['0'] + s;
      assert t[..|t| - 1] == ['0'] + s[..|s| - 1];
      ValueLeadingZero(s[..|s| - 1], base);
    }
  }

  /** Euclidean division by a base, as Render and ValueOfRender use it. */
  lemma DivModBase(n: nat, base: nat)
    requires 2 <= base
    ensures n == (n / base) * base + n % base && n % base < base
    ensures n / base <= n && (n > 0 ==> n / base < n)
    ensures n < base ==> n / base == 0
  {
  }

  /** The digits of `n` in `base`, left-padded with zeros to at least `width`. */
  function Render(n: nat, base: nat, width: nat): (s: string)
    requires 2 <= base <= 16
    ensures |s| >= 1 && |s| >= width
    ensures AllDigits(s, base)
    decreases n, width
  {
    DivModBase(n, base);
    if n < base && width <= 1 then [DigitChar(n)]
    else Render(n / base, base, if width == 0 then 0 else width - 1) + [DigitChar(n % base)]
  }

  /** Reading back a rendered number gives the number: Render is injective. */
  lemma {:induction false} ValueOfRender(n: nat, base: nat, width: nat)
    requires 2 <= base <= 16
    ensures Value(Render(n, base, width), base) == n
    decreases n, width
  {
    var s := Render(n, base, width);
    DivModBase(n, base);
    if n < base && width <= 1 {
      assert s[..|s| - 1] == [];
    } else {
      var w := if width == 0 then 0 else width - 1;
      var prefix := Render(n / base, base, w);
      assert s[..|s| - 1] == prefix;
      ValueOfRender(n / base, base, w);
    }
  }

  lemma RenderInjective(a: nat, b: nat, base: nat, width: nat)
    requires 2 <= base <= 16
    requires Render(a, base, width) == Render(b, base, width)
    ensures a == b
  {
    ValueOfRender(a, base, width);
    ValueOfRender(b, base, width);
  }
}
