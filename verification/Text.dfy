/** Decimal text as the C++ library prints it (`std::to_string`) and reads it back
    (`std::stoi`, `std::stoll`): leading blanks and a sign are accepted, the longest run of
    digits is taken, whatever follows it is ignored, and a missing or too large number is an
    exception. */
module Text {
  datatype Option<+T> = None | Some(value: T)

  function Digit(d: nat): char
    requires d < 10
  {
    "0123456789"[d]
  }

  predicate IsDigit(c: char) {
    '0' <= c <= '9'
  }

  function DigitValue(c: char): nat
    requires IsDigit(c)
  {
    c as int - '0' as int
  }

  predicate IsSpace(c: char) {
    c == ' ' || '\t' <= c <= '\r'
  }

  function Natural(n: nat): string {
    if n < 10 then [Digit(n)] else Natural(n / 10) + [Digit(n % 10)]
  }

  /** `std::to_string` of an integer. */
  function Decimal(n: int): string {
    if n < 0 then "-" + Natural(-n) else Natural(n)
  }

  function SkipSpaces(s: string): string {
    if s != "" && IsSpace(s[0]) then SkipSpaces(s[1..]) else s
  }

  /** The value of the leading digits of `s`, continued from `acc`. */
  function Leading(s: string, acc: nat): nat {
    if s != "" && IsDigit(s[0]) then Leading(s[1..], 10 * acc + DigitValue(s[0])) else acc
  }

  /** `std::stoi` / `std::stoll` for a target type with range `lo..hi`; None is the exception. */
  function ParseInt(s: string, lo: int, hi: int): (r: Option<int>)
    ensures r.Some? ==> lo <= r.value <= hi
  {
    var u := SkipSpaces(s);
    var signed := u != "" && (u[0] == '-' || u[0] == '+');
    var v := if signed then u[1..] else u;
    if v == "" || !IsDigit(v[0]) then None
    else
      var magnitude: int := Leading(v, 0);
      var n := if signed && u[0] == '-' then -magnitude else magnitude;
      if lo <= n <= hi then Some(n) else None
  }

  ghost predicate AllDigits(s: string) {
    forall i :: 0 <= i < |s| ==> IsDigit(s[i])
  }

  lemma {:induction false} LeadingAppend(s: string, c: char, acc: nat)
    requires AllDigits(s) && IsDigit(c)
    ensures Leading(s + [c], acc) == 10 * Leading(s, acc) + DigitValue(c)
  {
    if s == "" {
      assert Leading([c][1..], 10 * acc + DigitValue(c)) == 10 * acc + DigitValue(c);
      assert s + [c] == [c];
    } else {
      assert (s + [c])[1..] == s[1..] + [c];
      LeadingAppend(s[1..], c, 10 * acc + DigitValue(s[0]));
    }
  }

  lemma {:induction false} NaturalReads(n: nat)
    ensures Natural(n) != "" && AllDigits(Natural(n)) && Leading(Natural(n), 0) == n
  {
    if n < 10 {
      assert Leading([Digit(n)][1..], n) == n;
    } else {
      NaturalReads(n / 10);
      LeadingAppend(Natural(n / 10), Digit(n % 10), 0);
    }
  }

  /** Printing and parsing are inverse: a number comes back exactly when it fits the type. */
  lemma ParsePrinted(n: int, lo: int, hi: int)
    ensures ParseInt(Decimal(n), lo, hi) == if lo <= n <= hi then Some(n) else None
  {
    NaturalReads(if n < 0 then -n else n);
    if n < 0 {
      assert Decimal(n)[1..] == Natural(-n);
    }
  }

  lemma {:induction false} SkipsSpaces(pad: string, s: string)
    requires (forall i :: 0 <= i < |pad| ==> IsSpace(pad[i])) && (s == "" || !IsSpace(s[0]))
    ensures SkipSpaces(pad + s) == s
  {
    if pad == "" {
      assert pad + s == s;
    } else {
      assert (pad + s)[1..] == pad[1..] + s;
      SkipsSpaces(pad[1..], s);
    }
  }

  lemma {:induction false} LeadingStops(s: string, rest: string, acc: nat)
    requires AllDigits(s) && (rest == "" || !IsDigit(rest[0]))
    ensures Leading(s + rest, acc) == Leading(s, acc)
  {
    if s == "" {
      assert s + rest == rest;
    } else {
      assert (s + rest)[1..] == s[1..] + rest;
      LeadingStops(s[1..], rest, 10 * acc + DigitValue(s[0]));
    }
  }

  /** Blanks before the number, a plus sign and text behind it do not matter. */
  lemma ParsePadded(pad: string, plus: bool, n: nat, rest: string, lo: int, hi: int)
    requires (forall i :: 0 <= i < |pad| ==> IsSpace(pad[i])) && (rest == "" || !IsDigit(rest[0]))
    ensures ParseInt(pad + (if plus then "+" else "") + Natural(n) + rest, lo, hi)
            == if lo <= n <= hi then Some(n) else None
  {
    NaturalReads(n);
    var digits := Natural(n) + rest;
    var s := (if plus then "+" else "") + digits;
    assert IsDigit(digits[0]);
    assert pad + (if plus then "+" else "") + Natural(n) + rest == pad + s;
    SkipsSpaces(pad, s);
    LeadingStops(Natural(n), rest, 0);
    assert plus ==> s[1..] == digits;
    assert !plus ==> s == digits;
  }

  /** Text without a leading number is an exception. */
  lemma ParseNothing(s: string, lo: int, hi: int)
    requires s == "" || !(IsSpace(s[0]) || IsDigit(s[0]) || s[0] == '-' || s[0] == '+')
    ensures ParseInt(s, lo, hi).None?
  {
  }
}
