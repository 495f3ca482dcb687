/** Numbers as text: `itoa`, `atoi` and the numeric parts of `printf`. */
module Texts {
  import opened Arithmetic

  /** `int` and `unsigned int` are 32 bits wide. */
  const MODULUS: nat := 0x1_0000_0000

  type Int = x: int | -0x8000_0000 <= x < 0x8000_0000
  type Uint = x: int | 0 <= x < MODULUS

  /** Arithmetic on `int` wraps around. */
  function Wrap(x: int): Int {
    (x + 0x8000_0000) % MODULUS - 0x8000_0000
  }

  const ZERO: int := 48
  const DIGITS := "0123456789ABCDEF"

  /** The printed form of a number. */
  function Numeral(x: nat, base: nat): (s: string)
    requires 2 <= base <= 16
    ensures |s| >= 1
    decreases x
  {
    if x < base then [DIGITS[x]] else Smaller(x, base); Numeral(x / base, base) + [DIGITS[x % base]]
  }

  lemma Smaller(x: nat, base: nat)
    requires 2 <= base <= x
    ensures x / base < x
  {
    var q := x / base;
    assert x == q * base + x % base;
    if q >= x {
      MulMono(x, q, base);
      MulMono(2, base, x);
    }
  }

  /** What a character counts as a digit. */
  function DigitOf(c: char): nat {
    if '0' <= c <= '9' then c as int - ZERO else if 'A' <= c <= 'F' then c as int - 55 else 0
  }

  /** The number a string of digits stands for. */
  function Value(s: string, base: nat): nat {
    if s == [] then 0 else Value(s[..|s| - 1], base) * base + DigitOf(s[|s| - 1])
  }

  lemma Digit(d: nat)
    requires d < 16
    ensures DigitOf(DIGITS[d]) == d
    ensures d < 10 ==> DIGITS[d] as int == '0' as int + d && '0' as int == ZERO && '0' <= DIGITS[d] <= '9'
    ensures d >= 10 ==> DIGITS[d] as int == 'A' as int + d - 10
  {
    assert DIGITS == ['0', '1', '2', '3', '4', '5', '6', '7', '8', '9', 'A', 'B', 'C', 'D', 'E', 'F'];
  }

  function Power(base: nat, k: nat): nat {
    if k == 0 then 1 else base * Power(base, k - 1)
  }

  /** A number below the k-th power of the base has at most k digits. */
  lemma {:induction false} NumeralLength(x: nat, base: nat, k: nat)
    requires 2 <= base <= 16 && k >= 1 && x < Power(base, k)
    ensures |Numeral(x, base)| <= k
    decreases k
  {
    if x >= base {
      Smaller(x, base);
      PowerOne(base);
      Quotients(x, base, Power(base, k - 1));
      NumeralLength(x / base, base, k - 1);
    }
  }

  lemma PowerOne(base: nat)
    ensures Power(base, 1) == base
  {
    assert Power(base, 1) == base * Power(base, 0);
  }

  lemma Quotients(x: nat, base: nat, p: nat)
    requires base >= 1 && x < base * p
    ensures x / base < p
  {
    var q := x / base;
    assert x == q * base + x % base;
    if q >= p {
      MulMono(p, q, base);
    }
  }

  /** 32-bit numbers have at most 10 decimal and 8 hexadecimal digits. */
  lemma ShortNumerals(x: Uint)
    ensures |Numeral(x, 10)| <= 10 && |Numeral(x, 16)| <= 8
  {
    PowersOfTen();
    NumeralLength(x, 10, 10);
    NumeralLength(x, 16, 8);
  }

  lemma PowersOfTen()
    ensures Power(10, 10) == 10_000_000_000 && Power(16, 8) == MODULUS
  {
    assert Power(10, 5) == 100_000;
    assert Power(16, 4) == 65536;
  }

  /** The digits of a numeral read backwards, as the loops produce them. */
  function Backwards(s: string): (r: string)
    ensures |r| == |s| && forall i :: 0 <= i < |s| ==> r[i] == s[|s| - 1 - i]
  {
    seq(|s|, (i: nat) requires i < |s| => s[|s| - 1 - i])
  }

  predicate IsDigit(c: char) {
    '0' <= c <= '9'
  }

  /** The digits at the start of a string. */
  function Leading(s: string): (r: string)
    ensures r <= s && (forall i :: 0 <= i < |r| ==> IsDigit(r[i])) && (|r| < |s| ==> !IsDigit(s[|r|]))
  {
    if s == [] || !IsDigit(s[0]) then [] else [s[0]] + Leading(s[1..])
  }

  lemma {:induction false} DecimalDigits(x: nat)
    ensures forall i :: 0 <= i < |Numeral(x, 10)| ==> IsDigit(Numeral(x, 10)[i])
    decreases x
  {
    if x < 10 {
      Digit(x);
    } else {
      Smaller(x, 10);
      DecimalDigits(x / 10);
      Digit(x % 10);
    }
  }

  lemma {:induction false} LeadingDigits(d: string, rest: string)
    requires forall i :: 0 <= i < |d| ==> IsDigit(d[i])
    requires rest != [] && !IsDigit(rest[0])
    ensures Leading(d + rest) == d
  {
    if d == [] {
      assert d + rest == rest;
    } else {
      assert (d + rest)[1..] == d[1..] + rest;
      LeadingDigits(d[1..], rest);
    }
  }

  lemma ValueSnoc(s: string, k: nat)
    requires k < |s| && IsDigit(s[k])
    ensures Value(s[..k + 1], 10) == Value(s[..k], 10) * 10 + (s[k] as int - ZERO)
  {
    assert s[..k + 1][..k] == s[..k];
  }

  lemma WrapSteps(n: int, v: nat, d: nat)
    requires n == Wrap(v) && d < 10
    ensures Wrap(Wrap(Wrap(n * 10) + (ZERO + d)) - ZERO) == Wrap(v * 10 + d)
  {
    hide Wrap;
    WrapTen(v);
    WrapAdd(v * 10, ZERO + d);
    WrapAdd(v * 10 + ZERO + d, -ZERO);
  }

  /** The wrapped number is the only `int` a multiple of 2^32 away. */
  lemma WrapIs(x: int, r: Int, q: int)
    requires x == r + MODULUS * q
    ensures Wrap(x) == r
  {
  }

  lemma WrapAway(x: int) returns (q: int)
    ensures x == Wrap(x) + MODULUS * q
  {
    q := (x + 0x8000_0000) / MODULUS;
  }

  lemma WrapAdd(x: int, y: int)
    ensures Wrap(Wrap(x) + y) == Wrap(x + y)
  {
    hide Wrap;
    var q := WrapAway(x);
    var r := WrapAway(Wrap(x) + y);
    WrapIs(x + y, Wrap(Wrap(x) + y), q + r);
  }

  lemma WrapTen(x: int)
    ensures Wrap(Wrap(x) * 10) == Wrap(x * 10)
  {
    hide Wrap;
    var q := WrapAway(x);
    var r := WrapAway(Wrap(x) * 10);
    WrapIs(x * 10, Wrap(Wrap(x) * 10), 10 * q + r);
  }

  /** `atoi` on a terminated string: the value of its leading digits, wrapped to an `int`. */
  method Atoi(s: string) returns (n: int)
    requires exists i :: 0 <= i < |s| && !IsDigit(s[i])
    ensures n == Wrap(Value(Leading(s), 10))
  {
    n := 0;
    var k := 0;
    ghost var end :| 0 <= end < |s| && !IsDigit(s[end]);
    while '0' <= s[k] <= '9'
      invariant k <= end && n == Wrap(Value(s[..k], 10))
      invariant forall i :: 0 <= i < k ==> IsDigit(s[i])
      decreases end - k
    {
      ValueSnoc(s, k);
      WrapSteps(n, Value(s[..k], 10), s[k] as int - ZERO);
      n := Wrap(Wrap(Wrap(n * 10) + s[k] as int) - ZERO);
      k := k + 1;
    }
    LeadingDigits(s[..k], s[k..]);
    assert s == s[..k] + s[k..];
  }

  /** `itoa`: the numeral and a terminating zero at the start of `s`; nothing for a negative number.
      Its buffer of ten characters suffices, so it never answers -1. */
  method Itoa(a: Int, s: array<char>) returns (len: int)
    requires s.Length > if a >= 0 then |Numeral(a, 10)| else 0
    modifies s
    ensures a >= 0 ==> len == |Numeral(a, 10)| <= 10 && s[..len] == Numeral(a, 10)
    ensures a < 0 ==> len == 0
    ensures s[len] == '\0'
    ensures forall i :: len < i < s.Length ==> s[i] == old(s[i])
  {
    hide Numeral, Backwards, Written;
    NumeralStep(0, 10);
    if a == 0 {
      s[0], s[1] := '0', '\0';
      return 1;
    }
    var buff := new char[10];
    var rest: int := a;
    len := 0;
    if a > 0 {
      ShortNumerals(a);
      WrittenStart(a);
    }
    while rest > 0
      invariant 0 <= len <= 10 && (a > 0 ==> rest >= 0) && (a < 0 ==> rest == a && len == 0)
      invariant a > 0 ==> Written(a, rest, buff[..len])
      invariant s[..] == old(s[..])
      decreases rest
    {
      WrittenStep(a, rest, buff[..len]);
      if len > 10 {
        return -1;
      }
      ghost var before := buff[..len];
      buff[len] := (ZERO + rest % 10) as char;
      assert buff[..len + 1] == before + [buff[len]];
      rest := rest / 10;
      len := len + 1;
    }
    ghost var digits := buff[..len];
    if a > 0 {
      WrittenEnd(a, digits);
    }
    for i := 0 to len
      invariant buff[..len] == digits
      invariant forall j :: 0 <= j < i ==> s[j] == digits[len - 1 - j]
      invariant forall j :: len <= j < s.Length ==> s[j] == old(s[j])
    {
      s[i] := buff[len - i - 1];
    }
    s[len] := '\0';
    if a > 0 {
      assert s[..len] == Backwards(digits) by {
        BackwardsAre(digits);
      }
    }
  }

  lemma BackwardsAre(s: string)
    ensures |Backwards(s)| == |s| && forall i :: 0 <= i < |s| ==> Backwards(s)[i] == s[|s| - 1 - i]
  {
  }

  lemma WrittenStart(a: nat)
    requires a > 0
    ensures Written(a, a, [])
  {
    hide Numeral;
    BackwardsNone(Numeral(a, 10));
  }

  lemma WrittenEnd(a: nat, out: string)
    requires Written(a, 0, out)
    ensures |out| == |Numeral(a, 10)| && Backwards(out) == Numeral(a, 10)
  {
    hide Numeral;
    BackAgain(Numeral(a, 10));
  }

  /** The digits produced so far, lowest first, and the number left over. */
  ghost predicate Written(a: nat, rest: nat, out: string) {
    if rest == 0 then out == Backwards(Numeral(a, 10))
    else Numeral(a, 10) == Numeral(rest, 10) + Backwards(out)
  }

  /** The last digit of a numeral, and what is in front of it. */
  lemma NumeralStep(x: nat, base: nat)
    requires 2 <= base <= 16
    ensures x < base ==> x / base == 0 && Numeral(x, base) == [DIGITS[x % base]]
    ensures x >= base ==> 0 < x / base < x && Numeral(x, base) == Numeral(x / base, base) + [DIGITS[x % base]]
  {
    if x >= base {
      Smaller(x, base);
      Quotients(x, base, x / base + 1);
    } else {
      SmallQuotient(x, base);
    }
  }

  lemma SmallQuotient(x: nat, base: nat)
    requires x < base
    ensures x / base == 0 && x % base == x
  {
  }

  lemma ValueOfSnoc(s: string, c: char, base: nat)
    ensures Value(s + [c], base) == Value(s, base) * base + DigitOf(c)
    ensures Value([c], base) == DigitOf(c)
  {
    assert (s + [c])[..|s|] == s;
    assert [c][..0] == [];
    assert Value([], base) * base == 0;
  }

  /** Every numeral stands for its number. */
  lemma {:induction false} NumeralValue(x: nat, base: nat)
    requires 2 <= base <= 16
    ensures Value(Numeral(x, base), base) == x
    decreases x
  {
    hide Numeral, Value, DigitOf;
    NumeralStep(x, base);
    Digit(x % base);
    if x < base {
      SmallQuotient(x, base);
      ValueOfSnoc("", DIGITS[x % base], base);
    } else {
      NumeralValue(x / base, base);
      ValueOfSnoc(Numeral(x / base, base), DIGITS[x % base], base);
    }
  }

  /** The digit that counts the `k`-th power of the base. */
  function PlaceDigit(x: nat, base: nat, k: nat): (d: nat)
    requires base > 0
    ensures d < base
  {
    PowerPositive(base, k);
    x / Power(base, k) % base
  }

  lemma PlaceSteps(x: nat, base: nat, k: nat)
    requires base > 0
    ensures PlaceDigit(x, base, 0) == x % base
    ensures k > 0 ==> PlaceDigit(x, base, k) == PlaceDigit(x / base, base, k - 1)
  {
    PowerSteps(base, k);
    if k > 0 {
      PowerPositive(base, k - 1);
      DivideTwice(x, base, Power(base, k - 1));
    }
  }

  lemma {:induction false} NumeralAt(x: nat, base: nat, k: nat)
    requires 2 <= base <= 16 && k < |Numeral(x, base)|
    ensures var s := Numeral(x, base); s[|s| - 1 - k] == DIGITS[PlaceDigit(x, base, k)]
    ensures x > 0 ==> Numeral(x, base)[0] != '0'
    decreases x
  {
    hide Numeral, PlaceDigit;
    NumeralStep(x, base);
    PlaceSteps(x, base, k);
    if x < base {
      SmallQuotient(x, base);
      Digit(x);
    } else {
      NumeralAt(x / base, base, if k > 0 then k - 1 else 0);
    }
  }

  /** Digit by digit, from the last one on: the `k`-th is that of the `k`-th power of the base, in
      upper case beyond nine, and the first one is not zero. */
  lemma NumeralDigits(x: nat, base: nat, k: nat)
    requires 2 <= base <= 16 && k < |Numeral(x, base)|
    ensures Power(base, k) > 0
    ensures var s, d := Numeral(x, base), x / Power(base, k) % base;
      s[|s| - 1 - k] as int == if d < 10 then '0' as int + d else 'A' as int + d - 10
    ensures x > 0 ==> Numeral(x, base)[0] != '0'
  {
    hide Numeral, Power;
    PowerPositive(base, k);
    NumeralAt(x, base, k);
    Digit(PlaceDigit(x, base, k));
  }

  lemma PowerSteps(base: nat, k: nat)
    ensures Power(base, 0) == 1 && (k > 0 ==> Power(base, k) == base * Power(base, k - 1))
  {
  }

  lemma {:induction false} PowerPositive(base: nat, k: nat)
    requires base > 0
    ensures Power(base, k) > 0
  {
    if k > 0 {
      PowerPositive(base, k - 1);
      MulMono(1, base, Power(base, k - 1));
    }
  }

  lemma DivideTwice(x: nat, b: nat, p: nat)
    requires b > 0 && p > 0
    ensures b * p > 0 && x / b / p == x / (b * p)
  {
    var q, r := x / b, x % b;
    Nested(x, b, p, q, r, q / p, q % p);
    QuotientIs(x, b * p, q / p, q % p * b + r);
  }

  lemma Nested(x: nat, b: nat, p: nat, q: nat, r: nat, q2: nat, r2: nat)
    requires b > 0 && p > 0 && x == q * b + r && r < b && q == q2 * p + r2 && r2 < p
    ensures b * p > 0 && x == q2 * (b * p) + (r2 * b + r) && r2 * b + r < b * p
  {
    MulMono(r2 + 1, p, b);
    assert (q2 * p) * b == q2 * (p * b);
    assert q * b == (q2 * p) * b + r2 * b;
  }

  lemma QuotientIs(x: nat, m: nat, q: nat, r: nat)
    requires x == q * m + r && r < m
    ensures x / m == q
  {
    var p := x / m;
    assert x == p * m + x % m;
    if p < q {
      MulMono(p + 1, q, m);
    } else if q < p {
      MulMono(q + 1, p, m);
    }
  }

  /** One more digit taken off the front part. */
  lemma BackStep(num: string, front: string, c: char, out: string)
    requires num == front + [c] + Backwards(out)
    ensures num == front + Backwards(out + [c])
    ensures front == [] ==> out + [c] == Backwards(num)
    ensures |out| < |num|
  {
    assert Backwards(out + [c]) == [c] + Backwards(out);
    BackAgain(out + [c]);
  }

  lemma WrittenStep(a: int, rest: int, out: string)
    requires a > 0 && rest > 0 && Written(a, rest, out) && |Numeral(a, 10)| <= 10
    ensures |out| < 10
    ensures var c := (ZERO + rest % 10) as char; Written(a, rest / 10, out + [c])
  {
    hide Numeral, Backwards;
    Digit(rest % 10);
    NumeralStep(rest, 10);
    BackStep(Numeral(a, 10), if rest < 10 then [] else Numeral(rest / 10, 10), DIGITS[rest % 10], out);
  }

  lemma BackAgain(s: string)
    ensures Backwards(Backwards(s)) == s
  {
  }

  /** `atoi` undoes `itoa`, for every number an `int` can hold that is not negative, whatever
      follows the terminating zero. */
  lemma AtoiOfItoa(a: Int, rest: string)
    requires a >= 0
    ensures Wrap(Value(Leading(Numeral(a, 10) + ['\0'] + rest), 10)) == a
  {
    DecimalDigits(a);
    LeadingDigits(Numeral(a, 10), ['\0'] + rest);
    assert Numeral(a, 10) + ['\0'] + rest == Numeral(a, 10) + (['\0'] + rest);
    NumeralValue(a, 10);
  }

  /** Both on one buffer: what `itoa` has written, `atoi` reads back. */
  method WriteAndRead(a: Int, s: array<char>) returns (n: int)
    requires a >= 0 && s.Length > |Numeral(a, 10)|
    modifies s
    ensures n == a
  {
    hide Numeral, Value, Leading, Wrap;
    var len := Itoa(a, s);
    assert !IsDigit(s[..][len]);
    assert s[..] == s[..len] + ['\0'] + s[len + 1..];
    AtoiOfItoa(a, s[len + 1..]);
    n := Atoi(s[..]);
  }

  // ----- printf -----

  /** What `printint` prints: a minus sign for a negative signed number, and its magnitude. */
  function Printed(xx: Int, base: nat, sgn: bool): string
    requires 2 <= base <= 16
  {
    if sgn && xx < 0 then "-" + Numeral(0 - xx, base) else Numeral(xx % MODULUS, base)
  }

  /** `printint`'s first loop and the sign: the text backwards.  A buffer of 20 characters suffices. */
  method Digits(x0: Uint, base: nat, neg: bool, buf: array<char>) returns (i: nat)
    requires (base == 10 || base == 16) && buf.Length == 20
    modifies buf
    ensures i <= 11 && buf[..i] == Backwards((if neg then "-" else "") + Numeral(x0, base))
  {
    hide Numeral, Backwards;
    var x := x0;
    ShortNumerals(x0);
    BackwardsNone(Numeral(x0, base));
    i := 0;
    var more := true;
    while more
      invariant i <= 10 && 0 <= x < MODULUS
      invariant more ==> Numeral(x0, base) == Numeral(x, base) + Backwards(buf[..i])
      invariant !more ==> buf[..i] == Backwards(Numeral(x0, base))
      decreases more, x
    {
      ghost var before := buf[..i];
      PrintStep(x0, x, base, before);
      buf[i] := DIGITS[x % base];
      assert buf[..i + 1] == before + [DIGITS[x % base]];
      i := i + 1;
      x := x / base;
      more := x != 0;
    }
    ghost var digits := buf[..i];
    if neg {
      buf[i] := '-';
      assert buf[..i + 1] == digits + ['-'];
      i := i + 1;
      BackwardsSnoc(Numeral(x0, base), '-');
    } else {
      assert "" + Numeral(x0, base) == Numeral(x0, base);
    }
  }

  lemma BackwardsNone(s: string)
    ensures s == s + Backwards([])
  {
  }

  lemma BackwardsSnoc(s: string, c: char)
    ensures Backwards(s) + [c] == Backwards([c] + s)
  {
  }

  /** `printint` in base 10 or 16; `out` is what has been written to the file so far. */
  method PrintInt(xx: Int, base: nat, sgn: bool, out: string) returns (r: string)
    requires base == 10 || base == 16
    ensures r == out + Printed(xx, base, sgn)
    ensures sgn && xx < 0 ==> r == out + ("-" + Numeral(0 - xx, base))
    ensures !sgn && xx < 0 ==> r == out + Numeral(xx + 0x1_0000_0000, base)
    ensures xx >= 0 ==> r == out + Numeral(xx, base)
  {
    hide Numeral, Backwards, Printed;
    var neg := sgn && xx < 0;
    var x: Uint := if neg then (0 - xx) % MODULUS else xx % MODULUS;
    var buf := new char[20];
    var i := Digits(x, base, neg, buf);
    ghost var text := buf[..i];
    r := out;
    assert text[i..] == [];
    BackwardsNone(r);
    while i > 0
      invariant i <= |text| && |text| <= buf.Length && buf[..|text|] == text
      invariant r == out + Backwards(text[i..])
    {
      i := i - 1;
      DrainStep(out, text, i);
      assert buf[i] == text[i];
      r := r + [buf[i]];
    }
    assert text[0..] == text;
    BackAgain((if neg then "-" else "") + Numeral(x, base));
    PrintedIs(xx, base, sgn);
  }

  lemma DrainStep(out: string, text: string, k: nat)
    requires k < |text|
    ensures out + Backwards(text[k + 1..]) + [text[k]] == out + Backwards(text[k..])
  {
    assert text[k..] == [text[k]] + text[k + 1..];
    BackwardsSnoc(text[k + 1..], text[k]);
  }

  lemma PrintedIs(xx: Int, base: nat, sgn: bool)
    requires base == 10 || base == 16
    ensures var neg := sgn && xx < 0;
      Printed(xx, base, sgn) == (if neg then "-" else "") + Numeral(if neg then (0 - xx) % MODULUS else xx % MODULUS, base)
    ensures sgn && xx < 0 ==> Printed(xx, base, sgn) == "-" + Numeral(0 - xx, base)
    ensures !sgn && xx < 0 ==> Printed(xx, base, sgn) == Numeral(xx + 0x1_0000_0000, base)
    ensures xx >= 0 ==> Printed(xx, base, sgn) == Numeral(xx, base)
  {
    hide Numeral;
    if xx >= 0 {
      assert xx % MODULUS == xx;
    } else {
      assert (0 - xx) % MODULUS == 0 - xx && xx % MODULUS == xx + MODULUS;
    }
  }

  lemma PrintStep(x0: nat, x: nat, base: nat, out: string)
    requires 2 <= base <= 16 && |Numeral(x0, base)| <= 10
    requires Numeral(x0, base) == Numeral(x, base) + Backwards(out)
    ensures |out| < 10 && x % base < 16
    ensures x / base < x || x / base == 0
    ensures var more := out + [DIGITS[x % base]];
      if x / base == 0 then more == Backwards(Numeral(x0, base))
      else Numeral(x0, base) == Numeral(x / base, base) + Backwards(more)
  {
    hide Numeral, Backwards;
    NumeralStep(x, base);
    BackStep(Numeral(x0, base), if x < base then [] else Numeral(x / base, base), DIGITS[x % base], out);
  }

  /** `printint` in base 10 prints what `itoa` writes. */
  lemma PrintedIsItoa(a: Int)
    requires a >= 0
    ensures Printed(a, 10, true) == Numeral(a, 10)
  {
    hide Numeral;
  }
}
