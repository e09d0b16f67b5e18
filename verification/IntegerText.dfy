// Integers as text in bases 2 to 69: the digit characters, parsing, and what printing a
// number and parsing it again gives.
//
// The digits with the values 47 and 49 are '+' and '-', so from base 48 on a number can
// start with a digit that the parser takes for a sign.
module IntegerText {

  const TWO63: nat := 0x8000_0000_0000_0000
  const MIN64: int := 0 - TWO63
  const TWO64: nat := 0x1_0000_0000_0000_0000
  const PLUS: nat := 43
  const MINUS: nat := 45
  const ZERO: nat := 48

  // ---------- the tables ----------

  // PhIntegerToChar, PhIntegerToCharUpper: digits, letters, and what else is printable.
  function DigitChar(d: nat, upper: bool): (c: nat)
    requires d < 69
    ensures 32 <= c < 127
  {
    if d < 10 then 48 + d
    else if d < 36 then (if upper then 65 else 97) + (d - 10)
    else if d < 52 then 32 + (d - 36)
    else if d < 59 then 58 + (d - 52)
    else if d < 65 then 91 + (d - 59)
    else 123 + (d - 65)
  }

  // PhCharToInteger
  function CharDigit(c: nat): nat
    requires c < 256
  {
    if c < 32 || c > 126 then 0xffff_ffff
    else if c < 48 then c - 32 + 36
    else if c < 58 then c - 48
    else if c < 65 then c - 58 + 52
    else if c < 91 then c - 65 + 10
    else if c < 97 then c - 91 + 59
    else if c < 123 then c - 97 + 10
    else c - 123 + 65
  }

  // Each table undoes the other; the letters are read without regard to case.
  lemma TablesAgree(c: nat, d: nat, upper: bool)
    requires c < 256 && d < 69
    ensures CharDigit(DigitChar(d, upper)) == d
    ensures CharDigit(c) == d <==> c == DigitChar(d, false) || c == DigitChar(d, true)
    ensures CharDigit(c) < 69 || CharDigit(c) == 0x1_0000_0000 - 1
  {}

  // Of a character only the low byte is looked at.
  lemma LowByteCounts(c: nat, d: nat, upper: bool)
    requires d < 69
    ensures CharValue(DigitChar(d, upper) + 256 * c) == d
  {
    TablesAgree(DigitChar(d, upper), d, upper);
  }

  // Where each digit is: letters after figures, then the rest of the printable characters in
  // their order.
  lemma DigitPlaces(d: nat, upper: bool)
    requires d < 69
    ensures d < 10 ==> DigitChar(d, upper) == '0' as nat + d <= '9' as nat
    ensures 10 <= d < 36 ==>
      if upper then DigitChar(d, upper) == 'A' as nat + (d - 10) <= 'Z' as nat else DigitChar(d, upper) == 'a' as nat + (d - 10) <= 'z' as nat
    ensures 36 <= d < 52 ==> DigitChar(d, upper) == ' ' as nat + (d - 36) <= '/' as nat
    ensures 52 <= d < 59 ==> DigitChar(d, upper) == ':' as nat + (d - 52) <= '@' as nat
    ensures 59 <= d < 65 ==> DigitChar(d, upper) == '[' as nat + (d - 59) <= '`' as nat
    ensures 65 <= d ==> DigitChar(d, upper) == '{' as nat + (d - 65) <= '~' as nat
  {}

  // ---------- numbers and their digits ----------

  ghost predicate DigitsOf(digits: seq<nat>, base: nat) {
    forall k :: 0 <= k < |digits| ==> digits[k] < base
  }

  // The most significant digit first, no zeros in front.
  function Digits(n: nat, base: nat): (digits: seq<nat>)
    requires base >= 2
    ensures |digits| >= 1 && DigitsOf(digits, base)
    ensures n > 0 ==> digits[0] > 0
    decreases n
  {
    if n < base then [n] else
      DivisionShrinks(n, base);
      Digits(n / base, base) + [n % base]
  }

  lemma DivisionShrinks(n: nat, base: nat)
    requires base >= 2 && n >= base
    ensures 0 < n / base < n && 0 <= n % base < base && n == n / base * base + n % base
  {
    var q := n / base;
    assert n == q * base + n % base;
    assert q <= 0 ==> q * base <= 0;
    assert q >= n ==> q * base >= n * base;
  }

  function Value(digits: seq<nat>, base: nat): nat {
    if |digits| == 0 then 0 else Value(digits[..|digits| - 1], base) * base + digits[|digits| - 1]
  }

  lemma {:induction false} ValueOfDigits(n: nat, base: nat)
    requires base >= 2
    ensures Value(Digits(n, base), base) == n
    decreases n
  {
    var digits := Digits(n, base);
    if n < base {
      assert digits[..0] == [];
    } else {
      DivisionShrinks(n, base);
      ValueOfDigits(n / base, base);
      assert digits[..|digits| - 1] == Digits(n / base, base);
    }
  }

  function Power(base: nat, k: nat): nat {
    if k == 0 then 1 else Power(base, k - 1) * base
  }

  // The first digit and the rest.
  lemma {:induction false} ValueSplit(digits: seq<nat>, base: nat)
    requires |digits| >= 1 && base >= 2 && DigitsOf(digits, base)
    ensures Value(digits, base) == digits[0] * Power(base, |digits| - 1) + Value(digits[1..], base)
    ensures Value(digits[1..], base) < Power(base, |digits| - 1)
  {
    var n := |digits|;
    if n == 1 {
      assert digits[..0] == [] && digits[1..] == [];
    } else {
      var front := digits[..n - 1];
      ValueSplit(front, base);
      assert digits[1..][..n - 2] == front[1..];
      assert digits[1..][n - 2] == digits[n - 1];
      var p, v, d := Power(base, n - 2), Value(front[1..], base), digits[n - 1];
      assert Value(digits[1..], base) == v * base + d;
      Horner(digits[0], p, v, d, base);
    }
  }

  lemma Horner(first: nat, p: nat, v: nat, d: nat, base: nat)
    requires v < p && d < base
    ensures (first * p + v) * base + d == first * (p * base) + (v * base + d)
    ensures v * base + d < p * base
  {
    assert (v + 1) * base <= p * base;
    assert first * p * base == first * (p * base);
  }

  // ---------- parsing ----------

  function CharValue(c: nat): nat { CharDigit(c % 256) }

  // Characters that are no digits are passed over; the number is modulo 2^64.
  function Kept(s: seq<nat>, base: nat): (digits: seq<nat>)
    ensures DigitsOf(digits, base)
  {
    if |s| == 0 then []
    else
      var front, v := Kept(s[..|s| - 1], base), CharValue(s[|s| - 1]);
      if v < base then front + [v] else front
  }

  ghost predicate AllDigits(s: seq<nat>, base: nat) {
    forall k :: 0 <= k < |s| ==> CharValue(s[k]) < base
  }

  // PhpStringToInteger64
  method ParseMagnitude(s: seq<nat>, base: nat) returns (valid: bool, integer: nat)
    ensures valid <==> AllDigits(s, base)
    ensures integer == Value(Kept(s, base), base) % TWO64
  {
    hide Kept, Value, CharDigit, AllDigits;
    valid, integer := true, 0;
    NothingKept(s, base);
    for i := 0 to |s|
      invariant valid <==> AllDigits(s[..i], base)
      invariant integer == Value(Kept(s[..i], base), base) % TWO64
    {
      NextKept(s, i, base);
      var value := CharValue(s[i]);
      if value < base {
        Wraps(Value(Kept(s[..i], base), base), base, value);
        integer := (integer * base + value) % TWO64;
      } else {
        valid := false;
      }
    }
    assert s[..|s|] == s;
  }

  lemma NothingKept(s: seq<nat>, base: nat)
    ensures AllDigits(s[..0], base) && Value(Kept(s[..0], base), base) == 0
  {}

  lemma NextKept(s: seq<nat>, i: nat, base: nat)
    requires i < |s|
    ensures AllDigits(s[..i + 1], base) <==> AllDigits(s[..i], base) && CharValue(s[i]) < base
    ensures
      var before, v := Value(Kept(s[..i], base), base), CharValue(s[i]);
      Value(Kept(s[..i + 1], base), base) == if v < base then before * base + v else before
  {
    var kept, v := Kept(s[..i], base), CharValue(s[i]);
    assert s[..i + 1][..i] == s[..i] && s[..i + 1][i] == s[i];
    assert (kept + [v])[..|kept|] == kept;
    assert forall k :: 0 <= k < i ==> s[..i + 1][k] == s[..i][k];
  }

  lemma Wraps(x: nat, base: nat, d: nat)
    ensures (x % TWO64 * base + d) % TWO64 == (x * base + d) % TWO64
  {
    var q := x / TWO64;
    assert x == q * TWO64 + x % TWO64;
    assert x * base + d == (x % TWO64 * base + d) + TWO64 * (q * base) by {
      assert (q * TWO64) * base == TWO64 * (q * base);
    }
    AddMultiple(x % TWO64 * base + d, q * base);
  }

  lemma AddMultiple(x: nat, q: nat)
    ensures (x + TWO64 * q) % TWO64 == x % TWO64
  {}

  // A 64-bit number with the sign it has as a signed one.
  function ToSigned(x: nat): (r: int)
    requires x < TWO64
    ensures -0x8000_0000_0000_0000 <= r < 0x8000_0000_0000_0000 && (x - r) % 0x1_0000_0000_0000_0000 == 0
  {
    if x < TWO63 then x else x - TWO64
  }

  datatype Parsed = Rejected | Parsed(valid: bool, integer: int)

  predicate Signed(s: seq<nat>) { |s| > 0 && (s[0] == PLUS || s[0] == MINUS) }

  function Unsigned(s: seq<nat>): seq<nat> { if Signed(s) then s[1..] else s }

  // The base a prefix stands for; 10 is none.
  function PrefixBase(s: seq<nat>): (base: nat)
    ensures 2 <= base <= 32
  {
    if |s| < 2 || s[0] != ZERO then 10
    else match s[1]
      case 120 => 16 case 88 => 16
      case 111 => 8  case 79 => 8
      case 98 => 2   case 66 => 2
      case 116 => 3  case 84 => 3
      case 113 => 4  case 81 => 4
      case 119 => 12 case 87 => 12
      case 114 => 32 case 82 => 32
      case _ => 10
  }

  // The digits and the base they are read in.
  function Body(s: seq<nat>, base: nat): (seq<nat>, nat) {
    var rest := Unsigned(s);
    if base != 0 then (rest, base)
    else if PrefixBase(rest) == 10 then (rest, 10)
    else (rest[2..], PrefixBase(rest))
  }

  function WithSign(negative: bool, magnitude: nat): int {
    var m := magnitude % TWO64;
    ToSigned(if negative then (TWO64 - m) % TWO64 else m)
  }

  ghost function Parsing(s: seq<nat>, base: nat): Parsed {
    if base > 69 then Rejected
    else
      var (digits, radix) := Body(s, base);
      Parsed(AllDigits(digits, radix), WithSign(|s| > 0 && s[0] == MINUS, Value(Kept(digits, radix), radix)))
  }

  // PhStringToInteger64
  method Parse(s: seq<nat>, base: nat) returns (r: Parsed)
    ensures r == Parsing(s, base)
  {
    hide ToSigned;
    if base > 69 {
      return Rejected;
    }
    var rest, negative, radix := s, false, base;
    if |rest| != 0 && (rest[0] == MINUS || rest[0] == PLUS) {
      if rest[0] == MINUS {
        negative := true;
      }
      rest := rest[1..];
    }
    if base == 0 {
      radix := PrefixBase(rest);
      if radix != 10 {
        rest := rest[2..];
      }
    }
    var valid, magnitude := ParseMagnitude(rest, radix);
    r := Parsed(valid, ToSigned(if negative then (TWO64 - magnitude) % TWO64 else magnitude));
  }

  // ---------- printing ----------

  function Chars(digits: seq<nat>, upper: bool): (s: seq<nat>)
    requires forall k :: 0 <= k < |digits| ==> digits[k] < 69
    ensures |s| == |digits| && forall k :: 0 <= k < |s| ==> s[k] == DigitChar(digits[k], upper)
  {
    seq(|digits|, k requires 0 <= k < |digits| => DigitChar(digits[k], upper))
  }

  function Radix(base: nat): nat { if base == 0 then 10 else base }

  function Magnitude(n: int, signed: bool): nat
    requires MIN64 <= n < TWO63
  {
    if n >= 0 then n else if signed then -n else n + TWO64
  }

  // What PhIntegerToString64 prints; there is no text for base 1 or above 69.
  function Printed(n: int, base: nat, signed: bool): seq<nat>
    requires MIN64 <= n < TWO63 && base != 1 && base <= 69
  {
    (if signed && n < 0 then [MINUS] else []) + Chars(Digits(Magnitude(n, signed), Radix(base)), false)
  }

  // ---------- round trips ----------

  lemma {:induction false} KeptChars(digits: seq<nat>, base: nat, upper: bool)
    requires base <= 69 && DigitsOf(digits, base)
    ensures AllDigits(Chars(digits, upper), base) && Kept(Chars(digits, upper), base) == digits
  {
    hide DigitChar, CharDigit, Chars;
    var s := Chars(digits, upper);
    forall k | 0 <= k < |s| ensures CharValue(s[k]) == digits[k] {
      TablesAgree(s[k], digits[k], upper);
    }
    if |s| > 0 {
      var front := digits[..|digits| - 1];
      KeptChars(front, base, upper);
      assert s[..|s| - 1] == Chars(front, upper);
      assert digits == front + [digits[|digits| - 1]];
    }
  }

  // PhpStringToInteger64 reads back any 64-bit number in any base.
  lemma MagnitudeReturns(n: nat, base: nat, upper: bool)
    requires 2 <= base <= 69 && n < TWO64
    ensures
      var s := Chars(Digits(n, base), upper);
      AllDigits(s, base) && Value(Kept(s, base), base) % TWO64 == n
  {
    hide DigitChar, CharDigit, Kept, Value, Digits, Chars;
    KeptChars(Digits(n, base), base, upper);
    ValueOfDigits(n, base);
  }

  predicate LooksLikeSign(digit: nat) { digit == 47 || digit == 49 }

  // Printing and parsing returns a number exactly when its text is signed or its first
  // digit does not look like a sign.
  lemma PrintedParses(n: int, base: nat, signed: bool)
    requires MIN64 <= n < TWO63 && base != 1 && base <= 69
    ensures Parsing(Printed(n, base, signed), base) == Parsed(true, n) <==>
      (signed && n < 0) || !LooksLikeSign(Digits(Magnitude(n, signed), Radix(base))[0])
  {
    hide DigitChar, CharDigit, Kept, Value, Digits;
    var m, radix := Magnitude(n, signed), Radix(base);
    var digits := Digits(m, radix);
    var s := Printed(n, base, signed);
    MagnitudeReturns(m, radix, false);
    FirstDigit(digits[0]);
    NoPrefix(m);
    if signed && n < 0 {
      assert s[1..] == Chars(digits, false);
      assert Body(s, base) == (Chars(digits, false), radix);
    } else if !LooksLikeSign(digits[0]) {
      assert s == Chars(digits, false);
      assert Body(s, base) == (Chars(digits, false), radix);
    } else {
      SignTaken(n, base, signed);
    }
  }

  // A printed number never starts with the prefix of another base.
  lemma NoPrefix(m: nat)
    ensures PrefixBase(Chars(Digits(m, 10), false)) == 10
  {
    var digits := Digits(m, 10);
    FirstDigit(digits[0]);
    assert m == 0 ==> |digits| == 1;
  }

  lemma FirstDigit(d: nat)
    requires d < 69
    ensures DigitChar(d, false) == PLUS <==> d == 47
    ensures DigitChar(d, false) == MINUS <==> d == 49
    ensures DigitChar(d, false) == ZERO <==> d == 0
  {}

  // In the bases up to 47 there is no such digit, so every number comes back.
  lemma LowBasesReturn(n: int, base: nat, signed: bool)
    requires MIN64 <= n < TWO63 && base != 1 && base <= 47
    ensures Parsing(Printed(n, base, signed), base) == Parsed(true, n)
  {
    PrintedParses(n, base, signed);
  }

  // A digit taken for a sign is lost, and what is left is never the number by coincidence.
  lemma SignTaken(n: int, base: nat, signed: bool)
    requires MIN64 <= n < TWO63 && base != 1 && base <= 69 && !(signed && n < 0)
    requires LooksLikeSign(Digits(Magnitude(n, signed), Radix(base))[0])
    ensures Parsing(Printed(n, base, signed), base).integer != n
  {
    hide DigitChar, CharDigit, Kept, Value, Digits, Power;
    var m := Magnitude(n, signed);
    var digits := Digits(m, base);
    var s := Printed(n, base, signed);
    FirstDigit(digits[0]);
    assert s == Chars(digits, false) && s[1..] == Chars(digits[1..], false);
    KeptChars(digits[1..], base, false);
    ValueSplit(digits, base);
    ValueOfDigits(m, base);
    assert Parsing(s, base).integer == WithSign(digits[0] == 49, Value(digits[1..], base));
    RestDiffers(m, base, digits[0], |digits| - 1, Value(digits[1..], base));
  }

  lemma RestDiffers(m: nat, base: nat, first: nat, k: nat, rest: nat)
    requires LooksLikeSign(first) && first < base <= 69 && m < TWO64
    requires m == first * Power(base, k) + rest && rest < Power(base, k)
    ensures WithSign(first == 49, rest) != ToSigned(m)
  {
    hide Power;
    if first == 49 {
      NoCoincidence(base, k, rest);
    } else {
      assert m == 47 * Power(base, k) + rest;
    }
  }

  lemma NoCoincidence(base: nat, k: nat, rest: nat)
    requires 50 <= base <= 69 && rest < Power(base, k)
    ensures 49 * Power(base, k) + rest != TWO64 - rest
  {
    hide Power;
    var p := Power(base, k);
    if base % 2 == 1 {
      OddPower(base, k);
    } else if base <= 56 {
      Powers();
      if k <= 10 { PowerGrows(base, 56, k, 10); } else { PowerGrows(50, base, 11, k); }
    } else {
      Powers();
      if k <= 9 { PowerGrows(base, 68, k, 9); } else { PowerGrows(58, base, 10, k); }
    }
  }

  lemma {:induction false} OddPower(base: nat, k: nat)
    requires base % 2 == 1
    ensures Power(base, k) % 2 == 1
  {
    if k > 0 {
      OddPower(base, k - 1);
      OddProduct(Power(base, k - 1), base);
    }
  }

  lemma OddProduct(x: nat, y: nat)
    requires x % 2 == 1 && y % 2 == 1
    ensures x * y % 2 == 1
  {
    var a, b := x / 2, y / 2;
    assert x * y == 2 * (2 * (a * b) + a + b) + 1;
  }

  lemma {:induction false} PowerGrows(base: nat, base': nat, k: nat, k': nat)
    requires 1 <= base <= base' && k <= k'
    ensures 1 <= Power(base, k) <= Power(base', k')
  {
    if k' > 0 {
      var j := if k == 0 then 0 else k - 1;
      PowerGrows(base, base', j, k' - 1);
      ProductGrows(Power(base, j), Power(base', k' - 1), base, base');
    }
  }

  lemma ProductGrows(x: nat, y: nat, b: nat, c: nat)
    requires 1 <= x <= y && 1 <= b <= c
    ensures 1 <= x * b <= y * c && y <= y * c
  {
    assert x * b <= x * c <= y * c;
    assert y * 1 <= y * c;
    assert 1 * 1 <= x * b;
  }

  lemma Powers()
    ensures 51 * Power(56, 10) < TWO64 < 49 * Power(50, 11)
    ensures 51 * Power(68, 9) < TWO64 < 49 * Power(58, 10)
  {}

  // A number that does not come back: in base 48 the digit 47 is read as a plus sign.
  lemma PlusLost()
    ensures Printed(47, 48, true) == [PLUS]
    ensures Parsing(Printed(47, 48, true), 48) == Parsed(true, 0)
  {
    assert Digits(47, 48) == [47];
    assert Chars([47], false) == [PLUS];
    assert Printed(47, 48, true) == [PLUS];
    assert Unsigned([PLUS]) == [];
  }

  // So it is with a minus sign.
  lemma MinusLost()
    ensures Parsing(Printed(49 * 50 + 1, 50, true), 50) != Parsed(true, 49 * 50 + 1)
  {
    hide Value, Kept, Parsing, Printed;
    assert Digits(49 * 50 + 1, 50) == Digits(49, 50) + [1] == [49, 1];
    PrintedParses(49 * 50 + 1, 50, true);
  }

  // The bases that the documentation gives to the letters behind a zero.
  predicate Prefix(letter: char, base: nat) {
    || (letter in {'x', 'X'} && base == 16)
    || (letter in {'o', 'O'} && base == 8)
    || (letter in {'b', 'B'} && base == 2)
    || (letter in {'t', 'T'} && base == 3)
    || (letter in {'q', 'Q'} && base == 4)
    || (letter in {'w', 'W'} && base == 12)
    || (letter in {'r', 'R'} && base == 32)
  }

  // With no base given, the digits of a number behind a prefix are read in its base, and
  // with a sign in front they are negated.
  lemma PrefixReads(letter: char, base: nat, n: nat, upper: bool, negative: bool)
    requires Prefix(letter, base) && n < TWO63
    ensures
      var s := [ZERO, letter as nat] + Chars(Digits(n, base), upper);
      Parsing((if negative then [MINUS] else []) + s, 0) == Parsed(true, (if negative then -1 else 1) * n)
  {
    hide DigitChar, CharDigit, Kept, Value, Digits, AllDigits, Chars;
    var digits := Chars(Digits(n, base), upper);
    var s := [ZERO, letter as nat] + digits;
    var text := (if negative then [MINUS] else []) + s;
    PrefixIs(letter, base, s);
    assert text[if negative then 1 else 0..] == s && s[2..] == digits;
    assert Unsigned(text) == s;
    MagnitudeReturns(n, base, upper);
  }

  lemma PrefixIs(letter: char, base: nat, s: seq<nat>)
    requires Prefix(letter, base) && |s| >= 2 && s[0] == ZERO && s[1] == letter as nat
    ensures PrefixBase(s) == base && base != 10
  {}

  // Any other text with no base given is decimal.
  lemma NoPrefixReads(s: seq<nat>)
    requires var t := Unsigned(s); |t| < 2 || t[0] != '0' as nat || forall letter, base :: Prefix(letter, base) ==> t[1] != letter as nat
    ensures Parsing(s, 0) == Parsing(s, 10)
  {
    var t := Unsigned(s);
    if |t| >= 2 && t[0] == ZERO {
      assert Prefix('x', 16) && Prefix('X', 16) && Prefix('o', 8) && Prefix('O', 8) && Prefix('b', 2) && Prefix('B', 2);
      assert Prefix('t', 3) && Prefix('T', 3) && Prefix('q', 4) && Prefix('Q', 4) && Prefix('w', 12) && Prefix('W', 12);
      assert Prefix('r', 32) && Prefix('R', 32);
    }
  }

  // So a number printed in base 10 is read in base 10.
  lemma DecimalReads(n: int, signed: bool)
    requires MIN64 <= n < TWO63
    ensures Parsing(Printed(n, 10, signed), 0) == Parsed(true, n)
  {
    PrintedParses(n, 0, signed);
    LowBasesReturn(n, 0, signed);
  }
}
