// What a list of format structures says: characters, strings and integers, with radix,
// grouping, sign, zero padding and alignment.
module FormatText {
  import opened IntegerText

  const SPACE: nat := 32

  // 32-bit and 64-bit integers differ in their range only.
  datatype Item = Char(c: nat) | Text(s: seq<nat>) | Int(n: int) | UInt(u: nat)

  datatype Format = Format(
    item: Item,
    useRadix: bool, radix: nat,
    upper: bool, group: bool, prefixSign: bool, padZeros: bool,
    left: bool, right: bool, width: nat,
    usePad: bool, pad: nat)

  predicate Represented(f: Format) {
    match f.item
    case Int(n) => MIN64 <= n < TWO63
    case UInt(u) => u < TWO64
    case _ => true
  }

  // ---------- integers ----------

  function RadixOf(f: Format): (r: nat)
    ensures 2 <= r <= 69
  {
    if f.useRadix && 2 <= f.radix <= 69 then f.radix else 10
  }

  // A separator before every three characters counted from the right, none in front.
  function Grouped(s: seq<nat>, separator: nat): seq<nat> {
    if |s| <= 3 then s else Grouped(s[..|s| - 3], separator) + [separator] + s[|s| - 3..]
  }

  function NumberText(f: Format, n: nat, separator: nat): seq<nat> {
    var s := Chars(Digits(n, RadixOf(f)), f.upper);
    if f.group then Grouped(s, separator) else s
  }

  function SignText(f: Format, negative: bool): seq<nat> {
    if negative then [MINUS] else if f.prefixSign then [PLUS] else []
  }

  function Repeat(c: nat, n: nat): (s: seq<nat>)
    ensures |s| == n
  {
    seq(n, _ => c)
  }

  // Zeros go between the sign and the number, and not into grouped ones.
  function ZeroCount(f: Format, length: nat): nat {
    if f.padZeros && !f.group && length < f.width then f.width - length else 0
  }

  function IntegerPart(f: Format, n: nat, negative: bool, separator: nat): seq<nat> {
    var sign, number := SignText(f, negative), NumberText(f, n, separator);
    sign + Repeat(ZERO, ZeroCount(f, |sign| + |number|)) + number
  }

  // ---------- items ----------

  function PartText(f: Format, separator: nat): seq<nat> {
    match f.item
    case Char(c) => [c]
    case Text(s) => s
    case Int(n) => IntegerPart(f, if n < 0 then -n else n, n < 0, separator)
    case UInt(u) => IntegerPart(f, u, false, separator)
  }

  function PadChar(f: Format): nat { if f.usePad then f.pad else SPACE }

  // Filled up to the width, never cut.
  function Aligned(f: Format, part: seq<nat>): seq<nat> {
    if !(f.left || f.right) || |part| >= f.width then part
    else if f.left then part + Repeat(PadChar(f), f.width - |part|)
    else Repeat(PadChar(f), f.width - |part|) + part
  }

  function TextOf(f: Format, separator: nat): seq<nat> {
    Aligned(f, PartText(f, separator))
  }

  function AllText(formats: seq<Format>, separator: nat): seq<nat> {
    if |formats| == 0 then []
    else AllText(formats[..|formats| - 1], separator) + TextOf(formats[|formats| - 1], separator)
  }

  // ---------- what PhIntegerToString64 asks for ----------

  function Plain(n: int, base: nat, signed: bool): Format
    requires MIN64 <= n < TWO63
  {
    Format(if signed then Int(n) else UInt(Magnitude(n, false)), base != 0, base,
           false, false, false, false, false, false, 0, false, 0)
  }

  lemma PlainPrints(n: int, base: nat, signed: bool, separator: nat)
    requires MIN64 <= n < TWO63 && base != 1 && base <= 69
    ensures AllText([Plain(n, base, signed)], separator) == Printed(n, base, signed)
  {
    hide Digits, DigitChar, AllText, Aligned;
    var f := Plain(n, base, signed);
    OneText(f, separator);
    assert RadixOf(f) == Radix(base);
    assert PartText(f, separator) == Printed(n, base, signed);
  }

  lemma OneText(f: Format, separator: nat)
    ensures AllText([f], separator) == TextOf(f, separator)
    ensures !f.left && !f.right ==> TextOf(f, separator) == PartText(f, separator)
  {
    assert [f][..0] == [];
  }

  // ---------- the digit loop ----------

  // Digits from the right: count of them are in the current group already.
  function Built(n: nat, radix: nat, upper: bool, group: bool, separator: nat, count: nat): seq<nat>
    requires 2 <= radix <= 69
    decreases n
  {
    if n < radix then [DigitChar(n, upper)]
    else
      DivisionShrinks(n, radix);
      var last := [DigitChar(n % radix, upper)];
      if group && count == 2 then Built(n / radix, radix, upper, group, separator, 0) + ([separator] + last)
      else Built(n / radix, radix, upper, group, separator, if group then count + 1 else count) + last
  }

  function GroupedAfter(s: seq<nat>, separator: nat, count: nat): seq<nat>
    requires count < 3
  {
    if |s| <= 3 - count then s
    else Grouped(s[..|s| - (3 - count)], separator) + [separator] + s[|s| - (3 - count)..]
  }

  lemma {:induction false} BuiltIsNumber(n: nat, radix: nat, upper: bool, separator: nat, count: nat)
    requires 2 <= radix <= 69
    ensures Built(n, radix, upper, false, separator, count) == Chars(Digits(n, radix), upper)
    decreases n
  {
    if n >= radix {
      DivisionShrinks(n, radix);
      BuiltIsNumber(n / radix, radix, upper, separator, count);
    }
  }

  lemma {:induction false} BuiltIsGrouped(n: nat, radix: nat, upper: bool, separator: nat, count: nat)
    requires 2 <= radix <= 69 && count < 3
    ensures Built(n, radix, upper, true, separator, count) == GroupedAfter(Chars(Digits(n, radix), upper), separator, count)
    decreases n
  {
    hide Chars;
    var s := Chars(Digits(n, radix), upper);
    if n >= radix {
      DivisionShrinks(n, radix);
      var m := n / radix;
      var t := Chars(Digits(m, radix), upper);
      assert s == t + [DigitChar(n % radix, upper)];
      if count == 2 {
        BuiltIsGrouped(m, radix, upper, separator, 0);
        assert GroupedAfter(t, separator, 0) == Grouped(t, separator);
        assert s[..|s| - 1] == t;
      } else {
        BuiltIsGrouped(m, radix, upper, separator, count + 1);
        GroupedGrows(t, DigitChar(n % radix, upper), separator, count);
      }
    }
  }

  lemma GroupedGrows(t: seq<nat>, c: nat, separator: nat, count: nat)
    requires count < 2 && |t| > 0
    ensures GroupedAfter(t + [c], separator, count) == GroupedAfter(t, separator, count + 1) + [c]
  {
    var s := t + [c];
    if |s| > 3 - count {
      var k := |s| - (3 - count);
      assert s[..k] == t[..k] && s[k..] == t[k..] + [c];
    }
  }

  lemma BuiltIsNumberText(f: Format, n: nat, separator: nat)
    ensures Built(n, RadixOf(f), f.upper, f.group, separator, 0) == NumberText(f, n, separator)
  {
    if f.group {
      BuiltIsGrouped(n, RadixOf(f), f.upper, separator, 0);
    } else {
      BuiltIsNumber(n, RadixOf(f), f.upper, separator, 0);
    }
  }

  // The text of a 64-bit number fits the buffer of 512 characters.
  lemma {:induction false} BuiltLength(n: nat, radix: nat, upper: bool, group: bool, separator: nat, count: nat, bits: nat)
    requires 2 <= radix <= 69 && n < Power(2, bits) && bits >= 1
    ensures 1 <= |Built(n, radix, upper, group, separator, count)| <= 2 * bits
    decreases n
  {
    if n >= radix {
      DivisionShrinks(n, radix);
      Halves(n, radix, bits);
      BuiltLength(n / radix, radix, upper, group, separator, if group && count == 2 then 0 else if group then count + 1 else count, bits - 1);
    }
  }

  lemma Halves(n: nat, radix: nat, bits: nat)
    requires 2 <= radix <= n < Power(2, bits)
    ensures bits >= 2 && n / radix < Power(2, bits - 1)
  {
    DivisionShrinks(n, radix);
    var q := n / radix;
    assert q * 2 <= q * radix;
    assert Power(2, 1) == 2;
  }

  lemma SixtyFourBits()
    ensures Power(2, 64) == TWO64
  {
    EightBits(0); EightBits(8); EightBits(16); EightBits(24);
    EightBits(32); EightBits(40); EightBits(48); EightBits(56);
  }

  lemma EightBits(k: nat)
    ensures Power(2, k + 8) == 0x100 * Power(2, k)
  {
    assert Power(2, k + 8) == 4 * Power(2, k + 6);
    assert Power(2, k + 6) == 4 * Power(2, k + 4);
    assert Power(2, k + 4) == 4 * Power(2, k + 2);
  }

  // ---------- what a reader sees ----------

  // A part fills its width exactly when it is to be aligned and is not wider: at its end for
  // left alignment, in front of it for right alignment, with spaces unless told otherwise.
  lemma AlignedShape(f: Format, part: seq<nat>)
    ensures
      var a, pad, n := Aligned(f, part), if f.usePad then f.pad else ' ' as nat, |part|;
      && |a| == (if (f.left || f.right) && n < f.width then f.width else n)
      && (f.left ==> a[..n] == part && forall k :: n <= k < |a| ==> a[k] == pad)
      && (!f.left ==> a[|a| - n..] == part && forall k :: 0 <= k < |a| - n ==> a[k] == pad)
  {}

  // The character that is k places from the end.
  function FromEnd(s: seq<nat>, k: nat): nat
    requires k < |s|
  {
    s[|s| - 1 - k]
  }

  lemma {:induction false} GroupedLength(s: seq<nat>, separator: nat)
    ensures |Grouped(s, separator)| == |s| + (if |s| == 0 then 0 else (|s| - 1) / 3)
  {
    if |s| > 3 {
      GroupedLength(s[..|s| - 3], separator);
    }
  }

  // Counted from the right, every fourth character is the separator, and the others are the
  // digits in their order.
  lemma {:induction false} GroupedAt(s: seq<nat>, separator: nat, k: nat)
    requires k < |Grouped(s, separator)|
    ensures k % 4 == 3 ==> FromEnd(Grouped(s, separator), k) == separator
    ensures k % 4 != 3 ==> k - k / 4 < |s| && FromEnd(Grouped(s, separator), k) == FromEnd(s, k - k / 4)
  {
    if |s| > 3 {
      var t := s[..|s| - 3];
      var g, h := Grouped(s, separator), Grouped(t, separator);
      assert g == h + ([separator] + s[|s| - 3..]);
      if k >= 4 {
        GroupedAt(t, separator, k - 4);
        assert FromEnd(g, k) == FromEnd(h, k - 4);
      }
    }
  }

  lemma {:induction false} LeadingZeros(digits: seq<nat>, base: nat, zeros: nat)
    ensures Value(Repeat(0, zeros) + digits, base) == Value(digits, base)
  {
    var all := Repeat(0, zeros) + digits;
    if |digits| > 0 {
      assert all[..|all| - 1] == Repeat(0, zeros) + digits[..|digits| - 1];
      LeadingZeros(digits[..|digits| - 1], base, zeros);
    } else if zeros > 0 {
      assert all[..|all| - 1] == Repeat(0, zeros - 1) + digits;
      LeadingZeros(digits, base, zeros - 1);
    }
  }

  lemma ZerosInFront(digits: seq<nat>, base: nat, zeros: nat, upper: bool)
    requires 2 <= base <= 69 && DigitsOf(digits, base)
    ensures DigitsOf(Repeat(0, zeros) + digits, base)
    ensures Repeat(ZERO, zeros) + Chars(digits, upper) == Chars(Repeat(0, zeros) + digits, upper)
  {}

  lemma FirstChar(digits: seq<nat>, base: nat, upper: bool)
    requires 2 <= base <= 69 && DigitsOf(digits, base) && |digits| > 0
    ensures Signed(Chars(digits, upper)) <==> LooksLikeSign(digits[0])
  {}

  // An integer that is not grouped is read back in its radix, whatever zeros and sign it has
  // in front, unless its first character only looks like a sign; padded with zeros it is as
  // wide as was asked for.
  lemma IntegerReads(f: Format, n: nat, negative: bool, separator: nat)
    requires n < TWO63 && !f.group
    requires negative || f.prefixSign || ZeroCount(f, |NumberText(f, n, separator)|) > 0 || !LooksLikeSign(Digits(n, RadixOf(f))[0])
    ensures Parsing(IntegerPart(f, n, negative, separator), RadixOf(f)) == Parsed(true, (if negative then -1 else 1) * n)
    ensures f.padZeros ==> |IntegerPart(f, n, negative, separator)| >= f.width
    ensures negative ==> IntegerPart(f, n, negative, separator)[0] == '-' as nat
    ensures !negative && f.prefixSign ==> IntegerPart(f, n, negative, separator)[0] == '+' as nat
  {
    hide DigitChar, CharDigit, Kept, Value, Digits, Chars, AllDigits, WithSign, RadixOf, PrefixBase;
    var radix, sign := RadixOf(f), SignText(f, negative);
    var digits := Digits(n, radix);
    var zeros := ZeroCount(f, |sign| + |digits|);
    var all := Repeat(0, zeros) + digits;
    var s := IntegerPart(f, n, negative, separator);
    ZerosInFront(digits, radix, zeros, f.upper);
    assert s == sign + Chars(all, f.upper);
    FirstChar(all, radix, f.upper);
    assert Unsigned(s) == Chars(all, f.upper);
    KeptChars(all, radix, f.upper);
    LeadingZeros(digits, radix, zeros);
    ValueOfDigits(n, radix);
    SignGiven(negative, n);
    assert Body(s, radix) == (Chars(all, f.upper), radix);
  }

  lemma SignGiven(negative: bool, n: nat)
    requires n < TWO63
    ensures WithSign(negative, n) == (if negative then -1 else 1) * n
  {}
}
