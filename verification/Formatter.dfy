// Formatting into a buffer that grows, and into one that does not: the second reports how
// much room it would have needed, whether or not anything was written.
module Formatter {
  import opened IntegerText
  import opened FormatText

  const BUFFER_SIZE: nat := 512

  // ---------- the digits of an integer ----------

  // The digit loop of COMMON_INTEGER_FORMAT, from the end of the temporary buffer.
  method PrintDigits(n: nat, f: Format, separator: nat, temp: array<nat>) returns (count: nat)
    requires n < TWO64 && temp.Length == BUFFER_SIZE
    modifies temp
    ensures count <= BUFFER_SIZE && temp[BUFFER_SIZE - count..] == NumberText(f, n, separator)
  {
    hide Built, BuiltRest, NumberText, DigitChar, Chars, Digits, Grouped, DigitsOf;
    var radix := RadixOf(f);
    ghost var all := Built(n, radix, f.upper, f.group, separator, 0);
    SixtyFourBits();
    BuiltLength(n, radix, f.upper, f.group, separator, 0, 64);
    BuiltIsNumberText(f, n, separator);
    var at := BUFFER_SIZE;
    if n != 0 {
      var input, needsSep := n, 0;
      NothingWritten(n, radix, f.upper, f.group, separator, temp[at..]);
      while input != 0
        invariant 0 <= at <= BUFFER_SIZE && (input != 0 ==> needsSep < 3)
        invariant all == BuiltRest(input, radix, f.upper, f.group, separator, needsSep) + temp[at..]
        decreases input
      {
        input, needsSep, at := PutDigit(input, radix, f.upper, f.group, separator, needsSep, temp, at, all);
      }
      NothingLeft(radix, f.upper, f.group, separator, needsSep, temp[at..]);
    } else {
      at := Prepend(temp, at, ZERO);
      ZeroDigit(f.upper, radix, f.group, separator);
    }
    count := BUFFER_SIZE - at;
  }

  // One turn of the digit loop, with all of the text to be written.
  method PutDigit(input: nat, radix: nat, upper: bool, group: bool, separator: nat, needsSep: nat,
      temp: array<nat>, at: nat, ghost all: seq<nat>)
      returns (input': nat, needsSep': nat, at': nat)
    requires 2 <= radix <= 69 && 0 < input && needsSep < 3 && at <= temp.Length && |all| <= temp.Length
    requires all == BuiltRest(input, radix, upper, group, separator, needsSep) + temp[at..]
    modifies temp
    ensures input' < input && at' <= at && (input' != 0 ==> needsSep' < 3)
    ensures all == BuiltRest(input', radix, upper, group, separator, needsSep') + temp[at'..]
  {
    hide Built, BuiltRest, DigitChar;
    ghost var tail := temp[at..];
    var r := input % radix;
    ghost var written := BuiltStep(input, radix, upper, group, separator, needsSep, tail);
    input', needsSep' := input / radix, needsSep;
    at' := Prepend(temp, at, DigitChar(r, upper));
    if group {
      needsSep' := needsSep' + 1;
      if needsSep' == 3 && input' != 0 {
        at' := Prepend(temp, at', separator);
        needsSep' := 0;
      }
    }
    assert temp[at'..] == written + tail;
  }

  // *--temp = c
  method Prepend(temp: array<nat>, at: nat, c: nat) returns (next: nat)
    requires 0 < at <= temp.Length
    modifies temp
    ensures next == at - 1 && temp[next..] == [c] + old(temp[at..])
  {
    next := at - 1;
    temp[next] := c;
  }

  lemma ZeroDigit(upper: bool, radix: nat, group: bool, separator: nat)
    requires 2 <= radix <= 69
    ensures Built(0, radix, upper, group, separator, 0) == [ZERO]
  {}

  // What is still to be written.
  function BuiltRest(n: nat, radix: nat, upper: bool, group: bool, separator: nat, count: nat): seq<nat>
    requires 2 <= radix <= 69
  {
    if n == 0 then [] else Built(n, radix, upper, group, separator, count)
  }

  lemma NothingWritten(n: nat, radix: nat, upper: bool, group: bool, separator: nat, tail: seq<nat>)
    requires 2 <= radix <= 69 && n > 0 && tail == []
    ensures BuiltRest(n, radix, upper, group, separator, 0) + tail == Built(n, radix, upper, group, separator, 0)
  {}

  lemma NothingLeft(radix: nat, upper: bool, group: bool, separator: nat, count: nat, tail: seq<nat>)
    requires 2 <= radix <= 69
    ensures BuiltRest(0, radix, upper, group, separator, count) + tail == tail
  {}

  // One digit, and a separator before it when it completes a group and is not the last.
  lemma BuiltStep(n: nat, radix: nat, upper: bool, group: bool, separator: nat, count: nat, tail: seq<nat>)
      returns (written: seq<nat>)
    requires 2 <= radix <= 69 && n > 0
    ensures 0 <= n / radix < n && 0 <= n % radix < radix
    ensures written == (if group && count == 2 && n / radix != 0 then [separator] else []) + [DigitChar(n % radix, upper)]
    ensures |BuiltRest(n, radix, upper, group, separator, count) + tail| >= |written| + |tail|
    ensures
      var next := if group && count == 2 && n / radix != 0 then 0 else if group then count + 1 else count;
      BuiltRest(n, radix, upper, group, separator, count) + tail == BuiltRest(n / radix, radix, upper, group, separator, next) + (written + tail)
  {
    written := (if group && count == 2 && n / radix != 0 then [separator] else []) + [DigitChar(n % radix, upper)];
    if n >= radix {
      DivisionShrinks(n, radix);
    } else {
      SmallDivision(n, radix);
    }
    assert BuiltRest(n, radix, upper, group, separator, count) ==
      BuiltRest(n / radix, radix, upper, group, separator, if group && count == 2 && n / radix != 0 then 0 else if group then count + 1 else count) + written;
  }

  lemma SmallDivision(n: nat, radix: nat)
    requires n < radix
    ensures n / radix == 0 && n % radix == n
  {
    var q := n / radix;
    assert n == q * radix + n % radix;
    assert q >= 1 ==> q * radix >= radix;
  }

  // ---------- the output ----------

  lemma Cut(b: seq<nat>, used: nat, start: nat, before: seq<nat>, part: seq<nat>)
    requires start <= used <= |b| && |before| == start && b[..used] == before + part
    ensures b[..start] == before && b[start..used] == part
  {
    assert b[..start] == b[..used][..start] && b[start..used] == b[..used][start..];
  }

  function Overwritten(b: seq<nat>, at: nat, data: seq<nat>): (b': seq<nat>)
    requires at + |data| <= |b|
    ensures |b'| == |b|
  {
    b[..at] + data + b[at + |data|..]
  }

  lemma NothingOver(b: seq<nat>, at: nat, data: seq<nat>)
    requires at <= |b|
    ensures Overwritten(b, at, data[..0]) == b
  {}

  lemma OneMoreWritten(b: seq<nat>, at: nat, data: seq<nat>, k: nat)
    requires k < |data| && at + |data| <= |b|
    ensures Overwritten(b, at, data[..k])[at + k := data[k]] == Overwritten(b, at, data[..k + 1])
  {}

  lemma MovedUp(b: seq<nat>, moved: seq<nat>, b': seq<nat>, start: nat, pads: seq<nat>, part: seq<nat>)
    requires start + |pads| + |part| <= |b|
    requires moved == Overwritten(b, start + |pads|, part) && b' == Overwritten(moved, start, pads)
    ensures b'[..start + |part| + |pads|] == b[..start] + (pads + part)
  {
    assert moved[start + |pads|..][..|part|] == part;
  }

  // The string of PhFormat, which grows, or the buffer of PhFormatToBuffer, which may be
  // missing. text is everything that has been formatted, written or not.
  class Output {
    const growing: bool
    const missing: bool
    var buffer: array<nat>
    var used: nat
    var overrun: bool
    ghost var text: seq<nat>

    // Nothing is written from the first time the room would not have been enough.
    ghost predicate Valid()
      reads this, buffer
    {
      && used == |text|
      && (overrun <==> !growing && (missing || buffer.Length < used))
      && (growing ==> buffer.Length >= used)
      && (!overrun ==> buffer[..used] == text)
    }

    // The room for n more characters is there, or nothing may be written.
    ghost predicate Ready(n: nat)
      reads this, buffer
    {
      && used == |text|
      && (overrun <==> !growing && (missing || buffer.Length < used + n))
      && (!overrun ==> buffer.Length >= used + n && buffer[..used] == text)
    }

    constructor Growing(capacity: nat)
      ensures Valid() && growing && text == [] && fresh(buffer)
    {
      growing, missing, used, overrun, text := true, false, 0, false, [];
      buffer := new nat[capacity];
    }

    constructor Fixed(given: array<nat>, missing: bool)
      ensures Valid() && !growing && this.missing == missing && buffer == given && text == []
    {
      growing, this.missing, used, overrun, text := false, missing, 0, missing, [];
      buffer := given;
    }

    // ENSURE_BUFFER, with PhpResizeFormatBuffer
    method Ensure(n: nat)
      requires Valid()
      modifies this`buffer, this`overrun
      ensures Ready(n) && (buffer == old(buffer) || (growing && fresh(buffer)))
    {
      if growing {
        if buffer.Length < used + n {
          var length := if 2 * buffer.Length < used + n then used + n else 2 * buffer.Length;
          var was, kept, larger := buffer, used, new nat[length];
          for k := 0 to kept
            invariant larger[..k] == was[..k] && was[..] == old(buffer[..])
            invariant buffer == was && used == kept && overrun == old(overrun)
          {
            larger[k] := was[k];
          }
          buffer := larger;
        }
      } else if !overrun && buffer.Length < used + n {
        overrun := true;
      }
    }

    // memcpy, wmemset
    method Write(at: nat, data: seq<nat>)
      requires at + |data| <= buffer.Length
      modifies buffer
      ensures buffer[..] == Overwritten(old(buffer[..]), at, data)
    {
      hide Overwritten;
      ghost var b := buffer[..];
      NothingOver(b, at, data);
      for k := 0 to |data|
        invariant buffer[..] == Overwritten(b, at, data[..k])
      {
        buffer[at + k] := data[k];
        OneMoreWritten(b, at, data, k);
      }
      assert data[..|data|] == data;
    }

    method WriteNext(at: nat, data: seq<nat>) returns (next: nat)
      requires at + |data| <= buffer.Length
      modifies buffer
      ensures next == at + |data| && buffer[..next] == old(buffer[..at]) + data
    {
      ghost var b := buffer[..];
      Write(at, data);
      assert b[..at] == old(buffer[..at]);
      next := at + |data|;
    }

    // Characters and strings.
    method Put(data: seq<nat>)
      requires Valid()
      modifies this, buffer
      ensures Valid() && text == old(text) + data && (buffer == old(buffer) || (growing && fresh(buffer)))
    {
      Ensure(|data|);
      if !overrun {
        var _ := WriteNext(used, data);
      }
      used := used + |data|;
      text := text + data;
    }

    // The rest of COMMON_INTEGER_FORMAT: sign, zeros, digits.
    method PutInteger(f: Format, n: nat, negative: bool, separator: nat)
      requires Valid() && n < TWO64
      modifies this, buffer
      ensures Valid() && text == old(text) + IntegerPart(f, n, negative, separator)
      ensures buffer == old(buffer) || (growing && fresh(buffer))
    {
      hide NumberText;
      var temp := new nat[BUFFER_SIZE];
      var count := PrintDigits(n, f, separator, temp);
      var digits := temp[BUFFER_SIZE - count..];
      var preCount, padCount := 0, 0;
      if negative {
        preCount := preCount + 1;
      } else if f.prefixSign {
        preCount := preCount + 1;
      }
      if f.padZeros && !f.group && preCount + count < f.width {
        padCount := f.width - (preCount + count);
        preCount := preCount + padCount;
      }
      assert SignText(f, negative) + Repeat(ZERO, padCount) + digits == IntegerPart(f, n, negative, separator);
      Emit(f, negative, preCount, padCount, digits);
    }

    method Emit(f: Format, negative: bool, preCount: nat, padCount: nat, digits: seq<nat>)
      requires Valid() && preCount == |SignText(f, negative)| + padCount
      modifies this, buffer
      ensures Valid() && text == old(text) + (SignText(f, negative) + Repeat(ZERO, padCount) + digits)
      ensures buffer == old(buffer) || (growing && fresh(buffer))
    {
      hide SignText, Repeat;
      ghost var part := SignText(f, negative) + Repeat(ZERO, padCount) + digits;
      assert |part| == preCount + |digits|;
      Ensure(preCount + |digits|);
      if !overrun {
        WriteInteger(used, f, negative, padCount, digits);
      }
      used := used + (preCount + |digits|);
      text := text + part;
    }

    method WriteInteger(at: nat, f: Format, negative: bool, padCount: nat, digits: seq<nat>)
      requires at + |SignText(f, negative)| + padCount + |digits| <= buffer.Length
      modifies buffer
      ensures
        var part := SignText(f, negative) + Repeat(ZERO, padCount) + digits;
        buffer[..at + |part|] == old(buffer[..at]) + part
    {
      hide Repeat;
      var next := at;
      if negative {
        next := WriteNext(next, [MINUS]);
      } else if f.prefixSign {
        next := WriteNext(next, [PLUS]);
      }
      assert buffer[..next] == old(buffer[..at]) + SignText(f, negative);
      next := WriteNext(next, Repeat(ZERO, padCount));
      next := WriteNext(next, digits);
    }

    // The end of the loop body: the part written since start is filled up to its width.
    method Align(f: Format, start: nat)
      requires Valid() && start <= used
      modifies this, buffer
      ensures Valid() && text == old(text)[..start] + Aligned(f, old(text)[start..])
      ensures buffer == old(buffer) || (growing && fresh(buffer))
    {
      hide Repeat;
      assert text == text[..start] + text[start..];
      var length := used - start;
      if (f.left || f.right) && length < f.width {
        var pads := Repeat(PadChar(f), f.width - length);
        if f.left {
          Put(pads);
        } else {
          PutBefore(start, pads);
        }
      }
    }

    method PutBefore(start: nat, pads: seq<nat>)
      requires Valid() && start <= used
      modifies this, buffer
      ensures Valid() && text == old(text)[..start] + (pads + old(text)[start..])
      ensures buffer == old(buffer) || (growing && fresh(buffer))
    {
      ghost var before, part := text[..start], text[start..];
      assert text == before + part;
      Ensure(|pads|);
      if !overrun {
        Cut(buffer[..], used, start, before, part);
        MoveUp(start, |pads|, pads);
      }
      used := used + |pads|;
      text := before + (pads + part);
    }

    // memmove, and the filling in front.
    method MoveUp(start: nat, add: nat, pads: seq<nat>)
      requires start <= used && used + add <= buffer.Length && |pads| == add
      modifies buffer
      ensures buffer[..used + add] == old(buffer[..start]) + (pads + old(buffer[start..used]))
    {
      var part := buffer[start..used];
      ghost var b := buffer[..];
      assert b[..start] == buffer[..start];
      Write(start + add, part);
      ghost var moved := buffer[..];
      Write(start, pads);
      MovedUp(b, moved, buffer[..], start, pads, part);
    }

    method PutItem(f: Format, separator: nat)
      requires Valid() && Represented(f)
      modifies this, buffer
      ensures Valid() && text == old(text) + PartText(f, separator)
      ensures buffer == old(buffer) || (growing && fresh(buffer))
    {
      hide IntegerPart;
      match f.item
      case Char(c) => Put([c]);
      case Text(s) => Put(s);
      case Int(n) =>
        if n < 0 {
          PutInteger(f, -n, true, separator);
        } else {
          PutInteger(f, n, false, separator);
        }
      case UInt(u) => PutInteger(f, u, false, separator);
    }

    // The loop of format_i.h.
    method PutAll(formats: seq<Format>, separator: nat)
      requires Valid() && text == [] && forall f :: f in formats ==> Represented(f)
      modifies this, buffer
      ensures Valid() && text == AllText(formats, separator)
      ensures buffer == old(buffer) || (growing && fresh(buffer))
    {
      hide PartText, Aligned;
      for k := 0 to |formats|
        invariant Valid() && text == AllText(formats[..k], separator)
        invariant buffer == old(buffer) || (growing && fresh(buffer))
      {
        var start := used;
        ghost var before := text;
        assert formats[..k + 1][..k] == formats[..k];
        PutItem(formats[k], separator);
        assert text[..start] == before && text[start..] == PartText(formats[k], separator);
        Align(formats[k], start);
      }
      assert formats[..|formats|] == formats;
    }
  }

  // ---------- the entry points ----------

  // PhFormat, given the least capacity and the one asked for.
  method Format(formats: seq<Format>, capacity: nat, least: nat, separator: nat) returns (s: array<nat>, length: nat)
    requires forall f :: f in formats ==> Represented(f)
    ensures length <= s.Length && s[..length] == AllText(formats, separator)
  {
    var output := new Output.Growing(if capacity < least then least else capacity);
    output.PutAll(formats, separator);
    s, length := output.buffer, output.used;
  }

  // PhFormatToBuffer: the length to give counts the null character at the end, and is the
  // same whatever room there is. Without room the buffer starts with a null character.
  method FormatToBuffer(formats: seq<Format>, given: array<nat>, missing: bool, separator: nat) returns (ok: bool, length: nat)
    requires missing ==> given.Length == 0
    requires forall f :: f in formats ==> Represented(f)
    modifies given
    ensures length == |AllText(formats, separator)| + 1
    ensures ok <==> length <= given.Length
    ensures ok ==> given[..length] == AllText(formats, separator) + [0]
    ensures !ok && given.Length > 0 ==> given[0] == 0
  {
    var output := new Output.Fixed(given, missing);
    output.PutAll(formats, separator);
    output.Ensure(1);
    if !output.overrun {
      given[output.used] := 0;
    } else if !missing && given.Length != 0 {
      given[0] := 0;
    }
    length := output.used + 1;
    ok := !output.overrun;
  }

  // PhIntegerToString64
  method IntegerToString(n: int, base: nat, signed: bool, separator: nat) returns (ok: bool, s: array<nat>, length: nat)
    requires MIN64 <= n < TWO63
    ensures ok <==> base != 1 && base <= 69
    ensures ok ==> length <= s.Length && s[..length] == Printed(n, base, signed)
  {
    if base == 1 || base > 69 {
      s := new nat[0];
      return false, s, 0;
    }
    PlainPrints(n, base, signed, separator);
    s, length := Format([Plain(n, base, signed)], 0, 0, separator);
    ok := true;
  }
}
