// UTF-8 (section 3 of RFC 3629), UTF-16 (section 2 of RFC 2781) and UTF-32 as the program
// encodes and decodes them.
//
// The encoder takes surrogate code points like any other; that is where it differs from the
// standards, and why UTF-16 text can say something else than what was encoded.
module Unicode {

  const MAX_CODE_POINT: nat := 0x10ffff

  datatype Encoding = Utf8 | Utf16 | Utf32

  // The code units of an encoding, and how many of them a decoder can queue.
  function UnitLimit(e: Encoding): nat {
    match e
    case Utf8 => 0x100
    case Utf16 => 0x1_0000
    case Utf32 => 0x1_0000_0000
  }

  function Capacity(e: Encoding): nat {
    match e
    case Utf8 => 4
    case Utf16 => 2
    case Utf32 => 1
  }

  ghost predicate Units(e: Encoding, s: seq<nat>) {
    forall k :: 0 <= k < |s| ==> s[k] < UnitLimit(e)
  }

  // ---------- encoding ----------

  // A code point is a 32-bit number; those that cannot be encoded have no units.
  function Encode(e: Encoding, c: nat): (units: seq<nat>)
    requires c < 0x1_0000_0000
    ensures Units(e, units) && |units| <= 4
    ensures units != [] <==> c <= MAX_CODE_POINT || e == Utf32
  {
    match e
    case Utf8 => Encode8(c)
    case Utf16 => Encode16(c)
    case Utf32 => [c]
  }

  function Encode8(c: nat): (units: seq<nat>)
    ensures Units(Utf8, units) && |units| <= 4
    ensures units != [] <==> c <= MAX_CODE_POINT
  {
    if c < 0x80 then [c]
    else if c <= 0x7ff then [c / 0x40 + 0xc0, c % 0x40 + 0x80]
    else if c <= 0xffff then [c / 0x1000 + 0xe0, c / 0x40 % 0x40 + 0x80, c % 0x40 + 0x80]
    else if c <= MAX_CODE_POINT then
      [c / 0x4_0000 + 0xf0, c / 0x1000 % 0x40 + 0x80, c / 0x40 % 0x40 + 0x80, c % 0x40 + 0x80]
    else []
  }

  function Encode16(c: nat): (units: seq<nat>)
    ensures Units(Utf16, units) && |units| <= 2
    ensures units != [] <==> c <= MAX_CODE_POINT
  {
    if c < 0x1_0000 then [c]
    else if c <= MAX_CODE_POINT then [c / 0x400 + 0xd7c0, c % 0x400 + 0xdc00]
    else []
  }

  // ---------- decoding the front of a stream ----------

  // What the first units of a stream say: a code point in so many units; nothing yet; or an
  // error found at the unit with the given number, which stands for the first unit alone.
  datatype Front = Point(point: nat, length: nat) | Partial | Malformed(which: nat)

  predicate Tail(u: nat) { 0x80 <= u < 0xc0 }

  // The second unit of a longer sequence: no overlong forms, nothing above the last code point.
  predicate Second(first: nat, u: nat) {
    Tail(u) && (first == 0xe0 ==> u >= 0xa0) && (first == 0xf0 ==> u >= 0x90) && (first == 0xf4 ==> u < 0x90)
  }

  function Front8(s: seq<nat>): Front {
    if |s| == 0 then Partial
    else if s[0] < 0x80 then Point(s[0], 1)
    else if s[0] < 0xc2 || s[0] >= 0xf5 then Malformed(1)
    else if |s| == 1 then Partial
    else if !Second(s[0], s[1]) then Malformed(2)
    else if s[0] < 0xe0 then Point((s[0] - 0xc0) * 0x40 + (s[1] - 0x80), 2)
    else if |s| == 2 then Partial
    else if !Tail(s[2]) then Malformed(3)
    else if s[0] < 0xf0 then Point((s[0] - 0xe0) * 0x1000 + (s[1] - 0x80) * 0x40 + (s[2] - 0x80), 3)
    else if |s| == 3 then Partial
    else if !Tail(s[3]) then Malformed(4)
    else Point((s[0] - 0xf0) * 0x4_0000 + (s[1] - 0x80) * 0x1000 + (s[2] - 0x80) * 0x40 + (s[3] - 0x80), 4)
  }

  predicate High(u: nat) { 0xd800 <= u <= 0xdbff }

  predicate Low(u: nat) { 0xdc00 <= u <= 0xdfff }

  // A high surrogate without its low one is a code point of its own.
  function Front16(s: seq<nat>): Front {
    if |s| == 0 then Partial
    else if !High(s[0]) then Point(s[0], 1)
    else if |s| == 1 then Partial
    else if !Low(s[1]) then Malformed(2)
    else Point((s[0] - 0xd7c0) * 0x400 + (s[1] - 0xdc00), 2)
  }

  function FrontOf(e: Encoding, s: seq<nat>): Front {
    match e
    case Utf8 => Front8(s)
    case Utf16 => Front16(s)
    case Utf32 => if |s| == 0 then Partial else Point(s[0], 1)
  }

  // The code point a decoder reports, and the units it takes for it.
  function Reported(e: Encoding, s: seq<nat>): nat
    requires !FrontOf(e, s).Partial?
  {
    match FrontOf(e, s)
    case Point(c, _) => c
    case Malformed(_) => if e == Utf8 then s[0] + 0xdc00 else s[0]
  }

  function Taken(e: Encoding, s: seq<nat>): (n: nat)
    requires !FrontOf(e, s).Partial?
    ensures 1 <= n <= |s|
  {
    match FrontOf(e, s)
    case Point(_, n) => n
    case Malformed(_) => 1
  }

  // ---------- the decoder against the encoder ----------

  ghost predicate Starts(front: seq<nat>, s: seq<nat>) {
    |front| <= |s| && s[..|front|] == front
  }

  // UTF-8: a stream starts with a code point exactly when it starts with its encoding.
  lemma PointIffEncoded8(s: seq<nat>, c: nat, n: nat)
    requires Units(Utf8, s)
    ensures Front8(s) == Point(c, n) <==> c <= MAX_CODE_POINT && n == |Encode8(c)| && Starts(Encode8(c), s)
  {
    if Front8(s) == Point(c, n) {
      PointIsEncoded8(s, c, n);
    }
    if c <= MAX_CODE_POINT && n == |Encode8(c)| && Starts(Encode8(c), s) {
      EncodedIsPoint8(s, c);
    }
  }

  lemma PointIsEncoded8(s: seq<nat>, c: nat, n: nat)
    requires Units(Utf8, s) && Front8(s) == Point(c, n)
    ensures c <= MAX_CODE_POINT && n == |Encode8(c)| && Starts(Encode8(c), s)
  {
    hide Units;
    if n == 2 {
      FromDigits(0, 0, s[0] - 0xc0, s[1] - 0x80);
    } else if n == 3 {
      FromDigits(0, s[0] - 0xe0, s[1] - 0x80, s[2] - 0x80);
    } else if n == 4 {
      FromDigits(s[0] - 0xf0, s[1] - 0x80, s[2] - 0x80, s[3] - 0x80);
    }
    assert s[..n] == Encode8(c);
  }

  lemma EncodedIsPoint8(s: seq<nat>, c: nat)
    requires c <= MAX_CODE_POINT && Starts(Encode8(c), s)
    ensures Front8(s) == Point(c, |Encode8(c)|)
  {
    hide Units;
    var n := |Encode8(c)|;
    ToDigits(c);
    assert forall k :: 0 <= k < n ==> s[k] == Encode8(c)[k];
  }

  // Four digits of six bits.
  lemma FromDigits(a: nat, b: nat, d: nat, e: nat)
    requires b < 0x40 && d < 0x40 && e < 0x40
    ensures
      var c := a * 0x4_0000 + b * 0x1000 + d * 0x40 + e;
      c / 0x4_0000 == a && c / 0x1000 == a * 0x40 + b && c / 0x1000 % 0x40 == b && c / 0x40 % 0x40 == d && c % 0x40 == e
      && c / 0x40 == a * 0x1000 + b * 0x40 + d
  {
    var three := a * 0x40 + b;
    var two := three * 0x40 + d;
    LastDigit(a, b);
    LastDigit(three, d);
    LastDigit(two, e);
    Shifts(two * 0x40 + e);
  }

  lemma LastDigit(x: nat, d: nat)
    requires d < 0x40
    ensures (x * 0x40 + d) / 0x40 == x && (x * 0x40 + d) % 0x40 == d
  {}

  lemma Shifts(c: nat)
    ensures c / 0x40 / 0x40 == c / 0x1000 && c / 0x1000 / 0x40 == c / 0x4_0000
  {}

  lemma ToDigits(c: nat)
    ensures c == c / 0x40 * 0x40 + c % 0x40
    ensures c == c / 0x1000 * 0x1000 + c / 0x40 % 0x40 * 0x40 + c % 0x40
    ensures c == c / 0x4_0000 * 0x4_0000 + c / 0x1000 % 0x40 * 0x1000 + c / 0x40 % 0x40 * 0x40 + c % 0x40
  {
    Shifts(c);
    assert c / 0x40 == c / 0x1000 * 0x40 + c / 0x40 % 0x40;
    assert c / 0x1000 == c / 0x4_0000 * 0x40 + c / 0x1000 % 0x40;
  }

  // A stream is waited on exactly while it can still become an encoding.
  lemma PartialIffPrefix8(s: seq<nat>)
    requires Units(Utf8, s)
    ensures Front8(s).Partial? <==> exists c: nat :: c <= MAX_CODE_POINT && |s| < |Encode8(c)| && Starts(s, Encode8(c))
  {
    if Front8(s).Partial? {
      var c := Completion(s);
    }
    forall c: nat | c <= MAX_CODE_POINT && |s| < |Encode8(c)| && Starts(s, Encode8(c))
      ensures Front8(s).Partial?
    {
      PrefixIsPartial8(s, c);
    }
  }

  lemma PrefixIsPartial8(s: seq<nat>, c: nat)
    requires c <= MAX_CODE_POINT && |s| < |Encode8(c)| && Starts(s, Encode8(c))
    ensures Front8(s).Partial?
  {
    hide Units;
    assert forall k :: 0 <= k < |s| ==> s[k] == Encode8(c)[k];
  }

  // Filling up with the least units that are allowed.
  lemma Completion(s: seq<nat>) returns (c: nat)
    requires Units(Utf8, s) && Front8(s).Partial?
    ensures c <= MAX_CODE_POINT && |s| < |Encode8(c)| && Starts(s, Encode8(c))
  {
    if |s| == 0 {
      c := 0;
    } else {
      var second := if |s| >= 2 then s[1] else if s[0] == 0xe0 then 0xa0 else if s[0] == 0xf0 then 0x90 else 0x80;
      var third := if |s| >= 3 then s[2] else 0x80;
      var full := [s[0], second, third, 0x80];
      c := Front8(full).point;
      PointIsEncoded8(full, c, Front8(full).length);
    }
  }

  // An error is found at the first unit that leaves nothing the units could become.
  lemma FoundAt(e: Encoding, s: seq<nat>)
    requires FrontOf(e, s).Malformed?
    ensures var k := FrontOf(e, s).which;
      1 <= k <= |s| && FrontOf(e, s[..k - 1]).Partial? && FrontOf(e, s[..k]) == Malformed(k)
  {}

  // ---------- whole streams ----------

  // The code points a stream says, and the units it is still waited on for.
  function Points(e: Encoding, s: seq<nat>): seq<nat>
    decreases |s|
  {
    if FrontOf(e, s).Partial? then [] else [Reported(e, s)] + Points(e, s[Taken(e, s)..])
  }

  function Remains(e: Encoding, s: seq<nat>): (r: seq<nat>)
    ensures FrontOf(e, r).Partial?
    decreases |s|
  {
    if FrontOf(e, s).Partial? then s else Remains(e, s[Taken(e, s)..])
  }

  function EncodeAll(e: Encoding, points: seq<nat>): seq<nat>
    requires forall k :: 0 <= k < |points| ==> points[k] < 0x1_0000_0000
  {
    if |points| == 0 then [] else Encode(e, points[0]) + EncodeAll(e, points[1..])
  }

  // What has been said stays said when more units arrive.
  lemma FrontStable(e: Encoding, s: seq<nat>, t: seq<nat>)
    requires !FrontOf(e, s).Partial?
    ensures FrontOf(e, s + t) == FrontOf(e, s)
    ensures Reported(e, s + t) == Reported(e, s) && Taken(e, s + t) == Taken(e, s)
  {}

  // A stream can be decoded as it arrives.
  lemma {:induction false} StreamAppend(e: Encoding, s: seq<nat>, t: seq<nat>)
    ensures Points(e, s + t) == Points(e, s) + Points(e, Remains(e, s) + t)
    ensures Remains(e, s + t) == Remains(e, Remains(e, s) + t)
    decreases |s|
  {
    hide FrontOf, Reported;
    if !FrontOf(e, s).Partial? {
      var n := Taken(e, s);
      FrontStable(e, s, t);
      StreamAppend(e, s[n..], t);
      assert (s + t)[n..] == s[n..] + t;
    }
  }

  lemma PartialIsShort(e: Encoding, s: seq<nat>)
    requires FrontOf(e, s).Partial?
    ensures |s| < Capacity(e)
  {}

  lemma ReportedBound(e: Encoding, s: seq<nat>)
    requires Units(e, s) && !FrontOf(e, s).Partial?
    ensures Reported(e, s) < 0x1_0000_0000
    ensures e != Utf32 ==> Reported(e, s) <= MAX_CODE_POINT
  {}

  // Every code point a decoder reports can be encoded again.
  lemma {:induction false} PointsBound(e: Encoding, s: seq<nat>)
    requires Units(e, s)
    ensures forall k :: 0 <= k < |Points(e, s)| ==>
      Points(e, s)[k] < 0x1_0000_0000 && (e != Utf32 ==> Points(e, s)[k] <= MAX_CODE_POINT)
    decreases |s|
  {
    if !FrontOf(e, s).Partial? {
      ReportedBound(e, s);
      PointsBound(e, s[Taken(e, s)..]);
    }
  }

  // ---------- round trips ----------

  ghost predicate Encodable(e: Encoding, points: seq<nat>) {
    forall k :: 0 <= k < |points| ==> points[k] < 0x1_0000_0000 && (e != Utf32 ==> points[k] <= MAX_CODE_POINT)
  }

  // UTF-16 cannot tell a high surrogate before a low one from the code point they stand for,
  // and a decoder waits on a high surrogate at the end.
  ghost predicate NoPairs(e: Encoding, points: seq<nat>) {
    e == Utf16 ==> forall k :: 0 <= k < |points| && High(points[k]) ==> k + 1 < |points| && !Low(points[k + 1])
  }

  // Decoding gives back the code points that were encoded exactly when there is no such pair;
  // in UTF-8 and UTF-32 always.
  lemma {:induction false} RoundTrip(e: Encoding, points: seq<nat>)
    requires Encodable(e, points)
    ensures
      var s := EncodeAll(e, points);
      && (Points(e, s) == points <==> NoPairs(e, points))
      && (NoPairs(e, points) ==> Remains(e, s) == [])
  {
    hide FrontOf, Reported, Encode;
    if |points| > 0 {
      var c, rest := points[0], EncodeAll(e, points[1..]);
      var s := Encode(e, c) + rest;
      RoundTrip(e, points[1..]);
      if e == Utf16 && High(c) && (|points| == 1 || Low(points[1])) {
        Misread(c, points[1..]);
        assert !NoPairs(e, points);
      } else {
        EncodedIsReported(e, c, points[1..]);
        assert s[Taken(e, s)..] == rest;
        NoPairsRest(e, points);
      }
    }
  }

  lemma NoPairsRest(e: Encoding, points: seq<nat>)
    requires |points| > 0
    requires !(e == Utf16 && High(points[0]) && (|points| == 1 || Low(points[1])))
    ensures NoPairs(e, points) <==> NoPairs(e, points[1..])
  {
    if NoPairs(e, points[1..]) {
      assert forall k :: 0 < k < |points| ==> points[k] == points[1..][k - 1];
    }
    assert forall k :: 0 <= k < |points[1..]| ==> points[1..][k] == points[k + 1];
  }

  lemma EncodedIsReported(e: Encoding, c: nat, points: seq<nat>)
    requires c < 0x1_0000_0000 && (e != Utf32 ==> c <= MAX_CODE_POINT) && Encodable(e, points)
    requires !(e == Utf16 && High(c) && (|points| == 0 || Low(points[0])))
    ensures
      var s := Encode(e, c) + EncodeAll(e, points);
      !FrontOf(e, s).Partial? && Reported(e, s) == c && Taken(e, s) == |Encode(e, c)|
  {
    hide EncodeAll, Front8, Encode8;
    match e
    case Utf8 => EncodedIsPoint8(Encode8(c) + EncodeAll(e, points), c);
    case Utf16 =>
      FirstUnit16(points);
      Encoded16IsReported(c, EncodeAll(e, points));
    case Utf32 =>
  }

  lemma FirstUnit16(points: seq<nat>)
    requires Encodable(Utf16, points)
    ensures
      var s := EncodeAll(Utf16, points);
      if |points| == 0 then s == [] else s != [] && (Low(s[0]) <==> Low(points[0]))
  {
    if |points| > 0 {
      assert Encode16(points[0]) != [];
      assert EncodeAll(Utf16, points)[0] == Encode16(points[0])[0];
    }
  }

  lemma Encoded16IsReported(c: nat, rest: seq<nat>)
    requires c <= MAX_CODE_POINT && !(High(c) && (|rest| == 0 || Low(rest[0])))
    ensures
      var s := Encode16(c) + rest;
      !Front16(s).Partial? && Reported(Utf16, s) == c && Taken(Utf16, s) == |Encode16(c)|
  {
    var s := Encode16(c) + rest;
    assert c < 0x1_0000 && |rest| > 0 ==> s[1] == rest[0];
    assert c == c / 0x400 * 0x400 + c % 0x400;
  }

  lemma Misread(c: nat, points: seq<nat>)
    requires Encodable(Utf16, points) && High(c) && (|points| == 0 || Low(points[0]))
    ensures
      var s := Encode(Utf16, c) + EncodeAll(Utf16, points);
      Points(Utf16, s) == [] || Points(Utf16, s)[0] != c
  {
    if |points| > 0 {
      var s := Encode(Utf16, c) + EncodeAll(Utf16, points);
      assert s[0] == c && s[1] == points[0];
    }
  }

  lemma {:induction false} EncodeAllAppend(e: Encoding, a: seq<nat>, b: seq<nat>)
    requires forall k :: 0 <= k < |a| ==> a[k] < 0x1_0000_0000
    requires forall k :: 0 <= k < |b| ==> b[k] < 0x1_0000_0000
    ensures EncodeAll(e, a + b) == EncodeAll(e, a) + EncodeAll(e, b)
  {
    hide Encode;
    if |a| == 0 {
      assert a + b == b;
    } else {
      EncodeAllAppend(e, a[1..], b);
      assert (a + b)[0] == a[0] && (a + b)[1..] == a[1..] + b;
    }
  }

  // Scalar values always come back.
  lemma ScalarValuesReturn(e: Encoding, points: seq<nat>)
    requires forall k :: 0 <= k < |points| ==> points[k] <= MAX_CODE_POINT && !High(points[k]) && !Low(points[k])
    ensures Encodable(e, points)
    ensures Points(e, EncodeAll(e, points)) == points && Remains(e, EncodeAll(e, points)) == []
  {
    assert Encodable(e, points);
    RoundTrip(e, points);
  }

  // Code points that do not come back: one that is waited on, two that are read as one.
  lemma SurrogatesLost()
    ensures Points(Utf16, EncodeAll(Utf16, [0xd800])) == [] && Remains(Utf16, EncodeAll(Utf16, [0xd800])) == [0xd800]
    ensures Points(Utf16, EncodeAll(Utf16, [0xd800, 0xdc00])) == [0x1_0000]
  {
    var s := [0xd800, 0xdc00];
    assert EncodeAll(Utf16, [0xd800]) == [0xd800] + EncodeAll(Utf16, []);
    assert s[1..] == [0xdc00];
    assert EncodeAll(Utf16, s) == [0xd800] + ([0xdc00] + EncodeAll(Utf16, []));
    assert Points(Utf16, s) == [0x1_0000] + Points(Utf16, s[2..]);
  }

  // ---------- the units themselves ----------

  // The first difference between a and b is that a has the smaller number.
  ghost predicate Below(a: seq<nat>, b: seq<nat>) {
    exists k: nat :: DifferAt(a, b, k)
  }

  ghost predicate DifferAt(a: seq<nat>, b: seq<nat>, k: nat) {
    k < |a| && k < |b| && a[..k] == b[..k] && a[k] < b[k]
  }

  // The parts of six bits that a code point is cut into.
  lemma Sixes(c: nat)
    ensures c == 0x40 * (c / 0x40) + c % 0x40
    ensures c / 0x40 == 0x40 * (c / 0x1000) + c / 0x40 % 0x40
    ensures c / 0x1000 == 0x40 * (c / 0x4_0000) + c / 0x1000 % 0x40
  {
    assert c / 0x40 / 0x40 == c / 0x1000 && c / 0x1000 / 0x40 == c / 0x4_0000;
  }

  lemma EncodedBelow(c: nat, d: nat)
    requires c < d <= MAX_CODE_POINT
    ensures Below(Encode8(c), Encode8(d))
  {
    hide Encode8;
    var a, b := Encode8(c), Encode8(d);
    FirstSmaller(c, d);
    Cut(c);
    Cut(d);
    var k := if |a| < |b| || a[0] < b[0] then 0 else if a[1] < b[1] then 1 else if a[2] < b[2] then 2 else 3;
    assert DifferAt(a, b, k);
  }

  lemma FirstSmaller(c: nat, d: nat)
    requires c < d
    ensures c / 0x40 <= d / 0x40 && (c / 0x40 == d / 0x40 ==> c % 0x40 < d % 0x40)
    ensures c / 0x1000 <= d / 0x1000 && (c / 0x1000 == d / 0x1000 ==> c / 0x40 % 0x40 <= d / 0x40 % 0x40)
    ensures c / 0x4_0000 <= d / 0x4_0000 && (c / 0x4_0000 == d / 0x4_0000 ==> c / 0x1000 % 0x40 <= d / 0x1000 % 0x40)
    ensures c / 0x1000 == d / 0x1000 && c / 0x40 % 0x40 == d / 0x40 % 0x40 ==> c / 0x40 == d / 0x40
    ensures c / 0x4_0000 == d / 0x4_0000 && c / 0x1000 % 0x40 == d / 0x1000 % 0x40 ==> c / 0x1000 == d / 0x1000
  {
    Sixes(c);
    Sixes(d);
  }

  // The units by those parts.
  lemma Cut(c: nat)
    requires c <= MAX_CODE_POINT
    ensures var u := Encode8(c);
      if c < 0x80 then u == [c]
      else if c < 0x800 then |u| == 2 && u[0] == 0xc0 + c / 0x40 && u[1] == 0x80 + c % 0x40
      else if c < 0x1_0000 then |u| == 3 && u[0] == 0xe0 + c / 0x1000 && u[1] == 0x80 + c / 0x40 % 0x40 && u[2] == 0x80 + c % 0x40
      else
        && |u| == 4 && u[0] == 0xf0 + c / 0x4_0000 && u[1] == 0x80 + c / 0x1000 % 0x40
        && u[2] == 0x80 + c / 0x40 % 0x40 && u[3] == 0x80 + c % 0x40
  {}

  lemma BelowExtended(front: seq<nat>, a: seq<nat>, b: seq<nat>, s: seq<nat>, t: seq<nat>)
    requires Below(a, b)
    ensures Below(front + a + s, front + b + t)
  {
    var k: nat :| DifferAt(a, b, k);
    var x, y := front + a + s, front + b + t;
    assert x[..|front| + k] == front + a[..k] && y[..|front| + k] == front + b[..k];
    assert DifferAt(x, y, |front| + k);
  }

  // UTF-8 texts sort as their code points do.
  lemma TextsSort(p: seq<nat>, q: seq<nat>)
    requires Below(p, q) && Encodable(Utf8, p) && Encodable(Utf8, q)
    ensures Below(EncodeAll(Utf8, p), EncodeAll(Utf8, q))
  {
    var k: nat :| DifferAt(p, q, k);
    EncodeSplit(Utf8, p, k);
    EncodeSplit(Utf8, q, k);
    EncodedBelow(p[k], q[k]);
    BelowExtended(EncodeAll(Utf8, p[..k]), Encode8(p[k]), Encode8(q[k]), EncodeAll(Utf8, p[k + 1..]), EncodeAll(Utf8, q[k + 1..]));
  }

  lemma EncodeSplit(e: Encoding, p: seq<nat>, k: nat)
    requires k < |p| && Encodable(e, p)
    ensures EncodeAll(e, p) == EncodeAll(e, p[..k]) + Encode(e, p[k]) + EncodeAll(e, p[k + 1..])
  {
    hide Encode;
    assert p == p[..k] + p[k..] && p[k..][1..] == p[k + 1..];
    EncodeAllAppend(e, p[..k], p[k..]);
  }

  // Section 2.1 of RFC 2781: what lies in the first plane is one unit; the rest is a high
  // and a low surrogate with ten bits each.
  lemma SurrogatePairs(c: nat)
    requires c <= MAX_CODE_POINT
    ensures c < 0x1_0000 ==> Encode16(c) == [c]
    ensures c >= 0x1_0000 ==>
      var u := Encode16(c);
      |u| == 2 && High(u[0]) && Low(u[1]) && c == 0x1_0000 + 0x400 * (u[0] - 0xd800) + (u[1] - 0xdc00)
  {}

  // Section 3 of RFC 3629: how many units there are, and what bits they hold.
  lemma UnitBits(c: nat)
    requires c <= MAX_CODE_POINT
    ensures var u := Encode8(c);
      if c <= 0x7f then u == [c]
      else if c <= 0x7ff then |u| == 2 && 0xc0 <= u[0] < 0xe0 && Tail(u[1]) && c == 0x40 * (u[0] - 0xc0) + (u[1] - 0x80)
      else if c <= 0xffff then
        |u| == 3 && 0xe0 <= u[0] < 0xf0 && Tail(u[1]) && Tail(u[2]) && c == 0x1000 * (u[0] - 0xe0) + 0x40 * (u[1] - 0x80) + (u[2] - 0x80)
      else
        && |u| == 4 && 0xf0 <= u[0] < 0xf8 && Tail(u[1]) && Tail(u[2]) && Tail(u[3])
        && c == 0x4_0000 * (u[0] - 0xf0) + 0x1000 * (u[1] - 0x80) + 0x40 * (u[2] - 0x80) + (u[3] - 0x80)
  {
    hide Encode8;
    Sixes(c);
    Cut(c);
  }

  // Examples of section 7 of RFC 3629 and of section 4 of RFC 2781.
  lemma Examples()
    ensures Encode8(0x2262) == [0xe2, 0x89, 0xa2] && Encode8(0x0391) == [0xce, 0x91] && Encode8(0x233b4) == [0xf0, 0xa3, 0x8e, 0xb4]
    ensures Encode16(0x12345) == [0xd808, 0xdf45]
  {}
}
