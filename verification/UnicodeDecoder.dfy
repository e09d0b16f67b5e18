// The incremental decoder: a queue of code units, a state, and the units that state has
// already taken.
//
// Units it has taken and units still queued are one stream to it, and each call reports the
// front of that stream or leaves it alone.
module UnicodeDecoder {
  import opened Unicode

  datatype Outcome = Decoded(point: nat) | Starved | Raised

  class Decoder {
    const encoding: Encoding
    var state: nat
    var input: seq<nat>
    var unit1: nat
    var unit2: nat
    var unit3: nat
    var unit4: nat

    // The units taken so far.
    function Held(): seq<nat>
      reads this
    {
      HeldBy(state, unit1, unit2, unit3)
    }

    function Pending(): seq<nat>
      reads this
    {
      Held() + input
    }

    ghost predicate Valid()
      reads this
    {
      |input| <= Capacity(encoding) && Units(encoding, input) && Progress(encoding, state, Held())
    }

    constructor (e: Encoding)
      ensures Valid() && encoding == e && Pending() == []
    {
      encoding, state, input := e, 0, [];
      unit1, unit2, unit3, unit4 := 0, 0, 0, 0;
    }

    // PhWriteUnicodeDecoder
    method Write(unit: nat) returns (ok: bool)
      requires Valid()
      modifies this`input
      ensures Valid()
      ensures ok == (|old(input)| < Capacity(encoding))
      ensures ok <==> |old(input)| < (match encoding case Utf8 => 4 case Utf16 => 2 case Utf32 => 1)
      ensures ok && unit < (match encoding case Utf8 => 0x100 case Utf16 => 0x1_0000 case Utf32 => 0x1_0000_0000) ==>
        input == old(input) + [unit]
      ensures Pending() == if ok then old(Pending()) + [unit % UnitLimit(encoding)] else old(Pending())
      ensures input == if ok then old(input) + [unit % UnitLimit(encoding)] else old(input)
    {
      ok := |input| < Capacity(encoding);
      if ok {
        input := input + [unit % UnitLimit(encoding)];
      }
    }

    // PhpReadUnicodeDecoder
    method Read() returns (ok: bool, unit: nat)
      modifies this`input
      ensures ok == (old(input) != [])
      ensures if ok then old(input) == [unit] + input else input == []
    {
      ok, unit := input != [], 0;
      if ok {
        unit, input := input[0], input[1..];
      }
    }

    // PhpUnreadUnicodeDecoder
    method Unread(unit: nat) returns (raised: bool)
      modifies this`input
      ensures raised == (|old(input)| >= Capacity(encoding))
      ensures input == if raised then old(input) else [unit] + old(input)
    {
      raised := |input| >= Capacity(encoding);
      if !raised {
        input := [unit] + input;
      }
    }

    // PhpDecodeUtf8Error
    method Utf8Error(which: nat, ghost front: seq<nat>) returns (r: Outcome)
      requires encoding == Utf8 && 1 <= which <= 4 && front == [unit1, unit2, unit3, unit4][..which]
      modifies this`input, this`state
      ensures r.Raised? <==> which >= 2 && |old(input)| + which - 1 > 4
      ensures !r.Raised? ==> r == Decoded(unit1 + 0xdc00) && state == 0
      ensures !r.Raised? ==> input == front[1..] + old(input)
    {
      var raised := false;
      if which >= 4 {
        raised := Unread(unit4);
        if raised { return Raised; }
      }
      if which >= 3 {
        raised := Unread(unit3);
        if raised { return Raised; }
      }
      if which >= 2 {
        raised := Unread(unit2);
        if raised { return Raised; }
      }
      state := 0;
      r := Decoded(unit1 + 0xdc00);
      AllButFirst(unit1, unit2, unit3, unit4, which, old(input));
    }

    // The third and the fourth unit.
    method Later8(unit: nat) returns (more: bool, r: Outcome)
      requires encoding == Utf8 && state >= 4 && unit < 0x100 && Progress(Utf8, state, Held())
      modifies this`state, this`input, this`unit3, this`unit4
      ensures more ==> input == old(input) && Progress(Utf8, state, Held()) && Held() == old(Held()) + [unit]
      ensures !more ==> Reports(Utf8, old(Held()) + [unit], old(input), r)
      ensures !more && !r.Raised? ==> state == 0 && input == (old(Held()) + [unit])[Taken(Utf8, old(Held()) + [unit])..] + old(input)
    {
      ghost var front := Held() + [unit];
      more := false;
      if state == 4 {
        unit3 := unit;
        if unit / 0x40 == 2 {
          r := Decoded(unit1 * 0x1000 + unit2 * 0x40 + unit - 0xe2080);
          state := 0;
        } else {
          r := Utf8Error(3, front);
        }
      } else if state == 5 {
        unit3 := unit;
        if unit / 0x40 == 2 {
          state, more, r := 6, true, Starved;
        } else {
          r := Utf8Error(3, front);
        }
      } else {
        unit4 := unit;
        if unit / 0x40 == 2 {
          r := Decoded(unit1 * 0x4_0000 + unit2 * 0x1000 + unit3 * 0x40 + unit - 0x3c82080);
          state := 0;
        } else {
          r := Utf8Error(4, front);
        }
      }
    }

    // One turn of PhDecodeUnicodeDecoder's loop in UTF-8, after a unit has been read; more
    // says that the loop goes on.
    method Turn8(unit: nat) returns (more: bool, r: Outcome)
      requires encoding == Utf8 && unit < 0x100 && Progress(Utf8, state, Held())
      modifies this`state, this`input, this`unit1, this`unit2, this`unit3, this`unit4
      ensures more ==> input == old(input) && Progress(Utf8, state, Held()) && Held() == old(Held()) + [unit]
      ensures !more ==> Reports(Utf8, old(Held()) + [unit], old(input), r)
      ensures !more && !r.Raised? ==> state == 0 && input == (old(Held()) + [unit])[Taken(Utf8, old(Held()) + [unit])..] + old(input)
    {
      ghost var front := Held() + [unit];
      more := false;
      if state == 0 {
        unit1 := unit;
        if unit < 0x80 {
          r := Decoded(unit);
        } else if unit < 0xc2 {
          r := Utf8Error(1, front);
        } else if unit < 0xe0 {
          state, more, r := 1, true, Starved;
        } else if unit < 0xf0 {
          state, more, r := 2, true, Starved;
        } else if unit < 0xf5 {
          state, more, r := 3, true, Starved;
        } else {
          r := Utf8Error(1, front);
        }
      } else if state == 1 {
        unit2 := unit;
        if unit / 0x40 == 2 {
          r := Decoded(unit1 * 0x40 + unit - 0x3080);
          state := 0;
        } else {
          r := Utf8Error(2, front);
        }
      } else if state == 2 {
        unit2 := unit;
        if unit / 0x40 == 2 && (unit1 != 0xe0 || unit >= 0xa0) {
          state, more, r := 4, true, Starved;
        } else {
          r := Utf8Error(2, front);
        }
      } else if state == 3 {
        unit2 := unit;
        if unit / 0x40 == 2 && (unit1 != 0xf0 || unit >= 0x90) && (unit1 != 0xf4 || unit < 0x90) {
          state, more, r := 5, true, Starved;
        } else {
          r := Utf8Error(2, front);
        }
      } else {
        more, r := Later8(unit);
      }
    }

    // The same in UTF-16.
    method Turn16(unit: nat) returns (more: bool, r: Outcome)
      requires encoding == Utf16 && unit < 0x1_0000 && Progress(Utf16, state, Held())
      modifies this`state, this`input, this`unit1
      ensures more ==> input == old(input) && Progress(Utf16, state, Held()) && Held() == old(Held()) + [unit]
      ensures !more ==> Reports(Utf16, old(Held()) + [unit], old(input), r)
      ensures !more && !r.Raised? ==> state == 0 && input == (old(Held()) + [unit])[Taken(Utf16, old(Held()) + [unit])..] + old(input)
    {
      more := false;
      if state == 0 {
        if 0xd800 <= unit <= 0xdbff {
          unit1 := unit;
          state, more, r := 1, true, Starved;
        } else {
          r := Decoded(unit);
        }
      } else {
        if 0xdc00 <= unit <= 0xdfff {
          r := Decoded(unit1 * 0x400 + unit - 0x35fdc00);
          state := 0;
        } else {
          r := Decoded(unit1);
          var raised := Unread(unit);
          if raised { return false, Raised; }
          state := 0;
        }
      }
    }

    method Turn(unit: nat) returns (more: bool, r: Outcome)
      requires unit < UnitLimit(encoding) && Progress(encoding, state, Held())
      modifies this`state, this`input, this`unit1, this`unit2, this`unit3, this`unit4
      ensures more ==> input == old(input) && Progress(encoding, state, Held()) && Held() == old(Held()) + [unit]
      ensures !more ==> Reports(encoding, old(Held()) + [unit], old(input), r)
      ensures !more && !r.Raised? ==>
        state == 0 && input == (old(Held()) + [unit])[Taken(encoding, old(Held()) + [unit])..] + old(input)
    {
      match encoding
      case Utf8 => more, r := Turn8(unit);
      case Utf16 => more, r := Turn16(unit);
      case Utf32 => more, r := false, Decoded(unit);
    }

    // PhDecodeUnicodeDecoder
    method Decode() returns (r: Outcome)
      requires Valid()
      modifies this`state, this`input, this`unit1, this`unit2, this`unit3, this`unit4
      ensures FrontOf(encoding, old(Pending())).Partial? ==> r == Starved && Valid() && input == [] && Pending() == old(Pending())
      ensures !FrontOf(encoding, old(Pending())).Partial? ==> Reports(encoding, old(Pending()), [], r)
      ensures !FrontOf(encoding, old(Pending())).Partial? && !r.Raised? ==>
        Valid() && Pending() == old(Pending())[Taken(encoding, old(Pending()))..]
    {
      hide FrontOf, StateOf, Reported, Taken, Reports, Progress, Units, HeldBy;
      ghost var s := Pending();
      Unstarted(encoding);
      HeldUnits(encoding, state, Held(), input);
      while true
        invariant |input| <= Capacity(encoding) && Progress(encoding, state, Held())
        invariant Held() + input == s && Units(encoding, s)
        decreases |input|
      {
        ghost var st, held, queue := state, Held(), input;
        QueueUnits(encoding, held, queue);
        var ok, unit := Read();
        if !ok {
          HeldIsPartial(encoding, st, held);
          assert held + queue == held;
          return Starved;
        }
        ghost var rest := input;
        NextUnit(encoding, held, unit, rest);
        var more: bool;
        more, r := Turn(unit);
        if !more {
          FrontSays(encoding, st, held, unit, rest, r);
          NothingHeld(unit1, unit2, unit3, input);
          return;
        }
      }
    }
  }

  function HeldBy(state: nat, unit1: nat, unit2: nat, unit3: nat): seq<nat> {
    if state == 0 then [] else if state <= 3 then [unit1] else if state <= 5 then [unit1, unit2] else [unit1, unit2, unit3]
  }

  lemma AllButFirst(a: nat, b: nat, c: nat, d: nat, which: nat, queue: seq<nat>)
    requires 1 <= which <= 4
    ensures
      var rest := [a, b, c, d][..which][1..] + queue;
      match which
      case 1 => rest == queue
      case 2 => rest == [b] + queue
      case 3 => rest == [b] + ([c] + queue)
      case _ => rest == [b] + ([c] + ([d] + queue))
  {
    var units := [a, b, c, d];
    match which
    case 1 => assert units[..1][1..] + queue == queue;
    case 2 =>
      assert units[..2][1..] == [b];
    case 3 =>
      assert units[..3][1..] == [b, c];
      assert [b, c] + queue == [b] + ([c] + queue);
    case _ =>
      assert units[..4][1..] == [b, c, d];
      assert [b, c, d] + queue == [b] + ([c] + ([d] + queue));
  }

  // The state goes with the units taken, which are not enough to say anything.
  ghost predicate Progress(e: Encoding, state: nat, held: seq<nat>) {
    && Units(e, held) && FrontOf(e, held).Partial?
    && match e
       case Utf8 => StateOf(held) == state
       case Utf16 => state == |held|
       case Utf32 => state == 0
  }

  function StateOf(held: seq<nat>): nat {
    if |held| == 0 then 0
    else if held[0] < 0xe0 then 1
    else if held[0] < 0xf0 then (if |held| == 1 then 2 else 4)
    else if |held| == 1 then 3 else if |held| == 2 then 5 else 6
  }

  // What one call says of a stream, and when it raises an exception: units that follow the
  // one in error go back to the queue, which must have room for them.
  ghost predicate Reports(e: Encoding, front: seq<nat>, rest: seq<nat>, r: Outcome) {
    && !FrontOf(e, front).Partial?
    && (r.Raised? <==> FrontOf(e, front).Malformed? && FrontOf(e, front).which >= 2 && |front| + |rest| - 1 > Capacity(e))
    && (!r.Raised? ==> r == Decoded(Reported(e, front)))
  }

  lemma Unstarted(e: Encoding)
    ensures Progress(e, 0, [])
  {}

  lemma HeldIsPartial(e: Encoding, state: nat, held: seq<nat>)
    requires Progress(e, state, held)
    ensures FrontOf(e, held).Partial?
  {}

  lemma NothingHeld(unit1: nat, unit2: nat, unit3: nat, queue: seq<nat>)
    ensures HeldBy(0, unit1, unit2, unit3) == [] && HeldBy(0, unit1, unit2, unit3) + queue == queue
  {}

  lemma HeldUnits(e: Encoding, state: nat, held: seq<nat>, queue: seq<nat>)
    requires Progress(e, state, held) && Units(e, queue)
    ensures Units(e, held + queue)
  {}

  lemma QueueUnits(e: Encoding, held: seq<nat>, queue: seq<nat>)
    requires Units(e, held + queue)
    ensures Units(e, queue)
  {
    assert forall k :: 0 <= k < |queue| ==> queue[k] == (held + queue)[|held| + k];
  }

  lemma NextUnit(e: Encoding, held: seq<nat>, unit: nat, rest: seq<nat>)
    requires Units(e, [unit] + rest)
    ensures unit < UnitLimit(e) && Units(e, rest)
    ensures held + ([unit] + rest) == (held + [unit]) + rest
  {
    assert ([unit] + rest)[0] == unit;
    assert forall k :: 0 <= k < |rest| ==> rest[k] == ([unit] + rest)[1 + k];
  }

  // The unit just read ended the front of the stream.
  lemma FrontSays(e: Encoding, state: nat, held: seq<nat>, unit: nat, rest: seq<nat>, r: Outcome)
    requires Progress(e, state, held) && Reports(e, held + [unit], rest, r) && |rest| < Capacity(e)
    requires Units(e, held + [unit] + rest)
    ensures
      var front := held + [unit];
      && Units(e, front[Taken(e, front)..] + rest)
      && !FrontOf(e, front + rest).Partial? && Reports(e, front + rest, [], r)
      && (!r.Raised? ==> |front[Taken(e, front)..] + rest| <= Capacity(e))
      && front[Taken(e, front)..] + rest == (front + rest)[Taken(e, front + rest)..]
  {
    var front := held + [unit];
    FrontStable(e, front, rest);
    assert front[..|front| - 1] == held;
    FrontEnds(e, front);
    var n := Taken(e, front);
    assert front + rest == (front + rest)[..n] + (front[n..] + rest);
    QueueUnits(e, (front + rest)[..n], front[n..] + rest);
  }

  lemma FrontEnds(e: Encoding, front: seq<nat>)
    requires |front| > 0 && FrontOf(e, front[..|front| - 1]).Partial? && !FrontOf(e, front).Partial?
    ensures FrontOf(e, front) == Malformed(1) ==> |front| == 1
    ensures FrontOf(e, front).Point? ==> FrontOf(e, front).length == |front|
  {
    var shorter := front[..|front| - 1];
    assert forall k :: 0 <= k < |shorter| ==> shorter[k] == front[k];
    PartialIsShort(e, shorter);
  }

  // A decoder that raises: three units of a sequence taken, and four more queued before the
  // first of them turns out to be wrong.
  method Overfull() returns (before: Outcome, after: Outcome)
    ensures before == Starved && after == Raised
  {
    hide Progress, HeldBy, FrontOf, Reported, Taken, Units;
    WrongFourth();
    var decoder := new Decoder(Utf8);
    Fill(decoder, [], [0xf0, 0x90, 0x80]);
    assert decoder.Pending() == [0xf0, 0x90, 0x80];
    before := decoder.Decode();
    Fill(decoder, [0xf0, 0x90, 0x80], [0x41, 0x41, 0x41, 0x41]);
    after := decoder.Decode();
  }

  method Fill(decoder: Decoder, pending: seq<nat>, units: seq<nat>)
    requires decoder.encoding == Utf8 && decoder.Valid() && decoder.input == [] && |units| <= 4 && Units(Utf8, units)
    requires decoder.Pending() == pending
    modifies decoder`input
    ensures decoder.Valid() && decoder.Pending() == pending + units
  {
    hide Progress, HeldBy;
    for k := 0 to |units|
      invariant decoder.Valid() && |decoder.input| == k && decoder.Pending() == pending + units[..k]
    {
      var ok := decoder.Write(units[k]);
    }
  }

  lemma WrongFourth()
    ensures Units(Utf8, [0xf0, 0x90, 0x80]) && Units(Utf8, [0x41, 0x41, 0x41, 0x41])
    ensures FrontOf(Utf8, [0xf0, 0x90, 0x80]).Partial?
    ensures FrontOf(Utf8, [0xf0, 0x90, 0x80] + [0x41, 0x41, 0x41, 0x41]) == Malformed(4)
  {}
}
