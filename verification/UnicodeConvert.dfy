// Conversion between UTF-8 and UTF-16 text: a pass that counts and a pass that writes, each
// feeding the incremental decoder one unit at a time.
module UnicodeConvert {
  import opened Unicode
  import opened UnicodeDecoder

  // The units of the other encoding for everything the text says. Units at the end that say
  // nothing yet are left out.
  function Converted(from: Encoding, to: Encoding, s: seq<nat>): seq<nat>
    requires Units(from, s)
  {
    PointsBound(from, s);
    EncodeAll(to, Points(from, s))
  }

  function UnitBytes(e: Encoding): nat {
    match e
    case Utf8 => 1
    case Utf16 => 2
    case Utf32 => 4
  }

  // How many values so many bytes have.
  function Values(bytes: nat): nat {
    if bytes == 0 then 1 else 0x100 * Values(bytes - 1)
  }

  lemma UnitsAreBytes(e: Encoding)
    ensures Values(UnitBytes(e)) == UnitLimit(e)
  {
    assert Values(1) == 0x100 && Values(2) == 0x100 * Values(1) && Values(3) == 0x100 * Values(2);
  }

  // ---------- what conversion means ----------

  // Conversion keeps the encoded code points exactly when decoding does.
  lemma ConversionKeepsPoints(from: Encoding, to: Encoding, points: seq<nat>)
    requires (from == Utf8 && to == Utf16) || (from == Utf16 && to == Utf8)
    requires Encodable(from, points)
    ensures Units(from, EncodeAll(from, points))
    ensures Converted(from, to, EncodeAll(from, points)) == EncodeAll(to, points) <==> NoPairs(from, points)
  {
    hide Encode, FrontOf;
    var s := EncodeAll(from, points);
    EncodedUnits(from, points);
    RoundTrip(from, points);
    if to == Utf8 && Converted(from, to, s) == EncodeAll(to, points) {
      PointsBound(from, s);
      RoundTrip(Utf8, points);
      RoundTrip(Utf8, Points(from, s));
    }
  }

  lemma {:induction false} EncodedUnits(e: Encoding, points: seq<nat>)
    requires forall k :: 0 <= k < |points| ==> points[k] < 0x1_0000_0000
    ensures Units(e, EncodeAll(e, points))
  {
    if |points| > 0 {
      EncodedUnits(e, points[1..]);
    }
  }

  // ---------- the decoder, one code point at a time ----------

  // A call on a decoder whose stream is short enough never raises an exception: it takes the
  // next code point off what the stream says.
  method NextPoint(decoder: Decoder) returns (found: bool, point: nat)
    requires decoder.Valid() && |decoder.Pending()| <= Capacity(decoder.encoding)
    modifies decoder
    ensures decoder.Valid() && |decoder.Pending()| <= Capacity(decoder.encoding)
    ensures Remains(decoder.encoding, decoder.Pending()) == Remains(decoder.encoding, old(decoder.Pending()))
    ensures found ==> Points(decoder.encoding, old(decoder.Pending())) == [point] + Points(decoder.encoding, decoder.Pending())
    ensures found ==> |decoder.Pending()| < |old(decoder.Pending())|
    ensures !found ==> decoder.Pending() == old(decoder.Pending()) && FrontOf(decoder.encoding, decoder.Pending()).Partial?
    ensures !found ==> decoder.input == []
  {
    hide Front8, Front16, HeldBy, Progress;
    ghost var s := decoder.Pending();
    var r := decoder.Decode();
    found, point := r.Decoded?, if r.Decoded? then r.point else 0;
  }

  // ---------- the two passes ----------

  // What is said once the next unit has been fed and drained.
  lemma Fed(e: Encoding, s: seq<nat>, k: nat)
    requires k < |s|
    ensures Points(e, s[..k + 1]) == Points(e, s[..k]) + Points(e, Remains(e, s[..k]) + [s[k]])
    ensures Remains(e, s[..k + 1]) == Remains(e, Remains(e, s[..k]) + [s[k]])
    ensures |Remains(e, s[..k])| < Capacity(e)
  {
    PartialIsShort(e, Remains(e, s[..k]));
    assert s[..k + 1] == s[..k] + [s[k]];
    StreamAppend(e, s[..k], [s[k]]);
  }

  lemma UnitFits(e: Encoding, unit: nat)
    requires unit < UnitLimit(e)
    ensures unit % UnitLimit(e) == unit
  {}

  // Writes the next unit, for which there is always room.
  method Feed(decoder: Decoder, s: seq<nat>, k: nat)
    requires k < |s| && Units(decoder.encoding, s) && Drained(decoder, s[..k])
    modifies decoder
    ensures Units(decoder.encoding, s[..k + 1]) && decoder.Valid() && |decoder.Pending()| <= Capacity(decoder.encoding)
    ensures Points(decoder.encoding, s[..k + 1]) == Points(decoder.encoding, s[..k]) + Points(decoder.encoding, decoder.Pending())
    ensures Remains(decoder.encoding, decoder.Pending()) == Remains(decoder.encoding, s[..k + 1])
  {
    hide Progress, HeldBy, Points, Remains, UnitLimit, FrontOf;
    Fed(decoder.encoding, s, k);
    UnitFits(decoder.encoding, s[k]);
    var written := decoder.Write(s[k]);
  }

  // PhConvertUtf8ToUtf16Size, PhConvertUtf16ToUtf8Size
  method Size(from: Encoding, to: Encoding, s: seq<nat>) returns (ok: bool, bytes: nat)
    requires from != Utf32 && Units(from, s)
    ensures ok && bytes == UnitBytes(to) * |Converted(from, to, s)|
  {
    hide FrontOf, Encode, Progress, HeldBy, Points, Remains, EncodeAll, Capacity, UnitBytes, Told, Units, Converted;
    var decoder := new Decoder(from);
    ghost var said: seq<nat> := [];
    ok, bytes := true, 0;
    Nothing(from, to, s, said);
    NothingTold(from, to, said);
    for k := 0 to |s|
      invariant ok && decoder.encoding == from && Drained(decoder, s[..k])
      invariant said == Points(from, s[..k]) && Told(from, to, said, bytes)
    {
      Feed(decoder, s, k);
      var found := true;
      while found
        invariant ok && decoder.encoding == from && decoder.Valid() && |decoder.Pending()| <= Capacity(from)
        invariant Told(from, to, said, bytes)
        invariant said + Points(from, decoder.Pending()) == Points(from, s[..k + 1])
        invariant Remains(from, decoder.Pending()) == Remains(from, s[..k + 1])
        invariant !found ==> FrontOf(from, decoder.Pending()).Partial? && decoder.input == []
        decreases |decoder.Pending()|, found
      {
        var point: nat;
        found, point := NextPoint(decoder);
        if found {
          ok, bytes := CountPoint(from, to, point, ok, bytes, s[..k + 1], said, Points(from, decoder.Pending()));
          said := said + [point];
        }
      }
      Quiet(from, decoder.Pending());
    }
    assert s[..|s|] == s;
    AllTold(from, to, s, said, bytes);
  }

  // The bytes of the code points said so far.
  ghost predicate Told(from: Encoding, to: Encoding, said: seq<nat>, bytes: nat) {
    Encodable(from, said) && bytes == UnitBytes(to) * |EncodeAll(to, said)|
  }

  lemma NothingTold(from: Encoding, to: Encoding, said: seq<nat>)
    requires said == []
    ensures Told(from, to, said, 0)
  {}

  lemma AllTold(from: Encoding, to: Encoding, s: seq<nat>, said: seq<nat>, bytes: nat)
    requires from != Utf32 && Units(from, s) && said == Points(from, s) && Told(from, to, said, bytes)
    ensures bytes == UnitBytes(to) * |Converted(from, to, s)|
  {}

  // Counts one more code point of the text.
  method CountPoint(from: Encoding, to: Encoding, point: nat, ok: bool, bytes: nat, ghost s: seq<nat>, ghost said: seq<nat>, ghost rest: seq<nat>)
      returns (ok': bool, bytes': nat)
    requires from != Utf32 && Units(from, s) && said + ([point] + rest) == Points(from, s) && Told(from, to, said, bytes)
    ensures ok' == ok && said + [point] + rest == Points(from, s) && Told(from, to, said + [point], bytes')
  {
    hide FrontOf, Encode, Points, EncodeAll, UnitBytes;
    Said(from, to, s, said, point, rest);
    ok', bytes' := ok, bytes;
    var units := Encode(to, point);
    if units != [] {
      bytes' := bytes + |units| * UnitBytes(to);
    } else {
      ok' := false;
    }
  }

  // Between units the queue is empty and the decoder holds what the stream is waited on for.
  ghost predicate Drained(decoder: Decoder, s: seq<nat>)
    reads decoder
  {
    decoder.Valid() && decoder.input == [] && decoder.Pending() == Remains(decoder.encoding, s)
  }

  lemma Nothing(from: Encoding, to: Encoding, s: seq<nat>, said: seq<nat>)
    requires said == []
    ensures Points(from, s[..0]) == [] && Remains(from, s[..0]) == []
    ensures EncodeAll(to, said) == [] && UnitBytes(to) * |EncodeAll(to, said)| == 0
  {}

  lemma Quiet(e: Encoding, s: seq<nat>)
    requires FrontOf(e, s).Partial?
    ensures Points(e, s) == [] && Remains(e, s) == s
  {}

  lemma EncodeOne(e: Encoding, c: nat)
    requires c < 0x1_0000_0000
    ensures EncodeAll(e, [c]) == Encode(e, c)
  {
    assert EncodeAll(e, [c]) == Encode(e, c) + EncodeAll(e, []);
  }

  // One more code point.
  lemma Said(from: Encoding, to: Encoding, s: seq<nat>, said: seq<nat>, point: nat, rest: seq<nat>)
    requires from != Utf32 && Units(from, s) && said + ([point] + rest) == Points(from, s) && Encodable(from, said)
    ensures Encodable(from, said + [point]) && point <= MAX_CODE_POINT
    ensures (said + [point]) + rest == Points(from, s)
    ensures Encode(to, point) != [] && EncodeAll(to, said + [point]) == EncodeAll(to, said) + Encode(to, point)
    ensures UnitBytes(to) * |EncodeAll(to, said + [point])| == UnitBytes(to) * |EncodeAll(to, said)| + |Encode(to, point)| * UnitBytes(to)
  {
    hide FrontOf, Encode8, Encode16, Points, EncodeAll;
    PointsBound(from, s);
    assert Points(from, s)[|said|] == point;
    EncodeAllAppend(to, said, [point]);
    EncodeOne(to, point);
  }

  // PhConvertUtf8ToUtf16Buffer, PhConvertUtf16ToUtf8Buffer: a code point that no longer fits
  // is left out, and the ones after it are tried all the same.
  method Buffer(from: Encoding, to: Encoding, s: seq<nat>, out: array<nat>) returns (ok: bool, bytes: nat)
    requires from != Utf32 && Units(from, s)
    modifies out
    ensures bytes == UnitBytes(to) * |Converted(from, to, s)|
    ensures ok <==> |Converted(from, to, s)| <= out.Length
    ensures ok ==> out[..] == Converted(from, to, s) + old(out[..])[|Converted(from, to, s)|..]
  {
    hide FrontOf, Encode, Progress, HeldBy, Points, Remains, EncodeAll, Capacity, UnitBytes, Sent, Units, Converted;
    var decoder := new Decoder(from);
    ghost var said: seq<nat> := [];
    ok, bytes := true, 0;
    var at := 0;
    Nothing(from, to, s, said);
    NothingSent(from, to, said, out[..]);
    for k := 0 to |s|
      invariant decoder.encoding == from && Drained(decoder, s[..k]) && fresh(decoder)
      invariant said == Points(from, s[..k]) && Sent(from, to, said, ok, at, bytes, out[..], old(out[..]))
    {
      Feed(decoder, s, k);
      var found := true;
      while found
        invariant decoder.encoding == from && decoder.Valid() && |decoder.Pending()| <= Capacity(from)
        invariant Sent(from, to, said, ok, at, bytes, out[..], old(out[..]))
        invariant said + Points(from, decoder.Pending()) == Points(from, s[..k + 1])
        invariant Remains(from, decoder.Pending()) == Remains(from, s[..k + 1])
        invariant !found ==> FrontOf(from, decoder.Pending()).Partial? && decoder.input == []
        decreases |decoder.Pending()|, found
      {
        var point: nat;
        found, point := NextPoint(decoder);
        if found {
          ok, at, bytes := PutPoint(from, to, point, ok, at, bytes, out, s[..k + 1], said, Points(from, decoder.Pending()), old(out[..]));
          said := said + [point];
        }
      }
      Quiet(from, decoder.Pending());
    }
    assert s[..|s|] == s;
    AllSent(from, to, s, said, ok, at, bytes, out[..], old(out[..]));
  }

  // The code points said so far are in the buffer as far as they fit, and all are counted.
  ghost predicate Sent(from: Encoding, to: Encoding, said: seq<nat>, ok: bool, at: nat, bytes: nat, out: seq<nat>, was: seq<nat>) {
    && Encodable(from, said) && bytes == UnitBytes(to) * |EncodeAll(to, said)|
    && Written(ok, at, EncodeAll(to, said), out, was)
  }

  lemma NothingSent(from: Encoding, to: Encoding, said: seq<nat>, out: seq<nat>)
    requires said == []
    ensures Sent(from, to, said, true, 0, 0, out, out)
  {}

  lemma AllSent(from: Encoding, to: Encoding, s: seq<nat>, said: seq<nat>, ok: bool, at: nat, bytes: nat, out: seq<nat>, was: seq<nat>)
    requires from != Utf32 && Units(from, s) && said == Points(from, s) && Sent(from, to, said, ok, at, bytes, out, was)
    ensures bytes == UnitBytes(to) * |Converted(from, to, s)|
    ensures ok <==> |Converted(from, to, s)| <= |out|
    ensures ok ==> out == Converted(from, to, s) + was[|Converted(from, to, s)|..]
  {}

  // Encodes one more code point of the text.
  method PutPoint(from: Encoding, to: Encoding, point: nat, ok: bool, at: nat, bytes: nat, out: array<nat>,
      ghost s: seq<nat>, ghost said: seq<nat>, ghost rest: seq<nat>, ghost was: seq<nat>)
      returns (ok': bool, at': nat, bytes': nat)
    requires from != Utf32 && Units(from, s) && said + ([point] + rest) == Points(from, s)
    requires Sent(from, to, said, ok, at, bytes, out[..], was)
    modifies out
    ensures said + [point] + rest == Points(from, s) && Sent(from, to, said + [point], ok', at', bytes', out[..], was)
  {
    hide FrontOf, Encode, Points, EncodeAll, UnitBytes, Written;
    Said(from, to, s, said, point, rest);
    ok', at', bytes' := ok, at, bytes;
    var units := Encode(to, point);
    if units != [] {
      bytes' := bytes + |units| * UnitBytes(to);
      ok', at' := Put(ok, at, units, out, EncodeAll(to, said), was);
    } else {
      ok' := false;
    }
  }

  // While everything fits, everything is there and the rest of the buffer is untouched.
  ghost predicate Written(ok: bool, at: nat, all: seq<nat>, out: seq<nat>, was: seq<nat>) {
    && |out| == |was| && at <= |out| && (ok <==> |all| <= |out|)
    && (ok ==> at == |all| && out == all + was[at..])
  }

  method Put(ok: bool, at: nat, units: seq<nat>, out: array<nat>, ghost all: seq<nat>, ghost was: seq<nat>)
      returns (ok': bool, at': nat)
    requires 1 <= |units| <= 4 && Written(ok, at, all, out[..], was)
    modifies out
    ensures Written(ok', at', all + units, out[..], was)
  {
    ok', at' := ok, at;
    if out.Length - at >= |units| {
      out[at] := units[0];
      if |units| >= 2 { out[at + 1] := units[1]; }
      if |units| >= 3 { out[at + 2] := units[2]; }
      if |units| >= 4 { out[at + 3] := units[3]; }
      at' := at + |units|;
      assert ok ==> out[..] == (all + units) + was[at'..];
    } else {
      ok' := false;
    }
  }

  // PhConvertUtf8ToUtf16Ex, PhConvertUtf16ToUtf8Ex: the second pass fills exactly what the
  // first one counted, so text is always converted.
  method Convert(from: Encoding, to: Encoding, s: seq<nat>) returns (done: bool, text: array<nat>)
    requires from != Utf32 && Units(from, s)
    ensures done && fresh(text) && text[..] == Converted(from, to, s)
  {
    var ok, bytes := Size(from, to, s);
    PassesAgree(to, |Converted(from, to, s)|);
    text := new nat[bytes / UnitBytes(to)];
    var used: nat;
    done, used := Buffer(from, to, s, text);
    done := ok && done;
  }

  lemma PassesAgree(to: Encoding, n: nat)
    ensures UnitBytes(to) * n / UnitBytes(to) == n
  {}
}
