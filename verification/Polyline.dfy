/** The decoder of src/modules/common/utils/polyline.util.ts, an inverse for it, and what the two do together.
    Coordinates are kept in units of 1e-5 degrees, before the division on line 95. */
module Polyline {
  import opened Wrappers
  import Int32

  /** A UTF-16 code unit of the encoded string. */
  type CodeUnit = c: int | 0 <= c < 0x1_0000

  datatype Point = Point(lat: int, lng: int)

  /** charCodeAt(i) - 63, where None stands for the NaN that charCodeAt gives past the end. */
  function ByteAt(s: seq<CodeUnit>, i: nat): Option<int> {
    if i < |s| then Some((s[i] as int) - 63) else None
  }

  /** byte & 0x1f: NaN becomes 0, and a negative number keeps its low two's complement bits. */
  function LowBits(byte: Option<int>): (g: nat)
    ensures g < 32
  {
    match byte
    case None => 0
    case Some(b) => b % 32
  }

  /** byte >= 0x20, false for NaN. */
  predicate Continues(byte: Option<int>) {
    byte.Some? && byte.value >= 0x20
  }

  /** One do-while loop of the decoder, from index i with the given accumulator:
      the final accumulator and the index after the last unit read. */
  function ReadGroups(s: seq<CodeUnit>, i: nat, acc: int, shift: nat): (r: (int, nat))
    ensures i < r.1 && (i <= |s| ==> r.1 <= |s| + 1) && (i > |s| ==> r.1 == i + 1)
    decreases |s| - i
  {
    var byte := ByteAt(s, i);
    var joined := Int32.Or(acc, Int32.ShiftLeft(LowBits(byte), shift));
    if Continues(byte) then ReadGroups(s, i + 1, joined, shift + 5) else (joined, i + 1)
  }

  /** The signed difference that an accumulator stands for. */
  function Delta(acc: int): int {
    if acc % 2 == 1 then Int32.Not(Int32.HalfSigned(acc)) else Int32.HalfSigned(acc)
  }

  /** The difference written at index i, and the index after it. */
  function DeltaAt(s: seq<CodeUnit>, i: nat): int {
    Delta(ReadGroups(s, i, 0, 0).0)
  }

  function After(s: seq<CodeUnit>, i: nat): (j: nat)
    ensures i < j && (i <= |s| ==> j <= |s| + 1) && (i > |s| ==> j == i + 1)
  {
    ReadGroups(s, i, 0, 0).1
  }

  /** The points the decoder appends when its outer loop stands at index i with these running coordinates. */
  function DecodeFrom(s: seq<CodeUnit>, i: nat, lat: int, lng: int): seq<Point>
    decreases |s| - i
  {
    if i >= |s| then [] else
    var lngAt := After(s, i);
    var point := Point(lat + DeltaAt(s, i), lng + DeltaAt(s, lngAt));
    [point] + DecodeFrom(s, After(s, lngAt), point.lat, point.lng)
  }

  function Decode(s: seq<CodeUnit>): seq<Point> {
    DecodeFrom(s, 0, 0, 0)
  }

  // ---- the imperative decoder ----

  method ReadDelta(encoded: seq<CodeUnit>, start: nat) returns (delta: int, index: nat)
    ensures delta == DeltaAt(encoded, start) && index == After(encoded, start)
  {
    index := start;
    var result := 0;
    var shift := 0;
    var more := true;
    while more
      invariant shift >= 0
      invariant more ==> ReadGroups(encoded, index, result, shift) == ReadGroups(encoded, start, 0, 0)
      invariant !more ==> (result, index) == ReadGroups(encoded, start, 0, 0)
      decreases more, |encoded| - index
    {
      var byte := ByteAt(encoded, index);
      index := index + 1;
      result := Int32.Or(result, Int32.ShiftLeft(LowBits(byte), shift));
      shift := shift + 5;
      more := Continues(byte);
    }
    delta := if result % 2 == 1 then Int32.Not(Int32.HalfSigned(result)) else Int32.HalfSigned(result);
  }

  method DecodePolyline(encoded: seq<CodeUnit>) returns (points: seq<Point>)
    ensures points == Decode(encoded)
  {
    hide ReadGroups, Delta;
    var index := 0;
    var lat, lng := 0, 0;
    points := [];
    while index < |encoded|
      invariant index >= 0
      invariant points + DecodeFrom(encoded, index, lat, lng) == Decode(encoded)
      decreases |encoded| - index
    {
      ghost var before := DecodeFrom(encoded, index, lat, lng);
      ghost var soFar := points;
      var delta;
      delta, index := ReadDelta(encoded, index);
      lat := lat + delta;
      delta, index := ReadDelta(encoded, index);
      lng := lng + delta;
      points := points + [Point(lat, lng)];
      assert soFar + before == points + DecodeFrom(encoded, index, lat, lng);
    }
  }

  // ---- arbitrary input ----

  /** Every point but the last takes two code units, so even malformed text gives few points. */
  lemma {:induction false} FewPoints(s: seq<CodeUnit>, i: nat, lat: int, lng: int)
    requires i <= |s| + 2
    ensures i <= |s| ==> 2 * |DecodeFrom(s, i, lat, lng)| <= |s| - i + 1
    ensures i >= |s| ==> DecodeFrom(s, i, lat, lng) == []
    decreases |s| + 2 - i
  {
    hide ReadGroups, Delta, DeltaAt, After;
    if i < |s| {
      var j := After(s, i);
      FewPoints(s, After(s, j), lat + DeltaAt(s, i), lng + DeltaAt(s, j));
    }
  }

  lemma PointCount(s: seq<CodeUnit>)
    ensures |Decode(s)| <= (|s| + 1) / 2
  {
    FewPoints(s, 0, 0, 0);
  }

  // ---- the encoder ----

  /** Non-negative numbers take the even codes and negative ones the odd codes. */
  function ZigZag(v: int): nat {
    if v < 0 then -2 * v - 1 else 2 * v
  }

  /** Groups of five bits, lowest first, each but the last marked with 0x20. */
  function EncodeGroups(u: nat): (s: seq<CodeUnit>)
    ensures |s| >= 1
  {
    if u < 32 then [u + 63] else [32 + u % 32 + 63] + EncodeGroups(u / 32)
  }

  function EncodeValue(v: int): (s: seq<CodeUnit>)
    ensures |s| >= 1
  {
    EncodeGroups(ZigZag(v))
  }

  function EncodeFrom(points: seq<Point>, last: Point): seq<CodeUnit> {
    if points == [] then [] else
      EncodeValue(points[0].lat - last.lat) + EncodeValue(points[0].lng - last.lng)
      + EncodeFrom(points[1..], points[0])
  }

  const Origin: Point := Point(0, 0)

  function Encode(points: seq<Point>): seq<CodeUnit> {
    EncodeFrom(points, Origin)
  }

  // ---- one value ----

  /** The first code unit of a number holds its last base-32 digit and says whether more digits follow. */
  lemma FirstGroup(s: seq<CodeUnit>, i: nat, u: nat)
    requires i <= |s| && EncodeGroups(u) <= s[i..]
    ensures i < |s| && LowBits(ByteAt(s, i)) == u % 32
    ensures Continues(ByteAt(s, i)) <==> u >= 32
    ensures u >= 32 ==> EncodeGroups(u / 32) <= s[i + 1..] && |EncodeGroups(u)| == 1 + |EncodeGroups(u / 32)|
  {
    var code := EncodeGroups(u);
    assert s[i] == code[0];
    if u >= 32 {
      assert code[1..] == EncodeGroups(u / 32);
      assert s[i + 1..] == s[i..][1..];
    }
  }

  /** Reading an encoded number that sits at index i ends right after it, whatever the accumulator. */
  lemma {:induction false} ReadStopsAfterGroups(s: seq<CodeUnit>, i: nat, u: nat, acc: int, shift: nat)
    requires i <= |s| && EncodeGroups(u) <= s[i..]
    ensures ReadGroups(s, i, acc, shift).1 == i + |EncodeGroups(u)|
    decreases u
  {
    FirstGroup(s, i, u);
    if u >= 32 {
      var joined := Int32.Or(acc, Int32.ShiftLeft(LowBits(ByteAt(s, i)), shift));
      ReadStopsAfterGroups(s, i + 1, u / 32, joined, shift + 5);
    }
  }

  /** Below 2^31 the 32-bit loop computes the number itself: the groups never overlap and never overflow. */
  lemma {:induction false} ReadSumsGroups(s: seq<CodeUnit>, i: nat, u: nat, acc: nat, shift: nat)
    requires i <= |s| && EncodeGroups(u) <= s[i..]
    requires shift <= 30 && shift % 5 == 0 && acc < Int32.Pow2(shift)
    requires acc + u * Int32.Pow2(shift) < Int32.TWO_31
    ensures ReadGroups(s, i, acc, shift).0 == acc + u * Int32.Pow2(shift)
    decreases u
  {
    hide Int32.Or, Int32.ShiftLeft, Int32.Pow2, LowBits, Continues, EncodeGroups, ByteAt;
    var p, group, rest := Int32.Pow2(shift), u % 32, u / 32;
    FirstGroup(s, i, u);
    Int32.SplitDigit(u, p);
    Int32.OrShiftIsAddition(acc, group, shift);
    if u >= 32 {
      Int32.FiveMoreBits(shift);
      Int32.FiveDoublings(shift);
      ReadSumsGroups(s, i + 1, rest, acc + group * p, shift + 5);
    }
  }

  lemma ZigZagInverts(v: int)
    requires ZigZag(v) < Int32.TWO_31
    ensures Delta(ZigZag(v)) == v
  {
  }

  /** Whatever was read, the difference fits 31 bits. */
  lemma DeltaFits(acc: int)
    requires -Int32.TWO_31 <= acc < Int32.TWO_31
    ensures -0x4000_0000 <= Delta(acc) < 0x4000_0000
  {
  }

  lemma {:induction false} ReadIs32Bit(s: seq<CodeUnit>, i: nat, acc: int, shift: nat)
    ensures -Int32.TWO_31 <= ReadGroups(s, i, acc, shift).0 < Int32.TWO_31
    decreases |s| - i
  {
    var byte := ByteAt(s, i);
    if Continues(byte) {
      ReadIs32Bit(s, i + 1, Int32.Or(acc, Int32.ShiftLeft(LowBits(byte), shift)), shift + 5);
    }
  }

  predicate Representable(v: int) {
    -0x4000_0000 <= v < 0x4000_0000
  }

  /** Decoding one encoded value, at any place in a string, gives the value back exactly when it fits 31 bits. */
  lemma ValueRoundTrip(s: seq<CodeUnit>, i: nat, v: int)
    requires i <= |s| && EncodeValue(v) <= s[i..]
    ensures After(s, i) == i + |EncodeValue(v)|
    ensures DeltaAt(s, i) == v <==> Representable(v)
  {
    ReadStopsAfterGroups(s, i, ZigZag(v), 0, 0);
    if Representable(v) {
      ReadSumsGroups(s, i, ZigZag(v), 0, 0);
      ZigZagInverts(v);
    } else {
      ReadIs32Bit(s, i, 0, 0);
      DeltaFits(ReadGroups(s, i, 0, 0).0);
    }
  }

  // ---- whole polylines ----

  predicate DeltasRepresentable(points: seq<Point>, last: Point) {
    points == [] ||
    (Representable(points[0].lat - last.lat) && Representable(points[0].lng - last.lng)
     && DeltasRepresentable(points[1..], points[0]))
  }

  function Shifted(points: seq<Point>, offset: Point): seq<Point> {
    seq(|points|, i requires 0 <= i < |points| => Point(points[i].lat + offset.lat, points[i].lng + offset.lng))
  }

  function LastOf(points: seq<Point>, last: Point): Point {
    if points == [] then last else points[|points| - 1]
  }

  lemma EncodeHead(points: seq<Point>, last: Point)
    requires points != []
    ensures EncodeFrom(points, last) == EncodeFrom([points[0]], last) + EncodeFrom(points[1..], points[0])
  {
    var p := points[0];
    var head := EncodeValue(p.lat - last.lat) + EncodeValue(p.lng - last.lng);
    assert EncodeFrom([p], last) == head + EncodeFrom([p][1..], p) == head;
  }

  /** Reading the code of one point that stands at index i. */
  lemma ReadPoint(s: seq<CodeUnit>, i: nat, p: Point, last: Point)
    requires i <= |s| && EncodeFrom([p], last) <= s[i..]
    requires Representable(p.lat - last.lat) && Representable(p.lng - last.lng)
    ensures DecodeFrom(s, i, last.lat, last.lng)
            == [p] + DecodeFrom(s, i + |EncodeFrom([p], last)|, p.lat, p.lng)
  {
    hide ReadGroups, Delta, ZigZag, EncodeGroups;
    var latCode, lngCode := EncodeValue(p.lat - last.lat), EncodeValue(p.lng - last.lng);
    assert EncodeFrom([p], last) == latCode + lngCode;
    ValueRoundTrip(s, i, p.lat - last.lat);
    var j := i + |latCode|;
    assert s[j..] == s[i..][|latCode|..];
    ValueRoundTrip(s, j, p.lng - last.lng);
  }

  /** A complete encoding decodes to its points, and decoding goes on from the last of them. */
  lemma {:induction false} DecodeThenContinue(s: seq<CodeUnit>, i: nat, points: seq<Point>, last: Point)
    requires i <= |s| && EncodeFrom(points, last) <= s[i..]
    requires DeltasRepresentable(points, last)
    ensures var end := LastOf(points, last);
            DecodeFrom(s, i, last.lat, last.lng)
            == points + DecodeFrom(s, i + |EncodeFrom(points, last)|, end.lat, end.lng)
    decreases |points|
  {
    hide EncodeValue, DeltaAt, After, Representable, DecodeFrom;
    if points != [] {
      var p, rest := points[0], points[1..];
      var head := EncodeFrom([p], last);
      EncodeHead(points, last);
      ReadPoint(s, i, p, last);
      var j := i + |head|;
      assert s[j..] == s[i..][|head|..];
      hide EncodeFrom;
      DecodeThenContinue(s, j, rest, p);
      assert points == [p] + rest;
    }
  }

  /** A difference that does not fit makes the decoder leave the encoded path. */
  lemma {:induction false} DecodeDeviates(s: seq<CodeUnit>, i: nat, points: seq<Point>, last: Point)
    requires i <= |s| && EncodeFrom(points, last) <= s[i..]
    requires !DeltasRepresentable(points, last)
    ensures !(points <= DecodeFrom(s, i, last.lat, last.lng))
    decreases |points|
  {
    hide EncodeValue, DeltaAt, After, DecodeFrom, Representable;
    var p, rest := points[0], points[1..];
    var latCode, lngCode := EncodeValue(p.lat - last.lat), EncodeValue(p.lng - last.lng);
    assert EncodeFrom(points, last) == latCode + (lngCode + EncodeFrom(rest, p));
    var j := i + |latCode|;
    assert s[j..] == s[i..][|latCode|..];
    var k := j + |lngCode|;
    assert s[k..] == s[j..][|lngCode|..];
    hide EncodeFrom;
    FirstPointRead(s, i, p, last);
    if Representable(p.lat - last.lat) && Representable(p.lng - last.lng) {
      DecodeDeviates(s, k, rest, p);
      assert DecodeFrom(s, i, last.lat, last.lng)[1..] == DecodeFrom(s, k, p.lat, p.lng);
    }
  }

  /** The first point read is the one encoded exactly when both its differences fit. */
  lemma FirstPointRead(s: seq<CodeUnit>, i: nat, p: Point, last: Point)
    requires i <= |s| && EncodeValue(p.lat - last.lat) <= s[i..]
    requires EncodeValue(p.lng - last.lng) <= s[i + |EncodeValue(p.lat - last.lat)|..]
    ensures var points := DecodeFrom(s, i, last.lat, last.lng);
            var k := i + |EncodeValue(p.lat - last.lat)| + |EncodeValue(p.lng - last.lng)|;
            points != []
            && (points[0] == p <==> Representable(p.lat - last.lat) && Representable(p.lng - last.lng))
            && (points[0] == p ==> points[1..] == DecodeFrom(s, k, p.lat, p.lng))
  {
    hide EncodeValue, DeltaAt, After, Representable;
    CodeIsLonger(p.lat - last.lat);
    ValueRoundTrip(s, i, p.lat - last.lat);
    ValueRoundTrip(s, i + |EncodeValue(p.lat - last.lat)|, p.lng - last.lng);
  }

  lemma CodeIsLonger(v: int)
    ensures EncodeValue(v) != []
  {
  }

  /** Decoding undoes encoding exactly when every difference fits 31 bits. */
  lemma RoundTrip(points: seq<Point>)
    ensures Decode(Encode(points)) == points <==> DeltasRepresentable(points, Origin)
  {
    var s := Encode(points);
    assert s[0..] == s;
    if DeltasRepresentable(points, Origin) {
      DecodeThenContinue(s, 0, points, Origin);
    } else {
      DecodeDeviates(s, 0, points, Origin);
    }
  }

  /** Text before the reading position does not matter. */
  lemma {:induction false} ReadGroupsSuffix(pre: seq<CodeUnit>, t: seq<CodeUnit>, i: nat, acc: int, shift: nat)
    ensures ReadGroups(pre + t, |pre| + i, acc, shift)
            == (ReadGroups(t, i, acc, shift).0, |pre| + ReadGroups(t, i, acc, shift).1)
    decreases |t| - i
  {
    hide Int32.Or, Int32.ShiftLeft, LowBits;
    var byte := ByteAt(t, i);
    assert ByteAt(pre + t, |pre| + i) == byte;
    hide ByteAt;
    if Continues(byte) {
      ReadGroupsSuffix(pre, t, i + 1, Int32.Or(acc, Int32.ShiftLeft(LowBits(byte), shift)), shift + 5);
    }
  }

  lemma ReadSuffix(pre: seq<CodeUnit>, t: seq<CodeUnit>, i: nat)
    ensures DeltaAt(pre + t, |pre| + i) == DeltaAt(t, i) && After(pre + t, |pre| + i) == |pre| + After(t, i)
  {
    hide ReadGroups, Delta;
    ReadGroupsSuffix(pre, t, i, 0, 0);
  }

  lemma {:induction false} DecodeSuffix(pre: seq<CodeUnit>, t: seq<CodeUnit>, i: nat, at: Point, offset: Point)
    ensures DecodeFrom(pre + t, |pre| + i, at.lat + offset.lat, at.lng + offset.lng)
            == Shifted(DecodeFrom(t, i, at.lat, at.lng), offset)
    decreases |t| - i
  {
    hide After, DeltaAt;
    if i < |t| {
      var j := After(t, i);
      ReadSuffix(pre, t, i);
      ReadSuffix(pre, t, j);
      var point := Point(at.lat + DeltaAt(t, i), at.lng + DeltaAt(t, j));
      DecodeSuffix(pre, t, After(t, j), point, offset);
    }
  }

  /** The example of Google's description of the format: 38.5, -120.2, then 40.7, -120.95, then 43.252, -126.453. */
  const PUBLISHED_POINTS := [Point(3850000, -12020000), Point(4070000, -12095000), Point(4325200, -12645300)]

  /** Its text, "_p~iF~ps|U_ulLnnqC_mqNvxq`@", in code units. */
  const PUBLISHED_TEXT: seq<CodeUnit> :=
    [95, 112, 126, 105, 70] + [126, 112, 115, 124, 85]
    + ([95, 117, 108, 76] + [110, 110, 113, 67] + ([95, 109, 113, 78] + [118, 120, 113, 96, 64]))

  lemma Group(u: nat, rest: seq<CodeUnit>)
    requires u >= 32 && EncodeGroups(u / 32) == rest
    ensures EncodeGroups(u) == [32 + u % 32 + 63] + rest
  {
  }

  lemma SmallGroups()
    ensures EncodeGroups(1) == [64]
    ensures EncodeGroups(4) == [67]
    ensures EncodeGroups(7) == [70]
    ensures EncodeGroups(13) == [76]
    ensures EncodeGroups(15) == [78]
    ensures EncodeGroups(22) == [85]
  {
  }

  lemma PublishedFirst()
    ensures EncodeValue(3850000) == [95, 112, 126, 105, 70]
    ensures EncodeValue(-12020000) == [126, 112, 115, 124, 85]
  {
    hide EncodeGroups;
    SmallGroups();
    Group(234, [70]);
    Group(7519, [105, 70]);
    Group(240625, [126, 105, 70]);
    Group(7700000, [112, 126, 105, 70]);
    Group(733, [85]);
    Group(23476, [124, 85]);
    Group(751249, [115, 124, 85]);
    Group(24039999, [112, 115, 124, 85]);
  }

  lemma PublishedSecond()
    ensures EncodeValue(220000) == [95, 117, 108, 76]
    ensures EncodeValue(-75000) == [110, 110, 113, 67]
  {
    hide EncodeGroups;
    SmallGroups();
    Group(429, [76]);
    Group(13750, [108, 76]);
    Group(440000, [117, 108, 76]);
    Group(146, [67]);
    Group(4687, [113, 67]);
    Group(149999, [110, 113, 67]);
  }

  lemma PublishedThird()
    ensures EncodeValue(255200) == [95, 109, 113, 78]
    ensures EncodeValue(-550300) == [118, 120, 113, 96, 64]
  {
    hide EncodeGroups;
    SmallGroups();
    Group(498, [78]);
    Group(15950, [113, 78]);
    Group(510400, [109, 113, 78]);
    Group(33, [64]);
    Group(1074, [96, 64]);
    Group(34393, [113, 96, 64]);
    Group(1100599, [120, 113, 96, 64]);
  }

  lemma PublishedExample()
    ensures Decode(PUBLISHED_TEXT) == PUBLISHED_POINTS
  {
    hide Encode, Decode, DeltasRepresentable;
    PublishedIsEncoded();
    PublishedFits();
    RoundTrip(PUBLISHED_POINTS);
  }

  lemma PublishedIsEncoded()
    ensures Encode(PUBLISHED_POINTS) == PUBLISHED_TEXT
  {
    PublishedFirst();
    PublishedSecond();
    PublishedThird();
    hide EncodeValue;
    ThreeEncoded(PUBLISHED_POINTS);
    hide EncodeFrom;
  }

  lemma ThreeEncoded(points: seq<Point>)
    requires |points| == 3
    ensures var p, q, r := points[0], points[1], points[2];
            Encode(points) == EncodeValue(p.lat) + EncodeValue(p.lng)
                              + (EncodeValue(q.lat - p.lat) + EncodeValue(q.lng - p.lng)
                                 + (EncodeValue(r.lat - q.lat) + EncodeValue(r.lng - q.lng)))
  {
    hide EncodeValue;
    var p, q, r := points[0], points[1], points[2];
    assert points[1..][1..][1..] == [];
    var last := EncodeValue(r.lat - q.lat) + EncodeValue(r.lng - q.lng);
    assert EncodeFrom(points[2..], q) == last by { assert points[2..][1..] == [] && last + [] == last; }
    assert points[1..][1..] == points[2..];
    assert EncodeFrom(points[1..], p) == EncodeValue(q.lat - p.lat) + EncodeValue(q.lng - p.lng) + last;
    assert EncodeFrom(points, Origin) == EncodeValue(p.lat) + EncodeValue(p.lng) + EncodeFrom(points[1..], p);
  }

  lemma PublishedFits()
    ensures DeltasRepresentable(PUBLISHED_POINTS, Origin)
  {
    var p, q, r := PUBLISHED_POINTS[0], PUBLISHED_POINTS[1], PUBLISHED_POINTS[2];
    assert PUBLISHED_POINTS[1..] == [q, r] && [q, r][1..] == [r] && [r][1..] == [];
    assert DeltasRepresentable([r], q) && DeltasRepresentable([q, r], p);
  }

  /** A complete encoding followed by any text: its points, then the text's points moved to the last of them. */
  lemma DecodeAppended(points: seq<Point>, t: seq<CodeUnit>)
    requires DeltasRepresentable(points, Origin)
    ensures Decode(Encode(points) + t) == points + Shifted(Decode(t), LastOf(points, Origin))
  {
    hide EncodeFrom, DecodeFrom, Shifted;
    var s := Encode(points) + t;
    assert s[0..] == s;
    DecodeThenContinue(s, 0, points, Origin);
    DecodeSuffix(Encode(points), t, 0, Origin, LastOf(points, Origin));
  }

  // ---- coordinates on Earth ----

  /** Within 90 degrees of latitude and 180 of longitude. */
  predicate OnEarth(p: Point) {
    -9_000_000 <= p.lat <= 9_000_000 && -18_000_000 <= p.lng <= 18_000_000
  }

  lemma {:induction false} EarthDeltas(points: seq<Point>, last: Point)
    requires OnEarth(last) && forall p :: p in points ==> OnEarth(p)
    ensures DeltasRepresentable(points, last)
    decreases |points|
  {
    if points != [] {
      EarthDeltas(points[1..], points[0]);
    }
  }

  lemma EarthRoundTrip(points: seq<Point>)
    requires forall p :: p in points ==> OnEarth(p)
    ensures Decode(Encode(points)) == points
  {
    EarthDeltas(points, Origin);
    RoundTrip(points);
  }

  /** The number of groups of a code is the number of base-32 digits. */
  lemma {:induction false} GroupCount(u: nat, n: nat)
    requires n >= 1
    ensures |EncodeGroups(u)| <= n <==> u < Int32.Pow2(5 * n)
    decreases u
  {
    assert Int32.Pow2(5 * n) == 32 * Int32.Pow2(5 * (n - 1)) by {
      Int32.FiveDoublings(5 * (n - 1));
    }
    if u >= 32 && n > 1 {
      GroupCount(u / 32, n - 1);
    }
  }

  /** Differences between places on Earth take at most six characters, so the shifts are 0, 5, ..., 25. */
  lemma EarthValuesAreShort(p: Point, q: Point)
    requires OnEarth(p) && OnEarth(q)
    ensures |EncodeValue(p.lat - q.lat)| <= 6 && |EncodeValue(p.lng - q.lng)| <= 6
  {
    hide Int32.Pow2, EncodeGroups;
    Int32.TwoTo26();
    Int32.FiveDoublings(25);
    GroupCount(ZigZag(p.lat - q.lat), 6);
    GroupCount(ZigZag(p.lng - q.lng), 6);
  }
}
