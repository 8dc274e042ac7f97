/** Which byte strings are texts: exactly the encodings of sequences of scalar values (section 3 of
    RFC 3629). */
module Utf8 {
  import opened Cbor

  /** A code point that is no surrogate. */
  predicate Scalar(point: nat) {
    point < 0xD800 || 0xE000 <= point < 0x11_0000
  }

  function Tail(bits: nat): Byte {
    0x80 + bits % 0x40
  }

  /** The bytes of one scalar value: one, two, three or four. */
  function EncodedPoint(point: nat): seq<Byte>
    requires Scalar(point)
  {
    if point < 0x80 then [point]
    else if point < 0x800 then [0xC0 + point / 0x40, Tail(point)]
    else if point < 0x1_0000 then [0xE0 + point / 0x1000, Tail(point / 0x40), Tail(point)]
    else [0xF0 + point / 0x4_0000, Tail(point / 0x1000), Tail(point / 0x40), Tail(point)]
  }

  ghost predicate Scalars(points: seq<nat>) {
    forall point :: point in points ==> Scalar(point)
  }

  function EncodedText(points: seq<nat>): seq<Byte>
    requires Scalars(points)
  {
    if points == [] then [] else
      assert points[0] in points;
      EncodedPoint(points[0]) + EncodedText(points[1..])
  }

  lemma PointIsText(point: nat, rest: seq<Byte>)
    requires Scalar(point)
    ensures ValidUtf8(EncodedPoint(point) + rest) <==> ValidUtf8(rest)
  {
    var b := EncodedPoint(point) + rest;
    var n := |EncodedPoint(point)|;
    assert b[n..] == rest;
    if point < 0x80 {
      assert b[1..] == rest;
    } else if point < 0x800 {
      assert b[0] == 0xC0 + point / 0x40 && b[1] == Tail(point) && b[2..] == rest;
    } else if point < 0x1_0000 {
      assert b[0] == 0xE0 + point / 0x1000 && b[1] == Tail(point / 0x40) && b[2] == Tail(point) && b[3..] == rest;
    } else {
      assert b[0] == 0xF0 + point / 0x4_0000 && b[1] == Tail(point / 0x1000) && b[4..] == rest;
      assert b[2] == Tail(point / 0x40) && b[3] == Tail(point);
    }
  }

  lemma {:induction false} EncodedIsText(points: seq<nat>)
    requires Scalars(points)
    ensures ValidUtf8(EncodedText(points))
  {
    if points != [] {
      assert points[0] in points;
      hide ValidUtf8, EncodedPoint, Scalar;
      EncodedIsText(points[1..]);
      PointIsText(points[0], EncodedText(points[1..]));
    } else {
      assert EncodedText(points) == [];
    }
  }

  lemma TwoBytes(x: nat, y: nat)
    requires 0xC2 <= x < 0xE0 && 0x80 <= y < 0xC0
    ensures var point := (x - 0xC0) * 0x40 + (y - 0x80);
      0x80 <= point < 0x800 && 0xC0 + point / 0x40 == x && 0x80 + point % 0x40 == y
  {
  }

  lemma ThreeBytes(x: nat, y: nat, z: nat)
    requires 0xE0 <= x < 0xF0 && 0x80 <= y < 0xC0 && 0x80 <= z < 0xC0
    requires (x == 0xE0 ==> y >= 0xA0) && (x == 0xED ==> y < 0xA0)
    ensures var point := (x - 0xE0) * 0x1000 + (y - 0x80) * 0x40 + (z - 0x80);
      && 0x800 <= point < 0x1_0000 && Scalar(point) && 0xE0 + point / 0x1000 == x
      && 0x80 + (point / 0x40) % 0x40 == y && 0x80 + point % 0x40 == z
  {
    var point := (x - 0xE0) * 0x1000 + (y - 0x80) * 0x40 + (z - 0x80);
    assert point / 0x40 == (x - 0xE0) * 0x40 + (y - 0x80);
  }

  lemma FourBytes(x: nat, y: nat, z: nat, w: nat)
    requires 0xF0 <= x < 0xF5 && 0x80 <= y < 0xC0 && 0x80 <= z < 0xC0 && 0x80 <= w < 0xC0
    requires (x == 0xF0 ==> y >= 0x90) && (x == 0xF4 ==> y < 0x90)
    ensures var point := (x - 0xF0) * 0x4_0000 + (y - 0x80) * 0x1000 + (z - 0x80) * 0x40 + (w - 0x80);
      && 0x1_0000 <= point < 0x11_0000 && 0xF0 + point / 0x4_0000 == x && 0x80 + (point / 0x1000) % 0x40 == y
      && 0x80 + (point / 0x40) % 0x40 == z && 0x80 + point % 0x40 == w
  {
    var point := (x - 0xF0) * 0x4_0000 + (y - 0x80) * 0x1000 + (z - 0x80) * 0x40 + (w - 0x80);
    assert point / 0x40 == (x - 0xF0) * 0x1000 + (y - 0x80) * 0x40 + (z - 0x80);
    assert point / 0x1000 == (x - 0xF0) * 0x40 + (y - 0x80);
  }

  /** The first scalar value of a text, and how many bytes it takes. */
  lemma FirstPoint(b: seq<Byte>) returns (point: nat, n: nat)
    requires b != [] && ValidUtf8(b)
    ensures 0 < n <= |b| && Scalar(point) && EncodedPoint(point) == b[..n] && ValidUtf8(b[n..])
  {
    var first: int := b[0];
    if first < 0x80 {
      point, n := first, 1;
    } else {
      var second: int := b[1];
      if first < 0xE0 {
        TwoBytes(first, second);
        point, n := (first - 0xC0) * 0x40 + (second - 0x80), 2;
      } else {
        var third: int := b[2];
        if first < 0xF0 {
          ThreeBytes(first, second, third);
          point, n := (first - 0xE0) * 0x1000 + (second - 0x80) * 0x40 + (third - 0x80), 3;
        } else {
          var fourth: int := b[3];
          FourBytes(first, second, third, fourth);
          point := (first - 0xF0) * 0x4_0000 + (second - 0x80) * 0x1000 + (third - 0x80) * 0x40 + (fourth - 0x80);
          n := 4;
        }
      }
    }
  }

  lemma {:induction false} PointsOf(b: seq<Byte>) returns (points: seq<nat>)
    requires ValidUtf8(b)
    ensures Scalars(points) && EncodedText(points) == b
    decreases |b|
  {
    if b == [] {
      points := [];
    } else {
      var point, n := FirstPoint(b);
      hide ValidUtf8, EncodedPoint, Scalar;
      var rest := PointsOf(b[n..]);
      points := [point] + rest;
      assert points[1..] == rest && b == b[..n] + b[n..];
    }
  }

  /** A byte string is a text exactly when it is the encoding of some scalar values. */
  lemma TextsExactly(b: seq<Byte>)
    ensures ValidUtf8(b) <==> exists points :: Scalars(points) && EncodedText(points) == b
  {
    hide ValidUtf8, Scalars, EncodedText;
    if ValidUtf8(b) {
      var points := PointsOf(b);
    }
    if points :| Scalars(points) && EncodedText(points) == b {
      EncodedIsText(points);
    }
  }
}
