/** Values, their CBOR bytes (section 3 of RFC 8949, definite lengths) and the reader of those
    bytes. */
module Cbor {
  import opened Options

  type Byte = x: int | 0 <= x < 256

  const TWO64: nat := 0x1_0000_0000_0000_0000

  /** A text is kept as its UTF-8 bytes. */
  datatype Value =
    | Int(number: int)
    | Bytes(bytes: seq<Byte>)
    | Text(utf8: seq<Byte>)
    | Array(items: seq<Value>)
    | Map(entries: seq<Entry>)
    | Bool(truth: bool)
    | Null
    | Float(bits: nat)

  datatype Entry = Entry(key: Value, item: Value)

  predicate Continues(b: Byte) {
    0x80 <= b < 0xC0
  }

  /** Well-formed UTF-8, as table 3-7 of the Unicode standard lists it. */
  predicate ValidUtf8(b: seq<Byte>)
    decreases |b|
  {
    if b == [] then true
    else if b[0] < 0x80 then ValidUtf8(b[1..])
    else if 0xC2 <= b[0] < 0xE0 then |b| >= 2 && Continues(b[1]) && ValidUtf8(b[2..])
    else if 0xE0 <= b[0] < 0xF0 then
      && |b| >= 3 && Continues(b[1]) && Continues(b[2])
      && (b[0] == 0xE0 ==> b[1] >= 0xA0) && (b[0] == 0xED ==> b[1] < 0xA0)
      && ValidUtf8(b[3..])
    else if 0xF0 <= b[0] < 0xF5 then
      && |b| >= 4 && Continues(b[1]) && Continues(b[2]) && Continues(b[3])
      && (b[0] == 0xF0 ==> b[1] >= 0x90) && (b[0] == 0xF4 ==> b[1] < 0x90)
      && ValidUtf8(b[4..])
    else false
  }

  /** What a value in memory satisfies: integers of CBOR's range, valid texts, lengths of a
      machine word. */
  predicate Fits(v: Value) {
    match v
    case Int(n) => -(TWO64 as int) <= n < TWO64
    case Bytes(b) => |b| < TWO64
    case Text(b) => |b| < TWO64 && ValidUtf8(b)
    case Array(items) => |items| < TWO64 && forall item :: item in items ==> Fits(item)
    case Map(entries) => |entries| < TWO64 && forall e :: e in entries ==> Fits(e.key) && Fits(e.item)
    case _ => true
  }

  predicate FloatFree(v: Value) {
    match v
    case Float(_) => false
    case Array(items) => forall item :: item in items ==> FloatFree(item)
    case Map(entries) => forall e :: e in entries ==> FloatFree(e.key) && FloatFree(e.item)
    case _ => true
  }

  function Larger(a: nat, b: nat): nat {
    if a > b then a else b
  }

  /** How many arrays and maps are nested. */
  function Depth(v: Value): nat {
    match v
    case Array(items) => 1 + DepthOfAll(items)
    case Map(entries) => 1 + DepthOfEntries(entries)
    case _ => 0
  }

  function DepthOfAll(items: seq<Value>): nat {
    if items == [] then 0 else Larger(Depth(items[0]), DepthOfAll(items[1..]))
  }

  function DepthOfEntries(entries: seq<Entry>): nat {
    if entries == [] then 0
    else Larger(DepthOfEntry(entries[0]), DepthOfEntries(entries[1..]))
  }

  function DepthOfEntry(e: Entry): nat {
    Larger(Depth(e.key), Depth(e.item))
  }

  // ----- writing -----

  function BigEndian(n: nat, width: nat): (r: seq<Byte>)
    ensures |r| == width
  {
    if width == 0 then [] else BigEndian(n / 256, width - 1) + [n % 256]
  }

  /** The shortest head for the argument. */
  function Head(major: nat, n: nat): seq<Byte>
    requires major < 8
  {
    if n < 24 then [major * 32 + n]
    else if n < 0x100 then [major * 32 + 24] + BigEndian(n, 1)
    else if n < 0x1_0000 then [major * 32 + 25] + BigEndian(n, 2)
    else if n < 0x1_0000_0000 then [major * 32 + 26] + BigEndian(n, 4)
    else [major * 32 + 27] + BigEndian(n, 8)
  }

  /** `write`. No float reaches it: the canonical form has none. */
  function Encode(v: Value): seq<Byte> {
    match v
    case Int(n) => if n >= 0 then Head(0, n) else Head(1, -1 - n)
    case Bytes(b) => Head(2, |b|) + b
    case Text(b) => Head(3, |b|) + b
    case Array(items) => Head(4, |items|) + EncodeAll(items)
    case Map(entries) => Head(5, |entries|) + EncodeEntries(entries)
    case Bool(truth) => [if truth then 0xF5 else 0xF4]
    case Null => [0xF6]
    case Float(bits) => [0xFB] + BigEndian(bits, 8)
  }

  function EncodeAll(items: seq<Value>): seq<Byte> {
    if items == [] then [] else Encode(items[0]) + EncodeAll(items[1..])
  }

  function EncodeEntries(entries: seq<Entry>): seq<Byte> {
    if entries == [] then [] else EncodeEntry(entries[0]) + EncodeEntries(entries[1..])
  }

  function EncodeEntry(e: Entry): seq<Byte> {
    Encode(e.key) + Encode(e.item)
  }

  // ----- reading -----

  datatype Argument = Argument(major: nat, n: nat, rest: seq<Byte>)

  datatype Read<T> = Read(value: T, rest: seq<Byte>)

  function FromBigEndian(b: seq<Byte>): nat {
    if b == [] then 0 else FromBigEndian(b[..|b| - 1]) * 256 + b[|b| - 1]
  }

  function WidthOf(info: nat): Option<nat> {
    if info == 24 then Some(1)
    else if info == 25 then Some(2)
    else if info == 26 then Some(4)
    else if info == 27 then Some(8)
    else None
  }

  /** A head of any width, shortest or not. */
  function ReadHead(b: seq<Byte>): (r: Option<Argument>)
    ensures r.Some? ==> r.value.major < 8 && |r.value.rest| < |b|
  {
    if b == [] then None
    else
      var major, info := b[0] / 32, b[0] % 32;
      if info < 24 then Some(Argument(major, info, b[1..]))
      else match WidthOf(info)
        case None => None
        case Some(width) =>
          if |b| < 1 + width then None
          else Some(Argument(major, FromBigEndian(b[1..1 + width]), b[1 + width..]))
  }

  /** `from_slice`, for values: `limit` is how deep the reader lets arrays and maps nest. What
      follows the value is not looked at. */
  function Decode(limit: nat, b: seq<Byte>): Option<Read<Value>>
    decreases limit, 1, 0
  {
    if b != [] && 0xF4 <= b[0] <= 0xF6 then
      Some(Read(if b[0] == 0xF4 then Bool(false) else if b[0] == 0xF5 then Bool(true) else Null, b[1..]))
    else match ReadHead(b)
      case None => None
      case Some(head) => DecodeBody(limit, head)
  }

  function DecodeBody(limit: nat, head: Argument): Option<Read<Value>>
    decreases limit, 0, 0
  {
    var major, n, rest := head.major, head.n, head.rest;
    if major == 0 then Some(Read(Int(n), rest))
    else if major == 1 then Some(Read(Int(-1 - n), rest))
    else if major == 2 then if n <= |rest| then Some(Read(Bytes(rest[..n]), rest[n..])) else None
    else if major == 3 then
      if n <= |rest| && ValidUtf8(rest[..n]) then Some(Read(Text(rest[..n]), rest[n..])) else None
    else if limit == 0 then None
    else if major == 4 then
      match DecodeAll(limit - 1, n, rest)
      case None => None
      case Some(read) => Some(Read(Array(read.value), read.rest))
    else if major == 5 then
      match DecodeEntries(limit - 1, n, rest)
      case None => None
      case Some(read) => Some(Read(Map(read.value), read.rest))
    else None
  }

  function DecodeAll(limit: nat, count: nat, b: seq<Byte>): Option<Read<seq<Value>>>
    decreases limit, 3, count
  {
    if count == 0 then Some(Read([], b))
    else match Decode(limit, b)
      case None => None
      case Some(first) =>
        match DecodeAll(limit, count - 1, first.rest)
        case None => None
        case Some(others) => Some(Read([first.value] + others.value, others.rest))
  }

  function DecodeEntry(limit: nat, b: seq<Byte>): Option<Read<Entry>>
    decreases limit, 2, 0
  {
    match Decode(limit, b)
    case None => None
    case Some(key) =>
      match Decode(limit, key.rest)
      case None => None
      case Some(item) => Some(Read(Entry(key.value, item.value), item.rest))
  }

  function DecodeEntries(limit: nat, count: nat, b: seq<Byte>): Option<Read<seq<Entry>>>
    decreases limit, 3, count
  {
    if count == 0 then Some(Read([], b))
    else match DecodeEntry(limit, b)
      case None => None
      case Some(first) =>
        match DecodeEntries(limit, count - 1, first.rest)
        case None => None
        case Some(others) => Some(Read([first.value] + others.value, others.rest))
  }

  // ----- heads -----

  function Power(width: nat): nat {
    if width == 0 then 1 else 256 * Power(width - 1)
  }

  lemma {:induction false} BigEndianBack(n: nat, width: nat)
    requires n < Power(width)
    ensures FromBigEndian(BigEndian(n, width)) == n
  {
    if width > 0 {
      BigEndianBack(n / 256, width - 1);
      assert BigEndian(n, width)[..width - 1] == BigEndian(n / 256, width - 1);
    }
  }

  lemma {:induction false} FromBigEndianBelow(b: seq<Byte>)
    ensures FromBigEndian(b) < Power(|b|)
  {
    if b != [] {
      FromBigEndianBelow(b[..|b| - 1]);
    }
  }

  lemma Powers()
    ensures Power(1) == 0x100 && Power(2) == 0x1_0000 && Power(4) == 0x1_0000_0000 && Power(8) == TWO64
  {
    assert Power(4) == 0x1_0000_0000;
    assert Power(5) == 256 * Power(4) && Power(6) == 256 * Power(5) && Power(7) == 256 * Power(6);
  }

  lemma ReadWide(major: nat, info: nat, width: nat, n: nat, rest: seq<Byte>)
    requires major < 8 && WidthOf(info) == Some(width) && n < Power(width)
    ensures ReadHead([major * 32 + info] + BigEndian(n, width) + rest) == Some(Argument(major, n, rest))
  {
    var b := [major * 32 + info] + BigEndian(n, width) + rest;
    assert b[0] / 32 == major && b[0] % 32 == info;
    assert b[1..1 + width] == BigEndian(n, width) && b[1 + width..] == rest;
    BigEndianBack(n, width);
  }

  /** A head is read back, whatever follows it. */
  lemma ReadHeadBack(major: nat, n: nat, rest: seq<Byte>)
    requires major < 8 && n < TWO64
    ensures ReadHead(Head(major, n) + rest) == Some(Argument(major, n, rest))
  {
    Powers();
    hide BigEndian, FromBigEndian, Power;
    if n < 24 {
      assert (Head(major, n) + rest)[1..] == rest;
    } else if n < 0x100 {
      ReadWide(major, 24, 1, n, rest);
    } else if n < 0x1_0000 {
      ReadWide(major, 25, 2, n, rest);
    } else if n < 0x1_0000_0000 {
      ReadWide(major, 26, 4, n, rest);
    } else {
      ReadWide(major, 27, 8, n, rest);
    }
  }

  /** No head that reads the same is shorter. */
  lemma HeadIsShortest(b: seq<Byte>)
    requires ReadHead(b).Some?
    ensures var head := ReadHead(b).value;
      head.n < TWO64 && |Head(head.major, head.n)| <= |b| - |head.rest|
  {
    Powers();
    var info := b[0] % 32;
    if info >= 24 {
      var width := WidthOf(info).value;
      FromBigEndianBelow(b[1..1 + width]);
    }
  }

  lemma DecodeHead(limit: nat, major: nat, n: nat, rest: seq<Byte>)
    requires major < 6 && n < TWO64
    ensures Decode(limit, Head(major, n) + rest) == DecodeBody(limit, Argument(major, n, rest))
  {
    ReadHeadBack(major, n, rest);
    hide ReadHead, DecodeBody, BigEndian;
    assert (Head(major, n) + rest)[0] < 0xE0;
  }

  // ----- the round trip -----

  /** Reading back what was written gives the value and leaves what follows, for values the
      reader lets nest; deeper ones it refuses. */
  lemma {:induction false} DecodeEncode(limit: nat, v: Value, rest: seq<Byte>)
    requires Fits(v) && FloatFree(v)
    ensures Decode(limit, Encode(v) + rest) == if Depth(v) <= limit then Some(Read(v, rest)) else None
    decreases v, 0
  {
    hide Decode, Head, ValidUtf8;
    match v {
      case Int(n) => DecodeHead(limit, if n >= 0 then 0 else 1, if n >= 0 then n else -1 - n, rest);
      case Bytes(b) => DecodeString(limit, 2, b, rest);
      case Text(b) => DecodeString(limit, 3, b, rest);
      case Array(items) =>
        assert Encode(v) + rest == Head(4, |items|) + (EncodeAll(items) + rest);
        DecodeHead(limit, 4, |items|, EncodeAll(items) + rest);
        if limit > 0 {
          DecodeEncodeAll(limit - 1, items, rest);
        }
      case Map(entries) =>
        assert Encode(v) + rest == Head(5, |entries|) + (EncodeEntries(entries) + rest);
        DecodeHead(limit, 5, |entries|, EncodeEntries(entries) + rest);
        if limit > 0 {
          DecodeEncodeEntries(limit - 1, entries, rest);
        }
      case _ => DecodeSimple(limit, v, rest);
    }
  }

  lemma DecodeSimple(limit: nat, v: Value, rest: seq<Byte>)
    requires v.Bool? || v.Null?
    ensures Decode(limit, Encode(v) + rest) == Some(Read(v, rest))
  {
    assert (Encode(v) + rest)[1..] == rest;
  }

  lemma DecodeString(limit: nat, major: nat, b: seq<Byte>, rest: seq<Byte>)
    requires (major == 2 || (major == 3 && ValidUtf8(b))) && |b| < TWO64
    ensures Decode(limit, Head(major, |b|) + b + rest) == Some(Read(if major == 2 then Bytes(b) else Text(b), rest))
  {
    hide ValidUtf8, Head, Decode;
    assert Head(major, |b|) + b + rest == Head(major, |b|) + (b + rest);
    DecodeHead(limit, major, |b|, b + rest);
    assert (b + rest)[..|b|] == b && (b + rest)[|b|..] == rest;
  }

  lemma {:induction false} DecodeEncodeAll(limit: nat, items: seq<Value>, rest: seq<Byte>)
    requires forall item :: item in items ==> Fits(item) && FloatFree(item)
    ensures DecodeAll(limit, |items|, EncodeAll(items) + rest)
      == if DepthOfAll(items) <= limit then Some(Read(items, rest)) else None
    decreases items, 1
  {
    if items != [] {
      hide Decode, Encode, Fits, FloatFree, Depth;
      assert EncodeAll(items) + rest == Encode(items[0]) + (EncodeAll(items[1..]) + rest);
      assert items[0] in items && forall item :: item in items[1..] ==> item in items;
      DecodeEncode(limit, items[0], EncodeAll(items[1..]) + rest);
      DecodeEncodeAll(limit, items[1..], rest);
      assert [items[0]] + items[1..] == items;
    } else {
      assert EncodeAll(items) + rest == rest;
    }
  }

  lemma {:induction false} DecodeEncodeEntry(limit: nat, e: Entry, rest: seq<Byte>)
    requires Fits(e.key) && FloatFree(e.key) && Fits(e.item) && FloatFree(e.item)
    ensures DecodeEntry(limit, EncodeEntry(e) + rest) == if DepthOfEntry(e) <= limit then Some(Read(e, rest)) else None
    decreases e, 0
  {
    hide Decode, Encode, Fits, FloatFree, Depth;
    assert EncodeEntry(e) + rest == Encode(e.key) + (Encode(e.item) + rest);
    DecodeEncode(limit, e.key, Encode(e.item) + rest);
    DecodeEncode(limit, e.item, rest);
  }

  lemma {:induction false} DecodeEncodeEntries(limit: nat, entries: seq<Entry>, rest: seq<Byte>)
    requires forall e :: e in entries ==> Fits(e.key) && FloatFree(e.key) && Fits(e.item) && FloatFree(e.item)
    ensures DecodeEntries(limit, |entries|, EncodeEntries(entries) + rest)
      == if DepthOfEntries(entries) <= limit then Some(Read(entries, rest)) else None
    decreases entries, 1
  {
    if entries != [] {
      hide DecodeEntry, EncodeEntry, Fits, FloatFree, DepthOfEntry;
      assert EncodeEntries(entries) + rest == EncodeEntry(entries[0]) + (EncodeEntries(entries[1..]) + rest);
      assert entries[0] in entries && forall e :: e in entries[1..] ==> e in entries;
      DecodeEncodeEntry(limit, entries[0], EncodeEntries(entries[1..]) + rest);
      DecodeEncodeEntries(limit, entries[1..], rest);
      assert [entries[0]] + entries[1..] == entries;
    } else {
      assert EncodeEntries(entries) + rest == rest;
    }
  }

  /** Different values have different bytes, and neither's bytes begin with the other's. */
  lemma EncodeInjective(a: Value, b: Value, restA: seq<Byte>, restB: seq<Byte>)
    requires Fits(a) && FloatFree(a) && Fits(b) && FloatFree(b)
    requires Encode(a) + restA == Encode(b) + restB
    ensures a == b && restA == restB
  {
    var limit := Larger(Depth(a), Depth(b));
    hide Encode, Decode;
    DecodeEncode(limit, a, restA);
    DecodeEncode(limit, b, restB);
  }
}
