/** How the text of a key is read, and which texts are read alike. */
module Keys {
  import opened Options
  import Cbor

  const NODE_PREFIX: string := "nodeid:"
  const DGID_PREFIX: string := "dgid:"

  /** The bytes of a key, 32 of them. */
  type Key = seq<Cbor.Byte>

  /** The white space `str::trim` takes off. */
  predicate Blank(ch: char) {
    var code := ch as int;
    || 9 <= code <= 13 || code in {0x20, 0x85, 0xA0, 0x1680, 0x2028, 0x2029, 0x202F, 0x205F, 0x3000}
    || 0x2000 <= code <= 0x200A
  }

  /** The twenty-five characters of the property White_Space. */
  lemma BlanksExactly(ch: char)
    ensures Blank(ch) <==>
      || ch in "\t\n\U{0B}\U{0C}\r \U{85}\U{A0}\U{1680}\U{2028}\U{2029}\U{202F}\U{205F}\U{3000}"
      || ch in "\U{2000}\U{2001}\U{2002}\U{2003}\U{2004}\U{2005}\U{2006}\U{2007}\U{2008}\U{2009}\U{200A}"
  {
  }

  function TrimStart(text: string): string {
    if text != "" && Blank(text[0]) then TrimStart(text[1..]) else text
  }

  function TrimEnd(text: string): string {
    if text != "" && Blank(text[|text| - 1]) then TrimEnd(text[..|text| - 1]) else text
  }

  function Trim(text: string): string {
    TrimEnd(TrimStart(text))
  }

  /** `strip_prefix`, or the text as it is. */
  function Unprefixed(prefix: string, text: string): string {
    if prefix <= text then text[|prefix|..] else text
  }

  function DigitOf(ch: char): (n: Option<nat>)
    ensures n.Some? ==> n.value < 16
  {
    if '0' <= ch <= '9' then Some((ch - '0') as nat)
    else if 'a' <= ch <= 'f' then Some((ch - 'a') as nat + 10)
    else if 'A' <= ch <= 'F' then Some((ch - 'A') as nat + 10)
    else None
  }

  /** `u8::from_str_radix` on two characters: a `+` may stand in front of one digit. */
  function ByteOf(high: char, low: char): Option<Cbor.Byte> {
    var h := if high == '+' then Some(0) else DigitOf(high);
    if h.Some? && DigitOf(low).Some? then Some(16 * h.value + DigitOf(low).value) else None
  }

  function BytesOf(hex: string): Option<Key> {
    if hex == "" then Some([])
    else if |hex| == 1 then None
    else
      var byte, rest := ByteOf(hex[0], hex[1]), BytesOf(hex[2..]);
      if byte.Some? && rest.Some? then Some([byte.value] + rest.value) else None
  }

  /** What is left of a key text once blanks and the prefix are off. */
  function DigitsOf(text: string): string {
    Unprefixed(DGID_PREFIX, Trim(text))
  }

  /** `Dgid::parse`. */
  function ParseKey(text: string): Option<Key> {
    if |DigitsOf(text)| == 64 then BytesOf(DigitsOf(text)) else None
  }

  lemma {:induction false} BytesJoin(a: string, b: string)
    requires |a| % 2 == 0
    ensures BytesOf(a + b) ==
      if BytesOf(a).Some? && BytesOf(b).Some? then Some(BytesOf(a).value + BytesOf(b).value) else None
  {
    if a == "" {
      assert a + b == b;
      assert BytesOf(b).Some? ==> [] + BytesOf(b).value == BytesOf(b).value;
    } else {
      assert (a + b)[2..] == a[2..] + b && (a + b)[0] == a[0] && (a + b)[1] == a[1];
      BytesJoin(a[2..], b);
      var byte, rest, more := ByteOf(a[0], a[1]), BytesOf(a[2..]), BytesOf(b);
      hide ByteOf;
      if byte.Some? && rest.Some? && more.Some? {
        assert [byte.value] + (rest.value + more.value) == [byte.value] + rest.value + more.value;
      }
    }
  }

  lemma OnePair(high: char, low: char)
    ensures BytesOf([high, low]) == if ByteOf(high, low).Some? then Some([ByteOf(high, low).value]) else None
  {
    assert [high, low][2..] == "";
    if ByteOf(high, low).Some? {
      assert [ByteOf(high, low).value] + [] == [ByteOf(high, low).value];
    }
  }

  lemma NoPairs()
    ensures BytesOf("") == Some([])
  {
  }

  /** `parse_hex`, for 32 bytes. */
  method ParseHex(hex: string) returns (r: Option<Key>)
    ensures r == if |hex| == 64 then BytesOf(hex) else None
  {
    hide BytesOf, ByteOf;
    if |hex| != 64 {
      return None;
    }
    NoPairs();
    assert hex[..0] == "";
    var out: Key := [];
    for index := 0 to 32
      invariant |out| == index && BytesOf(hex[..2 * index]) == Some(out)
    {
      var byte := ByteOf(hex[2 * index], hex[2 * index + 1]);
      ghost var pair := [hex[2 * index], hex[2 * index + 1]];
      assert hex == hex[..2 * index] + pair + hex[2 * index + 2..];
      assert hex[..2 * (index + 1)] == hex[..2 * index] + pair;
      OnePair(hex[2 * index], hex[2 * index + 1]);
      BytesJoin(hex[..2 * index], pair);
      BytesJoin(hex[..2 * index] + pair, hex[2 * index + 2..]);
      if byte.None? {
        return None;
      }
      out := out + [byte.value];
    }
    assert hex[..64] == hex;
    r := Some(out);
  }

  // ----- the one text written for a key -----

  function HexDigit(n: nat): char
    requires n < 16
  {
    if n < 10 then '0' + n as char else 'a' + (n - 10) as char
  }

  /** `hex`: two lower-case digits a byte. */
  function Hex(key: Key): (text: string)
    ensures |text| == 2 * |key|
  {
    if key == [] then "" else [HexDigit(key[0] / 16), HexDigit(key[0] % 16)] + Hex(key[1..])
  }

  function Lower(ch: char): char {
    if 'A' <= ch <= 'F' then ch - 'A' + 'a' else ch
  }

  /** The digits in lower case, a `+` that leads a pair read as a zero. */
  function Plain(hex: string): (text: string)
    ensures |text| == |hex|
  {
    if |hex| < 2 then hex
    else [if hex[0] == '+' then '0' else Lower(hex[0]), Lower(hex[1])] + Plain(hex[2..])
  }

  lemma HalvesOf(high: nat, low: nat, n: nat)
    requires low < 16
    ensures 16 * high + low == n <==> high == n / 16 && low == n % 16
  {
  }

  lemma ByteReads(high: char, low: char, n: Cbor.Byte)
    ensures ByteOf(high, low) == Some(n) <==>
      (if high == '+' then '0' else Lower(high)) == HexDigit(n / 16) && Lower(low) == HexDigit(n % 16)
  {
    var lead := if high == '+' then '0' else high;
    assert DigitOf('0') == Some(0) && Lower('0') == '0';
    DigitReads(low, n % 16);
    DigitReads(lead, n / 16);
    hide DigitOf, HexDigit, Lower;
    if DigitOf(lead).Some? && DigitOf(low).Some? {
      HalvesOf(DigitOf(lead).value, DigitOf(low).value, n);
    }
  }

  lemma DigitReads(ch: char, n: nat)
    requires n < 16
    ensures DigitOf(ch) == Some(n) <==> Lower(ch) == HexDigit(n)
  {
  }

  lemma {:induction false} BytesRead(hex: string, key: Key)
    ensures BytesOf(hex) == Some(key) <==> Plain(hex) == Hex(key)
  {
    if |hex| >= 2 && key != [] {
      ByteReads(hex[0], hex[1], key[0]);
      BytesRead(hex[2..], key[1..]);
      assert key == [key[0]] + key[1..];
      assert Hex(key)[2..] == Hex(key[1..]) && Plain(hex)[2..] == Plain(hex[2..]);
    }
  }

  /** A text is read as a key exactly when, blanks and prefix off and its digits made plain, it
      is what is written for that key. */
  lemma ReadsExactly(text: string, key: Key)
    ensures ParseKey(text) == Some(key) <==> |key| == 32 && Plain(DigitsOf(text)) == Hex(key)
  {
    BytesRead(DigitsOf(text), key);
    hide DigitsOf, BytesOf, Plain, Hex;
  }

  /** Two texts are read as one key exactly when their plain digits agree. */
  lemma SameKeyExactly(a: string, b: string)
    requires ParseKey(a).Some?
    ensures ParseKey(a) == ParseKey(b) <==> Plain(DigitsOf(a)) == Plain(DigitsOf(b))
  {
    ReadsExactly(a, ParseKey(a).value);
    ReadsExactly(b, ParseKey(a).value);
  }

  // ----- texts that are read alike -----

  function Upper(ch: char): char {
    if 'a' <= ch <= 'f' then ch - 'a' + 'A' else ch
  }

  function Capitals(text: string): (r: string)
    ensures |r| == |text|
  {
    if text == "" then "" else [Upper(text[0])] + Capitals(text[1..])
  }

  /** Neither blank, nor a letter of the prefix that is no digit. */
  predicate HexText(text: string) {
    forall i | 0 <= i < |text| :: DigitOf(text[i]).Some?
  }

  lemma {:induction false} HexIsPlain(key: Key)
    ensures HexText(Hex(key)) && Plain(Hex(key)) == Hex(key)
    ensures HexText(Capitals(Hex(key))) && Plain(Capitals(Hex(key))) == Hex(key)
  {
    if key != [] {
      var high, low := HexDigit(key[0] / 16), HexDigit(key[0] % 16);
      HexIsPlain(key[1..]);
      CapitalDigit(key[0] / 16);
      CapitalDigit(key[0] % 16);
      assert Hex(key)[2..] == Hex(key[1..]);
      assert Hex(key)[1..] == [low] + Hex(key[1..]) && Hex(key)[1..][1..] == Hex(key[1..]);
      var capitals := Capitals(Hex(key));
      CapitalPair(high, low, Hex(key[1..]));
      assert capitals[2..] == Capitals(Hex(key[1..]));
      hide Lower, Upper, HexDigit, Capitals, Hex;
    }
  }

  lemma CapitalPair(high: char, low: char, rest: string)
    ensures Capitals([high, low] + rest) == [Upper(high), Upper(low)] + Capitals(rest)
  {
    assert ([high, low] + rest)[1..] == [low] + rest && ([low] + rest)[1..] == rest;
    hide Upper;
  }

  lemma CapitalDigit(n: nat)
    requires n < 16
    ensures Lower(HexDigit(n)) == HexDigit(n) == Lower(Upper(HexDigit(n))) && Upper(HexDigit(n)) != '+'
    ensures HexDigit(n) != '+'
    ensures DigitOf(HexDigit(n)).Some? && DigitOf(Upper(HexDigit(n))).Some?
  {
  }

  lemma DigitsAsTheyAre(text: string)
    requires HexText(text) && |text| >= 2
    ensures DigitsOf(text) == text && DigitsOf(" " + text) == text && DigitsOf(DGID_PREFIX + text) == text
  {
    var last := text[|text| - 1];
    assert DigitOf(text[0]).Some? && DigitOf(text[1]).Some? && DigitOf(last).Some?;
    assert Trim(text) == text;
    assert (" " + text)[1..] == text;
    assert Trim(" " + text) == TrimEnd(TrimStart(text));
    var prefixed := DGID_PREFIX + text;
    assert prefixed[|prefixed| - 1] == last && prefixed[0] == 'd';
    assert Trim(prefixed) == prefixed;
  }

  /** The text written for a key is read back; so is the same text with a blank in front, with
      the identity prefix, or in capitals. */
  lemma Respellings(key: Key)
    requires |key| == 32
    ensures ParseKey(Hex(key)) == Some(key) && ParseKey(" " + Hex(key)) == Some(key)
    ensures ParseKey(DGID_PREFIX + Hex(key)) == Some(key) && ParseKey(Capitals(Hex(key))) == Some(key)
  {
    HexIsPlain(key);
    DigitsAsTheyAre(Hex(key));
    DigitsAsTheyAre(Capitals(Hex(key)));
    ReadsExactly(Hex(key), key);
    ReadsExactly(" " + Hex(key), key);
    ReadsExactly(DGID_PREFIX + Hex(key), key);
    ReadsExactly(Capitals(Hex(key)), key);
    hide ParseKey, DigitsOf, Plain, Hex, Capitals;
  }
}
