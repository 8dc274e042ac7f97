/** Transform descriptor records: the inputs they declare, and putting inputs into them. */
module Descriptors {
  import opened Options
  import opened Records
  import opened Cbor
  import opened Canonical

  /** Text as its UTF-8 bytes. */
  type Utf8 = seq<Byte>

  function Ascii(s: string): (b: Utf8)
    ensures |b| == |s| && forall i :: 0 <= i < |s| ==> b[i] == s[i] as int % 256
  {
    seq(|s|, i requires 0 <= i < |s| => s[i] as int % 256)
  }

  /** How hashes are shown as text and read back. */
  datatype Names = Names(
    showBlob: Hash -> Utf8,
    parseBlob: Utf8 -> Option<Hash>,
    showCi: Hash -> Utf8,
    parseCi: Utf8 -> Option<Hash>,
    showTd: Hash -> Utf8)

  /** What is shown is read back. */
  ghost predicate Readable(n: Names) {
    (forall h: Hash :: n.parseBlob(n.showBlob(h)) == Some(h)) && (forall h: Hash :: n.parseCi(n.showCi(h)) == Some(h))
  }

  datatype Input =
    | Ci(ci: Hash)
    | Pinned(from: Option<Hash>, source: Option<Utf8>, blob: Hash)
    | Url(url: Utf8)
    | Query(kind: Utf8, name: Utf8)

  datatype Tdr = Tdr(record: Utf8, kind: Utf8, body: Value)

  // ----- inputs by name, in name order -----

  datatype Named = Named(name: Utf8, input: Input)

  /** A map from names to inputs, kept as the list in name order. */
  ghost predicate InOrder(m: seq<Named>) {
    forall i, j :: 0 <= i < j < |m| ==> Less(m[i].name, m[j].name)
  }

  function With(m: seq<Named>, name: Utf8, input: Input): seq<Named> {
    if m == [] then [Named(name, input)]
    else if Less(name, m[0].name) then [Named(name, input)] + m
    else if name == m[0].name then [Named(name, input)] + m[1..]
    else [m[0]] + With(m[1..], name, input)
  }

  function Lookup(m: seq<Named>, name: Utf8): Option<Input> {
    if m == [] then None
    else if m[0].name == name then Some(m[0].input)
    else Lookup(m[1..], name)
  }

  lemma FirstBelow(m: seq<Named>, name: Utf8)
    requires InOrder(m) && m != [] && Less(name, m[0].name)
    ensures forall i :: 0 <= i < |m| ==> Less(name, m[i].name) && name != m[i].name
  {
    hide Less;
    forall i | 0 <= i < |m| ensures Less(name, m[i].name) && name != m[i].name {
      StrictlyBefore(name, m[0].name, m[i].name);
      LessTotal(name, m[i].name);
    }
  }

  lemma RestAbove(m: seq<Named>)
    requires InOrder(m) && m != []
    ensures InOrder(m[1..]) && forall e :: e in m[1..] ==> Less(m[0].name, e.name) && e.name != m[0].name
  {
    hide Less;
    forall j | 1 <= j < |m| ensures m[j].name != m[0].name {
      LessTotal(m[0].name, m[j].name);
    }
  }

  lemma {:induction false} WithEntries(m: seq<Named>, name: Utf8, input: Input)
    requires InOrder(m)
    ensures forall e :: e in With(m, name, input) <==> e == Named(name, input) || (e in m && e.name != name)
  {
    if m != [] {
      hide Less, InOrder;
      LessTotal(name, m[0].name);
      assert m == [m[0]] + m[1..];
      RestAbove(m);
      if Less(name, m[0].name) {
        FirstBelow(m, name);
      } else {
        WithEntries(m[1..], name, input);
      }
    }
  }

  lemma {:induction false} WithOrder(m: seq<Named>, name: Utf8, input: Input)
    requires InOrder(m)
    ensures InOrder(With(m, name, input))
  {
    if m != [] {
      hide Less;
      LessTotal(name, m[0].name);
      if Less(name, m[0].name) {
        FirstBelow(m, name);
      } else if name != m[0].name {
        LessTotal(m[0].name, name);
        RestAbove(m);
        WithOrder(m[1..], name, input);
        WithEntries(m[1..], name, input);
        var rest := With(m[1..], name, input);
        forall j | 0 <= j < |rest| ensures Less(m[0].name, rest[j].name) {
          assert rest[j] in rest;
        }
      }
    }
  }

  lemma {:induction false} WithLookup(m: seq<Named>, name: Utf8, input: Input)
    requires InOrder(m)
    ensures forall x :: Lookup(With(m, name, input), x) == if x == name then Some(input) else Lookup(m, x)
  {
    if m != [] {
      hide Less, InOrder;
      LessTotal(name, m[0].name);
      RestAbove(m);
      if !Less(name, m[0].name) && name != m[0].name {
        WithLookup(m[1..], name, input);
      }
    }
  }

  lemma WithNames(m: seq<Named>, name: Utf8, input: Input)
    requires InOrder(m)
    ensures InOrder(With(m, name, input))
    ensures forall x :: Lookup(With(m, name, input), x) == if x == name then Some(input) else Lookup(m, x)
    ensures forall e :: e in With(m, name, input) <==> e == Named(name, input) || (e in m && e.name != name)
  {
    WithOrder(m, name, input);
    WithLookup(m, name, input);
    WithEntries(m, name, input);
  }

  lemma StrictlyBefore(a: Utf8, b: Utf8, c: Utf8)
    requires Less(a, b) && (b == c || Less(b, c))
    ensures Less(a, c)
  {
    hide Less;
    LessTotal(a, b);
    LessTotal(b, c);
    LessTotal(a, c);
    LessTransitive(a, b, c);
    if a == c {
      assert false;
    }
  }

  /** A name past all the others goes last. */
  lemma {:induction false} WithLast(m: seq<Named>, name: Utf8, input: Input)
    requires forall e :: e in m ==> Less(e.name, name)
    ensures With(m, name, input) == m + [Named(name, input)]
  {
    if m != [] {
      hide Less;
      assert m[0] in m && m == [m[0]] + m[1..];
      LessTotal(m[0].name, name);
      WithLast(m[1..], name, input);
    }
  }

  /** Setting two different names goes in either order. */
  lemma {:induction false} WithCommutes(m: seq<Named>, a: Utf8, first: Input, b: Utf8, second: Input)
    requires InOrder(m) && a != b
    ensures With(With(m, a, first), b, second) == With(With(m, b, second), a, first)
  {
    hide With;
    WithNames(m, a, first);
    WithNames(m, b, second);
    WithNames(With(m, a, first), b, second);
    WithNames(With(m, b, second), a, first);
    OneOrder(With(With(m, a, first), b, second), With(With(m, b, second), a, first));
  }

  lemma {:induction false} OneOrder(m: seq<Named>, n: seq<Named>)
    requires InOrder(m) && InOrder(n) && forall e :: e in m <==> e in n
    ensures m == n
  {
    hide Less;
    assert m != [] ==> m[0] in m;
    assert n != [] ==> n[0] in n;
    if m != [] && n != [] {
      assert m[0] in n && n[0] in m;
      LessTotal(m[0].name, n[0].name);
      assert m[0] == n[0];
      forall j | 1 <= j < |m| ensures m[j] != m[0] {
        LessTotal(m[0].name, m[j].name);
      }
      forall j | 1 <= j < |n| ensures n[j] != n[0] {
        LessTotal(n[0].name, n[j].name);
      }
      assert m == [m[0]] + m[1..] && n == [n[0]] + n[1..];
      forall e ensures e in m[1..] <==> e in n[1..] {
        assert e in m[1..] ==> e in m && e != m[0];
        assert e in n[1..] ==> e in n && e != n[0];
      }
      OneOrder(m[1..], n[1..]);
    }
  }

  // ----- fields -----

  function Key(name: string): Value {
    Text(Ascii(name))
  }

  /** The first entry under the name. */
  function Field(entries: seq<Entry>, name: Utf8): Option<Value> {
    if entries == [] then None
    else if entries[0].key == Text(name) then Some(entries[0].item)
    else Field(entries[1..], name)
  }

  /** The first text under the name. */
  function TextIn(entries: seq<Entry>, name: Utf8): Option<Utf8> {
    if entries == [] then None
    else if entries[0].key == Text(name) && entries[0].item.Text? then Some(entries[0].item.utf8)
    else TextIn(entries[1..], name)
  }

  function TextOf(field: Option<Value>): Option<Utf8> {
    if field.Some? && field.value.Text? then Some(field.value.utf8) else None
  }

  function StripBlob(text: Utf8): Utf8 {
    if Ascii("blob:") <= text then text[5..] else text
  }

  /** `Input::to_value`. */
  function InputValue(n: Names, input: Input): Value {
    match input
    case Ci(ci) => Map([Entry(Key("ci"), Text(n.showCi(ci)))])
    case Pinned(ci, url, blob) =>
      Map([Entry(Key("blob"), Text(Ascii("blob:") + n.showBlob(blob)))]
          + (if ci.Some? then [Entry(Key("ci"), Text(n.showCi(ci.value)))] else [])
          + (if url.Some? then [Entry(Key("url"), Text(url.value))] else []))
    case Url(url) => Map([Entry(Key("url"), Text(url))])
    case Query(kind, name) =>
      Map([Entry(Key("query"), Map([Entry(Key("kind"), Text(kind)), Entry(Key("name"), Text(name))]))])
  }

  /** `Input::from_value`. */
  function InputOf(n: Names, value: Value): Option<Input> {
    if !value.Map? then None
    else
      var es := value.entries;
      var blobText := TextOf(Field(es, Ascii("blob")));
      var ciText := TextOf(Field(es, Ascii("ci")));
      var blob := if blobText.Some? then n.parseBlob(StripBlob(blobText.value)) else None;
      var ci := if ciText.Some? then n.parseCi(ciText.value) else None;
      var url := TextOf(Field(es, Ascii("url")));
      if blob.Some? then Some(Pinned(ci, url, blob.value))
      else if ci.Some? then Some(Ci(ci.value))
      else if url.Some? then Some(Url(url.value))
      else QueryOf(Field(es, Ascii("query")))
  }

  function QueryOf(field: Option<Value>): Option<Input> {
    if field.Some? && field.value.Map? then
      var kind := TextIn(field.value.entries, Ascii("kind"));
      var name := TextIn(field.value.entries, Ascii("name"));
      if kind.Some? && name.Some? then Some(Query(kind.value, name.value)) else None
    else None
  }

  /** The inputs a map of them declares; a later entry of the same name wins. */
  function Collected(n: Names, entries: seq<Entry>): seq<Named> {
    if entries == [] then []
    else Declaring(n, Collected(n, entries[..|entries| - 1]), entries[|entries| - 1])
  }

  function Declaring(n: Names, m: seq<Named>, e: Entry): seq<Named> {
    if e.key.Text? && InputOf(n, e.item).Some? then With(m, e.key.utf8, InputOf(n, e.item).value) else m
  }

  function BodyInputs(n: Names, body: Value): seq<Named> {
    if !body.Map? then []
    else
      var declared := Field(body.entries, Ascii("inputs"));
      if declared.Some? && declared.value.Map? then Collected(n, declared.value.entries) else []
  }

  /** `inputs`. */
  function Inputs(n: Names, tdr: Tdr): seq<Named> {
    BodyInputs(n, tdr.body)
  }

  /** `text_field`. */
  function TextField(tdr: Tdr, name: Utf8): Option<Utf8> {
    if tdr.body.Map? then TextIn(tdr.body.entries, name) else None
  }

  const HTTP_GET: Utf8 := Ascii("http-get")
  const WASM_TRANSFORM: Utf8 := Ascii("wasm-transform")

  predicate AllPinned(m: seq<Named>) {
    forall e :: e in m ==> e.input.Pinned?
  }

  /** `is_locked`. */
  predicate IsLocked(n: Names, tdr: Tdr) {
    AllPinned(Inputs(n, tdr)) && (tdr.kind == HTTP_GET ==> Lookup(Inputs(n, tdr), Ascii("url")).Some?)
  }

  datatype Extra = Extra(name: Utf8, value: Utf8)

  predicate Replaces(extra: seq<Extra>, e: Entry) {
    e.key.Text? && (e.key.utf8 == Ascii("inputs") || exists x :: x in extra && x.name == e.key.utf8)
  }

  function Kept(entries: seq<Entry>, extra: seq<Extra>): seq<Entry> {
    if entries == [] then []
    else if Replaces(extra, entries[0]) then Kept(entries[1..], extra)
    else [entries[0]] + Kept(entries[1..], extra)
  }

  function ExtraEntries(extra: seq<Extra>): (r: seq<Entry>)
    ensures |r| == |extra| && forall i :: 0 <= i < |r| ==> r[i] == Entry(Text(extra[i].name), Text(extra[i].value))
  {
    seq(|extra|, i requires 0 <= i < |extra| => Entry(Text(extra[i].name), Text(extra[i].value)))
  }

  function InputEntries(n: Names, m: seq<Named>): (r: seq<Entry>)
    ensures |r| == |m| && forall i :: 0 <= i < |r| ==> r[i] == Entry(Text(m[i].name), InputValue(n, m[i].input))
  {
    seq(|m|, i requires 0 <= i < |m| => Entry(Text(m[i].name), InputValue(n, m[i].input)))
  }

  /** `with_fields`. */
  function WithFields(n: Names, tdr: Tdr, m: seq<Named>, extra: seq<Extra>): Tdr {
    var kept := if tdr.body.Map? then Kept(tdr.body.entries, extra) else [];
    var declared := if m == [] then [] else [Entry(Key("inputs"), Map(InputEntries(n, m)))];
    tdr.(body := Map(kept + ExtraEntries(extra) + declared))
  }

  // ----- reading back what was put in -----

  lemma {:induction false} FieldJoin(left: seq<Entry>, right: seq<Entry>, name: Utf8)
    ensures Field(left + right, name) == if Field(left, name).Some? then Field(left, name) else Field(right, name)
    ensures TextIn(left + right, name) == if TextIn(left, name).Some? then TextIn(left, name) else TextIn(right, name)
  {
    if left == [] {
      assert left + right == right;
    } else {
      assert (left + right)[1..] == left[1..] + right;
      FieldJoin(left[1..], right, name);
    }
  }

  lemma FieldOne(e: Entry, name: Utf8)
    ensures Field([e], name) == if e.key == Text(name) then Some(e.item) else None
    ensures TextIn([e], name) == if e.key == Text(name) && e.item.Text? then Some(e.item.utf8) else None
  {
    assert [e][1..] == [];
  }

  lemma PinnedFields(n: Names, ci: Option<Hash>, url: Option<Utf8>, blob: Hash)
    ensures var es := InputValue(n, Pinned(ci, url, blob)).entries;
      && Field(es, Ascii("blob")) == Some(Text(Ascii("blob:") + n.showBlob(blob)))
      && TextOf(Field(es, Ascii("ci"))) == (if ci.Some? then Some(n.showCi(ci.value)) else None)
      && TextOf(Field(es, Ascii("url"))) == url
  {
    var first := Entry(Key("blob"), Text(Ascii("blob:") + n.showBlob(blob)));
    var second := if ci.Some? then [Entry(Key("ci"), Text(n.showCi(ci.value)))] else [];
    var third := if url.Some? then [Entry(Key("url"), Text(url.value))] else [];
    ThreeFields(first, second, third, Ascii("blob"));
    ThreeFields(first, second, third, Ascii("ci"));
    ThreeFields(first, second, third, Ascii("url"));
  }

  lemma ThreeFields(first: Entry, second: seq<Entry>, third: seq<Entry>, name: Utf8)
    requires |second| <= 1 && |third| <= 1
    ensures Field([first] + second + third, name) ==
      if first.key == Text(name) then Some(first.item)
      else if second != [] && second[0].key == Text(name) then Some(second[0].item)
      else if third != [] && third[0].key == Text(name) then Some(third[0].item)
      else None
  {
    FieldJoin([first] + second, third, name);
    FieldJoin([first], second, name);
    FieldOne(first, name);
    if second != [] {
      assert second == [second[0]];
      FieldOne(second[0], name);
    }
    if third != [] {
      assert third == [third[0]];
      FieldOne(third[0], name);
    }
  }

  lemma QueryFields(kind: Utf8, name: Utf8)
    ensures QueryOf(Some(Map([Entry(Key("kind"), Text(kind)), Entry(Key("name"), Text(name))])))
      == Some(Query(kind, name))
  {
    var inner := [Entry(Key("kind"), Text(kind)), Entry(Key("name"), Text(name))];
    assert inner == [inner[0]] + [inner[1]];
    assert Ascii("kind")[0] != Ascii("name")[0];
    FieldJoin([inner[0]], [inner[1]], Ascii("kind"));
    FieldJoin([inner[0]], [inner[1]], Ascii("name"));
    FieldOne(inner[0], Ascii("kind"));
    FieldOne(inner[0], Ascii("name"));
    FieldOne(inner[1], Ascii("name"));
  }

  lemma OneField(e: Entry)
    ensures Field([e], Ascii("blob")) == if e.key == Key("blob") then Some(e.item) else None
    ensures Field([e], Ascii("ci")) == if e.key == Key("ci") then Some(e.item) else None
    ensures Field([e], Ascii("url")) == if e.key == Key("url") then Some(e.item) else None
    ensures Field([e], Ascii("query")) == if e.key == Key("query") then Some(e.item) else None
  {
    FieldOne(e, Ascii("blob"));
    FieldOne(e, Ascii("ci"));
    FieldOne(e, Ascii("url"));
    FieldOne(e, Ascii("query"));
  }

  /** An input is read back from its value. */
  lemma InputReadsBack(n: Names, input: Input)
    requires Readable(n)
    ensures InputOf(n, InputValue(n, input)) == Some(input)
  {
    match input {
      case Pinned(ci, url, blob) =>
        PinnedFields(n, ci, url, blob);
        assert StripBlob(Ascii("blob:") + n.showBlob(blob)) == n.showBlob(blob);
        hide Field;
      case Query(kind, name) =>
        QueryFields(kind, name);
        OneField(InputValue(n, input).entries[0]);
        hide Field, QueryOf;
      case Ci(ci) => OneField(InputValue(n, input).entries[0]);
      case Url(url) => OneField(InputValue(n, input).entries[0]);
    }
  }

  lemma LastName(m: seq<Named>)
    requires InOrder(m) && m != []
    ensures InOrder(m[..|m| - 1]) && forall e :: e in m[..|m| - 1] ==> Less(e.name, m[|m| - 1].name)
  {
    hide Less;
  }

  lemma DeclaringBack(n: Names, m: seq<Named>, name: Utf8, input: Input)
    requires Readable(n)
    ensures Declaring(n, m, Entry(Text(name), InputValue(n, input))) == With(m, name, input)
  {
    hide InputOf, InputValue, Readable, With;
    InputReadsBack(n, input);
  }

  lemma {:induction false} CollectedBack(n: Names, m: seq<Named>)
    requires Readable(n) && InOrder(m)
    ensures Collected(n, InputEntries(n, m)) == m
  {
    if m != [] {
      hide InputOf, InputValue, Readable, Less, With, Ascii, InOrder, Declaring, Collected;
      var front, last := m[..|m| - 1], m[|m| - 1];
      var entry := Entry(Text(last.name), InputValue(n, last.input));
      assert m == front + [last];
      LastName(m);
      CollectedBack(n, front);
      CollectedSnoc(n, InputEntries(n, front), entry);
      assert InputEntries(n, m) == InputEntries(n, front) + [entry];
      DeclaringBack(n, front, last.name, last.input);
      WithLast(front, last.name, last.input);
    }
  }

  lemma CollectedSnoc(n: Names, entries: seq<Entry>, e: Entry)
    ensures Collected(n, entries + [e]) == Declaring(n, Collected(n, entries), e)
  {
    hide Declaring;
    assert (entries + [e])[..|entries|] == entries;
  }

  lemma {:induction false} KeptFields(entries: seq<Entry>, extra: seq<Extra>, name: Utf8)
    ensures Replaces(extra, Entry(Text(name), Null)) ==>
      Field(Kept(entries, extra), name).None? && TextIn(Kept(entries, extra), name).None?
    ensures !Replaces(extra, Entry(Text(name), Null)) ==>
      Field(Kept(entries, extra), name) == Field(entries, name)
        && TextIn(Kept(entries, extra), name) == TextIn(entries, name)
  {
    if entries != [] {
      KeptFields(entries[1..], extra, name);
      assert entries[0].key == Text(name) ==>
        (Replaces(extra, entries[0]) <==> Replaces(extra, Entry(Text(name), Null)));
    }
  }

  lemma {:induction false} ExtraFields(extra: seq<Extra>, name: Utf8)
    ensures (forall x :: x in extra ==> x.name != name) ==>
      Field(ExtraEntries(extra), name).None? && TextIn(ExtraEntries(extra), name).None?
  {
    if extra != [] {
      assert ExtraEntries(extra)[1..] == ExtraEntries(extra[1..]);
      ExtraFields(extra[1..], name);
      assert extra[0] in extra;
    }
  }

  /** Reading back the inputs of the record built by `with_fields` gives exactly the map put
      in, whatever the record held before. */
  lemma InputsReadBack(n: Names, tdr: Tdr, m: seq<Named>, extra: seq<Extra>)
    requires Readable(n) && InOrder(m) && forall x :: x in extra ==> x.name != Ascii("inputs")
    ensures Inputs(n, WithFields(n, tdr, m, extra)) == m
  {
    var name := Ascii("inputs");
    var kept := if tdr.body.Map? then Kept(tdr.body.entries, extra) else [];
    var declared := if m == [] then [] else [Entry(Key("inputs"), Map(InputEntries(n, m)))];
    if tdr.body.Map? {
      KeptFields(tdr.body.entries, extra, name);
    }
    ExtraFields(extra, name);
    FieldJoin(kept, ExtraEntries(extra), name);
    FieldJoin(kept + ExtraEntries(extra), declared, name);
    if m != [] {
      FieldOne(declared[0], name);
      CollectedBack(n, m);
    }
  }

  /** Text fields other than the replaced ones stay. */
  lemma OtherTextStays(n: Names, tdr: Tdr, m: seq<Named>, extra: seq<Extra>, name: Utf8)
    requires name != Ascii("inputs") && forall x :: x in extra ==> x.name != name
    ensures TextField(WithFields(n, tdr, m, extra), name) == TextField(tdr, name)
  {
    var kept := if tdr.body.Map? then Kept(tdr.body.entries, extra) else [];
    var declared := if m == [] then [] else [Entry(Key("inputs"), Map(InputEntries(n, m)))];
    if tdr.body.Map? {
      KeptFields(tdr.body.entries, extra, name);
    }
    ExtraFields(extra, name);
    FieldJoin(kept, ExtraEntries(extra), name);
    FieldJoin(kept + ExtraEntries(extra), declared, name);
    if m != [] {
      FieldOne(declared[0], name);
    }
  }

  lemma {:induction false} ExtraFieldAt(extra: seq<Extra>, i: nat)
    requires i < |extra| && forall j :: 0 <= j < i ==> extra[j].name != extra[i].name
    ensures TextIn(ExtraEntries(extra), extra[i].name) == Some(extra[i].value)
    ensures Field(ExtraEntries(extra), extra[i].name) == Some(Text(extra[i].value))
  {
    if i > 0 {
      assert ExtraEntries(extra)[1..] == ExtraEntries(extra[1..]);
      ExtraFieldAt(extra[1..], i - 1);
    }
  }

  /** Every extra field is read back, the first of a name where there are more. */
  lemma ExtraReadsBack(n: Names, tdr: Tdr, m: seq<Named>, extra: seq<Extra>, i: nat)
    requires i < |extra| && forall j :: 0 <= j < i ==> extra[j].name != extra[i].name
    ensures TextField(WithFields(n, tdr, m, extra), extra[i].name) == Some(extra[i].value)
  {
    var name := extra[i].name;
    ExtraFieldAt(extra, i);
    var kept := if tdr.body.Map? then Kept(tdr.body.entries, extra) else [];
    var declared := if m == [] then [] else [Entry(Key("inputs"), Map(InputEntries(n, m)))];
    assert extra[i] in extra;
    if tdr.body.Map? {
      KeptFields(tdr.body.entries, extra, name);
    }
    FieldJoin(kept, ExtraEntries(extra), name);
    FieldJoin(kept + ExtraEntries(extra), declared, name);
  }

  lemma {:induction false} CollectedInOrder(n: Names, entries: seq<Entry>)
    ensures InOrder(Collected(n, entries))
  {
    if entries != [] {
      hide InputOf, InOrder;
      CollectedInOrder(n, entries[..|entries| - 1]);
      var e := entries[|entries| - 1];
      if e.key.Text? && InputOf(n, e.item).Some? {
        WithNames(Collected(n, entries[..|entries| - 1]), e.key.utf8, InputOf(n, e.item).value);
      }
    }
  }

  lemma InputsInOrder(n: Names, tdr: Tdr)
    ensures InOrder(Inputs(n, tdr))
  {
    if tdr.body.Map? {
      var declared := Field(tdr.body.entries, Ascii("inputs"));
      if declared.Some? && declared.value.Map? {
        CollectedInOrder(n, declared.value.entries);
      }
    }
  }

  // ----- canonical order changes none of it -----

  /** Inserting an entry by key puts it behind those of the same key. */
  lemma {:induction false} InsertedFields(e: Entry, sorted: seq<Entry>, name: Utf8)
    ensures Field(Inserted(e, sorted), name) == if Field(sorted, name).Some? then Field(sorted, name)
      else Field([e], name)
    ensures TextIn(Inserted(e, sorted), name) == if TextIn(sorted, name).Some? then TextIn(sorted, name)
      else TextIn([e], name)
  {
    if sorted != [] {
      var front, last := sorted[..|sorted| - 1], sorted[|sorted| - 1];
      hide Less, Encode;
      assert sorted == front + [last];
      FieldJoin(front, [last], name);
      FieldOne(e, name);
      FieldOne(last, name);
      LessTotal(KeyBytes(e), KeyBytes(last));
      if Less(KeyBytes(e), KeyBytes(last)) {
        InsertedFields(e, front, name);
        FieldJoin(Inserted(e, front), [last], name);
      } else {
        FieldJoin(sorted, [e], name);
      }
    }
  }

  lemma {:induction false} SortedFields(entries: seq<Entry>, name: Utf8)
    ensures Field(SortedByKey(entries), name) == Field(entries, name)
    ensures TextIn(SortedByKey(entries), name) == TextIn(entries, name)
  {
    if entries != [] {
      var front, last := entries[..|entries| - 1], entries[|entries| - 1];
      assert entries == front + [last];
      SortedFields(front, name);
      InsertedFields(last, SortedByKey(front), name);
      FieldJoin(front, [last], name);
    }
  }

  lemma TextShapes(v: Value)
    ensures Shape(v).Text? <==> v.Text?
    ensures v.Text? ==> Shape(v) == v
  {
  }

  lemma {:induction false} ShapedFields(entries: seq<Entry>, name: Utf8)
    ensures Field(ShapeEntries(entries), name).Some? <==> Field(entries, name).Some?
    ensures Field(entries, name).Some? ==> Field(ShapeEntries(entries), name).value == Shape(Field(entries, name).value)
    ensures TextIn(ShapeEntries(entries), name) == TextIn(entries, name)
  {
    if entries != [] {
      hide Shape;
      TextShapes(entries[0].key);
      TextShapes(entries[0].item);
      ShapedFields(entries[1..], name);
      assert ShapeEntries(entries)[1..] == ShapeEntries(entries[1..]);
    }
  }

  /** The fields of a shaped map. */
  lemma ShapeFields(entries: seq<Entry>, name: Utf8)
    ensures var shaped := SortedByKey(ShapeEntries(entries));
      && (Field(shaped, name).Some? <==> Field(entries, name).Some?)
      && (Field(entries, name).Some? ==> Field(shaped, name).value == Shape(Field(entries, name).value))
      && TextIn(shaped, name) == TextIn(entries, name)
  {
    hide SortedByKey, ShapeEntries;
    SortedFields(ShapeEntries(entries), name);
    ShapedFields(entries, name);
  }

  lemma ShapedMap(v: Value)
    ensures Shape(v).Map? <==> v.Map?
    ensures v.Map? ==> Shape(v).entries == SortedByKey(ShapeEntries(v.entries))
  {
  }

  lemma ShapeText(entries: seq<Entry>, name: Utf8)
    ensures TextOf(Field(SortedByKey(ShapeEntries(entries)), name)) == TextOf(Field(entries, name))
  {
    hide SortedByKey, ShapeEntries, Shape;
    ShapeFields(entries, name);
    if Field(entries, name).Some? {
      TextShapes(Field(entries, name).value);
    }
  }

  lemma ShapeQuery(entries: seq<Entry>)
    ensures QueryOf(Field(SortedByKey(ShapeEntries(entries)), Ascii("query")))
      == QueryOf(Field(entries, Ascii("query")))
  {
    hide SortedByKey, ShapeEntries, Shape;
    ShapeFields(entries, Ascii("query"));
    var field := Field(entries, Ascii("query"));
    if field.Some? {
      ShapedMap(field.value);
      if field.value.Map? {
        ShapeFields(field.value.entries, Ascii("kind"));
        ShapeFields(field.value.entries, Ascii("name"));
      }
    }
  }

  /** An input reads the same from its canonical value. */
  lemma ShapedInput(n: Names, v: Value)
    ensures InputOf(n, Shape(v)) == InputOf(n, v)
  {
    hide SortedByKey, ShapeEntries, Shape, Field, QueryOf;
    ShapedMap(v);
    if v.Map? {
      ShapeText(v.entries, Ascii("blob"));
      ShapeText(v.entries, Ascii("ci"));
      ShapeText(v.entries, Ascii("url"));
      ShapeQuery(v.entries);
    }
  }

  lemma DeclaringCommutes(n: Names, m: seq<Named>, e: Entry, f: Entry)
    requires InOrder(m) && e.key != f.key
    ensures Declaring(n, Declaring(n, m, e), f) == Declaring(n, Declaring(n, m, f), e)
  {
    hide InputOf, With;
    if e.key.Text? && f.key.Text? && InputOf(n, e.item).Some? && InputOf(n, f.item).Some? {
      WithCommutes(m, e.key.utf8, InputOf(n, e.item).value, f.key.utf8, InputOf(n, f.item).value);
    }
  }

  lemma {:induction false} CollectedInserted(n: Names, e: Entry, sorted: seq<Entry>)
    ensures Collected(n, Inserted(e, sorted)) == Declaring(n, Collected(n, sorted), e)
  {
    hide Less, Encode, Declaring;
    if sorted == [] {
      assert [e][..0] == [];
    } else {
      var front, last := sorted[..|sorted| - 1], sorted[|sorted| - 1];
      if Less(KeyBytes(e), KeyBytes(last)) {
        LessTotal(KeyBytes(e), KeyBytes(last));
        CollectedInserted(n, e, front);
        CollectedInOrder(n, front);
        assert (Inserted(e, front) + [last])[..|Inserted(e, front)|] == Inserted(e, front);
        DeclaringCommutes(n, Collected(n, front), e, last);
      } else {
        assert (sorted + [e])[..|sorted|] == sorted;
      }
    }
  }

  lemma {:induction false} CollectedShaped(n: Names, entries: seq<Entry>)
    ensures Collected(n, SortedByKey(ShapeEntries(entries))) == Collected(n, entries)
  {
    ShapeEntriesAt(entries);
    if entries != [] {
      hide Shape, Declaring, Inserted;
      var front, last := entries[..|entries| - 1], entries[|entries| - 1];
      var shaped := ShapeEntries(entries);
      ShapeEntriesAt(front);
      assert shaped[..|shaped| - 1] == ShapeEntries(front);
      CollectedShaped(n, front);
      CollectedInserted(n, shaped[|shaped| - 1], SortedByKey(ShapeEntries(front)));
      ShapedDeclaring(n, Collected(n, front), last);
    }
  }

  lemma ShapedDeclaring(n: Names, m: seq<Named>, e: Entry)
    ensures Declaring(n, m, ShapeEntry(e)) == Declaring(n, m, e)
  {
    hide Shape, InputOf, With;
    TextShapes(e.key);
    ShapedInput(n, e.item);
  }

  /** A record keeps its inputs when its body is put in canonical form. */
  lemma ShapedInputs(n: Names, body: Value)
    ensures BodyInputs(n, Shape(body)) == BodyInputs(n, body)
  {
    hide SortedByKey, ShapeEntries, Shape, Field, Collected;
    ShapedMap(body);
    if body.Map? {
      ShapeFields(body.entries, Ascii("inputs"));
      var declared := Field(body.entries, Ascii("inputs"));
      if declared.Some? {
        ShapedMap(declared.value);
        if declared.value.Map? {
          CollectedShaped(n, declared.value.entries);
        }
      }
    }
  }

  // ----- the vectors the source fills -----

  /** `with_fields`: what stays, the extra fields, then the inputs. */
  method PutFields(n: Names, tdr: Tdr, m: seq<Named>, extra: seq<Extra>) returns (r: Tdr)
    ensures r == WithFields(n, tdr, m, extra)
  {
    var entries := [];
    if tdr.body.Map? {
      var es := tdr.body.entries;
      assert es[0..] == es;
      for i := 0 to |es|
        invariant Kept(es, extra) == entries + Kept(es[i..], extra)
      {
        assert es[i..][1..] == es[i + 1..];
        if !Replaces(extra, es[i]) {
          entries := entries + [es[i]];
        }
      }
      assert es[|es|..] == [] && entries + [] == entries;
    }
    ghost var kept := if tdr.body.Map? then Kept(tdr.body.entries, extra) else [];
    assert entries == kept + ExtraEntries(extra)[..0];
    for i := 0 to |extra|
      invariant entries == kept + ExtraEntries(extra)[..i]
    {
      assert ExtraEntries(extra)[..i + 1] == ExtraEntries(extra)[..i] + [ExtraEntries(extra)[i]];
      entries := entries + [Entry(Text(extra[i].name), Text(extra[i].value))];
    }
    assert ExtraEntries(extra)[..|extra|] == ExtraEntries(extra);
    if m != [] {
      entries := entries + [Entry(Key("inputs"), Map(InputEntries(n, m)))];
    }
    assert WithFields(n, tdr, m, extra).body.entries == entries;
    r := tdr.(body := Map(entries));
  }

  /** `Input::to_value`. */
  method ToValue(n: Names, input: Input) returns (r: Value)
    ensures r == InputValue(n, input)
  {
    var entries := [];
    match input {
      case Ci(ci) => entries := entries + [Entry(Key("ci"), Text(n.showCi(ci)))];
      case Pinned(ci, url, blob) =>
        entries := entries + [Entry(Key("blob"), Text(Ascii("blob:") + n.showBlob(blob)))];
        if ci.Some? {
          entries := entries + [Entry(Key("ci"), Text(n.showCi(ci.value)))];
        }
        if url.Some? {
          entries := entries + [Entry(Key("url"), Text(url.value))];
        }
      case Url(url) => entries := entries + [Entry(Key("url"), Text(url))];
      case Query(kind, name) =>
        var query := Map([Entry(Key("kind"), Text(kind)), Entry(Key("name"), Text(name))]);
        entries := entries + [Entry(Key("query"), query)];
    }
    assert entries == InputValue(n, input).entries;
    r := Map(entries);
  }
}
