/** The canonical form of a value and its bytes: the deterministic encoding every address and
    signature rests on (section 4.2.1 of RFC 8949). */
module Canonical {
  import opened Options
  import opened Cbor

  datatype CanonError = FloatRefused

  // ----- byte order -----

  predicate Less(a: seq<Byte>, b: seq<Byte>) {
    if b == [] then false
    else if a == [] then true
    else a[0] < b[0] || (a[0] == b[0] && Less(a[1..], b[1..]))
  }

  lemma {:induction false} LessTotal(a: seq<Byte>, b: seq<Byte>)
    ensures Less(a, b) || a == b || Less(b, a)
    ensures !(Less(a, b) && Less(b, a)) && (a == b ==> !Less(a, b))
  {
    if a != [] && b != [] {
      LessTotal(a[1..], b[1..]);
      assert a == [a[0]] + a[1..] && b == [b[0]] + b[1..];
    }
  }

  /** The order of bytes: at the first byte that differs the smaller comes first, and a text before
      any it begins. */
  lemma {:induction false} LessAt(a: seq<Byte>, b: seq<Byte>, i: nat)
    requires i <= |a| && i <= |b| && a[..i] == b[..i] && (i == |a| || i == |b| || a[i] != b[i])
    ensures Less(a, b) <==> i < |b| && (i == |a| || a[i] < b[i])
  {
    if i > 0 {
      assert a[0] == a[..i][0] == b[..i][0] == b[0];
      assert a[1..][..i - 1] == a[..i][1..] == b[..i][1..] == b[1..][..i - 1];
      LessAt(a[1..], b[1..], i - 1);
    }
  }

  lemma {:induction false} LessTransitive(a: seq<Byte>, b: seq<Byte>, c: seq<Byte>)
    requires !Less(b, a) && !Less(c, b)
    ensures !Less(c, a)
  {
    if a != [] && b != [] && c != [] {
      if a[0] == b[0] == c[0] {
        LessTransitive(a[1..], b[1..], c[1..]);
      }
    }
  }

  // ----- the canonical form -----

  function KeyBytes(e: Entry): seq<Byte> {
    Encode(e.key)
  }

  /** Stable insertion by key bytes: behind every entry it does not precede. */
  function Inserted(e: Entry, sorted: seq<Entry>): seq<Entry> {
    if sorted == [] then [e]
    else if Less(KeyBytes(e), KeyBytes(sorted[|sorted| - 1])) then
      Inserted(e, sorted[..|sorted| - 1]) + [sorted[|sorted| - 1]]
    else sorted + [e]
  }

  function SortedByKey(entries: seq<Entry>): seq<Entry> {
    if entries == [] then [] else Inserted(entries[|entries| - 1], SortedByKey(entries[..|entries| - 1]))
  }

  /** Every map's entries put in the byte order of their encoded canonical keys. */
  function Shape(v: Value): Value {
    match v
    case Array(items) => Array(ShapeAll(items))
    case Map(entries) => Map(SortedByKey(ShapeEntries(entries)))
    case other => other
  }

  function ShapeAll(items: seq<Value>): seq<Value> {
    if items == [] then [] else [Shape(items[0])] + ShapeAll(items[1..])
  }

  function ShapeEntry(e: Entry): Entry {
    Entry(Shape(e.key), Shape(e.item))
  }

  function ShapeEntries(entries: seq<Entry>): seq<Entry> {
    if entries == [] then [] else [ShapeEntry(entries[0])] + ShapeEntries(entries[1..])
  }

  /** `canonicalize` fails exactly on a float, anywhere, and otherwise gives the sorted form. */
  function CanonicalForm(v: Value): Result<Value, CanonError> {
    if FloatFree(v) then Ok(Shape(v)) else Err(FloatRefused)
  }

  /** `to_vec`. */
  function CanonicalBytes(v: Value): Result<seq<Byte>, CanonError> {
    if FloatFree(v) then Ok(Encode(Shape(v))) else Err(FloatRefused)
  }

  // ----- the recursion and loops of the source -----

  lemma {:induction false} ShapeAllAt(items: seq<Value>)
    ensures |ShapeAll(items)| == |items| && forall i :: 0 <= i < |items| ==> ShapeAll(items)[i] == Shape(items[i])
  {
    if items != [] {
      hide Shape;
      ShapeAllAt(items[1..]);
    }
  }

  lemma {:induction false} ShapeEntriesAt(entries: seq<Entry>)
    ensures |ShapeEntries(entries)| == |entries|
    ensures forall i :: 0 <= i < |entries| ==> ShapeEntries(entries)[i] == ShapeEntry(entries[i])
  {
    if entries != [] {
      hide ShapeEntry;
      ShapeEntriesAt(entries[1..]);
    }
  }

  datatype Keyed = Keyed(bytes: seq<Byte>, entry: Entry)

  ghost predicate KeyedRight(keyed: seq<Keyed>) {
    forall i :: 0 <= i < |keyed| ==> keyed[i].bytes == KeyBytes(keyed[i].entry)
  }

  function EntriesOf(keyed: seq<Keyed>): (r: seq<Entry>)
    ensures |r| == |keyed| && forall i :: 0 <= i < |keyed| ==> r[i] == keyed[i].entry
  {
    seq(|keyed|, i requires 0 <= i < |keyed| => keyed[i].entry)
  }

  lemma InsertedSplit(e: Entry, sorted: seq<Entry>, p: nat)
    requires p < |sorted| && Less(KeyBytes(e), KeyBytes(sorted[p]))
    ensures Inserted(e, sorted[..p + 1]) == Inserted(e, sorted[..p]) + [sorted[p]]
  {
    assert sorted[..p + 1][..p] == sorted[..p];
  }

  /** Behind every entry the new one does not precede, looking from the back. */
  method Insert(k: Keyed, sorted: seq<Keyed>) returns (r: seq<Keyed>)
    requires KeyedRight(sorted) && k.bytes == KeyBytes(k.entry)
    ensures KeyedRight(r) && EntriesOf(r) == Inserted(k.entry, EntriesOf(sorted))
  {
    hide KeyBytes, Less, Inserted;
    var p := |sorted|;
    ghost var all := EntriesOf(sorted);
    assert all[..|all|] == all && all[|all|..] == [];
    while p > 0 && Less(k.bytes, sorted[p - 1].bytes)
      invariant 0 <= p <= |sorted|
      invariant Inserted(k.entry, all) == Inserted(k.entry, all[..p]) + all[p..]
    {
      p := p - 1;
      InsertedSplit(k.entry, all, p);
      assert all[p..] == [all[p]] + all[p + 1..];
    }
    r := sorted[..p] + [k] + sorted[p..];
    InsertedBehind(k.entry, all[..p]);
    PlacedAt(k, sorted, p);
  }

  lemma PlacedAt(k: Keyed, sorted: seq<Keyed>, p: nat)
    requires p <= |sorted| && KeyedRight(sorted) && k.bytes == KeyBytes(k.entry)
    ensures KeyedRight(sorted[..p] + [k] + sorted[p..])
    ensures EntriesOf(sorted[..p] + [k] + sorted[p..]) == EntriesOf(sorted)[..p] + [k.entry] + EntriesOf(sorted)[p..]
  {
    hide KeyBytes;
  }

  lemma InsertedBehind(e: Entry, sorted: seq<Entry>)
    ensures sorted == [] || !Less(KeyBytes(e), KeyBytes(sorted[|sorted| - 1])) ==> Inserted(e, sorted) == sorted + [e]
  {
  }

  /** `sort_by` on the key bytes, stable. */
  method SortKeyed(keyed: seq<Keyed>) returns (sorted: seq<Keyed>)
    requires KeyedRight(keyed)
    ensures EntriesOf(sorted) == SortedByKey(EntriesOf(keyed))
  {
    hide Inserted, KeyBytes;
    sorted := [];
    ghost var all := EntriesOf(keyed);
    for n := 0 to |keyed|
      invariant KeyedRight(sorted) && EntriesOf(sorted) == SortedByKey(all[..n])
    {
      assert all[..n + 1][..n] == all[..n];
      sorted := Insert(keyed[n], sorted);
    }
    assert all[..|keyed|] == all;
  }

  method CanonicalizeAll(items: seq<Value>) returns (r: Result<seq<Value>, CanonError>)
    ensures r == if (forall item :: item in items ==> FloatFree(item)) then Ok(ShapeAll(items)) else Err(FloatRefused)
    decreases items, 0
  {
    hide Shape, FloatFree;
    ShapeAllAt(items);
    var out := [];
    for i := 0 to |items|
      invariant |out| == i && forall k :: 0 <= k < i ==> FloatFree(items[k]) && out[k] == Shape(items[k])
    {
      var item := Canonicalize(items[i]);
      if item.Err? {
        assert items[i] in items;
        return Err(item.error);
      }
      out := out + [item.value];
    }
    assert out == ShapeAll(items);
    r := Ok(out);
  }

  method CanonicalizeEntry(e: Entry) returns (r: Result<Entry, CanonError>)
    ensures r == if FloatFree(e.key) && FloatFree(e.item) then Ok(ShapeEntry(e)) else Err(FloatRefused)
    decreases e, 0
  {
    hide FloatFree, Shape;
    var key := Canonicalize(e.key);
    if key.Err? {
      return Err(key.error);
    }
    var item := Canonicalize(e.item);
    if item.Err? {
      return Err(item.error);
    }
    r := Ok(Entry(key.value, item.value));
  }

  /** Every entry canonicalized, with its key's bytes beside it. */
  method KeyEntries(entries: seq<Entry>) returns (r: Result<seq<Keyed>, CanonError>)
    ensures r.Ok? <==> FloatFree(Map(entries))
    ensures r.Err? ==> r == Err(FloatRefused)
    ensures r.Ok? ==> KeyedRight(r.value) && EntriesOf(r.value) == ShapeEntries(entries)
    decreases entries, 0
  {
    hide Encode, FloatFree, KeyBytes, ShapeEntry, ShapeEntries;
    ShapeEntriesAt(entries);
    var keyed: seq<Keyed> := [];
    for i := 0 to |entries|
      invariant |keyed| == i && KeyedRight(keyed)
      invariant forall k :: 0 <= k < i ==> FloatFree(entries[k].key) && FloatFree(entries[k].item)
      invariant forall k :: 0 <= k < i ==> keyed[k].entry == ShapeEntry(entries[k])
    {
      var entry := CanonicalizeEntry(entries[i]);
      if entry.Err? {
        FloatInside(entries, i);
        return Err(entry.error);
      }
      keyed := keyed + [KeyedEntry(entry.value)];
    }
    NoFloatInside(entries);
    assert EntriesOf(keyed) == ShapeEntries(entries);
    r := Ok(keyed);
  }

  function KeyedEntry(entry: Entry): (k: Keyed)
    ensures k.entry == entry && k.bytes == KeyBytes(entry)
  {
    Keyed(Encode(entry.key), entry)
  }

  /** `canonicalize`. */
  method Canonicalize(value: Value) returns (r: Result<Value, CanonError>)
    ensures r == CanonicalForm(value)
    decreases value, 1
  {
    match value {
      case Float(_) => r := Err(FloatRefused);
      case Array(items) =>
        var shaped := CanonicalizeAll(items);
        r := if shaped.Ok? then Ok(Array(shaped.value)) else Err(shaped.error);
      case Map(entries) =>
        hide FloatFree, SortedByKey, ShapeEntries;
        var keyed := KeyEntries(entries);
        if keyed.Err? {
          return Err(keyed.error);
        }
        var sorted := SortKeyed(keyed.value);
        r := Ok(Map(EntriesOf(sorted)));
      case other => r := Ok(other);
    }
  }

  lemma FloatInside(entries: seq<Entry>, i: nat)
    requires i < |entries| && !(FloatFree(entries[i].key) && FloatFree(entries[i].item))
    ensures !FloatFree(Map(entries))
  {
    assert entries[i] in entries;
  }

  lemma NoFloatInside(entries: seq<Entry>)
    requires forall k :: 0 <= k < |entries| ==> FloatFree(entries[k].key) && FloatFree(entries[k].item)
    ensures FloatFree(Map(entries))
  {
  }
}
