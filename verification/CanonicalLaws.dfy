/** What the canonical form is good for: two values have the same bytes exactly when they are
    equal up to the order of map entries. */
module CanonicalLaws {
  import opened Options
  import opened Cbor
  import opened Canonical
  import opened KeyOrder
  import opened ReadBack
  import opened Sameness

  /** The canonical form is the value but for the order of map entries. */
  lemma {:induction false} ShapeSame(v: Value)
    ensures Same(v, Shape(v))
  {
    match v {
      case Array(xs) =>
        ShapeAllAt(xs);
        forall i | 0 <= i < |xs| ensures Same(xs[i], ShapeAll(xs)[i]) { ShapeSame(xs[i]); }
      case Map(es) =>
        var shaped := ShapeEntries(es);
        ShapeEntriesAt(es);
        SortRearranges(shaped);
        forall i | 0 <= i < |es| ensures SameEntry(es[i], shaped[i]) {
          ShapeSame(es[i].key);
          ShapeSame(es[i].item);
        }
        PairUp(es, shaped, SortedByKey(shaped));
      case _ =>
    }
  }

  // ----- the canonical form is sorted, and only sorted values are canonical -----

  /** At every depth, map keys are in the byte order of their encodings. */
  ghost predicate Ascending(v: Value) {
    match v
    case Array(xs) => forall x | x in xs :: Ascending(x)
    case Map(es) => Ascends(es) && forall e | e in es :: Ascending(e.key) && Ascending(e.item)
    case _ => true
  }

  lemma {:induction false} ShapeAscends(v: Value)
    ensures Ascending(Shape(v))
  {
    match v {
      case Array(xs) =>
        ShapeAllAt(xs);
        forall i | 0 <= i < |xs| ensures Ascending(ShapeAll(xs)[i]) { ShapeAscends(xs[i]); }
      case Map(es) =>
        SortAscends(ShapeEntries(es));
        forall y | y in SortedByKey(ShapeEntries(es)) ensures Ascending(y.key) && Ascending(y.item) {
          ShapedEntry(es, y);
          var x :| x in es && y == ShapeEntry(x);
          ShapeAscends(x.key);
          ShapeAscends(x.item);
        }
      case _ =>
    }
  }

  lemma {:induction false} AscendingIsFixed(v: Value)
    requires Ascending(v)
    ensures Shape(v) == v
  {
    match v {
      case Array(xs) =>
        ShapeAllAt(xs);
        forall i | 0 <= i < |xs| ensures ShapeAll(xs)[i] == xs[i] {
          assert xs[i] in xs;
          AscendingIsFixed(xs[i]);
        }
        assert ShapeAll(xs) == xs;
      case Map(es) =>
        ShapeEntriesAt(es);
        forall i | 0 <= i < |es| ensures ShapeEntries(es)[i] == es[i] {
          assert es[i] in es;
          AscendingIsFixed(es[i].key);
          AscendingIsFixed(es[i].item);
        }
        assert ShapeEntries(es) == es;
        SortFixes(es);
      case _ =>
    }
  }

  /** A value is its own canonical form exactly when it holds no float and its map keys ascend
      at every depth; so canonicalizing twice is canonicalizing once. */
  lemma CanonicalIsSorted(v: Value)
    ensures CanonicalForm(v) == Ok(v) <==> FloatFree(v) && Ascending(v)
    ensures CanonicalForm(v).Ok? ==> CanonicalForm(CanonicalForm(v).value) == CanonicalForm(v)
  {
    hide Shape, Ascending, FloatFree;
    ShapeAscends(v);
    ShapeKeeps(v);
    if Ascending(v) {
      AscendingIsFixed(v);
    }
    AscendingIsFixed(Shape(v));
  }

  // ----- bytes -----

  lemma ShapeWithout(s: seq<Entry>, k: nat)
    requires k < |s|
    ensures |ShapeEntries(s)| == |s| && ShapeEntries(s)[k] == ShapeEntry(s[k])
    ensures ShapeEntries(Without(s, k)) == Without(ShapeEntries(s), k)
  {
    ShapeEntriesAt(s);
    ShapeEntriesAt(Without(s, k));
    hide ShapeEntry, ShapeEntries, Without;
    forall i | 0 <= i < |s| - 1 ensures ShapeEntries(Without(s, k))[i] == Without(ShapeEntries(s), k)[i] {
      WithoutAt(s, k, i);
      WithoutAt(ShapeEntries(s), k, i);
    }
  }

  lemma WithoutAt(s: seq<Entry>, k: nat, i: nat)
    requires k < |s| && i < |s| - 1
    ensures Without(s, k)[i] == if i < k then s[i] else s[i + 1]
  {
  }

  lemma ShapeFirst(s: seq<Entry>)
    requires s != []
    ensures ShapeEntries(s) == [ShapeEntry(s[0])] + ShapeEntries(s[1..])
  {
    hide ShapeEntry;
  }

  lemma {:induction false} ShapesRearranged(gs: seq<Entry>, fs: seq<Entry>)
    requires Rearranged(gs, fs)
    ensures Rearranged(ShapeEntries(gs), ShapeEntries(fs))
  {
    assert |gs| == |multiset(gs)| == |multiset(fs)| == |fs|;
    if gs != [] {
      hide ShapeEntry, ShapeEntries, Without;
      var k := TookFirst(gs, fs);
      ShapesRearranged(gs[1..], Without(fs, k));
      ShapeWithout(fs, k);
      ShapeFirst(gs);
    }
  }

  /** Values that are the same have one canonical form, where repeated keys agree. */
  lemma {:induction false} SameShapes(a: Value, b: Value)
    requires Same(a, b) && Consistent(a) && Fits(a) && FloatFree(a)
    ensures Shape(a) == Shape(b)
  {
    match a {
      case Array(xs) =>
        ShapeAllAt(xs);
        ShapeAllAt(b.items);
        forall i | 0 <= i < |xs| ensures ShapeAll(xs)[i] == ShapeAll(b.items)[i] {
          assert xs[i] in xs;
          SameShapes(xs[i], b.items[i]);
        }
        assert ShapeAll(xs) == ShapeAll(b.items);
      case Map(es) =>
        forall x, y | x in es && SameEntry(x, y) ensures ShapeEntry(x) == ShapeEntry(y) {
          SameShapes(x.key, y.key);
          SameShapes(x.item, y.item);
        }
        forall x, y | x in es && y in es && Same(x.item, y.item) ensures Shape(x.item) == Shape(y.item) {
          SameShapes(x.item, y.item);
        }
        OneShapeUnderEach(es);
        hide Fits, FloatFree, Consistent, ShapeEntry, ShapeEntries, SortedByKey, SameEntry, SameEntries, OneUnderEach;
        SameSorted(es, b.entries);
      case _ =>
    }
  }

  /** Keys of one canonical form are the same, and so are the items they stand before. */
  lemma OneShapeUnderEach(es: seq<Entry>)
    requires Fits(Map(es)) && FloatFree(Map(es)) && Consistent(Map(es))
    requires forall x, y | x in es && y in es && Same(x.item, y.item) :: Shape(x.item) == Shape(y.item)
    ensures OneUnderEach(ShapeEntries(es))
  {
    var shaped := ShapeEntries(es);
    ShapeEntriesAt(es);
    hide ShapeEntries;
    forall x, y | x in shaped && y in shaped && KeyBytes(x) == KeyBytes(y) ensures x == y {
      var i :| 0 <= i < |shaped| && shaped[i] == x;
      var j :| 0 <= j < |shaped| && shaped[j] == y;
      assert es[i] in es && es[j] in es;
      hide Encode, Same, Shape, Fits, FloatFree;
      SameBytesAreSame(es[i].key, es[j].key);
      ShapeKeeps(es[i].key);
      ShapeKeeps(es[j].key);
      EncodeInjective(x.key, y.key, [], []);
    }
  }

  lemma SameSorted(es: seq<Entry>, fs: seq<Entry>)
    requires SameEntries(es, fs) && OneUnderEach(ShapeEntries(es))
    requires forall x, y | x in es && SameEntry(x, y) :: ShapeEntry(x) == ShapeEntry(y)
    ensures SortedByKey(ShapeEntries(es)) == SortedByKey(ShapeEntries(fs))
  {
    var gs :| Rearranged(gs, fs) && Paired(es, gs);
    ShapeEntriesAt(es);
    ShapeEntriesAt(gs);
    hide ShapeEntry, ShapeEntries, SortedByKey, SameEntry;
    forall i | 0 <= i < |es| ensures ShapeEntries(es)[i] == ShapeEntries(gs)[i] {
      assert es[i] in es && SameEntry(es[i], gs[i]);
    }
    assert ShapeEntries(es) == ShapeEntries(gs);
    ShapesRearranged(gs, fs);
    OneSorted(ShapeEntries(es), ShapeEntries(fs));
  }

  lemma OneSorted(s: seq<Entry>, t: seq<Entry>)
    requires Rearranged(s, t) && OneUnderEach(s)
    ensures SortedByKey(s) == SortedByKey(t)
  {
    SortRearranges(s);
    SortRearranges(t);
    SortAscends(s);
    SortAscends(t);
    SortedEntries(s);
    hide SortedByKey, Ascends, KeyBytes;
    OneAscendingList(SortedByKey(s), SortedByKey(t));
  }

  /** Equal canonical bytes mean equal values, repeats or not. */
  lemma SameBytesAreSame(a: Value, b: Value)
    requires Fits(a) && FloatFree(a) && Fits(b) && FloatFree(b)
    requires CanonicalBytes(a) == CanonicalBytes(b)
    ensures Same(a, b)
  {
    hide Shape, Encode, Same, Fits;
    ShapeKeeps(a);
    ShapeKeeps(b);
    EncodeInjective(Shape(a), Shape(b), [], []);
    ShapeSame(a);
    ShapeSame(b);
    SameSymmetric(b, Shape(b));
    SameTransitive(a, Shape(a), b);
  }

  /** Canonical bytes decide equality: two values without floats, one of them with no repeated
      key that disagrees with itself, have the same bytes exactly when they are equal up to the
      order of map entries at every depth. */
  lemma BytesDecideEquality(a: Value, b: Value)
    requires Fits(a) && FloatFree(a) && Consistent(a) && Fits(b) && FloatFree(b)
    ensures CanonicalBytes(a) == CanonicalBytes(b) <==> Same(a, b)
  {
    hide Shape, Encode, Same, Fits, Consistent;
    if CanonicalBytes(a) == CanonicalBytes(b) {
      SameBytesAreSame(a, b);
    }
    if Same(a, b) {
      SameShapes(a, b);
    }
  }

  // ----- where a repeated key disagrees with itself -----

  /** Another order of the entries, with another canonical form. */
  ghost predicate Reorders(w: Value, v: Value) {
    Same(v, w) && Shape(w) != Shape(v)
  }

  lemma ReordersIn(xs: seq<Value>, i: nat, w: Value)
    requires i < |xs| && Reorders(w, xs[i])
    ensures Reorders(Array(xs[i := w]), Array(xs))
  {
    var ys := xs[i := w];
    ShapeAllAt(xs);
    ShapeAllAt(ys);
    forall k | 0 <= k < |xs| ensures Same(xs[k], ys[k]) {
      SameReflexive(xs[k]);
    }
    assert SameAll(xs, ys);
    assert ShapeAll(xs)[i] != ShapeAll(ys)[i];
  }

  lemma PairedInstead(es: seq<Entry>, i: nat, f: Entry)
    requires i < |es| && SameEntry(es[i], f)
    ensures Paired(es, es[i := f])
  {
    forall k | 0 <= k < |es| ensures SameEntry(es[k], es[i := f][k]) {
      SameReflexive(es[k].key);
      SameReflexive(es[k].item);
    }
  }

  /** One entry exchanged for one that is the same and has another canonical form. */
  lemma ReordersEntry(es: seq<Entry>, i: nat, f: Entry)
    requires i < |es| && SameEntry(es[i], f) && ShapeEntry(f) != ShapeEntry(es[i])
    ensures Reorders(Map(es[i := f]), Map(es))
  {
    var fs := es[i := f];
    hide ShapeEntry, SortedByKey, SameEntry, Paired;
    PairedInstead(es, i, f);
    PairUp(es, fs, fs);
    ShapeEntriesAt(es);
    ShapeEntriesAt(fs);
    var s := ShapeEntries(es);
    hide ShapeEntries;
    assert ShapeEntries(fs) == s[i := ShapeEntry(f)];
    ChangeShows(s, i, ShapeEntry(f));
  }

  lemma ChangeShows(s: seq<Entry>, i: nat, e: Entry)
    requires i < |s| && e != s[i]
    ensures SortedByKey(s[i := e]) != SortedByKey(s)
  {
    hide SortedByKey;
    assert multiset(s[i := e]) == multiset(s) - multiset{s[i]} + multiset{e};
    assert multiset(s[i := e])[e] == multiset(s)[e] + 1;
    SortRearranges(s);
    SortRearranges(s[i := e]);
  }

  function Swapped(s: seq<Entry>, i: nat, j: nat): seq<Entry>
    requires i < j < |s|
  {
    s[i := s[j]][j := s[i]]
  }

  lemma SwappedParts(s: seq<Entry>, i: nat, j: nat)
    requires i < j < |s|
    ensures s == s[..i] + ([s[i]] + (s[i + 1..j] + ([s[j]] + s[j + 1..])))
    ensures Swapped(s, i, j) == s[..i] + ([s[j]] + (s[i + 1..j] + ([s[i]] + s[j + 1..])))
  {
  }

  lemma SwapRearranges(s: seq<Entry>, i: nat, j: nat)
    requires i < j < |s|
    ensures Rearranged(s, Swapped(s, i, j))
  {
    SwappedParts(s, i, j);
    hide Swapped;
    assert multiset(s) == multiset(Swapped(s, i, j));
  }

  /** Two entries of one key that change places change places in the sorted list too. */
  lemma SwapShows(s: seq<Entry>, i: nat, j: nat)
    requires i < j < |s| && KeyBytes(s[i]) == KeyBytes(s[j]) && s[i] != s[j]
    ensures SortedByKey(s) != SortedByKey(Swapped(s, i, j))
  {
    var k := KeyBytes(s[i]);
    SwappedParts(s, i, j);
    UnderOne(k, s[i]);
    UnderOne(k, s[j]);
    SortedUnder(k, s);
    SortedUnder(k, Swapped(s, i, j));
    hide Swapped, SortedByKey, KeyBytes, Under;
    UnderJoin(k, s[..i], [s[i]] + (s[i + 1..j] + ([s[j]] + s[j + 1..])));
    UnderJoin(k, s[..i], [s[j]] + (s[i + 1..j] + ([s[i]] + s[j + 1..])));
    UnderJoin(k, [s[i]], s[i + 1..j] + ([s[j]] + s[j + 1..]));
    UnderJoin(k, [s[j]], s[i + 1..j] + ([s[i]] + s[j + 1..]));
    var at := |Under(k, s[..i])|;
    assert Under(k, s)[at] == s[i] && Under(k, Swapped(s, i, j))[at] == s[j];
  }

  lemma ReordersSwapped(es: seq<Entry>, i: nat, j: nat)
    requires i < j < |es| && Shape(es[i].key) == Shape(es[j].key) && Shape(es[i].item) != Shape(es[j].item)
    ensures Reorders(Map(Swapped(es, i, j)), Map(es))
  {
    var fs := Swapped(es, i, j);
    SwapRearranges(es, i, j);
    assert Paired(es, es) by {
      forall k | 0 <= k < |es| ensures SameEntry(es[k], es[k]) {
        SameReflexive(es[k].key);
        SameReflexive(es[k].item);
      }
    }
    PairUp(es, es, fs);
    ShapeEntriesAt(es);
    ShapeEntriesAt(fs);
    hide SameEntry, Paired, Rearranged;
    assert ShapeEntries(fs) == Swapped(ShapeEntries(es), i, j);
    hide Encode, SortedByKey, Same, ShapeEntries;
    SwapShows(ShapeEntries(es), i, j);
  }

  /** Children that are one by one free of the defect, and two entries whose keys are the same
      and whose items are not. */
  lemma Disagreement(es: seq<Entry>, x: Entry, y: Entry) returns (w: Value)
    requires Fits(Map(es)) && FloatFree(Map(es)) && x in es && y in es && Consistent(x.key)
    requires Same(x.key, y.key) && !Same(x.item, y.item)
    ensures Reorders(w, Map(es))
  {
    SameShapes(x.key, y.key);
    DifferentShapes(x.item, y.item);
    hide Shape, Same, Reorders;
    var i :| 0 <= i < |es| && es[i] == x;
    var j :| 0 <= j < |es| && es[j] == y;
    if i < j {
      ReordersSwapped(es, i, j);
      w := Map(Swapped(es, i, j));
    } else {
      ReordersSwapped(es, j, i);
      w := Map(Swapped(es, j, i));
    }
  }

  lemma DifferentShapes(x: Value, y: Value)
    requires !Same(x, y)
    ensures Shape(x) != Shape(y)
  {
    hide Same, Shape;
    ShapeSame(x);
    ShapeSame(y);
    SameSymmetric(y, Shape(y));
    if Shape(x) == Shape(y) {
      SameTransitive(x, Shape(x), y);
    }
  }

  /** A value in which a repeated key disagrees with itself can be reordered to other bytes. */
  lemma {:induction false} Reordering(v: Value) returns (w: Value)
    requires !Consistent(v) && Fits(v) && FloatFree(v)
    ensures Reorders(w, v)
  {
    hide Reorders, Same, Shape;
    match v {
      case Array(xs) =>
        var i :| 0 <= i < |xs| && !Consistent(xs[i]);
        assert xs[i] in xs;
        var inner := Reordering(xs[i]);
        ReordersIn(xs, i, inner);
        w := Array(xs[i := inner]);
      case Map(es) =>
        if i :| 0 <= i < |es| && !Consistent(es[i].key) {
          assert es[i] in es;
          var inner := Reordering(es[i].key);
          SameInner(es[i], Entry(inner, es[i].item));
          ReordersEntry(es, i, Entry(inner, es[i].item));
          w := Map(es[i := Entry(inner, es[i].item)]);
        } else if i :| 0 <= i < |es| && !Consistent(es[i].item) {
          assert es[i] in es;
          var inner := Reordering(es[i].item);
          SameInner(es[i], Entry(es[i].key, inner));
          ReordersEntry(es, i, Entry(es[i].key, inner));
          w := Map(es[i := Entry(es[i].key, inner)]);
        } else {
          var x, y :| x in es && y in es && Same(x.key, y.key) && !Same(x.item, y.item);
          w := Disagreement(es, x, y);
        }
    }
  }

  lemma SameInner(e: Entry, f: Entry)
    requires (f.key == e.key && Reorders(f.item, e.item)) || (f.item == e.item && Reorders(f.key, e.key))
    ensures SameEntry(e, f) && ShapeEntry(f) != ShapeEntry(e)
  {
    hide Same, Shape;
    SameReflexive(e.key);
    SameReflexive(e.item);
  }

  /** The bytes do not depend on the order of map entries exactly when entries under the same
      key always agree. */
  lemma OrderFreeExactly(v: Value)
    requires Fits(v) && FloatFree(v)
    ensures Consistent(v) <==> forall w | Same(v, w) :: CanonicalBytes(w) == CanonicalBytes(v)
  {
    hide Shape, Encode, Same, Fits, Consistent, FloatFree;
    if Consistent(v) {
      forall w | Same(v, w) ensures CanonicalBytes(w) == CanonicalBytes(v) {
        SameFits(v, w);
        SameShapes(v, w);
      }
    } else {
      var w := Reordering(v);
      SameFits(v, w);
      ShapeKeeps(v);
      ShapeKeeps(w);
      if CanonicalBytes(w) == CanonicalBytes(v) {
        EncodeInjective(Shape(w), Shape(v), [], []);
      }
    }
  }

  function Pair(k: Value, x: Value, y: Value): Value {
    Map([Entry(k, x), Entry(k, y)])
  }

  /** With a repeated key the bytes keep the order the entries came in. */
  lemma RepeatedKeysKeepOrder(k: Value, x: Value, y: Value)
    requires Fits(k) && FloatFree(k) && Fits(x) && FloatFree(x) && Fits(y) && FloatFree(y) && !Same(x, y)
    ensures Same(Pair(k, x, y), Pair(k, y, x)) && CanonicalBytes(Pair(k, x, y)) != CanonicalBytes(Pair(k, y, x))
  {
    var es := [Entry(k, x), Entry(k, y)];
    hide Encode, Same, Shape, Fits, FloatFree;
    DifferentShapes(x, y);
    ReordersSwapped(es, 0, 1);
    assert Swapped(es, 0, 1) == [Entry(k, y), Entry(k, x)];
    PairFits(k, x, y);
    PairFits(k, y, x);
    ShapeKeeps(Pair(k, x, y));
    ShapeKeeps(Pair(k, y, x));
    if Encode(Shape(Pair(k, x, y))) == Encode(Shape(Pair(k, y, x))) {
      EncodeInjective(Shape(Pair(k, x, y)), Shape(Pair(k, y, x)), [], []);
    }
  }

  lemma PairFits(k: Value, x: Value, y: Value)
    requires Fits(k) && FloatFree(k) && Fits(x) && FloatFree(x) && Fits(y) && FloatFree(y)
    ensures Fits(Pair(k, x, y)) && FloatFree(Pair(k, x, y))
  {
  }
}
