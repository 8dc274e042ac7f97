/** What the canonical form keeps of a value, and reading its bytes back. */
module ReadBack {
  import opened Options
  import opened Cbor
  import opened Canonical
  import opened KeyOrder

  lemma ShapedEntry(entries: seq<Entry>, y: Entry)
    ensures y in SortedByKey(ShapeEntries(entries)) <==> exists x | x in entries :: y == ShapeEntry(x)
  {
    SortedEntries(ShapeEntries(entries));
    ShapeEntriesAt(entries);
    hide ShapeEntry;
    if y in ShapeEntries(entries) {
      var i :| 0 <= i < |entries| && ShapeEntries(entries)[i] == y;
      assert entries[i] in entries;
    }
    if x :| x in entries && y == ShapeEntry(x) {
      var i :| 0 <= i < |entries| && entries[i] == x;
      assert ShapeEntries(entries)[i] == y;
    }
  }

  /** The shape is as free of floats as the value, and fits when it does. */
  ghost predicate Keeps(shape: Value, v: Value) {
    (FloatFree(v) ==> FloatFree(shape)) && (Fits(v) ==> Fits(shape))
  }

  lemma ShapeKeepsEntries(es: seq<Entry>)
    requires forall x | x in es :: Keeps(Shape(x.key), x.key) && Keeps(Shape(x.item), x.item)
    ensures Keeps(Map(SortedByKey(ShapeEntries(es))), Map(es))
  {
    var sorted := SortedByKey(ShapeEntries(es));
    SortedEntries(ShapeEntries(es));
    ShapeEntriesAt(es);
    hide SortedByKey, ShapeEntries, Shape;
    forall y | y in sorted
      ensures FloatFree(Map(es)) ==> FloatFree(y.key) && FloatFree(y.item)
      ensures Fits(Map(es)) ==> Fits(y.key) && Fits(y.item)
    {
      ShapedEntry(es, y);
      var x :| x in es && y == ShapeEntry(x);
      assert Keeps(y.key, x.key) && Keeps(y.item, x.item);
    }
  }

  lemma {:induction false} ShapeKeepsAt(v: Value)
    ensures Keeps(Shape(v), v)
  {
    match v {
      case Array(xs) =>
        ShapeAllAt(xs);
        forall i | 0 <= i < |xs| ensures Keeps(ShapeAll(xs)[i], xs[i]) { ShapeKeepsAt(xs[i]); }
      case Map(es) =>
        forall x | x in es ensures Keeps(Shape(x.key), x.key) && Keeps(Shape(x.item), x.item) {
          ShapeKeepsAt(x.key);
          ShapeKeepsAt(x.item);
        }
        hide Keeps;
        ShapeKeepsEntries(es);
      case _ =>
    }
  }

  lemma ShapeKeeps(v: Value)
    ensures FloatFree(v) ==> FloatFree(Shape(v))
    ensures Fits(v) ==> Fits(Shape(v))
  {
    ShapeKeepsAt(v);
  }

  lemma {:induction false} DepthOfAllIs(items: seq<Value>, d: nat)
    ensures DepthOfAll(items) <= d <==> forall x :: x in items ==> Depth(x) <= d
  {
    if items != [] {
      hide Depth;
      assert items[0] in items && forall x :: x in items <==> x == items[0] || x in items[1..];
      DepthOfAllIs(items[1..], d);
    }
  }

  lemma {:induction false} DepthOfEntriesIs(entries: seq<Entry>, d: nat)
    ensures DepthOfEntries(entries) <= d <==> forall e :: e in entries ==> DepthOfEntry(e) <= d
  {
    if entries != [] {
      hide DepthOfEntry;
      assert entries[0] in entries && forall x :: x in entries <==> x == entries[0] || x in entries[1..];
      DepthOfEntriesIs(entries[1..], d);
    }
  }

  lemma SameDepthAll(xs: seq<Value>, ys: seq<Value>)
    requires |xs| == |ys| && forall i | 0 <= i < |xs| :: Depth(xs[i]) == Depth(ys[i])
    ensures DepthOfAll(xs) <= DepthOfAll(ys)
  {
    hide Depth;
    DepthOfAllIs(xs, DepthOfAll(ys));
    DepthOfAllIs(ys, DepthOfAll(ys));
    forall x | x in xs ensures Depth(x) <= DepthOfAll(ys) {
      var i :| 0 <= i < |xs| && xs[i] == x;
      assert ys[i] in ys;
    }
  }

  lemma ShapeDepthOfEntries(es: seq<Entry>)
    requires forall x | x in es :: DepthOfEntry(ShapeEntry(x)) == DepthOfEntry(x)
    ensures DepthOfEntries(SortedByKey(ShapeEntries(es))) == DepthOfEntries(es)
  {
    var sorted := SortedByKey(ShapeEntries(es));
    hide DepthOfEntry, ShapeEntry, SortedByKey, ShapeEntries, DepthOfEntries;
    DepthOfEntriesIs(es, DepthOfEntries(es));
    DepthOfEntriesIs(sorted, DepthOfEntries(sorted));
    forall y | y in sorted ensures DepthOfEntry(y) <= DepthOfEntries(es) {
      ShapedEntry(es, y);
    }
    forall x | x in es ensures DepthOfEntry(x) <= DepthOfEntries(sorted) {
      ShapedEntry(es, ShapeEntry(x));
      assert ShapeEntry(x) in sorted;
    }
    DepthOfEntriesIs(sorted, DepthOfEntries(es));
    DepthOfEntriesIs(es, DepthOfEntries(sorted));
  }

  lemma {:induction false} ShapeDepth(v: Value)
    ensures Depth(Shape(v)) == Depth(v)
  {
    match v {
      case Array(xs) =>
        ShapeAllAt(xs);
        forall i | 0 <= i < |xs| ensures Depth(ShapeAll(xs)[i]) == Depth(xs[i]) { ShapeDepth(xs[i]); }
        SameDepthAll(xs, ShapeAll(xs));
        SameDepthAll(ShapeAll(xs), xs);
      case Map(es) =>
        forall x | x in es ensures DepthOfEntry(ShapeEntry(x)) == DepthOfEntry(x) {
          ShapeDepth(x.key);
          ShapeDepth(x.item);
        }
        hide DepthOfEntry, ShapeEntry, SortedByKey, ShapeEntries;
        ShapeDepthOfEntries(es);
      case _ =>
    }
  }

  /** Reading canonical bytes gives the canonical value and leaves what follows; a value nested
      deeper than the reader allows is refused. */
  lemma CanonicalReadsBack(v: Value, limit: nat, rest: seq<Byte>)
    requires Fits(v) && FloatFree(v)
    ensures Decode(limit, CanonicalBytes(v).value + rest)
      == if Depth(v) <= limit then Some(Read(CanonicalForm(v).value, rest)) else None
  {
    hide Shape, Encode, Decode, Depth;
    ShapeKeeps(v);
    ShapeDepth(v);
    DecodeEncode(limit, Shape(v), rest);
  }
}
