/** What is asked of a value is asked of every value inside it, and of nothing else. */
module Values {
  import opened Cbor

  /** The value itself, or one at any depth of its arrays and maps. */
  ghost predicate Inside(x: Value, v: Value)
    decreases v
  {
    || x == v
    || match v
       case Array(items) => exists i | 0 <= i < |items| :: Inside(x, items[i])
       case Map(entries) => exists i | 0 <= i < |entries| :: InsideEntry(x, entries[i])
       case _ => false
  }

  ghost predicate InsideEntry(x: Value, e: Entry)
    decreases e
  {
    Inside(x, e.key) || Inside(x, e.item)
  }

  /** A value has no float exactly when nothing inside it is one. */
  lemma {:induction false} FloatFreeExactly(v: Value)
    ensures FloatFree(v) <==> forall x | Inside(x, v) :: !x.Float?
  {
    match v {
      case Array(items) =>
        forall i | 0 <= i < |items| ensures FloatFree(items[i]) <==> forall x | Inside(x, items[i]) :: !x.Float? {
          FloatFreeExactly(items[i]);
        }
        assert forall i | 0 <= i < |items| :: items[i] in items;
        assert forall i, x | 0 <= i < |items| && Inside(x, items[i]) :: Inside(x, v);
      case Map(entries) =>
        forall i | 0 <= i < |entries|
          ensures FloatFree(entries[i].key) && FloatFree(entries[i].item) <==>
            forall x | InsideEntry(x, entries[i]) :: !x.Float?
        {
          FloatFreeExactly(entries[i].key);
          FloatFreeExactly(entries[i].item);
        }
        hide InsideEntry;
        assert forall i | 0 <= i < |entries| :: entries[i] in entries;
        assert forall i, x | 0 <= i < |entries| && InsideEntry(x, entries[i]) :: Inside(x, v);
      case _ =>
    }
  }

  /** An integer of 65 bits with its sign, a text that is one, and lengths of a machine word. */
  predicate Ordinary(x: Value) {
    match x
    case Int(n) => -0x1_0000_0000_0000_0000 <= n <= 0xFFFF_FFFF_FFFF_FFFF
    case Bytes(b) => |b| <= 0xFFFF_FFFF_FFFF_FFFF
    case Text(b) => |b| <= 0xFFFF_FFFF_FFFF_FFFF && ValidUtf8(b)
    case Array(items) => |items| <= 0xFFFF_FFFF_FFFF_FFFF
    case Map(entries) => |entries| <= 0xFFFF_FFFF_FFFF_FFFF
    case Bool(_) => true
    case Null => true
    case Float(_) => true
  }

  /** A value fits exactly when everything inside it is ordinary. */
  lemma {:induction false} FitsExactly(v: Value)
    ensures Fits(v) <==> forall x | Inside(x, v) :: Ordinary(x)
  {
    assert Inside(v, v);
    match v {
      case Array(items) =>
        forall i | 0 <= i < |items| ensures Fits(items[i]) <==> forall x | Inside(x, items[i]) :: Ordinary(x) {
          FitsExactly(items[i]);
        }
        assert forall i | 0 <= i < |items| :: items[i] in items;
        assert forall i, x | 0 <= i < |items| && Inside(x, items[i]) :: Inside(x, v);
      case Map(entries) =>
        forall i | 0 <= i < |entries|
          ensures Fits(entries[i].key) && Fits(entries[i].item) <==>
            forall x | InsideEntry(x, entries[i]) :: Ordinary(x)
        {
          FitsExactly(entries[i].key);
          FitsExactly(entries[i].item);
        }
        hide InsideEntry;
        assert forall i | 0 <= i < |entries| :: entries[i] in entries;
        assert forall i, x | 0 <= i < |entries| && InsideEntry(x, entries[i]) :: Inside(x, v);
      case _ =>
    }
  }
}
