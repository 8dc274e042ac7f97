/** Equality of values up to the order of map entries, at every depth. */
module Sameness {
  import opened Cbor

  /** Equal, at every depth, but for the order of map entries. */
  ghost predicate Same(a: Value, b: Value)
    decreases a, 0
  {
    match a
    case Array(xs) => b.Array? && SameAll(xs, b.items)
    case Map(es) => b.Map? && SameEntries(es, b.entries)
    case _ => a == b
  }

  ghost predicate SameAll(xs: seq<Value>, ys: seq<Value>)
    decreases xs, 0
  {
    |xs| == |ys| && forall i | 0 <= i < |xs| :: Same(xs[i], ys[i])
  }

  /** The entries of one, rearranged, are one by one the same as those of the other. */
  ghost predicate SameEntries(es: seq<Entry>, fs: seq<Entry>)
    decreases es, 2
  {
    exists gs :: Rearranged(gs, fs) && Paired(es, gs)
  }

  ghost predicate Rearranged(gs: seq<Entry>, fs: seq<Entry>) {
    multiset(gs) == multiset(fs)
  }

  ghost predicate Paired(es: seq<Entry>, gs: seq<Entry>)
    decreases es, 1
  {
    |es| == |gs| && forall i | 0 <= i < |es| :: SameEntry(es[i], gs[i])
  }

  ghost predicate SameEntry(x: Entry, y: Entry)
    decreases x, 0
  {
    Same(x.key, y.key) && Same(x.item, y.item)
  }

  /** In every map, at any depth, entries whose keys are the same have the same items. */
  ghost predicate Consistent(v: Value) {
    match v
    case Array(xs) => forall x | x in xs :: Consistent(x)
    case Map(es) =>
      && (forall e | e in es :: Consistent(e.key) && Consistent(e.item))
      && (forall x, y | x in es && y in es :: Same(x.key, y.key) ==> Same(x.item, y.item))
    case _ => true
  }

  lemma PairUp(es: seq<Entry>, gs: seq<Entry>, fs: seq<Entry>)
    requires Rearranged(gs, fs) && Paired(es, gs)
    ensures SameEntries(es, fs)
  {
    hide Rearranged, Paired;
  }

  lemma {:induction false} SameReflexive(a: Value)
    ensures Same(a, a)
  {
    match a {
      case Array(xs) => forall i | 0 <= i < |xs| ensures Same(xs[i], xs[i]) { SameReflexive(xs[i]); }
      case Map(es) =>
        forall i | 0 <= i < |es| ensures SameEntry(es[i], es[i]) {
          SameReflexive(es[i].key);
          SameReflexive(es[i].item);
        }
        PairUp(es, es, es);
      case _ =>
    }
  }

  function Without(s: seq<Entry>, k: nat): (r: seq<Entry>)
    requires k < |s|
    ensures |r| == |s| - 1 && multiset(s) == multiset(r) + multiset{s[k]}
  {
    assert s == s[..k] + [s[k]] + s[k + 1..];
    assert multiset(s) == multiset(s[..k]) + multiset{s[k]} + multiset(s[k + 1..]);
    s[..k] + s[k + 1..]
  }

  lemma TookFirst(gs: seq<Entry>, fs: seq<Entry>) returns (k: nat)
    requires gs != [] && Rearranged(gs, fs)
    ensures k < |fs| && fs[k] == gs[0] && Rearranged(gs[1..], Without(fs, k))
  {
    assert gs == [gs[0]] + gs[1..];
    assert gs[0] in multiset(fs);
    k :| 0 <= k < |fs| && fs[k] == gs[0];
    assert multiset(gs[1..]) == multiset(gs) - multiset{gs[0]};
    assert multiset(Without(fs, k)) == multiset(fs) - multiset{fs[k]};
  }

  /** What one list is paired with can be rearranged along with it. */
  lemma {:induction false} RearrangedAlong(gs: seq<Entry>, fs: seq<Entry>, hs: seq<Entry>) returns (r: seq<Entry>)
    requires Rearranged(gs, fs) && Paired(fs, hs)
    ensures Rearranged(r, hs) && Paired(gs, r)
  {
    assert |gs| == |multiset(gs)| == |multiset(fs)| == |fs|;
    if gs == [] {
      r := [];
    } else {
      var k := TookFirst(gs, fs);
      assert SameEntry(gs[0], hs[k]);
      hide SameEntry;
      var rest := RearrangedAlong(gs[1..], Without(fs, k), Without(hs, k));
      r := [hs[k]] + rest;
      assert gs == [gs[0]] + gs[1..];
    }
  }

  lemma EntriesTurned(es: seq<Entry>, fs: seq<Entry>)
    requires SameEntries(es, fs)
    requires forall x, y | x in es && SameEntry(x, y) :: SameEntry(y, x)
    ensures SameEntries(fs, es)
  {
    var gs :| Rearranged(gs, fs) && Paired(es, gs);
    assert Paired(gs, es) by {
      hide SameEntry;
      forall i | 0 <= i < |es| ensures SameEntry(gs[i], es[i]) {
        assert es[i] in es && SameEntry(es[i], gs[i]);
      }
    }
    hide SameEntry, Paired;
    var r := RearrangedAlong(fs, gs, es);
    PairUp(fs, r, es);
  }

  lemma {:induction false} SameSymmetric(a: Value, b: Value)
    requires Same(a, b)
    ensures Same(b, a)
  {
    match a {
      case Array(xs) => forall i | 0 <= i < |xs| ensures Same(b.items[i], xs[i]) { SameSymmetric(xs[i], b.items[i]); }
      case Map(es) =>
        forall x, y | x in es && SameEntry(x, y) ensures SameEntry(y, x) {
          SameSymmetric(x.key, y.key);
          SameSymmetric(x.item, y.item);
        }
        hide SameEntry, SameEntries;
        EntriesTurned(es, b.entries);
      case _ =>
    }
  }

  lemma EntriesJoined(es: seq<Entry>, fs: seq<Entry>, gs: seq<Entry>)
    requires SameEntries(es, fs) && SameEntries(fs, gs)
    requires forall x, y, z | x in es && SameEntry(x, y) && SameEntry(y, z) :: SameEntry(x, z)
    ensures SameEntries(es, gs)
  {
    var paired :| Rearranged(paired, fs) && Paired(es, paired);
    var other :| Rearranged(other, gs) && Paired(fs, other);
    var r := RearrangedAlong(paired, fs, other);
    assert Paired(es, r) by {
      hide SameEntry;
      forall i | 0 <= i < |es| ensures SameEntry(es[i], r[i]) {
        assert es[i] in es && SameEntry(es[i], paired[i]) && SameEntry(paired[i], r[i]);
      }
    }
    hide SameEntry, Paired;
    PairUp(es, r, gs);
  }

  lemma {:induction false} SameTransitive(a: Value, b: Value, c: Value)
    requires Same(a, b) && Same(b, c)
    ensures Same(a, c)
  {
    match a {
      case Array(xs) =>
        forall i | 0 <= i < |xs| ensures Same(xs[i], c.items[i]) { SameTransitive(xs[i], b.items[i], c.items[i]); }
      case Map(es) =>
        forall x, y, z | x in es && SameEntry(x, y) && SameEntry(y, z) ensures SameEntry(x, z) {
          SameTransitive(x.key, y.key, z.key);
          SameTransitive(x.item, y.item, z.item);
        }
        hide SameEntry, SameEntries;
        EntriesJoined(es, b.entries, c.entries);
      case _ =>
    }
  }

  /** Each entry of one list has one in the other. */
  lemma Partner(es: seq<Entry>, fs: seq<Entry>, y: Entry) returns (x: Entry)
    requires SameEntries(es, fs) && y in fs
    ensures x in es && SameEntry(x, y)
  {
    var gs :| Rearranged(gs, fs) && Paired(es, gs);
    assert y in multiset(fs) && y in gs;
    var i :| 0 <= i < |gs| && gs[i] == y;
    x := es[i];
  }

  lemma SameLength(es: seq<Entry>, fs: seq<Entry>)
    requires SameEntries(es, fs)
    ensures |es| == |fs|
  {
    var gs :| Rearranged(gs, fs) && Paired(es, gs);
    assert |gs| == |multiset(gs)| == |multiset(fs)| == |fs|;
  }

  lemma {:induction false} SameFits(a: Value, b: Value)
    requires Same(a, b) && Fits(a) && FloatFree(a)
    ensures Fits(b) && FloatFree(b)
  {
    match a {
      case Array(xs) =>
        forall i | 0 <= i < |xs| ensures Fits(b.items[i]) && FloatFree(b.items[i]) {
          assert xs[i] in xs;
          SameFits(xs[i], b.items[i]);
        }
      case Map(es) =>
        SameLength(es, b.entries);
        forall y | y in b.entries ensures Fits(y.key) && Fits(y.item) && FloatFree(y.key) && FloatFree(y.item) {
          var x := Partner(es, b.entries, y);
          SameFits(x.key, y.key);
          SameFits(x.item, y.item);
        }
      case _ =>
    }
  }
}
