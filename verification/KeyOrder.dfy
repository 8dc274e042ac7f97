/** Sorting map entries by the bytes of their keys: it permutes, it orders, and a strict order
    is the only one of its kind. */
module KeyOrder {
  import opened Cbor
  import opened Canonical

  ghost predicate Ascends(entries: seq<Entry>) {
    forall i, j :: 0 <= i < j < |entries| ==> !Less(KeyBytes(entries[j]), KeyBytes(entries[i]))
  }

  lemma {:induction false} InsertedEntries(e: Entry, sorted: seq<Entry>)
    ensures forall x :: x in Inserted(e, sorted) <==> x == e || x in sorted
    ensures |Inserted(e, sorted)| == |sorted| + 1
  {
    if sorted != [] {
      hide KeyBytes, Less;
      assert sorted == sorted[..|sorted| - 1] + [sorted[|sorted| - 1]];
      InsertedEntries(e, sorted[..|sorted| - 1]);
    }
  }

  lemma {:induction false} SortedEntries(entries: seq<Entry>)
    ensures forall x :: x in SortedByKey(entries) <==> x in entries
    ensures |SortedByKey(entries)| == |entries|
  {
    if entries != [] {
      assert entries == entries[..|entries| - 1] + [entries[|entries| - 1]];
      SortedEntries(entries[..|entries| - 1]);
      InsertedEntries(entries[|entries| - 1], SortedByKey(entries[..|entries| - 1]));
    }
  }

  lemma {:induction false} InsertedRearranges(e: Entry, sorted: seq<Entry>)
    ensures multiset(Inserted(e, sorted)) == multiset(sorted) + multiset{e}
  {
    if sorted != [] {
      hide KeyBytes, Less;
      assert sorted == sorted[..|sorted| - 1] + [sorted[|sorted| - 1]];
      InsertedRearranges(e, sorted[..|sorted| - 1]);
    }
  }

  lemma {:induction false} SortRearranges(entries: seq<Entry>)
    ensures multiset(SortedByKey(entries)) == multiset(entries)
  {
    if entries != [] {
      assert entries == entries[..|entries| - 1] + [entries[|entries| - 1]];
      SortRearranges(entries[..|entries| - 1]);
      InsertedRearranges(entries[|entries| - 1], SortedByKey(entries[..|entries| - 1]));
    }
  }

  lemma {:induction false} InsertedAscends(e: Entry, sorted: seq<Entry>)
    requires Ascends(sorted)
    ensures Ascends(Inserted(e, sorted))
  {
    if sorted != [] {
      hide KeyBytes, Less;
      var front, last := sorted[..|sorted| - 1], sorted[|sorted| - 1];
      LessTotal(KeyBytes(e), KeyBytes(last));
      if Less(KeyBytes(e), KeyBytes(last)) {
        InsertedAscends(e, front);
        InsertedEntries(e, front);
        forall i | 0 <= i <= |front| ensures !Less(KeyBytes(last), KeyBytes(Inserted(e, front)[i])) {
          assert Inserted(e, front)[i] in Inserted(e, front);
        }
      } else {
        forall i | 0 <= i < |sorted| ensures !Less(KeyBytes(e), KeyBytes(sorted[i])) {
          if i < |front| {
            LessTransitive(KeyBytes(sorted[i]), KeyBytes(last), KeyBytes(e));
          }
        }
      }
    }
  }

  lemma {:induction false} SortAscends(entries: seq<Entry>)
    ensures Ascends(SortedByKey(entries))
  {
    if entries != [] {
      hide Ascends;
      SortAscends(entries[..|entries| - 1]);
      InsertedAscends(entries[|entries| - 1], SortedByKey(entries[..|entries| - 1]));
    }
  }

  /** Sorting a sorted list changes nothing. */
  lemma {:induction false} SortFixes(entries: seq<Entry>)
    requires Ascends(entries)
    ensures SortedByKey(entries) == entries
  {
    if entries != [] {
      hide KeyBytes, Less;
      var front, last := entries[..|entries| - 1], entries[|entries| - 1];
      SortFixes(front);
      assert entries == front + [last];
      if front != [] {
        assert front[|front| - 1] == entries[|entries| - 2];
      }
    }
  }

  /** The entries with these key bytes, in order. */
  function Under(k: seq<Byte>, entries: seq<Entry>): seq<Entry> {
    if entries == [] then []
    else (if KeyBytes(entries[0]) == k then [entries[0]] else []) + Under(k, entries[1..])
  }

  lemma {:induction false} UnderJoin(k: seq<Byte>, a: seq<Entry>, b: seq<Entry>)
    ensures Under(k, a + b) == Under(k, a) + Under(k, b)
  {
    if a == [] {
      assert a + b == b;
    } else {
      hide KeyBytes;
      assert (a + b)[1..] == a[1..] + b;
      UnderJoin(k, a[1..], b);
    }
  }

  lemma UnderOne(k: seq<Byte>, e: Entry)
    ensures Under(k, [e]) == if KeyBytes(e) == k then [e] else []
  {
    hide KeyBytes;
    assert [e][1..] == [];
  }

  /** Sorting is stable: entries of one key stay in the order they came in. */
  lemma {:induction false} InsertedUnder(k: seq<Byte>, e: Entry, sorted: seq<Entry>)
    ensures Under(k, Inserted(e, sorted)) == Under(k, sorted + [e])
  {
    UnderOne(k, e);
    UnderJoin(k, sorted, [e]);
    if sorted == [] {
      assert sorted + [e] == [e];
    } else {
      hide KeyBytes, Less, Under;
      var front, last := sorted[..|sorted| - 1], sorted[|sorted| - 1];
      assert sorted == front + [last];
      UnderOne(k, last);
      UnderJoin(k, front, [last]);
      if Less(KeyBytes(e), KeyBytes(last)) {
        LessTotal(KeyBytes(e), KeyBytes(last));
        InsertedUnder(k, e, front);
        UnderJoin(k, front, [e]);
        UnderJoin(k, Inserted(e, front), [last]);
      }
    }
  }

  lemma {:induction false} SortedUnder(k: seq<Byte>, entries: seq<Entry>)
    ensures Under(k, SortedByKey(entries)) == Under(k, entries)
  {
    if entries != [] {
      hide Inserted, KeyBytes, Under;
      var front, last := entries[..|entries| - 1], entries[|entries| - 1];
      assert entries == front + [last];
      SortedUnder(k, front);
      InsertedUnder(k, last, SortedByKey(front));
      UnderJoin(k, front, [last]);
      UnderJoin(k, SortedByKey(front), [last]);
    }
  }

  /** Entries that share their key bytes are one entry, however often it stands. */
  ghost predicate OneUnderEach(entries: seq<Entry>) {
    forall x, y | x in entries && y in entries :: KeyBytes(x) == KeyBytes(y) ==> x == y
  }

  lemma FrontOf(s: seq<Entry>)
    requires s != []
    ensures multiset(s[..|s| - 1]) == multiset(s) - multiset{s[|s| - 1]}
    ensures s == s[..|s| - 1] + [s[|s| - 1]]
    ensures OneUnderEach(s) ==> OneUnderEach(s[..|s| - 1])
    ensures Ascends(s) ==> Ascends(s[..|s| - 1])
  {
    hide KeyBytes, Less;
    assert s == s[..|s| - 1] + [s[|s| - 1]];
    assert multiset(s) == multiset(s[..|s| - 1]) + multiset{s[|s| - 1]};
    forall x | x in s[..|s| - 1] ensures x in s {
    }
  }

  lemma SameLast(s: seq<Entry>, t: seq<Entry>)
    requires Ascends(s) && Ascends(t) && s != [] && t != [] && multiset(s) == multiset(t) && OneUnderEach(s)
    ensures s[|s| - 1] == t[|t| - 1]
  {
    hide KeyBytes, Less;
    var a, b := s[|s| - 1], t[|t| - 1];
    assert a in multiset(t) && b in multiset(s);
    assert a in t && b in s && a in s;
    LessTotal(KeyBytes(a), KeyBytes(b));
  }

  /** Two ascending lists of the same entries are one list, where a key has one entry. */
  lemma {:induction false} OneAscendingList(s: seq<Entry>, t: seq<Entry>)
    requires Ascends(s) && Ascends(t) && multiset(s) == multiset(t) && OneUnderEach(s)
    ensures s == t
  {
    hide *;
    assert |s| == |multiset(s)| == |multiset(t)| == |t|;
    if s != [] {
      SameLast(s, t);
      FrontOf(s);
      FrontOf(t);
      OneAscendingList(s[..|s| - 1], t[..|t| - 1]);
    }
  }
}
