/** The byte order of text. UTF-8 keeps code-point order, so characters can be compared. */
module Text {

  function FirstDifference(a: string, b: string): (i: nat)
    ensures i <= |a| && i <= |b| && a[..i] == b[..i]
    ensures i < |a| && i < |b| ==> a[i] != b[i]
  {
    if a == "" || b == "" || a[0] != b[0] then 0
    else
      assert a == [a[0]] + a[1..] && b == [b[0]] + b[1..];
      1 + FirstDifference(a[1..], b[1..])
  }

  /** Lexicographic, a proper prefix first. */
  predicate Less(a: string, b: string) {
    var i := FirstDifference(a, b);
    i < |b| && (i == |a| || a[i] < b[i])
  }

  lemma {:induction false} DifferenceAt(a: string, b: string, i: nat)
    requires i <= |a| && i <= |b| && a[..i] == b[..i]
    requires i == |a| || i == |b| || a[i] != b[i]
    ensures FirstDifference(a, b) == i
  {
    if i > 0 {
      assert a[0] == a[..i][0] == b[..i][0] == b[0];
      assert a[1..][..i - 1] == a[..i][1..] == b[..i][1..] == b[1..][..i - 1];
      DifferenceAt(a[1..], b[1..], i - 1);
    }
  }

  /** The order is total, and strict. */
  lemma LessTotal(a: string, b: string)
    ensures !(Less(a, b) && Less(b, a))
    ensures a == b <==> !Less(a, b) && !Less(b, a)
  {
    var i := FirstDifference(a, b);
    DifferenceAt(b, a, i);
    if i == |a| && i == |b| {
      assert a == a[..i] && b == b[..i];
    }
  }

  lemma LessTransitive(a: string, b: string, c: string)
    requires Less(a, b) && Less(b, c)
    ensures Less(a, c)
  {
    var i, j := FirstDifference(a, b), FirstDifference(b, c);
    var k := if i <= j then i else j;
    assert a[..k] == a[..i][..k] == b[..i][..k] == b[..k] == b[..j][..k] == c[..j][..k] == c[..k];
    if k < |a| && k < |b| && k < i { assert a[k] == a[..i][k] == b[..i][k] == b[k]; }
    if k < |c| && k < |b| && k < j { assert b[k] == b[..j][k] == c[..j][k] == c[k]; }
    DifferenceAt(a, c, k);
  }

  /** Of two texts that already differ within equal length, what follows does not matter. */
  lemma LessExtends(a: string, b: string, x: string, y: string)
    requires |a| == |b| && Less(a, b)
    ensures Less(a + x, b + y)
  {
    var i := FirstDifference(a, b);
    assert i < |a|;
    assert (a + x)[..i] == a[..i] && (b + y)[..i] == b[..i];
    DifferenceAt(a + x, b + y, i);
  }

  lemma LessAfter(a: string, x: string, y: string)
    requires Less(x, y)
    ensures Less(a + x, a + y)
  {
    var i := FirstDifference(x, y);
    assert (a + x)[..|a| + i] == a + x[..i] && (a + y)[..|a| + i] == a + y[..i];
    DifferenceAt(a + x, a + y, |a| + i);
  }
}
