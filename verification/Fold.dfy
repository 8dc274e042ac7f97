/** The fold of a collection: its owner-signed operations, in `(seq, hash)` order, replayed
    over an empty item list. */
module Fold {
  import opened Options
  import opened Records

  // ----- item lists -----

  function Find(items: seq<Item>, ci: Hash): Option<Item> {
    if items == [] then None
    else if items[0].ci == ci then Some(items[0])
    else Find(items[1..], ci)
  }

  lemma {:induction false} FindIn(items: seq<Item>, ci: Hash)
    ensures Find(items, ci).Some? ==> Find(items, ci).value in items && Find(items, ci).value.ci == ci
    ensures Find(items, ci).None? <==> forall item :: item in items ==> item.ci != ci
  {
    if items != [] {
      FindIn(items[1..], ci);
      assert items == [items[0]] + items[1..];
    }
  }

  ghost predicate DistinctItems(items: seq<Item>) {
    forall i, j :: 0 <= i < j < |items| ==> items[i].ci != items[j].ci
  }

  function Cis(items: seq<Item>): set<Hash> {
    set item | item in items :: item.ci
  }

  /** The two lists hold the same items, in whatever order. */
  ghost predicate SameItems(left: seq<Item>, right: seq<Item>) {
    forall ci :: Find(left, ci) == Find(right, ci)
  }

  function Upserted(items: seq<Item>, item: Item): seq<Item> {
    if items == [] then [item]
    else if items[0].ci == item.ci then [item] + items[1..]
    else [items[0]] + Upserted(items[1..], item)
  }

  function Without(items: seq<Item>, ci: Hash): seq<Item> {
    if items == [] then []
    else if items[0].ci == ci then Without(items[1..], ci)
    else [items[0]] + Without(items[1..], ci)
  }

  function Position(items: seq<Item>, ci: Hash): (r: Option<nat>)
    ensures r.Some? ==> r.value < |items| && items[r.value].ci == ci
    ensures r.Some? ==> forall k :: 0 <= k < r.value ==> items[k].ci != ci
    ensures r.None? ==> forall k :: 0 <= k < |items| ==> items[k].ci != ci
  {
    if items == [] then None
    else if items[0].ci == ci then Some(0)
    else match Position(items[1..], ci)
      case None => None
      case Some(p) => Some(p + 1)
  }

  function Taken(items: seq<Item>, at: nat): seq<Item>
    requires at < |items|
  {
    items[..at] + items[at + 1..]
  }

  /** The listed items, in list order, then the others. */
  function Moved(items: seq<Item>, order: seq<Hash>): seq<Item>
    decreases |order|
  {
    if order == [] then items
    else match Position(items, order[0])
      case None => Moved(items, order[1..])
      case Some(p) => [items[p]] + Moved(Taken(items, p), order[1..])
  }

  lemma {:induction false} FindAt(items: seq<Item>, i: nat)
    requires DistinctItems(items) && i < |items|
    ensures Find(items, items[i].ci) == Some(items[i])
  {
    if i > 0 {
      FindAt(items[1..], i - 1);
    }
  }

  lemma FindCis(items: seq<Item>, ci: Hash)
    ensures ci in Cis(items) <==> Find(items, ci).Some?
  {
    FindIn(items, ci);
  }

  lemma {:induction false} UpsertedItems(items: seq<Item>, item: Item)
    requires DistinctItems(items)
    ensures DistinctItems(Upserted(items, item))
    ensures forall ci :: Find(Upserted(items, item), ci) == if ci == item.ci then Some(item) else Find(items, ci)
  {
    if items != [] && items[0].ci != item.ci {
      var tail := items[1..];
      var up := Upserted(tail, item);
      UpsertedItems(tail, item);
      FindIn(tail, items[0].ci);
      DistinctCons(items[0], up);
    } else if items != [] {
      var tail := items[1..];
      FindIn(tail, item.ci);
      DistinctCons(item, tail);
    }
  }

  lemma DistinctCons(item: Item, tail: seq<Item>)
    requires DistinctItems(tail) && Find(tail, item.ci) == None
    ensures DistinctItems([item] + tail)
  {
    FindIn(tail, item.ci);
  }

  lemma {:induction false} WithoutItems(items: seq<Item>, gone: Hash)
    requires DistinctItems(items)
    ensures DistinctItems(Without(items, gone))
    ensures forall ci :: Find(Without(items, gone), ci) == if ci == gone then None else Find(items, ci)
  {
    if items != [] {
      var tail := items[1..];
      WithoutItems(tail, gone);
      FindIn(tail, items[0].ci);
      if items[0].ci != gone {
        DistinctCons(items[0], Without(tail, gone));
      }
    }
  }

  lemma TakenItems(items: seq<Item>, p: nat)
    requires DistinctItems(items) && p < |items|
    ensures DistinctItems(Taken(items, p))
    ensures forall x :: x in Taken(items, p) <==> x in items && x != items[p]
    ensures multiset(items) == multiset([items[p]]) + multiset(Taken(items, p))
  {
    assert items == items[..p] + [items[p]] + items[p + 1..];
    forall x | x in items && x != items[p] ensures x in Taken(items, p) {
      var k :| 0 <= k < |items| && items[k] == x;
      assert x == Taken(items, p)[if k < p then k else k - 1];
    }
  }

  /** A reorder permutes: same items, none repeated. */
  lemma {:induction false} MovedItems(items: seq<Item>, order: seq<Hash>)
    requires DistinctItems(items)
    ensures DistinctItems(Moved(items, order))
    ensures multiset(Moved(items, order)) == multiset(items)
    ensures SameItems(Moved(items, order), items)
    decreases |order|
  {
    var moved := Moved(items, order);
    if order != [] {
      match Position(items, order[0]) {
        case None => MovedItems(items, order[1..]);
        case Some(p) =>
          var rest := Moved(Taken(items, p), order[1..]);
          TakenItems(items, p);
          MovedItems(Taken(items, p), order[1..]);
          forall k | 0 <= k < |rest| ensures rest[k].ci != items[p].ci {
            assert rest[k] in multiset(rest);
            assert rest[k] in Taken(items, p);
            var j :| 0 <= j < |items| && items[j] == rest[k];
            assert j != p;
          }
      }
    }
    forall ci ensures Find(moved, ci) == Find(items, ci) {
      SameFind(moved, items, ci);
    }
  }

  lemma SameFind(left: seq<Item>, right: seq<Item>, ci: Hash)
    requires DistinctItems(left) && DistinctItems(right) && multiset(left) == multiset(right)
    ensures Find(left, ci) == Find(right, ci)
  {
    FindIn(left, ci);
    FindIn(right, ci);
    assert forall x :: x in left <==> x in multiset(left);
    assert forall x :: x in right <==> x in multiset(right);
    if Find(left, ci).Some? && Find(right, ci).Some? {
      var i :| 0 <= i < |right| && right[i] == Find(left, ci).value;
      FindAt(right, i);
    }
  }

  function Unlisted(items: seq<Item>, order: seq<Hash>): seq<Item> {
    if items == [] then []
    else if items[0].ci in order then Unlisted(items[1..], order)
    else [items[0]] + Unlisted(items[1..], order)
  }

  /** `front` is the items `order` lists, in the order they are first listed. */
  ghost predicate Leads(items: seq<Item>, order: seq<Hash>, front: seq<Item>) {
    && (forall x :: x in front <==> x in items && x.ci in order)
    && (forall i, j :: 0 <= i < j < |front| ==> ListedBefore(order, front[i].ci, front[j].ci))
  }

  /** The part of a reorder that comes from the list. */
  function Front(items: seq<Item>, order: seq<Hash>): seq<Item>
    decreases |order|
  {
    if order == [] then []
    else match Position(items, order[0])
      case None => Front(items, order[1..])
      case Some(p) => [items[p]] + Front(Taken(items, p), order[1..])
  }

  lemma {:induction false} ReorderSplits(items: seq<Item>, order: seq<Hash>)
    requires DistinctItems(items)
    ensures Moved(items, order) == Front(items, order) + Unlisted(items, order)
    decreases |order|
  {
    if order == [] {
      UnlistedAll(items);
    } else {
      match Position(items, order[0]) {
        case None =>
          ReorderSplits(items, order[1..]);
          UnlistedTail(items, order);
        case Some(p) =>
          hide Unlisted;
          var held := Taken(items, p);
          TakenItems(items, p);
          TakenFirst(items, p);
          ReorderSplits(held, order[1..]);
          UnlistedTaken(items, p, order);
          UnlistedTail(held, order);
          hide Taken, DistinctItems;
      }
    }
  }

  lemma {:induction false} FrontLeads(items: seq<Item>, order: seq<Hash>)
    requires DistinctItems(items)
    ensures Leads(items, order, Front(items, order))
    decreases |order|
  {
    if order != [] {
      match Position(items, order[0]) {
        case None =>
          FrontLeads(items, order[1..]);
          assert forall x :: x in items ==> x.ci != order[0];
          LeadsTail(items, order, Front(items, order[1..]));
        case Some(p) =>
          TakenItems(items, p);
          FrontLeads(Taken(items, p), order[1..]);
          LeadsCons(items, order, p, Front(Taken(items, p), order[1..]));
      }
    }
  }

  /** A reorder puts the listed items first, in the order they are first listed, and keeps
      the others in their previous order. */
  lemma ReorderPlaces(items: seq<Item>, order: seq<Hash>)
    requires DistinctItems(items)
    ensures exists front :: Leads(items, order, front) && Moved(items, order) == front + Unlisted(items, order)
  {
    ReorderSplits(items, order);
    FrontLeads(items, order);
  }

  lemma LeadsTail(items: seq<Item>, order: seq<Hash>, front: seq<Item>)
    requires order != [] && Leads(items, order[1..], front)
    requires forall x :: x in items ==> x.ci != order[0]
    ensures Leads(items, order, front)
  {
    forall i, j | 0 <= i < j < |front| ensures ListedBefore(order, front[i].ci, front[j].ci) {
      assert front[i] in front && front[j] in front;
      ListedBeforeTail(order, front[i].ci, front[j].ci);
    }
  }

  lemma LeadsCons(items: seq<Item>, order: seq<Hash>, p: nat, rest: seq<Item>)
    requires DistinctItems(items) && p < |items| && order != [] && items[p].ci == order[0]
    requires Leads(Taken(items, p), order[1..], rest)
    ensures Leads(items, order, [items[p]] + rest)
  {
    var front := [items[p]] + rest;
    TakenItems(items, p);
    forall x | x in items && x != items[p] ensures x.ci != order[0] {
      var k :| 0 <= k < |items| && items[k] == x;
    }
    forall i, j | 0 <= i < j < |front| ensures ListedBefore(order, front[i].ci, front[j].ci) {
      assert front[j] == rest[j - 1] && front[j] in rest;
      if i > 0 {
        assert front[i] == rest[i - 1] && front[i] in rest;
        ListedBeforeTail(order, front[i].ci, front[j].ci);
      }
    }
  }

  function FirstListed(order: seq<Hash>, ci: Hash): nat {
    if order == [] || order[0] == ci then 0 else 1 + FirstListed(order[1..], ci)
  }

  ghost predicate ListedBefore(order: seq<Hash>, a: Hash, b: Hash) {
    FirstListed(order, a) < FirstListed(order, b)
  }

  lemma ListedBeforeTail(order: seq<Hash>, a: Hash, b: Hash)
    requires order != [] && order[0] != a && order[0] != b && ListedBefore(order[1..], a, b)
    ensures ListedBefore(order, a, b)
  {
  }

  lemma {:induction false} UnlistedAll(items: seq<Item>)
    ensures Unlisted(items, []) == items
  {
    if items != [] {
      UnlistedAll(items[1..]);
    }
  }

  lemma {:induction false} UnlistedTail(items: seq<Item>, order: seq<Hash>)
    requires order != [] && forall x :: x in items ==> x.ci != order[0]
    ensures Unlisted(items, order) == Unlisted(items, order[1..])
  {
    if items != [] {
      UnlistedTail(items[1..], order);
      assert items[0] in items;
      assert order == [order[0]] + order[1..];
    }
  }

  lemma TakenFirst(items: seq<Item>, p: nat)
    requires DistinctItems(items) && p < |items|
    ensures forall x :: x in Taken(items, p) ==> x.ci != items[p].ci
  {
  }

  lemma {:induction false} UnlistedTaken(items: seq<Item>, p: nat, order: seq<Hash>)
    requires p < |items| && items[p].ci in order
    ensures Unlisted(items, order) == Unlisted(Taken(items, p), order)
  {
    if p == 0 {
      assert Taken(items, 0) == items[1..];
    } else {
      assert Taken(items, p)[1..] == Taken(items[1..], p - 1);
      UnlistedTaken(items[1..], p - 1, order);
    }
  }

  // ----- which operations count, and in what order -----

  predicate Signed(c: Crypto, op: Op) {
    op.proof.Some? && op.proof.value.dgid == op.claim.owner
    && c.verify(op.proof.value.dgid, op.claim, op.proof.value.sig)
  }

  predicate Counts(c: Crypto, owner: Dgid, op: Op) {
    op.claim.owner == owner && Signed(c, op)
  }

  predicate Precedes(c: Crypto, a: Op, b: Op) {
    a.claim.seqNo < b.claim.seqNo
    || (a.claim.seqNo == b.claim.seqNo && c.address(OpBlob(a)) < c.address(OpBlob(b)))
  }

  function Counted(c: Crypto, owner: Dgid, ops: seq<Op>): (r: seq<Op>)
    ensures forall op :: op in r <==> op in ops && Counts(c, owner, op)
  {
    if ops == [] then []
    else
      var front := Counted(c, owner, ops[..|ops| - 1]);
      var last := ops[|ops| - 1];
      assert ops == ops[..|ops| - 1] + [last];
      if Counts(c, owner, last) then front + [last] else front
  }

  /** Stable insertion: `op` goes behind every operation it does not precede. */
  function Inserted(c: Crypto, op: Op, ordered: seq<Op>): (r: seq<Op>)
    ensures forall x :: x in r <==> x == op || x in ordered
  {
    if ordered == [] then [op]
    else
      var last := ordered[|ordered| - 1];
      assert ordered == ordered[..|ordered| - 1] + [last];
      if Precedes(c, op, last) then Inserted(c, op, ordered[..|ordered| - 1]) + [last] else ordered + [op]
  }

  function Sorted(c: Crypto, ops: seq<Op>): (r: seq<Op>)
    ensures forall x :: x in r <==> x in ops
  {
    if ops == [] then []
    else
      assert ops == ops[..|ops| - 1] + [ops[|ops| - 1]];
      Inserted(c, ops[|ops| - 1], Sorted(c, ops[..|ops| - 1]))
  }

  /** Drops an operation whose hash equals that of the one kept before it. */
  function Deduped(c: Crypto, ops: seq<Op>): (r: seq<Op>)
    ensures ops != [] ==> r != [] && c.address(OpBlob(r[|r| - 1])) == c.address(OpBlob(ops[|ops| - 1]))
    ensures forall x :: x in r ==> x in ops
  {
    if |ops| <= 1 then ops
    else
      var front := Deduped(c, ops[..|ops| - 1]);
      var last := ops[|ops| - 1];
      if c.address(OpBlob(front[|front| - 1])) == c.address(OpBlob(last)) then front else front + [last]
  }

  function Ordered(c: Crypto, owner: Dgid, ops: seq<Op>): seq<Op> {
    Deduped(c, Sorted(c, Counted(c, owner, ops)))
  }

  function Applied(items: seq<Item>, op: Op): seq<Item> {
    match op.claim.kind
    case Add => if op.claim.item.None? then items else Upserted(items, op.claim.item.value)
    case Remove => if op.claim.target.None? then items else Without(items, op.claim.target.value)
    case Reorder => if op.claim.order.None? then items else Moved(items, op.claim.order.value)
  }

  function Replayed(ops: seq<Op>): seq<Item> {
    if ops == [] then [] else Applied(Replayed(ops[..|ops| - 1]), ops[|ops| - 1])
  }

  function Folded(c: Crypto, owner: Dgid, ops: seq<Op>): seq<Item> {
    Replayed(Ordered(c, owner, ops))
  }

  // ----- the loops of the source -----

  method UpsertInPlace(items: seq<Item>, item: Item) returns (r: seq<Item>)
    ensures r == Upserted(items, item)
  {
    hide Upserted;
    var i := 0;
    while i < |items| && items[i].ci != item.ci
      invariant 0 <= i <= |items|
      invariant Upserted(items, item) == items[..i] + Upserted(items[i..], item)
    {
      UpsertedPast(items[i..], item);
      assert items[i..][1..] == items[i + 1..];
      assert items[..i + 1] == items[..i] + [items[i]];
      i := i + 1;
    }
    UpsertedHere(items[i..], item);
    if i < |items| {
      assert items[i..][1..] == items[i + 1..];
      r := items[i := item];
    } else {
      r := items + [item];
    }
  }

  lemma UpsertedPast(items: seq<Item>, item: Item)
    requires items != [] && items[0].ci != item.ci
    ensures Upserted(items, item) == [items[0]] + Upserted(items[1..], item)
  {
  }

  lemma UpsertedHere(items: seq<Item>, item: Item)
    requires items == [] || items[0].ci == item.ci
    ensures Upserted(items, item) == [item] + if items == [] then [] else items[1..]
  {
  }

  method ReorderInPlace(items: seq<Item>, order: seq<Hash>) returns (r: seq<Item>)
    ensures r == Moved(items, order)
  {
    var held := items;
    var reordered := [];
    var i := 0;
    while i < |order|
      invariant 0 <= i <= |order|
      invariant Moved(items, order) == reordered + Moved(held, order[i..])
    {
      assert order[i..][1..] == order[i + 1..];
      match Position(held, order[i]) {
        case Some(p) =>
          reordered := reordered + [held[p]];
          held := Taken(held, p);
        case None =>
      }
      i := i + 1;
    }
    r := reordered + held;
  }

  /** `collection::fold`. */
  method FoldOps(c: Crypto, owner: Dgid, ops: seq<Op>) returns (items: seq<Item>)
    ensures items == Folded(c, owner, ops)
  {
    var ordered := Ordered(c, owner, ops);
    items := [];
    for i := 0 to |ordered|
      invariant items == Replayed(ordered[..i])
    {
      var op := ordered[i];
      assert ordered[..i + 1][..i] == ordered[..i];
      match op.claim.kind {
        case Add =>
          if op.claim.item.Some? {
            items := UpsertInPlace(items, op.claim.item.value);
          }
        case Remove =>
          if op.claim.target.Some? {
            items := Without(items, op.claim.target.value);
          }
        case Reorder =>
          if op.claim.order.Some? {
            items := ReorderInPlace(items, op.claim.order.value);
          }
      }
    }
    assert ordered[..|ordered|] == ordered;
  }

  // ----- the order is total and belongs to the set of operations -----

  ghost predicate StrictlyOrdered(c: Crypto, ops: seq<Op>) {
    forall i, j :: 0 <= i < j < |ops| ==> Precedes(c, ops[i], ops[j])
  }

  ghost predicate WeaklyOrdered(c: Crypto, ops: seq<Op>) {
    forall i, j :: 0 <= i < j < |ops| ==> !Precedes(c, ops[j], ops[i])
  }

  ghost predicate InPlay(inPlay: iset<Blob>, ops: seq<Op>) {
    forall op :: op in ops ==> OpBlob(op) in inPlay
  }

  lemma {:induction false} InsertedOrder(c: Crypto, op: Op, ordered: seq<Op>)
    requires WeaklyOrdered(c, ordered)
    ensures WeaklyOrdered(c, Inserted(c, op, ordered))
  {
    if ordered != [] {
      var front, last := ordered[..|ordered| - 1], ordered[|ordered| - 1];
      if Precedes(c, op, last) {
        InsertedOrder(c, op, front);
        var r := Inserted(c, op, front);
        forall i | 0 <= i < |r| ensures !Precedes(c, last, r[i]) {
          assert r[i] == op || r[i] in front;
        }
      }
    }
  }

  lemma {:induction false} SortedOrder(c: Crypto, ops: seq<Op>)
    ensures WeaklyOrdered(c, Sorted(c, ops))
  {
    if ops != [] {
      SortedOrder(c, ops[..|ops| - 1]);
      InsertedOrder(c, ops[|ops| - 1], Sorted(c, ops[..|ops| - 1]));
    }
  }

  lemma StrictSnoc(c: Crypto, inPlay: iset<Blob>, kept: seq<Op>, last: Op)
    requires CollisionFree(c, inPlay) && InPlay(inPlay, kept + [last]) && StrictlyOrdered(c, kept) && kept != []
    requires !Precedes(c, last, kept[|kept| - 1])
    requires c.address(OpBlob(kept[|kept| - 1])) != c.address(OpBlob(last))
    ensures StrictlyOrdered(c, kept + [last])
  {
    var top := kept[|kept| - 1];
    assert Precedes(c, top, last);
    forall i | 0 <= i < |kept| ensures Precedes(c, kept[i], last) {
      assert i == |kept| - 1 || Precedes(c, kept[i], top);
    }
  }

  /** What is kept of a front, with one more behind it. */
  lemma KeepsOrder(c: Crypto, inPlay: iset<Blob>, front: seq<Op>, kept: seq<Op>, last: Op)
    requires CollisionFree(c, inPlay) && InPlay(inPlay, front + [last]) && WeaklyOrdered(c, front + [last])
    requires StrictlyOrdered(c, kept) && kept != [] && forall x :: x in kept <==> x in front
    ensures kept[|kept| - 1] in front
    ensures c.address(OpBlob(kept[|kept| - 1])) == c.address(OpBlob(last)) ==> kept[|kept| - 1] == last
    ensures c.address(OpBlob(kept[|kept| - 1])) != c.address(OpBlob(last)) ==> StrictlyOrdered(c, kept + [last])
  {
    var ops, top := front + [last], kept[|kept| - 1];
    assert top in kept && top in front && top in ops && last in ops;
    assert OpBlob(top) in inPlay && OpBlob(last) in inPlay;
    hide Precedes;
    if c.address(OpBlob(top)) != c.address(OpBlob(last)) {
      var i :| 0 <= i < |front| && front[i] == top;
      assert ops[i] == top && ops[|front|] == last;
      StrictSnoc(c, inPlay, kept, last);
    }
  }

  lemma DedupedSnoc(c: Crypto, front: seq<Op>, last: Op)
    requires front != []
    ensures Deduped(c, front) != [] && Deduped(c, front + [last]) ==
      var kept := Deduped(c, front);
      if c.address(OpBlob(kept[|kept| - 1])) == c.address(OpBlob(last)) then kept else kept + [last]
  {
    var ops := front + [last];
    assert ops[..|ops| - 1] == front && ops[|ops| - 1] == last && |ops| > 1;
  }

  lemma FrontIsOrdered(c: Crypto, inPlay: iset<Blob>, front: seq<Op>, last: Op)
    requires InPlay(inPlay, front + [last]) && WeaklyOrdered(c, front + [last])
    ensures InPlay(inPlay, front) && WeaklyOrdered(c, front)
  {
    hide Precedes;
    forall i | 0 <= i < |front| ensures (front + [last])[i] == front[i] {
    }
    assert front == (front + [last])[..|front|];
  }

  /** No two neighbours left with one address, in strict order, and nothing lost. */
  ghost predicate DedupedWell(c: Crypto, ops: seq<Op>) {
    StrictlyOrdered(c, Deduped(c, ops)) && forall x :: x in Deduped(c, ops) <==> x in ops
  }

  lemma DedupedShort(c: Crypto, ops: seq<Op>)
    requires |ops| <= 1
    ensures DedupedWell(c, ops)
  {
    hide Precedes;
  }

  lemma DedupedMore(c: Crypto, inPlay: iset<Blob>, front: seq<Op>, last: Op)
    requires CollisionFree(c, inPlay) && InPlay(inPlay, front + [last]) && WeaklyOrdered(c, front + [last])
    requires front != [] && DedupedWell(c, front)
    ensures DedupedWell(c, front + [last])
  {
    hide Deduped, CollisionFree, InPlay, WeaklyOrdered, StrictlyOrdered;
    DedupedSnoc(c, front, last);
    KeepsOrder(c, inPlay, front, Deduped(c, front), last);
  }

  lemma {:induction false} DedupedOrder(c: Crypto, inPlay: iset<Blob>, ops: seq<Op>)
    requires CollisionFree(c, inPlay) && InPlay(inPlay, ops) && WeaklyOrdered(c, ops)
    ensures DedupedWell(c, ops)
  {
    hide *;
    if |ops| <= 1 {
      DedupedShort(c, ops);
    } else {
      var front, last := ops[..|ops| - 1], ops[|ops| - 1];
      assert ops == front + [last];
      FrontIsOrdered(c, inPlay, front, last);
      DedupedOrder(c, inPlay, front);
      DedupedMore(c, inPlay, front, last);
    }
  }

  /** The replay order holds exactly the counting operations, each once, in strict order. */
  lemma OrderedOps(c: Crypto, inPlay: iset<Blob>, owner: Dgid, ops: seq<Op>)
    requires CollisionFree(c, inPlay) && InPlay(inPlay, ops)
    ensures StrictlyOrdered(c, Ordered(c, owner, ops))
    ensures forall op :: op in Ordered(c, owner, ops) <==> op in ops && Counts(c, owner, op)
  {
    SortedOrder(c, Counted(c, owner, ops));
    DedupedOrder(c, inPlay, Sorted(c, Counted(c, owner, ops)));
  }

  lemma LastIsLast(c: Crypto, left: seq<Op>, right: seq<Op>)
    requires StrictlyOrdered(c, left) && StrictlyOrdered(c, right) && left != [] && right != []
    requires left[|left| - 1] in right && right[|right| - 1] in left
    ensures left[|left| - 1] == right[|right| - 1]
  {
    var l, r := left[|left| - 1], right[|right| - 1];
    var i :| 0 <= i < |right| && right[i] == l;
    var j :| 0 <= j < |left| && left[j] == r;
    assert l == r || Precedes(c, l, r);
  }

  lemma WithoutLast(c: Crypto, ops: seq<Op>)
    requires StrictlyOrdered(c, ops) && ops != []
    ensures forall op :: op in ops[..|ops| - 1] <==> op in ops && op != ops[|ops| - 1]
  {
    var front, last := ops[..|ops| - 1], ops[|ops| - 1];
    assert ops == front + [last];
  }

  lemma {:induction false} OneOrder(c: Crypto, left: seq<Op>, right: seq<Op>)
    requires StrictlyOrdered(c, left) && StrictlyOrdered(c, right)
    requires forall op :: op in left <==> op in right
    ensures left == right
  {
    assert left != [] ==> left[0] in right;
    assert right != [] ==> right[0] in left;
    if left != [] {
      LastIsLast(c, left, right);
      var lf, rf := left[..|left| - 1], right[..|right| - 1];
      WithoutLast(c, left);
      WithoutLast(c, right);
      forall op ensures op in lf <==> op in rf {
        assert op in left <==> op in right;
      }
      OneOrder(c, lf, rf);
      assert left == lf + [left[|left| - 1]];
      assert right == rf + [right[|right| - 1]];
    }
  }

  /** The fold depends only on the set of counting operations: neither their order nor
      repetition matters. */
  lemma FoldOfSet(c: Crypto, inPlay: iset<Blob>, owner: Dgid, left: seq<Op>, right: seq<Op>)
    requires CollisionFree(c, inPlay) && InPlay(inPlay, left) && InPlay(inPlay, right)
    requires forall op :: Counts(c, owner, op) ==> (op in left <==> op in right)
    ensures Folded(c, owner, left) == Folded(c, owner, right)
  {
    OrderedOps(c, inPlay, owner, left);
    OrderedOps(c, inPlay, owner, right);
    OneOrder(c, Ordered(c, owner, left), Ordered(c, owner, right));
  }

  // ----- last writer wins -----

  predicate Touches(op: Op, ci: Hash) {
    (op.claim.kind == Add && op.claim.item.Some? && op.claim.item.value.ci == ci)
    || (op.claim.kind == Remove && op.claim.target == Some(ci))
  }

  /** What an operation touching a ci leaves there. */
  function Write(op: Op): Option<Item> {
    if op.claim.kind == Add then op.claim.item else None
  }

  /** `w` is the last of the counting operations that touch `ci`. */
  ghost predicate Latest(c: Crypto, owner: Dgid, ops: seq<Op>, ci: Hash, w: Op) {
    w in ops && Counts(c, owner, w) && Touches(w, ci)
    && forall op :: op in ops && Counts(c, owner, op) && Touches(op, ci) && op != w ==> Precedes(c, op, w)
  }

  /** `after` is `before` with what `op` writes. */
  ghost predicate Overwrites(before: seq<Item>, op: Op, after: seq<Item>) {
    forall ci :: Find(after, ci) == if Touches(op, ci) then Write(op) else Find(before, ci)
  }

  lemma {:induction false} ReplayedItems(ops: seq<Op>)
    ensures DistinctItems(Replayed(ops))
    ensures ops != [] ==> Overwrites(Replayed(ops[..|ops| - 1]), ops[|ops| - 1], Replayed(ops))
  {
    if ops != [] {
      var last := ops[|ops| - 1];
      var before := Replayed(ops[..|ops| - 1]);
      ReplayedItems(ops[..|ops| - 1]);
      match last.claim.kind {
        case Add => if last.claim.item.Some? { UpsertedItems(before, last.claim.item.value); }
        case Remove => if last.claim.target.Some? { WithoutItems(before, last.claim.target.value); }
        case Reorder => if last.claim.order.Some? { MovedItems(before, last.claim.order.value); }
      }
    }
  }

  lemma {:induction false} ReplayedWriter(ops: seq<Op>, ci: Hash) returns (at: int)
    ensures -1 <= at < |ops|
    ensures forall k :: at < k < |ops| ==> !Touches(ops[k], ci)
    ensures at == -1 ==> Find(Replayed(ops), ci) == None
    ensures at >= 0 ==> Touches(ops[at], ci) && Find(Replayed(ops), ci) == Write(ops[at])
  {
    if ops == [] {
      at := -1;
    } else {
      ReplayedItems(ops);
      if Touches(ops[|ops| - 1], ci) {
        at := |ops| - 1;
      } else {
        at := ReplayedWriter(ops[..|ops| - 1], ci);
      }
    }
  }

  /** No item appears twice. */
  lemma FoldDistinct(c: Crypto, owner: Dgid, ops: seq<Op>)
    ensures DistinctItems(Folded(c, owner, ops))
  {
    ReplayedItems(Ordered(c, owner, ops));
  }

  /** The fold holds a ci exactly when the last counting operation touching it is an add, and
      then holds that add's item. */
  lemma LastWriterWins(c: Crypto, inPlay: iset<Blob>, owner: Dgid, ops: seq<Op>, ci: Hash)
    requires CollisionFree(c, inPlay) && InPlay(inPlay, ops)
    ensures forall item :: Find(Folded(c, owner, ops), ci) == Some(item) <==>
      exists w :: Latest(c, owner, ops, ci, w) && Write(w) == Some(item)
    ensures forall w :: Latest(c, owner, ops, ci, w) ==> Find(Folded(c, owner, ops), ci) == Write(w)
    ensures (exists op :: op in ops && Counts(c, owner, op) && Touches(op, ci)) ==>
      exists w :: Latest(c, owner, ops, ci, w)
  {
    hide Find, Replayed, Ordered, Counts, Touches, CollisionFree, InPlay, Write;
    OrderedOps(c, inPlay, owner, ops);
    var ordered := Ordered(c, owner, ops);
    var at := ReplayedWriter(ordered, ci);
    if at >= 0 {
      var w := ordered[at];
      forall op | op in ops && Counts(c, owner, op) && Touches(op, ci) && op != w ensures Precedes(c, op, w) {
        assert op in ordered;
        var k :| 0 <= k < |ordered| && ordered[k] == op;
      }
      assert Latest(c, owner, ops, ci, w);
      assert forall v :: Latest(c, owner, ops, ci, v) ==> v == w;
    } else {
      forall op | op in ops && Counts(c, owner, op) ensures !Touches(op, ci) {
        assert op in ordered;
      }
    }
  }
}
