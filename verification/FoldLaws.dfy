/** What the fold is, told of the operations themselves: which count, which comes last, and what
    the last one does to the fold of the others. */
module FoldLaws {
  import opened Options
  import opened Records
  import opened Fold

  // ----- which operations count -----

  /** The owner signed it, and it is for the owner's collection. */
  ghost predicate OwnerSigned(c: Crypto, owner: Dgid, op: Op) {
    && op.claim.owner == owner
    && exists sig :: op.proof == Some(Proof(owner, sig)) && c.verify(owner, op.claim, sig)
  }

  lemma OwnerSignedCounts(c: Crypto, owner: Dgid, op: Op)
    ensures OwnerSigned(c, owner, op) <==> Counts(c, owner, op)
  {
    if Counts(c, owner, op) {
      assert op.proof == Some(Proof(owner, op.proof.value.sig));
    }
  }

  /** A greater number comes later, and of one number the greater hash. */
  ghost predicate Later(c: Crypto, a: Op, b: Op) {
    || a.claim.seqNo > b.claim.seqNo
    || (a.claim.seqNo == b.claim.seqNo && c.address(OpBlob(a)) > c.address(OpBlob(b)))
  }

  /** `last` comes after every other operation its owner signed. */
  ghost predicate ComesLast(c: Crypto, owner: Dgid, ops: seq<Op>, last: Op) {
    && last in ops && OwnerSigned(c, owner, last)
    && forall op | op in ops && OwnerSigned(c, owner, op) && op != last :: Later(c, last, op)
  }

  /** The same operations of the owner, but for one. */
  ghost predicate AllBut(c: Crypto, owner: Dgid, ops: seq<Op>, gone: Op, rest: seq<Op>) {
    forall op | OwnerSigned(c, owner, op) :: op in rest <==> op in ops && op != gone
  }

  // ----- what the last operation does -----

  /** An item with that identity is replaced where it stands; a new one goes behind. */
  ghost predicate Puts(before: seq<Item>, item: Item, after: seq<Item>) {
    || (exists i :: 0 <= i < |before| && before[i].ci == item.ci && after == before[i := item])
    || (item.ci !in Cis(before) && after == before + [item])
  }

  /** The item with that identity goes, and the others keep their order. */
  ghost predicate Drops(before: seq<Item>, ci: Hash, after: seq<Item>) {
    || (exists i :: 0 <= i < |before| && before[i].ci == ci && after == before[..i] + before[i + 1..])
    || (ci !in Cis(before) && after == before)
  }

  /** The listed items lead, in the order they are first listed; the others follow in theirs. */
  ghost predicate Arranges(before: seq<Item>, order: seq<Hash>, after: seq<Item>) {
    exists front :: Leads(before, order, front) && after == front + Unlisted(before, order)
  }

  ghost predicate Does(before: seq<Item>, claim: OpClaim, after: seq<Item>) {
    match claim.kind
    case Add => if claim.item.None? then after == before else Puts(before, claim.item.value, after)
    case Remove => if claim.target.None? then after == before else Drops(before, claim.target.value, after)
    case Reorder => if claim.order.None? then after == before else Arranges(before, claim.order.value, after)
  }

  lemma {:induction false} UpsertedPuts(items: seq<Item>, item: Item)
    requires DistinctItems(items)
    ensures Puts(items, item, Upserted(items, item))
  {
    if items != [] && items[0].ci != item.ci {
      var tail, up := items[1..], Upserted(items[1..], item);
      UpsertedPuts(tail, item);
      if i :| 0 <= i < |tail| && tail[i].ci == item.ci && up == tail[i := item] {
        assert items[i + 1] == tail[i] && [items[0]] + up == items[i + 1 := item];
      } else {
        assert [items[0]] + (tail + [item]) == items + [item];
        CisCons(items);
      }
    } else if items != [] {
      assert [item] + items[1..] == items[0 := item];
    }
  }

  lemma CisCons(items: seq<Item>)
    requires items != []
    ensures Cis(items) == {items[0].ci} + Cis(items[1..])
  {
    assert items == [items[0]] + items[1..];
    assert forall x :: x in items <==> x == items[0] || x in items[1..];
  }

  lemma DropsBehind(first: Item, tail: seq<Item>, ci: Hash, rest: seq<Item>)
    requires Drops(tail, ci, rest) && first.ci != ci
    ensures Drops([first] + tail, ci, [first] + rest)
  {
    var items := [first] + tail;
    if i :| 0 <= i < |tail| && tail[i].ci == ci && rest == tail[..i] + tail[i + 1..] {
      assert items[i + 1] == tail[i];
      assert [first] + rest == items[..i + 1] + items[i + 2..];
    } else {
      CisCons(items);
    }
  }

  lemma {:induction false} NothingDropped(items: seq<Item>, ci: Hash)
    requires forall item :: item in items ==> item.ci != ci
    ensures Without(items, ci) == items
  {
    if items != [] {
      NothingDropped(items[1..], ci);
      assert items == [items[0]] + items[1..];
    }
  }

  lemma {:induction false} WithoutDrops(items: seq<Item>, ci: Hash)
    requires DistinctItems(items)
    ensures Drops(items, ci, Without(items, ci))
  {
    if items != [] {
      assert items == [items[0]] + items[1..];
      if items[0].ci == ci {
        NothingDropped(items[1..], ci);
        assert items[..0] + items[1..] == items[1..];
      } else {
        WithoutDrops(items[1..], ci);
        hide Drops, DistinctItems;
        DropsBehind(items[0], items[1..], ci, Without(items[1..], ci));
      }
    }
  }

  lemma AppliedDoes(items: seq<Item>, op: Op)
    requires DistinctItems(items)
    ensures Does(items, op.claim, Applied(items, op))
  {
    match op.claim.kind {
      case Add => if op.claim.item.Some? { UpsertedPuts(items, op.claim.item.value); }
      case Remove => if op.claim.target.Some? { WithoutDrops(items, op.claim.target.value); }
      case Reorder => if op.claim.order.Some? { ReorderPlaces(items, op.claim.order.value); }
    }
  }

  /** The replay order of the others is the replay order without its last operation. */
  lemma OrderedBut(c: Crypto, inPlay: iset<Blob>, owner: Dgid, ops: seq<Op>, last: Op, rest: seq<Op>)
    requires CollisionFree(c, inPlay) && InPlay(inPlay, ops) && InPlay(inPlay, rest)
    requires ComesLast(c, owner, ops, last) && AllBut(c, owner, ops, last, rest)
    ensures Ordered(c, owner, ops) == Ordered(c, owner, rest) + [last]
  {
    var ordered, others := Ordered(c, owner, ops), Ordered(c, owner, rest);
    OrderedOps(c, inPlay, owner, ops);
    OrderedOps(c, inPlay, owner, rest);
    forall op ensures OwnerSigned(c, owner, op) <==> Counts(c, owner, op) {
      OwnerSignedCounts(c, owner, op);
    }
    hide OwnerSigned, Counts, Ordered, CollisionFree, InPlay;
    forall i | 0 <= i < |others| ensures Precedes(c, others[i], last) {
      assert others[i] in others && others[i] in ops && others[i] != last;
      assert Later(c, last, others[i]);
    }
    var joined := others + [last];
    hide Precedes, Later;
    forall op ensures op in ordered <==> op in joined {
      assert op in joined <==> op in others || op == last;
    }
    OneOrder(c, ordered, joined);
  }

  /** The fold is what the last operation the owner signed does to the fold of the others. */
  lemma FoldStep(c: Crypto, inPlay: iset<Blob>, owner: Dgid, ops: seq<Op>, last: Op, rest: seq<Op>)
    requires CollisionFree(c, inPlay) && InPlay(inPlay, ops) && InPlay(inPlay, rest)
    requires ComesLast(c, owner, ops, last) && AllBut(c, owner, ops, last, rest)
    ensures Does(Folded(c, owner, rest), last.claim, Folded(c, owner, ops))
  {
    OrderedBut(c, inPlay, owner, ops, last, rest);
    FoldDistinct(c, owner, rest);
    AppliedDoes(Folded(c, owner, rest), last);
    assert (Ordered(c, owner, rest) + [last])[..|Ordered(c, owner, rest)|] == Ordered(c, owner, rest);
  }

  /** Where the owner signed nothing there is nothing. */
  lemma FoldNothing(c: Crypto, owner: Dgid, ops: seq<Op>)
    requires forall op :: op in ops ==> !OwnerSigned(c, owner, op)
    ensures Folded(c, owner, ops) == []
  {
    NothingCounted(c, owner, ops);
  }

  lemma {:induction false} NothingCounted(c: Crypto, owner: Dgid, ops: seq<Op>)
    requires forall op :: op in ops ==> !OwnerSigned(c, owner, op)
    ensures Counted(c, owner, ops) == []
  {
    if ops != [] {
      var last := ops[|ops| - 1];
      assert last in ops;
      OwnerSignedCounts(c, owner, last);
      NothingCounted(c, owner, ops[..|ops| - 1]);
    }
  }

  /** There is a last one wherever the owner signed any: the two laws tell the whole fold. */
  lemma SomeComesLast(c: Crypto, inPlay: iset<Blob>, owner: Dgid, ops: seq<Op>, op: Op) returns (last: Op)
    requires CollisionFree(c, inPlay) && InPlay(inPlay, ops) && op in ops && OwnerSigned(c, owner, op)
    ensures ComesLast(c, owner, ops, last)
  {
    var ordered := Ordered(c, owner, ops);
    OrderedOps(c, inPlay, owner, ops);
    forall o ensures OwnerSigned(c, owner, o) <==> Counts(c, owner, o) {
      OwnerSignedCounts(c, owner, o);
    }
    hide OwnerSigned, Counts, Ordered, CollisionFree, InPlay;
    assert op in ordered;
    last := ordered[|ordered| - 1];
    forall o | o in ops && OwnerSigned(c, owner, o) && o != last ensures Later(c, last, o) {
      assert o in ordered;
      var i :| 0 <= i < |ordered| && ordered[i] == o;
      assert Precedes(c, o, last);
    }
  }

  // ----- one identity -----

  /** The operation adds an item of this identity, or removes it. */
  ghost predicate Concerns(op: Op, ci: Hash) {
    || (op.claim.kind.Add? && op.claim.item.Some? && op.claim.item.value.ci == ci)
    || (op.claim.kind.Remove? && op.claim.target == Some(ci))
  }

  /** Of the owner's operations about an identity, the one with the greatest number, and among
      equals the greatest hash, decides: an add puts its item there, a remove nothing. */
  lemma GreatestDecides(c: Crypto, inPlay: iset<Blob>, owner: Dgid, ops: seq<Op>, ci: Hash, w: Op)
    requires CollisionFree(c, inPlay) && InPlay(inPlay, ops)
    requires w in ops && OwnerSigned(c, owner, w) && Concerns(w, ci)
    requires forall op | op in ops && OwnerSigned(c, owner, op) && Concerns(op, ci) && op != w :: Later(c, w, op)
    ensures forall item :: item in Folded(c, owner, ops) && item.ci == ci <==>
      w.claim.kind.Add? && w.claim.item == Some(item)
  {
    forall op ensures OwnerSigned(c, owner, op) <==> Counts(c, owner, op) {
      OwnerSignedCounts(c, owner, op);
    }
    LastWriterWins(c, inPlay, owner, ops, ci);
    assert Latest(c, owner, ops, ci, w);
    hide OwnerSigned, Counts, CollisionFree, InPlay;
    var items := Folded(c, owner, ops);
    FoldDistinct(c, owner, ops);
    hide Folded;
    FindIn(items, ci);
    forall item | item in items && item.ci == ci ensures Find(items, ci) == Some(item) {
      var i :| 0 <= i < |items| && items[i] == item;
      FindAt(items, i);
    }
  }
}
