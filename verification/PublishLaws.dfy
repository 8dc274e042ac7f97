/** What a publish says: the head made of a head opened and any edits, the operations minted, and
    the list they fold to, its order included. */
module PublishLaws {
  import opened Options
  import opened Records
  import opened Store
  import opened Fold
  import opened FoldLaws
  import opened Builder

  // ----- the lists of a head -----

  ghost predicate NoRepeat(hashes: seq<Hash>) {
    forall i, j :: 0 <= i < j < |hashes| ==> hashes[i] != hashes[j]
  }

  /** The list as it was, the hash behind it if it is new. */
  ghost predicate ListsOnce(before: seq<Hash>, hash: Hash, after: seq<Hash>) {
    if hash in before then after == before else after == before + [hash]
  }

  /** The hash stands last, and the others keep their order. */
  ghost predicate MovesLast(before: seq<Hash>, hash: Hash, after: seq<Hash>) {
    || (hash !in before && after == before + [hash])
    || (exists i :: 0 <= i < |before| && before[i] == hash && after == before[..i] + before[i + 1..] + [hash])
  }

  /** Everything of a builder but what one kind of edit may touch. */
  ghost predicate SameIdentity(before: Desk, after: Desk) {
    && after.name == before.name && after.owner == before.owner && after.forkedFrom == before.forkedFrom
    && after.ops == before.ops && after.nextSeq == before.nextSeq && after.baseline == before.baseline
  }

  ghost predicate Makes(before: Desk, edit: Edit, after: Desk) {
    && SameIdentity(before, after)
    && (match edit
        case AddRecord(hash) => ListsOnce(before.records, hash, after.records)
        case _ => after.records == before.records)
    && (match edit
        case AddAttestation(hash) => MovesLast(before.attestations, hash, after.attestations)
        case _ => after.attestations == before.attestations)
    && after.kind == (match edit case SetKind(kind) => kind case _ => before.kind)
  }

  lemma {:induction false} NothingDroppedOf(hashes: seq<Hash>, hash: Hash)
    requires hash !in hashes
    ensures Dropped(hashes, hash) == hashes
  {
    if hashes != [] {
      NothingDroppedOf(hashes[1..], hash);
    }
  }

  lemma {:induction false} DroppedAt(hashes: seq<Hash>, hash: Hash, i: nat)
    requires NoRepeat(hashes) && i < |hashes| && hashes[i] == hash
    ensures Dropped(hashes, hash) == hashes[..i] + hashes[i + 1..]
  {
    if i == 0 {
      NothingDroppedOf(hashes[1..], hash);
    } else {
      DroppedAt(hashes[1..], hash, i - 1);
      assert hashes[..i] == [hashes[0]] + hashes[1..][..i - 1] && hashes[i + 1..] == hashes[1..][i..];
    }
  }

  lemma DroppedMoves(hashes: seq<Hash>, hash: Hash)
    requires NoRepeat(hashes)
    ensures MovesLast(hashes, hash, Dropped(hashes, hash) + [hash])
  {
    if hash !in hashes {
      NothingDroppedOf(hashes, hash);
    } else {
      var i :| 0 <= i < |hashes| && hashes[i] == hash;
      DroppedAt(hashes, hash, i);
      hide Dropped, NoRepeat;
    }
  }

  /** An edit makes exactly its own change to the lists, and keeps them without repeats. */
  lemma EditMakes(desk: Desk, edit: Edit)
    requires NoRepeat(desk.records) && NoRepeat(desk.attestations)
    ensures Makes(desk, edit, Edited(desk, edit))
    ensures NoRepeat(Edited(desk, edit).records) && NoRepeat(Edited(desk, edit).attestations)
  {
    if edit.AddAttestation? {
      DroppedMoves(desk.attestations, edit.attestation);
    }
  }

  /** The kind last set, or the one there was. */
  function KindAfter(edits: seq<Edit>, kind: string): string {
    if edits == [] then kind
    else if edits[|edits| - 1].SetKind? then edits[|edits| - 1].kind
    else KindAfter(edits[..|edits| - 1], kind)
  }

  lemma {:induction false} KindFirst(edits: seq<Edit>, kind: string)
    requires edits != []
    ensures KindAfter(edits, kind) == KindAfter(edits[1..], if edits[0].SetKind? then edits[0].kind else kind)
  {
    if |edits| > 1 {
      assert edits[1..][..|edits| - 2] == edits[..|edits| - 1][1..];
      KindFirst(edits[..|edits| - 1], kind);
    } else {
      assert edits[..0] == [];
    }
  }

  /** What any edits make of a builder. */
  ghost predicate MadeOf(before: Desk, edits: seq<Edit>, after: Desk) {
    && SameIdentity(before, after) && after.kind == KindAfter(edits, before.kind)
    && before.records <= after.records && NoRepeat(after.records) && NoRepeat(after.attestations)
    && (forall h :: h in after.records <==> h in before.records || AddRecord(h) in edits)
    && (forall h :: h in after.attestations <==> h in before.attestations || AddAttestation(h) in edits)
  }

  lemma MadeBefore(desk: Desk, edits: seq<Edit>, step: Desk, after: Desk)
    requires edits != [] && Makes(desk, edits[0], step) && MadeOf(step, edits[1..], after)
    ensures MadeOf(desk, edits, after)
  {
    KindFirst(edits, desk.kind);
    assert edits == [edits[0]] + edits[1..];
    hide NoRepeat, KindAfter;
    assert forall h :: h in step.records <==> h in desk.records || edits[0] == AddRecord(h);
    assert forall h :: h in step.attestations <==> h in desk.attestations || edits[0] == AddAttestation(h);
  }

  lemma {:induction false} EditsMake(desk: Desk, edits: seq<Edit>)
    requires NoRepeat(desk.records) && NoRepeat(desk.attestations)
    ensures MadeOf(desk, edits, EditedAll(desk, edits))
    decreases |edits|
  {
    if edits != [] {
      var step := Edited(desk, edits[0]);
      EditMakes(desk, edits[0]);
      hide Edited, NoRepeat, MadeOf;
      EditsMake(step, edits[1..]);
      MadeBefore(desk, edits, step, EditedAll(desk, edits));
    }
  }

  /** The lists of the head opened are without repeats, as every publish leaves them. */
  ghost predicate ListsApart(head: Option<Collection>) {
    head.Some? ==> NoRepeat(head.value.records) && NoRepeat(head.value.attestations)
  }

  /** The head published after opening one and editing in any way: of the publisher, under the
      name opened, forked from the owner of a head that was another's; with everything listed
      before, in its place, what was recorded since behind it, all that was attested, and every
      operation; and all of that, and nothing else, in its refs. */
  lemma PublishTells(c: Crypto, blobs: Blobs, head: Option<Collection>, name: string, me: Dgid, edits: seq<Edit>)
    requires ListsApart(head)
    ensures var out := PublishedHead(c, EditedAll(Opened(c, blobs, head, name, me), edits));
      && out.name == name && out.owner == me && ListsApart(Some(out))
      && out.kind == KindAfter(edits, if head.Some? then head.value.kind else "collection")
      && out.forkedFrom == (if head.Some? && head.value.owner != me then Some(head.value.owner) else None)
      && (head.Some? ==> head.value.records <= out.records && head.value.ops <= out.ops)
      && (forall h :: h in out.records <==> (head.Some? && h in head.value.records) || AddRecord(h) in edits)
      && (forall h :: h in out.attestations <==>
            (head.Some? && h in head.value.attestations) || AddAttestation(h) in edits)
      && (forall h :: h in out.refs <==> h in out.ops || h in out.records || h in out.attestations)
  {
    var open := Opened(c, blobs, head, name, me);
    var desk := EditedAll(open, edits);
    EditsMake(open, edits);
    ListedBehind(c, desk.ops, Minted(c, desk));
    hide Folded, Listed, Minted, NoRepeat, KindAfter, EditedAll;
  }

  lemma {:induction false} ListedBehind(c: Crypto, hashes: seq<Hash>, ops: seq<Op>)
    ensures hashes <= Listed(c, hashes, ops)
  {
    if ops != [] {
      ListedBehind(c, hashes, ops[..|ops| - 1]);
    }
  }

  // ----- the operations minted -----

  /** The claim says what the draft does, of this collection and owner, under this number. */
  ghost predicate ClaimsDraft(claim: OpClaim, desk: Desk, draft: Draft, seqNo: nat) {
    && claim.collection == desk.name && claim.owner == desk.owner && claim.seqNo == seqNo && claim.order.None?
    && match draft
       case DraftAdd(item) => claim.kind.Add? && claim.item == Some(item) && claim.target.None?
       case DraftRemove(gone) => claim.kind.Remove? && claim.item.None? && claim.target == Some(gone)
  }

  /** One operation for each draft, in order, numbered on from the next number, and signed. */
  lemma MintedTell(c: Crypto, desk: Desk, i: nat)
    requires Honest(c) && i < |desk.pending|
    ensures |Minted(c, desk)| == |desk.pending| && OwnerSigned(c, desk.owner, Minted(c, desk)[i])
    ensures ClaimsDraft(Minted(c, desk)[i].claim, desk, desk.pending[i], desk.nextSeq + i)
  {
    var op := Minted(c, desk)[i];
    assert op.proof == Some(Proof(desk.owner, c.sign(desk.owner, op.claim)));
  }

  lemma {:induction false} SomeHasMax(ops: seq<Op>)
    ensures MaxSeq(ops) == 0 || exists op :: op in ops && op.claim.seqNo == MaxSeq(ops)
  {
    if ops != [] {
      SomeHasMax(ops[1..]);
      assert ops == [ops[0]] + ops[1..];
    }
  }

  /** The next number is one above the greatest loaded, and one where there is none. */
  lemma NextNumber(c: Crypto, blobs: Blobs, head: Option<Collection>, name: string, me: Dgid)
    ensures var ops := if head.Some? then LoadOps(blobs, head.value.ops) else [];
      var next := Opened(c, blobs, head, name, me).nextSeq;
      && next >= 1 && (forall op :: op in ops ==> op.claim.seqNo < next)
      && (next == 1 || exists op :: op in ops && op.claim.seqNo == next - 1)
  {
    if head.Some? {
      SomeHasMax(LoadOps(blobs, head.value.ops));
    }
  }

  // ----- the list, in order -----

  ghost predicate DraftDoes(before: seq<Item>, draft: Draft, after: seq<Item>) {
    match draft
    case DraftAdd(item) => Puts(before, item, after)
    case DraftRemove(gone) => Drops(before, gone, after)
  }

  /** The drafts, one after the other, turn the one list into the other. */
  ghost predicate DraftsTo(before: seq<Item>, drafts: seq<Draft>, after: seq<Item>)
    decreases |drafts|, 1
  {
    if drafts == [] then before == after else exists mid :: DraftsBy(before, drafts, mid, after)
  }

  ghost predicate DraftsBy(before: seq<Item>, drafts: seq<Draft>, mid: seq<Item>, after: seq<Item>)
    requires drafts != []
    decreases |drafts|, 0
  {
    DraftsTo(before, drafts[..|drafts| - 1], mid) && DraftDoes(mid, drafts[|drafts| - 1], after)
  }

  lemma OneMoreDraft(before: seq<Item>, drafts: seq<Draft>, n: nat, mid: seq<Item>, after: seq<Item>)
    requires 0 < n <= |drafts|
    requires DraftsTo(before, drafts[..n - 1], mid) && DraftDoes(mid, drafts[n - 1], after)
    ensures DraftsTo(before, drafts[..n], after)
  {
    assert drafts[..n][..n - 1] == drafts[..n - 1];
    hide DraftDoes;
    assert DraftsBy(before, drafts[..n], mid, after);
  }

  /** An operation numbered above all others does what its draft says. */
  lemma LastMintedDoes(c: Crypto, inPlay: iset<Blob>, desk: Desk, rest: seq<Op>, n: nat, after: seq<Op>)
    requires CollisionFree(c, inPlay) && Honest(c) && InPlay(inPlay, rest) && InPlay(inPlay, after)
    requires n < |desk.pending| && forall op :: op in rest ==> op.claim.seqNo < desk.nextSeq + n
    requires forall op :: op in after <==> op in rest || op == Minted(c, desk)[n]
    ensures DraftDoes(Folded(c, desk.owner, rest), desk.pending[n], Folded(c, desk.owner, after))
  {
    MintedTell(c, desk, n);
    var last := Minted(c, desk)[n];
    hide CollisionFree, Folded, Minted, OwnerSigned, Puts, Drops, Arranges;
    assert ComesLast(c, desk.owner, after, last) && AllBut(c, desk.owner, after, last, rest);
    FoldStep(c, inPlay, desk.owner, after, last, rest);
  }

  /** These operations, and the first so many of the minted ones. */
  ghost predicate WithMinted(c: Crypto, inPlay: iset<Blob>, desk: Desk, before: seq<Op>, n: nat, after: seq<Op>) {
    && n <= |desk.pending| && InPlay(inPlay, before) && InPlay(inPlay, after)
    && (forall op :: op in before ==> op.claim.seqNo < desk.nextSeq)
    && forall op :: op in after <==> op in before || op in Minted(c, desk)[..n]
  }

  lemma OneFewer(c: Crypto, inPlay: iset<Blob>, desk: Desk, before: seq<Op>, n: nat, after: seq<Op>)
    requires n > 0 && WithMinted(c, inPlay, desk, before, n, after)
    ensures var rest := before + Minted(c, desk)[..n - 1];
      && WithMinted(c, inPlay, desk, before, n - 1, rest) && InPlay(inPlay, rest) && InPlay(inPlay, after)
      && (forall op :: op in rest ==> op.claim.seqNo < desk.nextSeq + n - 1)
      && (forall op :: op in after <==> op in rest || op == Minted(c, desk)[n - 1])
  {
    var minted := Minted(c, desk);
    var rest := before + minted[..n - 1];
    assert minted[..n] == minted[..n - 1] + [minted[n - 1]];
    forall op | op in rest ensures op.claim.seqNo < desk.nextSeq + n - 1 {
      if op in minted[..n - 1] {
        var k :| 0 <= k < n - 1 && minted[k] == op;
      }
    }
    hide Minted;
    assert forall op :: op in rest ==> op in after;
  }

  lemma NoneMintedYet(c: Crypto, inPlay: iset<Blob>, desk: Desk, before: seq<Op>, after: seq<Op>)
    requires CollisionFree(c, inPlay) && WithMinted(c, inPlay, desk, before, 0, after)
    ensures DraftsTo(Folded(c, desk.owner, before), desk.pending[..0], Folded(c, desk.owner, after))
  {
    assert Minted(c, desk)[..0] == [];
    FoldOfSet(c, inPlay, desk.owner, before, after);
    hide Folded, Minted, CollisionFree;
  }

  /** Numbered above all there is, the minted operations do one after the other what they say. */
  lemma {:induction false} MintedDo(c: Crypto, inPlay: iset<Blob>, desk: Desk, before: seq<Op>, n: nat, after: seq<Op>)
    requires CollisionFree(c, inPlay) && Honest(c) && WithMinted(c, inPlay, desk, before, n, after)
    requires n <= |desk.pending|
    ensures DraftsTo(Folded(c, desk.owner, before), desk.pending[..n], Folded(c, desk.owner, after))
  {
    hide *;
    if n == 0 {
      NoneMintedYet(c, inPlay, desk, before, after);
    } else {
      var rest := before + Minted(c, desk)[..n - 1];
      OneFewer(c, inPlay, desk, before, n, after);
      MintedDo(c, inPlay, desk, before, n - 1, rest);
      LastMintedDoes(c, inPlay, desk, rest, n - 1, after);
      OneMoreDraft(Folded(c, desk.owner, before), desk.pending, n, Folded(c, desk.owner, rest),
                   Folded(c, desk.owner, after));
    }
  }

  lemma AllMinted(c: Crypto, inPlay: iset<Blob>, desk: Desk, before: seq<Op>, after: seq<Op>)
    requires InPlay(inPlay, before) && InPlay(inPlay, after)
    requires forall op :: op in before ==> op.claim.seqNo < desk.nextSeq
    requires forall op :: op in after <==> op in before || op in Minted(c, desk)
    ensures WithMinted(c, inPlay, desk, before, |desk.pending|, after)
  {
    assert Minted(c, desk)[..|desk.pending|] == Minted(c, desk);
  }

  lemma PublishedWithMinted(c: Crypto, inPlay: iset<Blob>, blobs: Blobs, desk: Desk)
    requires CollisionFree(c, inPlay) && Intact(c, inPlay, blobs) && HoldsOps(blobs, desk.ops)
    requires forall op :: op in LoadOps(blobs, desk.ops) ==> op.claim.seqNo < desk.nextSeq
    requires PublishInPlay(c, inPlay, desk)
    ensures var after := LoadOps(PublishedBlobs(c, desk, blobs), PublishedHead(c, desk).ops);
      WithMinted(c, inPlay, desk, LoadOps(blobs, desk.ops), |desk.pending|, after)
  {
    hide *;
    var stored, hashes := PublishedBlobs(c, desk, blobs), PublishedHead(c, desk).ops;
    PublishedStore(c, inPlay, blobs, desk);
    LoadedInPlay(c, inPlay, blobs, desk.ops);
    LoadedInPlay(c, inPlay, stored, hashes);
    AllMinted(c, inPlay, desk, LoadOps(blobs, desk.ops), LoadOps(stored, hashes));
  }

  /** Publishing and opening again gives the list the publisher's own operations made, with every
      draft applied to it in turn. */
  lemma ReopenedInOrder(c: Crypto, inPlay: iset<Blob>, blobs: Blobs, desk: Desk)
    requires CollisionFree(c, inPlay) && Honest(c) && Intact(c, inPlay, blobs) && HoldsOps(blobs, desk.ops)
    requires forall op :: op in LoadOps(blobs, desk.ops) ==> op.claim.seqNo < desk.nextSeq
    requires PublishInPlay(c, inPlay, desk)
    ensures DraftsTo(Base(c, blobs, desk), desk.pending, Reopened(c, blobs, desk))
  {
    PublishedWithMinted(c, inPlay, blobs, desk);
    hide Folded, PublishedBlobs, PublishedHead, DraftsTo, LoadOps, WithMinted, CollisionFree, Honest;
    MintedDo(c, inPlay, desk, LoadOps(blobs, desk.ops), |desk.pending|,
             LoadOps(PublishedBlobs(c, desk, blobs), PublishedHead(c, desk).ops));
    assert desk.pending[..|desk.pending|] == desk.pending;
  }

  // ----- where the order differs from the list in memory -----

  lemma PutsOnce(before: seq<Item>, item: Item, a: seq<Item>, b: seq<Item>)
    requires DistinctItems(before) && Puts(before, item, a) && Puts(before, item, b)
    ensures a == b
  {
  }

  lemma DropsOnce(before: seq<Item>, ci: Hash, a: seq<Item>, b: seq<Item>)
    requires DistinctItems(before) && Drops(before, ci, a) && Drops(before, ci, b)
    ensures a == b
  {
  }

  lemma DoneStaysDistinct(before: seq<Item>, draft: Draft, after: seq<Item>)
    requires DistinctItems(before) && DraftDoes(before, draft, after)
    ensures DistinctItems(after)
  {
    match draft {
      case DraftAdd(item) =>
        UpsertedPuts(before, item);
        UpsertedItems(before, item);
        PutsOnce(before, item, after, Upserted(before, item));
      case DraftRemove(gone) =>
        WithoutDrops(before, gone);
        WithoutItems(before, gone);
        DropsOnce(before, gone, after, Without(before, gone));
    }
  }

  /** The drafts lead to one list. */
  lemma {:induction false} DraftsToOne(before: seq<Item>, drafts: seq<Draft>, a: seq<Item>, b: seq<Item>)
    requires DistinctItems(before) && DraftsTo(before, drafts, a) && DraftsTo(before, drafts, b)
    ensures a == b && DistinctItems(a)
    decreases |drafts|
  {
    if drafts != [] {
      var front, last := drafts[..|drafts| - 1], drafts[|drafts| - 1];
      var midA :| DraftsBy(before, drafts, midA, a);
      var midB :| DraftsBy(before, drafts, midB, b);
      hide DistinctItems, Puts, Drops;
      DraftsToOne(before, front, midA, midB);
      DoneStaysDistinct(midA, last, a);
      match last {
        case DraftAdd(item) => PutsOnce(midA, item, a, b);
        case DraftRemove(gone) => DropsOnce(midA, gone, a, b);
      }
    }
  }

  /** The list opened again is the very list in memory, order and all, exactly when the drafts
      lead to that list from what the publisher's own operations made. */
  lemma ReopensAlikeExactly(c: Crypto, inPlay: iset<Blob>, blobs: Blobs, desk: Desk)
    requires CollisionFree(c, inPlay) && Honest(c) && Coherent(c, inPlay, blobs, desk)
    requires PublishInPlay(c, inPlay, desk)
    ensures Reopened(c, blobs, desk) == desk.items <==> DraftsTo(Base(c, blobs, desk), desk.pending, desk.items)
  {
    ReopenedInOrder(c, inPlay, blobs, desk);
    FoldDistinct(c, desk.owner, LoadOps(blobs, desk.ops));
    hide Folded, DraftsTo, Reopened, PublishedBlobs;
    if DraftsTo(Base(c, blobs, desk), desk.pending, desk.items) {
      DraftsToOne(Base(c, blobs, desk), desk.pending, Reopened(c, blobs, desk), desk.items);
    }
  }

  lemma Readded(open: Desk, x: Item, y: Item)
    requires x.ci != y.ci && open.items == [x, y] && open.baseline == {x.ci, y.ci} && open.pending == []
    ensures var desk := EditedAll(open, [RemoveItem(x.ci), AddItem(x)]);
      desk.items == [y, x] && desk.pending == [DraftAdd(x)] && desk.ops == open.ops && desk.owner == open.owner
      && desk.nextSeq == open.nextSeq
  {
    var gone := Edited(open, RemoveItem(x.ci));
    var desk := Edited(gone, AddItem(x));
    var edits := [RemoveItem(x.ci), AddItem(x)];
    assert [x, y][1..] == [y] && [y][1..] == [] && [DraftRemove(x.ci)][1..] == [];
    assert Without([], x.ci) == [] && Without([y], x.ci) == [y] && Without([x, y], x.ci) == [y];
    assert Upserted([], x) == [x] && Upserted([y], x) == [y, x];
    assert gone.items == [y] && gone.pending == [DraftRemove(x.ci)];
    assert edits[1..] == [AddItem(x)] && [AddItem(x)][1..] == [];
    assert EditedAll(desk, []) == desk && EditedAll(gone, [AddItem(x)]) == desk;
  }

  lemma AddedInPlace(x: Item, y: Item)
    ensures DraftsTo([x, y], [DraftAdd(x)], [x, y])
  {
    assert [DraftAdd(x)][..0] == [] && [DraftAdd(x)][..1] == [DraftAdd(x)];
    assert [x, y][0 := x] == [x, y] && [x, y][0].ci == x.ci;
    assert DraftDoes([x, y], DraftAdd(x), [x, y]);
    OneMoreDraft([x, y], [DraftAdd(x)], 1, [x, y], [x, y]);
  }

  /** An item removed and added again is last in memory; opened again, it stands where it did. */
  lemma ReaddedReturns(c: Crypto, inPlay: iset<Blob>, blobs: Blobs, open: Desk, x: Item, y: Item)
    requires CollisionFree(c, inPlay) && Honest(c) && Coherent(c, inPlay, blobs, open) && x.ci != y.ci
    requires open.items == [x, y] == Base(c, blobs, open) && open.baseline == {x.ci, y.ci} && open.pending == []
    requires PublishInPlay(c, inPlay, EditedAll(open, [RemoveItem(x.ci), AddItem(x)]))
    ensures var desk := EditedAll(open, [RemoveItem(x.ci), AddItem(x)]);
      desk.items == [y, x] && Reopened(c, blobs, desk) == [x, y]
  {
    var desk := EditedAll(open, [RemoveItem(x.ci), AddItem(x)]);
    Readded(open, x, y);
    AddedInPlace(x, y);
    assert Base(c, blobs, desk) == [x, y];
    hide Folded, PublishedBlobs, EditedAll, Reopened, DraftsTo, LoadOps, PublishInPlay;
    ReopenedInOrder(c, inPlay, blobs, desk);
    DraftsToOne([x, y], desk.pending, Reopened(c, blobs, desk), [x, y]);
  }
}
