/** The stateful editor of a collection: open, edit, publish. */
module Builder {
  import opened Options
  import opened Records
  import opened Store
  import opened Fold

  datatype Draft = DraftAdd(item: Item) | DraftRemove(gone: Hash)

  function DraftCi(draft: Draft): Hash {
    match draft
    case DraftAdd(item) => item.ci
    case DraftRemove(gone) => gone
  }

  /** The fields of a builder, as one value. */
  datatype Desk = Desk(
    kind: string,
    name: string,
    owner: Dgid,
    forkedFrom: Option<Dgid>,
    items: seq<Item>,
    baseline: set<Hash>,
    ops: seq<Hash>,
    nextSeq: nat,
    pending: seq<Draft>,
    attestations: seq<Hash>,
    records: seq<Hash>)

  datatype Edit =
    | AddItem(item: Item)
    | RemoveItem(ci: Hash)
    | AddRecord(record: Hash)
    | AddAttestation(attestation: Hash)
    | SetKind(kind: string)

  // ----- what the methods compute -----

  function MaxSeq(ops: seq<Op>): (r: nat)
    ensures forall op :: op in ops ==> op.claim.seqNo <= r
  {
    if ops == [] then 0
    else
      assert ops == [ops[0]] + ops[1..];
      var rest := MaxSeq(ops[1..]);
      if ops[0].claim.seqNo > rest then ops[0].claim.seqNo else rest
  }

  function AddDrafts(items: seq<Item>): seq<Draft> {
    if items == [] then [] else [DraftAdd(items[0])] + AddDrafts(items[1..])
  }

  function Opened(c: Crypto, blobs: Blobs, head: Option<Collection>, name: string, me: Dgid): Desk {
    match head
    case None => Desk("collection", name, me, None, [], {}, [], 1, [], [], [])
    case Some(h) =>
      var ops := LoadOps(blobs, h.ops);
      var items := Folded(c, h.owner, ops);
      var forking := h.owner != me;
      Desk(h.kind, name, me, if forking then Some(h.owner) else None, items,
           if forking then {} else Cis(items), h.ops, MaxSeq(ops) + 1,
           if forking then AddDrafts(items) else [], h.attestations, h.records)
  }

  function Retained(pending: seq<Draft>, ci: Hash): seq<Draft> {
    if pending == [] then []
    else if DraftCi(pending[0]) == ci then Retained(pending[1..], ci)
    else [pending[0]] + Retained(pending[1..], ci)
  }

  function Dropped(hashes: seq<Hash>, hash: Hash): (r: seq<Hash>)
    ensures forall h :: h in r <==> h in hashes && h != hash
  {
    if hashes == [] then []
    else
      assert hashes == [hashes[0]] + hashes[1..];
      if hashes[0] == hash then Dropped(hashes[1..], hash) else [hashes[0]] + Dropped(hashes[1..], hash)
  }

  function Edited(desk: Desk, edit: Edit): Desk {
    match edit
    case AddItem(item) =>
      desk.(items := Upserted(desk.items, item), pending := Retained(desk.pending, item.ci) + [DraftAdd(item)])
    case RemoveItem(ci) =>
      desk.(items := Without(desk.items, ci),
            pending := Retained(desk.pending, ci) + if ci in desk.baseline then [DraftRemove(ci)] else [])
    case AddRecord(record) =>
      if record in desk.records then desk else desk.(records := desk.records + [record])
    case AddAttestation(attestation) =>
      desk.(attestations := Dropped(desk.attestations, attestation) + [attestation])
    case SetKind(kind) => desk.(kind := kind)
  }

  function EditedAll(desk: Desk, edits: seq<Edit>): Desk
    decreases |edits|
  {
    if edits == [] then desk else EditedAll(Edited(desk, edits[0]), edits[1..])
  }

  function SignedOp(c: Crypto, claim: OpClaim): Op {
    Op(claim, Some(Proof(claim.owner, c.sign(claim.owner, claim))))
  }

  function MintedOp(c: Crypto, desk: Desk, draft: Draft, seqNo: nat): Op {
    match draft
    case DraftAdd(item) => SignedOp(c, OpClaim(OpKind.Add, desk.name, desk.owner, seqNo, Some(item), None, None))
    case DraftRemove(gone) => SignedOp(c, OpClaim(OpKind.Remove, desk.name, desk.owner, seqNo, None, Some(gone), None))
  }

  /** One operation per pending draft, numbered from `nextSeq`. */
  function Minted(c: Crypto, desk: Desk): (ops: seq<Op>)
    ensures |ops| == |desk.pending|
    ensures forall i :: 0 <= i < |ops| ==> ops[i] == MintedOp(c, desk, desk.pending[i], desk.nextSeq + i)
  {
    seq(|desk.pending|, i requires 0 <= i < |desk.pending| => MintedOp(c, desk, desk.pending[i], desk.nextSeq + i))
  }

  function PutOps(c: Crypto, blobs: Blobs, ops: seq<Op>): Blobs {
    if ops == [] then blobs else Put(c, PutOps(c, blobs, ops[..|ops| - 1]), OpBlob(ops[|ops| - 1]))
  }

  /** The listed hashes, then those of `ops` not listed yet. */
  function Listed(c: Crypto, hashes: seq<Hash>, ops: seq<Op>): (r: seq<Hash>)
    ensures forall h :: h in r <==> h in hashes || exists op :: op in ops && h == c.address(OpBlob(op))
  {
    if ops == [] then hashes
    else
      var front, last := ops[..|ops| - 1], ops[|ops| - 1];
      assert ops == front + [last];
      var before := Listed(c, hashes, front);
      if c.address(OpBlob(last)) in before then before else before + [c.address(OpBlob(last))]
  }

  lemma OneMore(c: Crypto, blobs: Blobs, hashes: seq<Hash>, ops: seq<Op>, i: nat)
    requires i < |ops|
    ensures PutOps(c, blobs, ops[..i + 1]) == Put(c, PutOps(c, blobs, ops[..i]), OpBlob(ops[i]))
    ensures var listed, hash := Listed(c, hashes, ops[..i]), c.address(OpBlob(ops[i]));
      Listed(c, hashes, ops[..i + 1]) == if hash in listed then listed else listed + [hash]
  {
    assert ops[..i + 1][..i] == ops[..i];
  }

  lemma NoneMinted(c: Crypto, blobs: Blobs, hashes: seq<Hash>)
    ensures PutOps(c, blobs, []) == blobs && Listed(c, hashes, []) == hashes
  {
  }

  function PublishedDesk(c: Crypto, desk: Desk): Desk {
    desk.(ops := Listed(c, desk.ops, Minted(c, desk)), pending := [], nextSeq := desk.nextSeq + |desk.pending|,
          baseline := Cis(desk.items))
  }

  function NewHead(kind: string, name: string, owner: Dgid, forkedFrom: Option<Dgid>,
                   ops: seq<Hash>, records: seq<Hash>, attestations: seq<Hash>): (head: Collection)
    ensures Indexed(head)
  {
    Collection(kind, name, owner, forkedFrom, ops, attestations, records,
               Elements(ops) + Elements(attestations) + Elements(records))
  }

  function PublishedHead(c: Crypto, desk: Desk): Collection {
    NewHead(desk.kind, desk.name, desk.owner, desk.forkedFrom, Listed(c, desk.ops, Minted(c, desk)),
            desk.records, desk.attestations)
  }

  function PublishedBlobs(c: Crypto, desk: Desk, blobs: Blobs): Blobs {
    Put(c, PutOps(c, blobs, Minted(c, desk)), HeadBlob(PublishedHead(c, desk)))
  }

  // ----- the builder object -----

  class CollectionBuilder {
    var kind: string
    var name: string
    var owner: Dgid
    var forkedFrom: Option<Dgid>
    var items: seq<Item>
    var baseline: set<Hash>
    var ops: seq<Hash>
    var nextSeq: nat
    var pending: seq<Draft>
    var attestations: seq<Hash>
    var records: seq<Hash>

    function State(): Desk
      reads this
    {
      Desk(kind, name, owner, forkedFrom, items, baseline, ops, nextSeq, pending, attestations, records)
    }

    constructor Open(store: BlobStore, name: string, me: Dgid)
      ensures State() == Opened(store.crypto, store.blobs, HeadAt(store.blobs, store.ReadRef(name)), name, me)
    {
      this.name, owner := name, me;
      match HeadAt(store.blobs, store.ReadRef(name)) {
        case None =>
          kind, forkedFrom, items, baseline := "collection", None, [], {};
          ops, nextSeq, pending, attestations, records := [], 1, [], [], [];
        case Some(head) =>
          var loaded := LoadOps(store.blobs, head.ops);
          var folded := FoldOps(store.crypto, head.owner, loaded);
          var forking := head.owner != me;
          kind, items := head.kind, folded;
          forkedFrom := if forking then Some(head.owner) else None;
          baseline := if forking then {} else Cis(folded);
          pending := if forking then AddDrafts(folded) else [];
          ops, nextSeq := head.ops, MaxSeq(loaded) + 1;
          attestations, records := head.attestations, head.records;
      }
    }

    method Kind(kind: string)
      modifies this
      ensures State() == Edited(old(State()), SetKind(kind))
    {
      this.kind := kind;
    }

    method Add(item: Item)
      modifies this
      ensures State() == Edited(old(State()), AddItem(item))
    {
      items := UpsertInPlace(items, item);
      pending := Retained(pending, item.ci);
      pending := pending + [DraftAdd(item)];
    }

    method Remove(ci: Hash)
      modifies this
      ensures State() == Edited(old(State()), RemoveItem(ci))
    {
      items := Without(items, ci);
      pending := Retained(pending, ci);
      if ci in baseline {
        pending := pending + [DraftRemove(ci)];
      }
    }

    method Record(hash: Hash)
      modifies this
      ensures State() == Edited(old(State()), AddRecord(hash))
    {
      if hash !in records {
        records := records + [hash];
      }
    }

    method Attest(hash: Hash)
      modifies this
      ensures State() == Edited(old(State()), AddAttestation(hash))
    {
      attestations := Dropped(attestations, hash);
      attestations := attestations + [hash];
    }

    /** Signs and stores one operation for each draft. */
    method MintAll(store: BlobStore, drafts: seq<Draft>) returns (listed: seq<Hash>)
      requires drafts == pending
      modifies this`nextSeq, this`pending, store`blobs
      ensures State() == old(State()).(pending := [], nextSeq := old(nextSeq) + |drafts|)
      ensures listed == Listed(store.crypto, ops, Minted(store.crypto, old(State())))
      ensures store.blobs == PutOps(store.crypto, old(store.blobs), Minted(store.crypto, old(State())))
    {
      ghost var desk := State();
      ghost var minted := Minted(store.crypto, desk);
      hide Listed, PutOps;
      assert minted[..0] == [];
      NoneMinted(store.crypto, store.blobs, ops);
      listed := ops;
      pending := [];
      for i := 0 to |drafts|
        invariant State() == desk.(pending := [], nextSeq := desk.nextSeq + i)
        invariant listed == Listed(store.crypto, desk.ops, minted[..i])
        invariant store.blobs == PutOps(store.crypto, old(store.blobs), minted[..i])
      {
        var op := MintedOp(store.crypto, State(), drafts[i], nextSeq);
        assert op == minted[i];
        OneMore(store.crypto, old(store.blobs), desk.ops, minted, i);
        nextSeq := nextSeq + 1;
        var hash := store.PutBlob(OpBlob(op));
        if hash !in listed {
          listed := listed + [hash];
        }
      }
      assert minted[..|drafts|] == minted;
    }

    /** `Builder::publish`: refused to another identity, and to an unusable name after the
        operations and the head are stored. */
    method Publish(store: BlobStore, me: Dgid) returns (r: Result<Hash, string>)
      modifies this, store
      ensures me != old(owner) ==>
        (r.Err? && State() == old(State()) && store.blobs == old(store.blobs) && store.refs == old(store.refs))
      ensures me == old(owner) ==> State() == PublishedDesk(store.crypto, old(State()))
      ensures me == old(owner) ==> store.blobs == PublishedBlobs(store.crypto, old(State()), old(store.blobs))
      ensures me == old(owner) && !store.usable(name) ==> r.Err? && store.refs == old(store.refs)
      ensures me == old(owner) && store.usable(name) ==>
        (r == Ok(store.crypto.address(HeadBlob(PublishedHead(store.crypto, old(State())))))
         && store.refs == old(store.refs)[name := r.value])
    {
      hide Listed, PutOps, Minted;
      if me != owner {
        return Err("built by the identity that opened it");
      }
      var listed := MintAll(store, pending);
      ops := listed;
      baseline := Cis(items);
      var head := NewHead(kind, name, owner, forkedFrom, listed, records, attestations);
      var hash := store.PutBlob(HeadBlob(head));
      var ok := store.WriteRef(name, hash);
      r := if ok then Ok(hash) else Err("not a usable ref name");
    }
  }

  // ----- the invariant of a builder -----

  function DraftFor(pending: seq<Draft>, ci: Hash): Option<Draft> {
    if pending == [] then None
    else if DraftCi(pending[0]) == ci then Some(pending[0])
    else DraftFor(pending[1..], ci)
  }

  lemma {:induction false} DraftForIn(pending: seq<Draft>, ci: Hash)
    ensures DraftFor(pending, ci).Some? ==>
      DraftFor(pending, ci).value in pending && DraftCi(DraftFor(pending, ci).value) == ci
    ensures DraftFor(pending, ci).None? <==> forall draft :: draft in pending ==> DraftCi(draft) != ci
  {
    if pending != [] {
      DraftForIn(pending[1..], ci);
      assert pending == [pending[0]] + pending[1..];
    }
  }

  ghost predicate OneDraftPerCi(pending: seq<Draft>) {
    forall i, j :: 0 <= i < j < |pending| ==> DraftCi(pending[i]) != DraftCi(pending[j])
  }

  /** What the builder's own owner's operations fold to. */
  function Base(c: Crypto, blobs: Blobs, desk: Desk): seq<Item> {
    Folded(c, desk.owner, LoadOps(blobs, desk.ops))
  }

  /** The item the builder shows under `ci`: the pending draft's, or the baseline's. */
  function Expected(base: seq<Item>, desk: Desk, ci: Hash): Option<Item> {
    match DraftFor(desk.pending, ci)
    case Some(DraftAdd(item)) => Some(item)
    case Some(DraftRemove(_)) => None
    case None => if ci in desk.baseline then Find(base, ci) else None
  }

  /** One pending draft at most for each ci, laid over the baseline, gives the items in
      memory. */
  ghost predicate Shows(base: seq<Item>, desk: Desk) {
    && DistinctItems(desk.items)
    && OneDraftPerCi(desk.pending)
    && (forall draft :: draft in desk.pending && draft.DraftRemove? ==> draft.gone in desk.baseline)
    && (forall ci :: ci in desk.baseline ==> Find(base, ci).Some?)
    && (forall ci :: Find(desk.items, ci) == Expected(base, desk, ci))
  }

  /** What a builder keeps: its items are the fold with the drafts on top, and its next
      operation outnumbers all the loaded ones. */
  ghost predicate Coherent(c: Crypto, inPlay: iset<Blob>, blobs: Blobs, desk: Desk) {
    && Intact(c, inPlay, blobs)
    && HoldsOps(blobs, desk.ops)
    && (forall op :: op in LoadOps(blobs, desk.ops) ==> op.claim.seqNo < desk.nextSeq)
    && Shows(Base(c, blobs, desk), desk)
  }

  lemma {:induction false} AddDraftsOf(items: seq<Item>)
    requires DistinctItems(items)
    ensures |AddDrafts(items)| == |items|
    ensures forall i :: 0 <= i < |items| ==> AddDrafts(items)[i] == DraftAdd(items[i])
    ensures forall ci :: Find(items, ci).None? ==> DraftFor(AddDrafts(items), ci).None?
    ensures forall ci :: Find(items, ci).Some? ==>
      DraftFor(AddDrafts(items), ci) == Some(DraftAdd(Find(items, ci).value))
  {
    if items != [] {
      AddDraftsOf(items[1..]);
    }
  }

  lemma OpenedCoherent(c: Crypto, inPlay: iset<Blob>, blobs: Blobs, head: Option<Collection>, name: string, me: Dgid)
    requires Intact(c, inPlay, blobs)
    requires head.Some? ==> HoldsOps(blobs, head.value.ops)
    ensures Coherent(c, inPlay, blobs, Opened(c, blobs, head, name, me))
  {
    if head.Some? {
      FoldDistinct(c, head.value.owner, LoadOps(blobs, head.value.ops));
      var items := Folded(c, head.value.owner, LoadOps(blobs, head.value.ops));
      if head.value.owner != me {
        AddDraftsOf(items);
      } else {
        forall ci ensures ci in Cis(items) <==> Find(items, ci).Some? { FindCis(items, ci); }
      }
    }
  }

  lemma {:induction false} RetainedDrafts(pending: seq<Draft>, gone: Hash)
    requires OneDraftPerCi(pending)
    ensures OneDraftPerCi(Retained(pending, gone))
    ensures forall draft :: draft in Retained(pending, gone) ==> draft in pending && DraftCi(draft) != gone
    ensures forall ci :: DraftFor(Retained(pending, gone), ci) == if ci == gone then None else DraftFor(pending, ci)
  {
    if pending != [] {
      assert pending == [pending[0]] + pending[1..];
      RetainedDrafts(pending[1..], gone);
    }
  }

  lemma {:induction false} DraftForSnoc(pending: seq<Draft>, draft: Draft, ci: Hash)
    requires DraftFor(pending, DraftCi(draft)) == None
    ensures DraftFor(pending + [draft], ci) == if ci == DraftCi(draft) then Some(draft) else DraftFor(pending, ci)
  {
    if pending != [] {
      assert (pending + [draft])[1..] == pending[1..] + [draft];
      DraftForSnoc(pending[1..], draft, ci);
    }
  }

  lemma EditedShows(base: seq<Item>, desk: Desk, edit: Edit)
    requires Shows(base, desk)
    ensures Shows(base, Edited(desk, edit))
  {
    var after := Edited(desk, edit);
    match edit {
      case AddItem(item) =>
        UpsertedItems(desk.items, item);
        RetainedDrafts(desk.pending, item.ci);
        forall ci ensures Find(after.items, ci) == Expected(base, after, ci) {
          DraftForSnoc(Retained(desk.pending, item.ci), DraftAdd(item), ci);
          assert Find(desk.items, ci) == Expected(base, desk, ci);
        }
      case RemoveItem(gone) =>
        WithoutItems(desk.items, gone);
        RetainedDrafts(desk.pending, gone);
        var kept := Retained(desk.pending, gone);
        assert kept + [] == kept;
        forall ci ensures Find(after.items, ci) == Expected(base, after, ci) {
          DraftForSnoc(Retained(desk.pending, gone), DraftRemove(gone), ci);
          assert Find(desk.items, ci) == Expected(base, desk, ci);
        }
      case _ =>
        forall ci ensures Find(after.items, ci) == Expected(base, after, ci) {
          assert Find(desk.items, ci) == Expected(base, desk, ci);
        }
    }
  }

  /** Every edit keeps the invariant. */
  lemma EditedCoherent(c: Crypto, inPlay: iset<Blob>, blobs: Blobs, desk: Desk, edit: Edit)
    requires Coherent(c, inPlay, blobs, desk)
    ensures Coherent(c, inPlay, blobs, Edited(desk, edit))
  {
    hide Folded, Shows;
    EditedShows(Base(c, blobs, desk), desk, edit);
  }

  lemma {:induction false} EditedAllCoherent(c: Crypto, inPlay: iset<Blob>, blobs: Blobs, desk: Desk, edits: seq<Edit>)
    requires Coherent(c, inPlay, blobs, desk)
    ensures Coherent(c, inPlay, blobs, EditedAll(desk, edits))
    ensures EditedAll(desk, edits).baseline == desk.baseline && EditedAll(desk, edits).ops == desk.ops
    ensures EditedAll(desk, edits).name == desk.name && EditedAll(desk, edits).owner == desk.owner
    ensures EditedAll(desk, edits).nextSeq == desk.nextSeq
    decreases |edits|
  {
    hide Coherent;
    if edits != [] {
      EditedCoherent(c, inPlay, blobs, desk, edits[0]);
      EditedAllCoherent(c, inPlay, blobs, Edited(desk, edits[0]), edits[1..]);
    }
  }

  // ----- publishing -----

  /** The records a publish stores are in play. */
  ghost predicate PublishInPlay(c: Crypto, inPlay: iset<Blob>, desk: Desk) {
    && InPlay(inPlay, Minted(c, desk))
    && HeadBlob(PublishedHead(c, desk)) in inPlay
  }

  predicate SitsIn(c: Crypto, blobs: Blobs, blob: Blob) {
    c.address(blob) in blobs && blobs[c.address(blob)] == blob
  }

  lemma {:induction false} PutOpsGet(c: Crypto, inPlay: iset<Blob>, blobs: Blobs, ops: seq<Op>)
    requires CollisionFree(c, inPlay) && Intact(c, inPlay, blobs) && InPlay(inPlay, ops)
    ensures Intact(c, inPlay, PutOps(c, blobs, ops)) && Extends(PutOps(c, blobs, ops), blobs)
    ensures forall op :: op in ops ==> SitsIn(c, PutOps(c, blobs, ops), OpBlob(op))
    ensures forall h :: h in PutOps(c, blobs, ops) && h !in blobs ==> PutOps(c, blobs, ops)[h].OpBlob?
  {
    if ops != [] {
      var front, last := ops[..|ops| - 1], ops[|ops| - 1];
      assert ops == front + [last];
      PutOpsGet(c, inPlay, blobs, front);
      PutGet(c, inPlay, PutOps(c, blobs, front), OpBlob(last));
    }
  }

  lemma LoadedInPlay(c: Crypto, inPlay: iset<Blob>, blobs: Blobs, hashes: seq<Hash>)
    requires Intact(c, inPlay, blobs)
    ensures InPlay(inPlay, LoadOps(blobs, hashes))
  {
  }

  /** After a publish the stored operations are the old ones and the minted ones. */
  lemma PublishedStore(c: Crypto, inPlay: iset<Blob>, blobs: Blobs, desk: Desk)
    requires CollisionFree(c, inPlay) && Intact(c, inPlay, blobs) && HoldsOps(blobs, desk.ops)
    requires PublishInPlay(c, inPlay, desk)
    ensures var after := PublishedBlobs(c, desk, blobs); var head := PublishedHead(c, desk);
      && Intact(c, inPlay, after) && Extends(after, blobs)
      && HoldsOps(after, head.ops)
      && SitsIn(c, after, HeadBlob(head))
    ensures var after := PublishedBlobs(c, desk, blobs); var head := PublishedHead(c, desk);
      forall op :: op in LoadOps(after, head.ops) <==> op in LoadOps(blobs, desk.ops) || op in Minted(c, desk)
  {
    var minted := Minted(c, desk);
    var mid := PutOps(c, blobs, minted);
    PutOpsGet(c, inPlay, blobs, minted);
    PutGet(c, inPlay, mid, HeadBlob(PublishedHead(c, desk)));
    var after := PublishedBlobs(c, desk, blobs);
    var hashes := PublishedHead(c, desk).ops;
    forall op | op in LoadOps(after, hashes) ensures op in LoadOps(blobs, desk.ops) || op in minted {
      var h :| h in hashes && h in after && after[h] == OpBlob(op);
      if h !in desk.ops {
        var m :| m in minted && h == c.address(OpBlob(m));
        assert after[h] == OpBlob(m);
      }
    }
    forall op | op in LoadOps(blobs, desk.ops) ensures op in LoadOps(after, hashes) {
      var h :| h in desk.ops && h in blobs && blobs[h] == OpBlob(op);
      assert h in hashes && after[h] == OpBlob(op);
    }
    forall op | op in minted ensures op in LoadOps(after, hashes) {
      assert c.address(OpBlob(op)) in hashes && after[c.address(OpBlob(op))] == OpBlob(op);
    }
  }

  lemma MintedSeqs(c: Crypto, desk: Desk)
    ensures forall op :: op in Minted(c, desk) ==> desk.nextSeq <= op.claim.seqNo < desk.nextSeq + |desk.pending|
  {
  }

  lemma MintedCounts(c: Crypto, desk: Desk)
    requires Honest(c)
    ensures forall op :: op in Minted(c, desk) ==> Counts(c, desk.owner, op)
  {
  }

  lemma {:induction false} DraftIndex(pending: seq<Draft>, ci: Hash) returns (i: nat)
    requires DraftFor(pending, ci).Some?
    ensures i < |pending| && pending[i] == DraftFor(pending, ci).value && DraftCi(pending[i]) == ci
  {
    if DraftCi(pending[0]) == ci {
      i := 0;
    } else {
      var j := DraftIndex(pending[1..], ci);
      i := j + 1;
    }
  }

  /** What a publish leaves under `ci`. */
  function Overlaid(base: seq<Item>, desk: Desk, ci: Hash): Option<Item> {
    match DraftFor(desk.pending, ci)
    case Some(DraftAdd(item)) => Some(item)
    case Some(DraftRemove(_)) => None
    case None => Find(base, ci)
  }

  function Reopened(c: Crypto, blobs: Blobs, desk: Desk): seq<Item> {
    Folded(c, desk.owner, LoadOps(PublishedBlobs(c, desk, blobs), PublishedHead(c, desk).ops))
  }

  lemma MintedTouches(c: Crypto, desk: Desk, ci: Hash)
    requires OneDraftPerCi(desk.pending)
    ensures DraftFor(desk.pending, ci).None? ==> forall op :: op in Minted(c, desk) ==> !Touches(op, ci)
    ensures DraftFor(desk.pending, ci).Some? ==>
      exists w :: w in Minted(c, desk) && Touches(w, ci)
        && Write(w) == (match DraftFor(desk.pending, ci).value case DraftAdd(item) => Some(item) case _ => None)
        && forall op :: op in Minted(c, desk) && Touches(op, ci) ==> op == w
  {
    var minted := Minted(c, desk);
    DraftForIn(desk.pending, ci);
    if DraftFor(desk.pending, ci).Some? {
      var i := DraftIndex(desk.pending, ci);
      assert minted[i] in minted;
    } else {
      forall op | op in minted ensures !Touches(op, ci) {
        var j :| 0 <= j < |minted| && minted[j] == op;
        assert desk.pending[j] in desk.pending;
      }
    }
  }

  /** Writing numbered-above operations over a list of operations. */
  lemma OverlayFind(c: Crypto, inPlay: iset<Blob>, owner: Dgid, before: seq<Op>, minted: seq<Op>, after: seq<Op>,
                    ci: Hash)
    requires CollisionFree(c, inPlay) && InPlay(inPlay, before) && InPlay(inPlay, after)
    requires forall op :: op in after <==> op in before || op in minted
    requires forall op :: op in minted ==> Counts(c, owner, op)
    requires forall was, op :: was in before && op in minted ==> was.claim.seqNo < op.claim.seqNo
    requires forall a, b :: a in minted && b in minted && Touches(a, ci) && Touches(b, ci) ==> a == b
    ensures (forall op :: op in minted ==> !Touches(op, ci)) ==>
      Find(Folded(c, owner, after), ci) == Find(Folded(c, owner, before), ci)
    ensures forall w :: w in minted && Touches(w, ci) ==> Find(Folded(c, owner, after), ci) == Write(w)
  {
    hide Folded;
    LastWriterWins(c, inPlay, owner, before, ci);
    LastWriterWins(c, inPlay, owner, after, ci);
    if w :| w in minted && Touches(w, ci) {
      assert Latest(c, owner, after, ci, w);
    } else {
      assert forall w :: Latest(c, owner, after, ci, w) <==> Latest(c, owner, before, ci, w);
    }
  }

  /** Publishing writes each pending draft over the fold, and touches no other ci. */
  lemma PublishedFind(c: Crypto, inPlay: iset<Blob>, blobs: Blobs, desk: Desk, ci: Hash)
    requires CollisionFree(c, inPlay) && Honest(c) && Intact(c, inPlay, blobs) && HoldsOps(blobs, desk.ops)
    requires forall op :: op in LoadOps(blobs, desk.ops) ==> op.claim.seqNo < desk.nextSeq
    requires OneDraftPerCi(desk.pending) && PublishInPlay(c, inPlay, desk)
    ensures Find(Reopened(c, blobs, desk), ci) == Overlaid(Base(c, blobs, desk), desk, ci)
  {
    hide Folded, Find, PublishedBlobs, PublishedHead;
    var minted := Minted(c, desk);
    var before := LoadOps(blobs, desk.ops);
    var after := LoadOps(PublishedBlobs(c, desk, blobs), PublishedHead(c, desk).ops);
    PublishedStore(c, inPlay, blobs, desk);
    assert forall op :: op in after <==> op in before || op in minted;
    MintedCounts(c, desk);
    MintedSeqs(c, desk);
    MintedTouches(c, desk, ci);
    assert InPlay(inPlay, before) && InPlay(inPlay, after);
    OverlayFind(c, inPlay, desk.owner, before, minted, after, ci);
  }

  lemma OverlaidShows(base: seq<Item>, over: seq<Item>, desk: Desk, after: Desk)
    requires Shows(base, desk)
    requires forall ci :: Find(over, ci) == Overlaid(base, desk, ci)
    requires after.items == desk.items && after.pending == [] && after.baseline == Cis(desk.items)
    ensures Shows(over, after)
  {
    forall ci ensures Find(after.items, ci) == Expected(over, after, ci)
      ensures ci in after.baseline ==> Find(over, ci).Some?
    {
      FindCis(desk.items, ci);
      DraftForIn(desk.pending, ci);
      assert Find(desk.items, ci) == Expected(base, desk, ci);
      assert Find(over, ci) == Overlaid(base, desk, ci);
    }
  }

  lemma PublishedSeqs(c: Crypto, inPlay: iset<Blob>, blobs: Blobs, desk: Desk)
    requires CollisionFree(c, inPlay) && Intact(c, inPlay, blobs) && HoldsOps(blobs, desk.ops)
    requires forall op :: op in LoadOps(blobs, desk.ops) ==> op.claim.seqNo < desk.nextSeq
    requires PublishInPlay(c, inPlay, desk)
    ensures forall op :: op in LoadOps(PublishedBlobs(c, desk, blobs), PublishedHead(c, desk).ops) ==>
      op.claim.seqNo < desk.nextSeq + |desk.pending|
  {
    hide PublishedBlobs, PublishedHead, LoadOps, Minted;
    PublishedStore(c, inPlay, blobs, desk);
    MintedSeqs(c, desk);
  }

  /** Publishing keeps the invariant, so one builder can publish again and again. */
  lemma PublishedCoherent(c: Crypto, inPlay: iset<Blob>, blobs: Blobs, desk: Desk)
    requires CollisionFree(c, inPlay) && Honest(c) && Coherent(c, inPlay, blobs, desk)
    requires PublishInPlay(c, inPlay, desk)
    ensures Coherent(c, inPlay, PublishedBlobs(c, desk, blobs), PublishedDesk(c, desk))
  {
    hide Folded, Find, Overlaid, Expected, PublishedBlobs;
    forall ci { PublishedFind(c, inPlay, blobs, desk, ci); }
    OverlaidShows(Base(c, blobs, desk), Reopened(c, blobs, desk), desk, PublishedDesk(c, desk));
    PublishedStore(c, inPlay, blobs, desk);
    PublishedSeqs(c, inPlay, blobs, desk);
    assert Base(c, PublishedBlobs(c, desk, blobs), PublishedDesk(c, desk)) == Reopened(c, blobs, desk);
  }

  /** Nothing the publisher's own operations leave live is missing from the builder. */
  ghost predicate OwnItemsShown(c: Crypto, blobs: Blobs, desk: Desk) {
    forall ci :: Find(Base(c, blobs, desk), ci).Some? ==> ci in desk.baseline || Find(desk.items, ci).Some?
  }

  /** Publishing and reopening gives back the items in memory exactly when everything the
      publisher's own earlier operations leave live is either in the baseline or still shown. */
  lemma ReopenExact(c: Crypto, inPlay: iset<Blob>, blobs: Blobs, desk: Desk)
    requires CollisionFree(c, inPlay) && Honest(c) && Coherent(c, inPlay, blobs, desk)
    requires PublishInPlay(c, inPlay, desk)
    ensures SameItems(
        Opened(c, PublishedBlobs(c, desk, blobs), Some(PublishedHead(c, desk)), desk.name, desk.owner).items,
        desk.items)
      <==> OwnItemsShown(c, blobs, desk)
  {
    hide Folded, PublishedBlobs;
    var open := Opened(c, PublishedBlobs(c, desk, blobs), Some(PublishedHead(c, desk)), desk.name, desk.owner);
    assert open.items == Reopened(c, blobs, desk);
    forall ci { PublishedFind(c, inPlay, blobs, desk, ci); }
    OverlaidSame(Base(c, blobs, desk), open.items, desk);
  }

  lemma OverlaidSame(base: seq<Item>, over: seq<Item>, desk: Desk)
    requires Shows(base, desk)
    requires forall ci :: Find(over, ci) == Overlaid(base, desk, ci)
    ensures SameItems(over, desk.items) <==>
      forall ci :: Find(base, ci).Some? ==> ci in desk.baseline || Find(desk.items, ci).Some?
  {
    forall ci
      ensures Find(over, ci) == Find(desk.items, ci) <==>
        (Find(base, ci).Some? ==> ci in desk.baseline || Find(desk.items, ci).Some?)
    {
      DraftForIn(desk.pending, ci);
      assert Find(desk.items, ci) == Expected(base, desk, ci);
      assert Find(over, ci) == Overlaid(base, desk, ci);
    }
  }

  /** The builder refines the fold: open, edit in any way, publish and reopen. It always
      holds for the owner of the head, and for a fork of a head holding none of the
      publisher's operations. */
  lemma BuilderRefinesFold(c: Crypto, inPlay: iset<Blob>, blobs: Blobs, head: Option<Collection>,
                           name: string, me: Dgid, edits: seq<Edit>)
    requires CollisionFree(c, inPlay) && Honest(c) && Intact(c, inPlay, blobs)
    requires head.Some? ==> HoldsOps(blobs, head.value.ops)
    requires head.Some? && head.value.owner != me ==>
      forall op :: op in LoadOps(blobs, head.value.ops) ==> op.claim.owner != me
    requires PublishInPlay(c, inPlay, EditedAll(Opened(c, blobs, head, name, me), edits))
    ensures var desk := EditedAll(Opened(c, blobs, head, name, me), edits);
      SameItems(Opened(c, PublishedBlobs(c, desk, blobs), Some(PublishedHead(c, desk)), name, me).items, desk.items)
  {
    var open := Opened(c, blobs, head, name, me);
    var desk := EditedAll(open, edits);
    OpenedCoherent(c, inPlay, blobs, head, name, me);
    EditedAllCoherent(c, inPlay, blobs, open, edits);
    forall ci | Find(Base(c, blobs, desk), ci).Some? ensures ci in desk.baseline || Find(desk.items, ci).Some? {
      FindCis(Base(c, blobs, desk), ci);
      if head.Some? && head.value.owner != me {
        LastWriterWins(c, inPlay, me, LoadOps(blobs, desk.ops), ci);
      }
    }
    ReopenExact(c, inPlay, blobs, desk);
  }

  // ----- where the fork goes wrong -----

  lemma {:induction false} NoOwnOps(c: Crypto, inPlay: iset<Blob>, me: Dgid, ops: seq<Op>, ci: Hash)
    requires CollisionFree(c, inPlay) && InPlay(inPlay, ops)
    requires forall op :: op in ops ==> op.claim.owner != me
    ensures Find(Folded(c, me, ops), ci) == None
  {
    hide Folded;
    LastWriterWins(c, inPlay, me, ops, ci);
  }

  /** A adds an item, B forks and removes it, A forks back: nothing in B's fold or in the
      builder A opens shows the item, yet A's publish brings it back. */
  lemma ForkBackResurrects(c: Crypto, inPlay: iset<Blob>, blobs: Blobs, name: string, a: Dgid, b: Dgid, item: Item,
                           first: Desk, second: Desk, third: Desk)
    requires CollisionFree(c, inPlay) && Honest(c) && Intact(c, inPlay, blobs) && a != b
    requires first == Edited(Opened(c, blobs, None, name, a), AddItem(item)) && PublishInPlay(c, inPlay, first)
    requires var stored := PublishedBlobs(c, first, blobs);
      && second == Edited(Opened(c, stored, Some(PublishedHead(c, first)), name, b), RemoveItem(item.ci))
      && PublishInPlay(c, inPlay, second)
      && third == Opened(c, PublishedBlobs(c, second, stored), Some(PublishedHead(c, second)), name, a)
      && PublishInPlay(c, inPlay, third)
    ensures Find(second.items, item.ci) == None && Find(third.items, item.ci) == None
    ensures var stored := PublishedBlobs(c, second, PublishedBlobs(c, first, blobs));
      Find(Reopened(c, stored, third), item.ci) == Some(item)
  {
    hide Folded, PublishedBlobs, Find, Minted, LoadOps;
    var ci := item.ci;
    var one := PublishedBlobs(c, first, blobs);
    var two := PublishedBlobs(c, second, one);
    OpenedCoherent(c, inPlay, blobs, None, name, a);
    EditedCoherent(c, inPlay, blobs, Opened(c, blobs, None, name, a), AddItem(item));
    PublishedStore(c, inPlay, blobs, first);
    PublishedFind(c, inPlay, blobs, first, ci);
    OpenedCoherent(c, inPlay, one, Some(PublishedHead(c, first)), name, b);
    EditedCoherent(c, inPlay, one, Opened(c, one, Some(PublishedHead(c, first)), name, b), RemoveItem(ci));
    PublishedStore(c, inPlay, one, second);
    PublishedFind(c, inPlay, one, second, ci);
    MintedOwner(c, first);
    MintedOwner(c, second);
    NothingLoaded(blobs);
    NoOwnOps(c, inPlay, b, LoadOps(one, second.ops), ci);
    ForkRemoved(Opened(c, one, Some(PublishedHead(c, first)), name, b), ci);
    OpenedCoherent(c, inPlay, two, Some(PublishedHead(c, second)), name, a);
    PublishedFind(c, inPlay, two, third, ci);
    FoldOfSet(c, inPlay, a, LoadOps(two, third.ops), LoadOps(one, second.ops));
    FoldDistinct(c, b, LoadOps(two, third.ops));
    AddDraftsOf(third.items);
  }

  lemma MintedOwner(c: Crypto, desk: Desk)
    ensures forall op :: op in Minted(c, desk) ==> op.claim.owner == desk.owner
  {
  }

  lemma NothingLoaded(blobs: Blobs)
    ensures LoadOps(blobs, []) == []
  {
  }

  lemma ForkRemoved(desk: Desk, ci: Hash)
    requires OneDraftPerCi(desk.pending) && DistinctItems(desk.items) && ci !in desk.baseline
    ensures DraftFor(Edited(desk, RemoveItem(ci)).pending, ci) == None
    ensures Find(Edited(desk, RemoveItem(ci)).items, ci) == None
  {
    RetainedDrafts(desk.pending, ci);
    WithoutItems(desk.items, ci);
    assert Retained(desk.pending, ci) + [] == Retained(desk.pending, ci);
  }
}
