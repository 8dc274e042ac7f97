/** Device-group membership: a client of the builder and the fold. */
module Membership {
  import opened Options
  import opened Records
  import opened Store
  import opened Fold
  import opened Builder
  import opened Keys
  import opened PublishLaws
  import Clock

  const GROUP_COLLECTION: string := "device-group"

  datatype Member = Member(ci: Hash, device: Device, verified: bool, expired: bool)

  predicate Current(m: Member) {
    m.verified && !m.expired
  }

  function NodeHex(device: Device): string {
    Unprefixed(NODE_PREFIX, device.pubkey)
  }

  /** `node_id`: the key the text names, if it can be read. */
  function NodeOf(device: Device): Option<Key> {
    ParseKey(NodeHex(device))
  }

  /** The store as the group sees it: its blobs and the head its ref names. */
  datatype Group = Group(blobs: Blobs, head: Option<Hash>)

  /** `verify`: the key named signed the settings. What is signed does not hold the key's text. */
  predicate Verified(c: Crypto, device: Device) {
    NodeOf(device).Some? && c.verifyNode(NodeOf(device).value, device.settings, device.sig)
  }

  // ----- reading -----

  function FoldItems(c: Crypto, g: Group): seq<Item> {
    match HeadAt(g.blobs, g.head)
    case None => []
    case Some(head) => Folded(c, head.owner, LoadOps(g.blobs, head.ops))
  }

  function MemberOf(c: Crypto, g: Group, me: Dgid, now: string, item: Item): Option<Member> {
    var head := HeadAt(g.blobs, g.head);
    if item.ci in g.blobs && g.blobs[item.ci].DeviceBlob? then
      var device := g.blobs[item.ci].device;
      Some(Member(item.ci, device,
                  head.Some? && head.value.owner == me && Verified(c, device) && device.settings.dgid == me,
                  Clock.Expired(device.settings.expires, now)))
    else None
  }

  function MembersOf(c: Crypto, g: Group, me: Dgid, now: string, items: seq<Item>): seq<Member> {
    if items == [] then []
    else
      var rest := MembersOf(c, g, me, now, items[1..]);
      match MemberOf(c, g, me, now, items[0])
      case Some(m) => [m] + rest
      case None => rest
  }

  /** `members`. */
  function Members(c: Crypto, g: Group, me: Dgid, now: string): seq<Member> {
    MembersOf(c, g, me, now, FoldItems(c, g))
  }

  function CurrentIds(members: seq<Member>): seq<string> {
    if members == [] then []
    else if Current(members[0]) then [NodeHex(members[0].device)] + CurrentIds(members[1..])
    else CurrentIds(members[1..])
  }

  /** `member_ids`. */
  function MemberIds(c: Crypto, g: Group, me: Dgid, now: string): seq<string> {
    CurrentIds(Members(c, g, me, now))
  }

  // ----- admitting and revoking -----

  /** The cis of the members a test picks, in order. */
  function Picked(members: seq<Member>, pick: Device -> bool): seq<Hash> {
    if members == [] then []
    else if pick(members[0].device) then [members[0].ci] + Picked(members[1..], pick)
    else Picked(members[1..], pick)
  }

  function Removals(cis: seq<Hash>): seq<Edit> {
    if cis == [] then [] else [RemoveItem(cis[0])] + Removals(cis[1..])
  }

  function DeviceItem(ci: Hash, device: Device): Item {
    Item(ci, Some(NodeHex(device)), None)
  }

  function DeskFor(c: Crypto, g: Group, me: Dgid, edits: seq<Edit>): Desk {
    EditedAll(Opened(c, g.blobs, HeadAt(g.blobs, g.head), GROUP_COLLECTION, me), edits)
  }

  /** Open, edit, publish. */
  function Republished(c: Crypto, g: Group, me: Dgid, edits: seq<Edit>): Group {
    var desk := DeskFor(c, g, me, edits);
    Group(PublishedBlobs(c, desk, g.blobs), Some(c.address(HeadBlob(PublishedHead(c, desk)))))
  }

  function SamePubkey(device: Device): Device -> bool {
    (other: Device) => other.pubkey == device.pubkey
  }

  function AtNode(node: string): Device -> bool {
    (other: Device) => NodeHex(other) == node
  }

  predicate Admissible(c: Crypto, me: Dgid, device: Device) {
    Verified(c, device) && device.settings.dgid == me
  }

  function Stored(c: Crypto, g: Group, device: Device): Group {
    g.(blobs := Put(c, g.blobs, DeviceBlob(device)))
  }

  function AdmitEdits(c: Crypto, g: Group, me: Dgid, device: Device, now: string): seq<Edit> {
    var ci := c.address(DeviceBlob(device));
    [SetKind(GROUP_COLLECTION)] + Removals(Picked(Members(c, Stored(c, g, device), me, now), SamePubkey(device)))
    + [AddItem(DeviceItem(ci, device)), AddRecord(ci)]
  }

  predicate Already(c: Crypto, g: Group, me: Dgid, device: Device, now: string) {
    exists m :: m in Members(c, Stored(c, g, device), me, now) && m.ci == c.address(DeviceBlob(device)) && Current(m)
  }

  /** `admit`: what it leaves. A device that does not verify, or offers itself elsewhere,
      changes nothing. */
  function Admitted(c: Crypto, g: Group, me: Dgid, device: Device, now: string): Group {
    if !Admissible(c, me, device) then g
    else if Already(c, g, me, device, now) then Stored(c, g, device)
    else Republished(c, Stored(c, g, device), me, AdmitEdits(c, g, me, device, now))
  }

  function RevokeEdits(c: Crypto, g: Group, me: Dgid, node: string, now: string): seq<Edit> {
    [SetKind(GROUP_COLLECTION)] + Removals(Picked(Members(c, g, me, now), AtNode(node)))
  }

  /** `revoke`: what it leaves. */
  function Revoked(c: Crypto, g: Group, me: Dgid, node: string, now: string): Group {
    if Picked(Members(c, g, me, now), AtNode(node)) == [] then g
    else Republished(c, g, me, RevokeEdits(c, g, me, node, now))
  }

  function Seen(store: BlobStore): Group
    reads store
  {
    Group(store.blobs, store.ReadRef(GROUP_COLLECTION))
  }

  lemma EditedSnoc(desk: Desk, edits: seq<Edit>, edit: Edit)
    ensures EditedAll(desk, edits + [edit]) == Edited(EditedAll(desk, edits), edit)
    decreases |edits|
  {
    if edits == [] {
      assert [edit][1..] == [];
    } else {
      assert (edits + [edit])[1..] == edits[1..] + [edit];
      EditedSnoc(Edited(desk, edits[0]), edits[1..], edit);
    }
  }

  lemma RemovalsSnoc(cis: seq<Hash>, i: nat)
    requires i < |cis|
    ensures Removals(cis[..i + 1]) == Removals(cis[..i]) + [RemoveItem(cis[i])]
  {
    if i > 0 {
      assert cis[..i + 1][1..] == cis[1..][..i];
      assert cis[..i][1..] == cis[1..][..i - 1];
      RemovalsSnoc(cis[1..], i - 1);
    }
  }

  lemma {:induction false} EditedKeeps(desk: Desk, edits: seq<Edit>)
    ensures EditedAll(desk, edits).owner == desk.owner && EditedAll(desk, edits).name == desk.name
    decreases |edits|
  {
    if edits != [] {
      EditedKeeps(Edited(desk, edits[0]), edits[1..]);
    }
  }

  lemma EditedOnce(desk: Desk, edit: Edit)
    ensures EditedAll(desk, [edit]) == Edited(desk, edit)
  {
    EditedSnoc(desk, [], edit);
    assert [] + [edit] == [edit];
  }

  method RemoveAll(builder: CollectionBuilder, cis: seq<Hash>, ghost open: Desk, ghost before: seq<Edit>)
    requires builder.State() == EditedAll(open, before)
    modifies builder
    ensures builder.State() == EditedAll(open, before + Removals(cis))
  {
    assert before + Removals(cis[..0]) == before;
    for i := 0 to |cis|
      invariant builder.State() == EditedAll(open, before + Removals(cis[..i]))
    {
      RemovalsSnoc(cis, i);
      EditedSnoc(open, before + Removals(cis[..i]), RemoveItem(cis[i]));
      assert before + Removals(cis[..i + 1]) == before + Removals(cis[..i]) + [RemoveItem(cis[i])];
      builder.Remove(cis[i]);
    }
    assert cis[..|cis|] == cis;
  }

  /** `admit` over the store. */
  method Admit(store: BlobStore, me: Dgid, device: Device, now: string) returns (r: Result<(Hash, bool), string>)
    requires store.usable(GROUP_COLLECTION)
    modifies store
    ensures Seen(store) == Admitted(store.crypto, old(Seen(store)), me, device, now)
    ensures r.Ok? <==> Admissible(store.crypto, me, device)
    ensures r.Ok? ==> r.value == (store.crypto.address(DeviceBlob(device)),
                                  Already(store.crypto, old(Seen(store)), me, device, now))
  {
    hide Opened, Edited, EditedAll, Picked, Removals, Members, PublishedBlobs, PublishedHead, Put, HeadAt;
    if !Verified(store.crypto, device) {
      return Err("signature does not verify");
    }
    if device.settings.dgid != me {
      return Err("offered to another group");
    }
    ghost var g := Seen(store);
    var c := store.crypto;
    var ci := store.PutBlob(DeviceBlob(device));
    var members := Members(c, Seen(store), me, now);
    assert Seen(store) == Stored(c, g, device);
    if exists m :: m in members && m.ci == ci && Current(m) {
      return Ok((ci, true));
    }
    var builder := OpenGroup(store, me);
    ghost var open := Opened(c, store.blobs, HeadAt(store.blobs, store.ReadRef(GROUP_COLLECTION)), GROUP_COLLECTION,
      me);
    var stale := Picked(members, SamePubkey(device));
    RemoveAll(builder, stale, open, [SetKind(GROUP_COLLECTION)]);
    ghost var so := [SetKind(GROUP_COLLECTION)] + Removals(stale);
    EditedSnoc(open, so, AddItem(DeviceItem(ci, device)));
    EditedSnoc(open, so + [AddItem(DeviceItem(ci, device))], AddRecord(ci));
    assert so + [AddItem(DeviceItem(ci, device))] + [AddRecord(ci)] == AdmitEdits(c, g, me, device, now);
    builder.Add(DeviceItem(ci, device));
    builder.Record(ci);
    PublishGroup(store, builder, me, AdmitEdits(c, g, me, device, now));
    r := Ok((ci, false));
  }

  method OpenGroup(store: BlobStore, me: Dgid) returns (builder: CollectionBuilder)
    ensures fresh(builder)
    ensures builder.State() == EditedAll(Opened(store.crypto, store.blobs,
                                                HeadAt(store.blobs, store.ReadRef(GROUP_COLLECTION)),
                                                GROUP_COLLECTION, me), [SetKind(GROUP_COLLECTION)])
  {
    hide Opened, Edited, EditedAll;
    builder := new CollectionBuilder.Open(store, GROUP_COLLECTION, me);
    ghost var open := builder.State();
    builder.Kind(GROUP_COLLECTION);
    EditedOnce(open, SetKind(GROUP_COLLECTION));
  }

  method PublishGroup(store: BlobStore, builder: CollectionBuilder, me: Dgid, ghost edits: seq<Edit>)
    requires store.usable(GROUP_COLLECTION)
    requires builder.State() == DeskFor(store.crypto, Seen(store), me, edits)
    modifies store, builder
    ensures Seen(store) == Republished(store.crypto, old(Seen(store)), me, edits)
  {
    ghost var open := Opened(store.crypto, store.blobs, HeadAt(store.blobs, store.ReadRef(GROUP_COLLECTION)),
      GROUP_COLLECTION, me);
    EditedKeeps(open, edits);
    hide PublishedBlobs, PublishedHead, PublishedDesk, EditedAll;
    var head := builder.Publish(store, me);
  }

  /** `revoke` over the store. */
  method Revoke(store: BlobStore, me: Dgid, node: string, now: string) returns (done: bool)
    requires store.usable(GROUP_COLLECTION)
    modifies store
    ensures Seen(store) == Revoked(store.crypto, old(Seen(store)), me, node, now)
    ensures done <==> exists m :: m in Members(store.crypto, old(Seen(store)), me, now) && NodeHex(m.device) == node
  {
    hide Opened, Edited, EditedAll, Picked, Removals, Members, PublishedBlobs, PublishedHead, HeadAt;
    var targets := Picked(Members(store.crypto, Seen(store), me, now), AtNode(node));
    PickedIn(Members(store.crypto, Seen(store), me, now), AtNode(node));
    if targets == [] {
      forall m | m in Members(store.crypto, Seen(store), me, now) ensures NodeHex(m.device) != node {
        assert m.ci !in targets;
        assert !AtNode(node)(m.device);
      }
      return false;
    }
    ghost var one := targets[0];
    assert one in targets;
    var builder := OpenGroup(store, me);
    ghost var open := Opened(store.crypto, store.blobs, HeadAt(store.blobs, store.ReadRef(GROUP_COLLECTION)),
      GROUP_COLLECTION, me);
    RemoveAll(builder, targets, open, [SetKind(GROUP_COLLECTION)]);
    PublishGroup(store, builder, me, RevokeEdits(store.crypto, Seen(store), me, node, now));
    done := true;
  }

  lemma {:induction false} PickedIn(members: seq<Member>, pick: Device -> bool)
    ensures forall ci :: ci in Picked(members, pick) <==> exists m :: m in members && m.ci == ci && pick(m.device)
  {
    if members != [] {
      PickedIn(members[1..], pick);
      assert members == [members[0]] + members[1..];
    }
  }

  // ----- what a publish by the group does to the fold -----

  /** The group owns the collection and holds all its operations. */
  ghost predicate Owned(c: Crypto, inPlay: iset<Blob>, me: Dgid, g: Group) {
    && Intact(c, inPlay, g.blobs)
    && (g.head.Some? ==>
         && HeadAt(g.blobs, g.head).Some?
         && HeadAt(g.blobs, g.head).value.owner == me && HoldsOps(g.blobs, HeadAt(g.blobs, g.head).value.ops))
  }

  lemma RepublishedFold(c: Crypto, inPlay: iset<Blob>, me: Dgid, g: Group, edits: seq<Edit>)
    requires CollisionFree(c, inPlay) && Honest(c) && Owned(c, inPlay, me, g)
    requires PublishInPlay(c, inPlay, DeskFor(c, g, me, edits))
    ensures Owned(c, inPlay, me, Republished(c, g, me, edits))
    ensures Extends(Republished(c, g, me, edits).blobs, g.blobs)
    ensures SameItems(FoldItems(c, Republished(c, g, me, edits)), DeskFor(c, g, me, edits).items)
  {
    hide Folded, PublishedBlobs, EditedAll, PublishedHead, Coherent;
    var head := HeadAt(g.blobs, g.head);
    var open := Opened(c, g.blobs, head, GROUP_COLLECTION, me);
    var desk := DeskFor(c, g, me, edits);
    OpenedCoherent(c, inPlay, g.blobs, head, GROUP_COLLECTION, me);
    EditedAllCoherent(c, inPlay, g.blobs, open, edits);
    CoherentOps(c, inPlay, g.blobs, desk);
    BuilderRefinesFold(c, inPlay, g.blobs, head, GROUP_COLLECTION, me, edits);
    PublishedStore(c, inPlay, g.blobs, desk);
    PublishedOwner(c, desk);
  }

  lemma CoherentOps(c: Crypto, inPlay: iset<Blob>, blobs: Blobs, desk: Desk)
    requires Coherent(c, inPlay, blobs, desk)
    ensures HoldsOps(blobs, desk.ops)
  {
  }

  lemma PublishedOwner(c: Crypto, desk: Desk)
    ensures PublishedHead(c, desk).owner == desk.owner
  {
  }

  lemma EditedJoin(desk: Desk, first: seq<Edit>, then_: seq<Edit>)
    ensures EditedAll(desk, first + then_) == EditedAll(EditedAll(desk, first), then_)
    decreases |first|
  {
    if first == [] {
      assert first + then_ == then_;
    } else {
      assert (first + then_)[1..] == first[1..] + then_;
      EditedJoin(Edited(desk, first[0]), first[1..], then_);
    }
  }

  lemma {:induction false} RemovalsItems(desk: Desk, cis: seq<Hash>)
    requires DistinctItems(desk.items)
    ensures DistinctItems(EditedAll(desk, Removals(cis)).items)
    ensures forall x :: Find(EditedAll(desk, Removals(cis)).items, x) == if x in cis then None else Find(desk.items, x)
    decreases |cis|
  {
    if cis != [] {
      assert cis == [cis[0]] + cis[1..];
      WithoutItems(desk.items, cis[0]);
      RemovalsItems(Edited(desk, RemoveItem(cis[0])), cis[1..]);
    }
  }

  lemma OpenedItems(c: Crypto, inPlay: iset<Blob>, me: Dgid, g: Group)
    requires Owned(c, inPlay, me, g)
    ensures var open := Opened(c, g.blobs, HeadAt(g.blobs, g.head), GROUP_COLLECTION, me);
      open.items == FoldItems(c, g) && DistinctItems(open.items)
  {
    if HeadAt(g.blobs, g.head).Some? {
      FoldDistinct(c, me, LoadOps(g.blobs, HeadAt(g.blobs, g.head).value.ops));
    }
  }

  /** `after` is `before` without `cis`, and with the item `tail` adds, if any. */
  ghost predicate Rewritten(before: seq<Item>, cis: seq<Hash>, tail: seq<Edit>, after: seq<Item>)
    requires tail == [] || tail[0].AddItem?
  {
    forall x :: Find(after, x) ==
      if tail != [] && tail[0].item.ci == x then Some(tail[0].item) else if x in cis then None else Find(before, x)
  }

  /** Removing some items, then perhaps adding one. */
  lemma DeskItems(c: Crypto, inPlay: iset<Blob>, me: Dgid, g: Group, cis: seq<Hash>, tail: seq<Edit>)
    requires Owned(c, inPlay, me, g)
    requires tail == [] || exists item, h :: tail == [AddItem(item), AddRecord(h)]
    ensures Rewritten(FoldItems(c, g), cis, tail,
                      DeskFor(c, g, me, [SetKind(GROUP_COLLECTION)] + Removals(cis) + tail).items)
  {
    hide Folded;
    var open := Opened(c, g.blobs, HeadAt(g.blobs, g.head), GROUP_COLLECTION, me);
    OpenedItems(c, inPlay, me, g);
    EditedJoin(open, [SetKind(GROUP_COLLECTION)] + Removals(cis), tail);
    EditedJoin(open, [SetKind(GROUP_COLLECTION)], Removals(cis));
    EditedOnce(open, SetKind(GROUP_COLLECTION));
    var kinded := Edited(open, SetKind(GROUP_COLLECTION));
    RemovalsItems(kinded, cis);
    var removed := EditedAll(kinded, Removals(cis));
    if tail != [] {
      UpsertedItems(removed.items, tail[0].item);
      EditedJoin(removed, [tail[0]], [tail[1]]);
      EditedOnce(removed, tail[0]);
      EditedOnce(Edited(removed, tail[0]), tail[1]);
      assert tail == [tail[0]] + [tail[1]];
    } else {
      assert [SetKind(GROUP_COLLECTION)] + Removals(cis) + tail == [SetKind(GROUP_COLLECTION)] + Removals(cis);
    }
  }

  // ----- members and the fold -----

  /** The device record the group lists under a ci, if it lists one. */
  function Listing(c: Crypto, g: Group, x: Hash): Option<Device> {
    if Find(FoldItems(c, g), x).Some? && x in g.blobs && g.blobs[x].DeviceBlob? then Some(g.blobs[x].device) else None
  }

  lemma {:induction false} MembersOfIn(c: Crypto, g: Group, me: Dgid, now: string, items: seq<Item>)
    ensures forall m :: m in MembersOf(c, g, me, now, items) <==>
      exists item :: item in items && MemberOf(c, g, me, now, item) == Some(m)
  {
    if items != [] {
      hide MemberOf;
      MembersOfIn(c, g, me, now, items[1..]);
      assert items == [items[0]] + items[1..];
    }
  }

  /** `members` lists exactly the device records of the fold. */
  lemma MembersListed(c: Crypto, g: Group, me: Dgid, now: string)
    ensures forall m :: m in Members(c, g, me, now) ==>
      Listing(c, g, m.ci) == Some(m.device) && MemberOf(c, g, me, now, Item(m.ci, None, None)) == Some(m)
    ensures forall x :: Listing(c, g, x).Some? ==>
      exists m :: m in Members(c, g, me, now) && m.ci == x && m.device == Listing(c, g, x).value
  {
    hide Folded;
    var items := FoldItems(c, g);
    hide FoldItems;
    MembersOfIn(c, g, me, now, items);
    forall m | m in Members(c, g, me, now)
      ensures Listing(c, g, m.ci) == Some(m.device) && MemberOf(c, g, me, now, Item(m.ci, None, None)) == Some(m)
    {
      var item :| item in items && MemberOf(c, g, me, now, item) == Some(m);
      FindIn(items, m.ci);
    }
    forall x | Listing(c, g, x).Some?
      ensures exists m :: m in Members(c, g, me, now) && m.ci == x && m.device == Listing(c, g, x).value
    {
      FindIn(items, x);
      var m := MemberOf(c, g, me, now, Find(items, x).value).value;
      assert m in Members(c, g, me, now);
    }
  }

  /** What a member says: it verifies when the head is the group's own, the key named signed the
      settings, and they offer the device to this group; it is expired by its own date. */
  lemma MembersTell(c: Crypto, g: Group, me: Dgid, now: string, m: Member)
    requires m in Members(c, g, me, now)
    ensures m.verified <==>
      && HeadAt(g.blobs, g.head).Some? && HeadAt(g.blobs, g.head).value.owner == me && m.device.settings.dgid == me
      && exists key :: ParseKey(NodeHex(m.device)) == Some(key) && c.verifyNode(key, m.device.settings, m.device.sig)
    ensures m.expired <==> Clock.Expired(m.device.settings.expires, now)
    ensures m.ci in g.blobs && g.blobs[m.ci] == DeviceBlob(m.device)
  {
    hide FoldItems, NodeHex, ParseKey;
    MembersOfIn(c, g, me, now, FoldItems(c, g));
  }

  /** The identities of the members, in their order. */
  function MemberCis(members: seq<Member>): seq<Hash> {
    seq(|members|, i requires 0 <= i < |members| => members[i].ci)
  }

  /** One list is another with some entries left out. */
  ghost predicate Within(part: seq<Hash>, whole: seq<Hash>) {
    || part == []
    || (whole != [] && part[0] == whole[0] && Within(part[1..], whole[1..]))
    || (whole != [] && Within(part, whole[1..]))
  }

  function ItemCis(items: seq<Item>): seq<Hash> {
    seq(|items|, i requires 0 <= i < |items| => items[i].ci)
  }

  lemma {:induction false} MembersWithin(c: Crypto, g: Group, me: Dgid, now: string, items: seq<Item>)
    ensures Within(MemberCis(MembersOf(c, g, me, now, items)), ItemCis(items))
  {
    if items != [] {
      var members, rest := MembersOf(c, g, me, now, items), MembersOf(c, g, me, now, items[1..]);
      MembersWithin(c, g, me, now, items[1..]);
      assert ItemCis(items)[1..] == ItemCis(items[1..]);
      match MemberOf(c, g, me, now, items[0]) {
        case Some(m) =>
          assert members == [m] + rest;
          assert MemberCis(members)[1..] == MemberCis(rest);
        case None =>
      }
    }
  }

  /** Members come in the order of the fold. */
  lemma MembersInOrder(c: Crypto, g: Group, me: Dgid, now: string)
    ensures Within(MemberCis(Members(c, g, me, now)), ItemCis(FoldItems(c, g)))
  {
    hide FoldItems;
    MembersWithin(c, g, me, now, FoldItems(c, g));
  }

  lemma PickedListed(c: Crypto, g: Group, me: Dgid, now: string, pick: Device -> bool)
    ensures forall x :: x in Picked(Members(c, g, me, now), pick) <==>
      Listing(c, g, x).Some? && pick(Listing(c, g, x).value)
  {
    hide Members, Listing, MemberOf;
    MembersListed(c, g, me, now);
    PickedIn(Members(c, g, me, now), pick);
  }

  lemma {:induction false} CurrentIdsIn(members: seq<Member>)
    ensures forall node :: node in CurrentIds(members) <==>
      exists m :: m in members && Current(m) && NodeHex(m.device) == node
  {
    if members != [] {
      CurrentIdsIn(members[1..]);
      assert members == [members[0]] + members[1..];
    }
  }

  /** Under `x` the fold holds a record of `node` that verifies, is offered to the group and
      has not expired. */
  predicate InForce(c: Crypto, g: Group, me: Dgid, now: string, node: string, x: Hash) {
    Listing(c, g, x).Some? && NodeHex(Listing(c, g, x).value) == node && Admissible(c, me, Listing(c, g, x).value)
    && !Clock.Expired(Listing(c, g, x).value.settings.expires, now)
  }

  /** A node is a member exactly when the fold holds a device record for it that verifies, is
      offered to this group and has not expired. */
  lemma MemberIdsListed(c: Crypto, inPlay: iset<Blob>, g: Group, me: Dgid, now: string, node: string)
    requires Owned(c, inPlay, me, g)
    ensures node in MemberIds(c, g, me, now) <==> exists x :: InForce(c, g, me, now, node, x)
  {
    hide Members, FoldItems;
    MembersListed(c, g, me, now);
    CurrentIdsIn(Members(c, g, me, now));
    hide NodeHex;
    if node in MemberIds(c, g, me, now) {
      var m :| m in Members(c, g, me, now) && Current(m) && NodeHex(m.device) == node;
      assert InForce(c, g, me, now, node, m.ci);
    }
    if x :| InForce(c, g, me, now, node, x) {
      var m :| m in Members(c, g, me, now) && m.ci == x && m.device == Listing(c, g, x).value;
      assert HeadAt(g.blobs, g.head).Some? by { NoHeadNoListing(c, g, x); }
      assert Current(m);
    }
  }

  lemma NoHeadNoListing(c: Crypto, g: Group, x: Hash)
    ensures HeadAt(g.blobs, g.head).None? ==> Listing(c, g, x).None?
  {
  }

  // ----- what an admit and a revoke do -----

  /** Everything the fold shows is a device record that is held. */
  ghost predicate AllHeld(c: Crypto, g: Group) {
    forall x :: Find(FoldItems(c, g), x).Some? ==> Listing(c, g, x).Some?
  }

  /** No two listed records share a public key text. */
  ghost predicate OnePerKey(c: Crypto, g: Group) {
    forall x, y | Listing(c, g, x).Some? && Listing(c, g, y).Some? ::
      Listing(c, g, x).value.pubkey == Listing(c, g, y).value.pubkey ==> x == y
  }

  ghost predicate GroupInv(c: Crypto, inPlay: iset<Blob>, me: Dgid, g: Group) {
    Owned(c, inPlay, me, g) && AllHeld(c, g) && OnePerKey(c, g)
  }

  lemma {:induction false} SameLoads(small: Blobs, large: Blobs, hashes: seq<Hash>)
    requires Extends(large, small) && HoldsOps(small, hashes)
    ensures LoadOps(large, hashes) == LoadOps(small, hashes)
  {
    if hashes != [] {
      assert hashes[0] in hashes;
      SameLoads(small, large, hashes[1..]);
    }
  }

  lemma StoredFold(c: Crypto, inPlay: iset<Blob>, me: Dgid, g: Group, device: Device)
    requires CollisionFree(c, inPlay) && Owned(c, inPlay, me, g) && DeviceBlob(device) in inPlay
    ensures Owned(c, inPlay, me, Stored(c, g, device)) && FoldItems(c, Stored(c, g, device)) == FoldItems(c, g)
    ensures Extends(Stored(c, g, device).blobs, g.blobs) && SitsIn(c, Stored(c, g, device).blobs, DeviceBlob(device))
  {
    hide Folded;
    PutGet(c, inPlay, g.blobs, DeviceBlob(device));
    if g.head.Some? {
      SameLoads(g.blobs, Stored(c, g, device).blobs, HeadAt(g.blobs, g.head).value.ops);
    }
  }

  /** The records an admit or a revoke stores are in play. */
  ghost predicate AdmitInPlay(c: Crypto, inPlay: iset<Blob>, g: Group, me: Dgid, device: Device, now: string) {
    && DeviceBlob(device) in inPlay
    && PublishInPlay(c, inPlay, DeskFor(c, Stored(c, g, device), me, AdmitEdits(c, g, me, device, now)))
  }

  ghost predicate RevokeInPlay(c: Crypto, inPlay: iset<Blob>, g: Group, me: Dgid, node: string, now: string) {
    PublishInPlay(c, inPlay, DeskFor(c, g, me, RevokeEdits(c, g, me, node, now)))
  }

  /** A fresh admit lists the device and unlists every other record of its public key; every
      other listing stays. */
  lemma AdmitLists(c: Crypto, inPlay: iset<Blob>, me: Dgid, g: Group, device: Device, now: string)
    requires CollisionFree(c, inPlay) && Honest(c) && Owned(c, inPlay, me, g)
    requires AdmitInPlay(c, inPlay, g, me, device, now)
    requires Admissible(c, me, device) && !Already(c, g, me, device, now)
    ensures var ci := c.address(DeviceBlob(device)); var after := Admitted(c, g, me, device, now);
      && Owned(c, inPlay, me, after) && Extends(after.blobs, g.blobs)
      && Listing(c, after, ci) == Some(device)
      && (forall x | x != ci :: Find(FoldItems(c, after), x) ==
           if Listing(c, g, x).Some? && Listing(c, g, x).value.pubkey == device.pubkey then None
           else Find(FoldItems(c, g), x))
  {
    var ci := c.address(DeviceBlob(device));
    var stored := Stored(c, g, device);
    var edits := AdmitEdits(c, g, me, device, now);
    var cis := Picked(Members(c, stored, me, now), SamePubkey(device));
    hide FoldItems, Republished, Picked, Members, Put, CollisionFree, EditedAll, Removals, Opened;
    StoredFold(c, inPlay, me, g, device);
    RepublishedFold(c, inPlay, me, stored, edits);
    DeskItems(c, inPlay, me, stored, cis, [AddItem(DeviceItem(ci, device)), AddRecord(ci)]);
    PickedListed(c, stored, me, now, SamePubkey(device));
    var after := Admitted(c, g, me, device, now);
    assert after == Republished(c, stored, me, edits);
    hide DeskFor;
    StoredListing(c, inPlay, me, g, device);
  }

  /** Storing a device record changes no listing but, perhaps, its own. */
  lemma StoredListing(c: Crypto, inPlay: iset<Blob>, me: Dgid, g: Group, device: Device)
    requires CollisionFree(c, inPlay) && Owned(c, inPlay, me, g) && DeviceBlob(device) in inPlay
    ensures forall x :: x != c.address(DeviceBlob(device)) ==> Listing(c, Stored(c, g, device), x) == Listing(c, g, x)
  {
    hide FoldItems;
    StoredFold(c, inPlay, me, g, device);
  }

  /** A device is in already exactly when its very record is listed and in date. */
  lemma AlreadyExactly(c: Crypto, inPlay: iset<Blob>, me: Dgid, g: Group, device: Device, now: string)
    requires CollisionFree(c, inPlay) && Owned(c, inPlay, me, g) && DeviceBlob(device) in inPlay
    requires Admissible(c, me, device)
    ensures Already(c, g, me, device, now) <==>
      Find(FoldItems(c, g), c.address(DeviceBlob(device))).Some? && !Clock.Expired(device.settings.expires, now)
  {
    var stored, ci := Stored(c, g, device), c.address(DeviceBlob(device));
    StoredFold(c, inPlay, me, g, device);
    MembersListed(c, stored, me, now);
    hide FoldItems, Members, Put, NodeOf, CollisionFree;
    NoHeadNoListing(c, stored, ci);
    if Already(c, g, me, device, now) {
      var m :| m in Members(c, stored, me, now) && m.ci == ci && Current(m);
      assert Listing(c, stored, ci) == Some(m.device);
    }
    if Find(FoldItems(c, g), ci).Some? && !Clock.Expired(device.settings.expires, now) {
      assert Listing(c, stored, ci) == Some(device);
      var m :| m in Members(c, stored, me, now) && m.ci == ci && m.device == device;
      assert Current(m);
    }
  }

  /** A revoke unlists every record of the node and leaves every other listing. */
  lemma RevokeUnlists(c: Crypto, inPlay: iset<Blob>, me: Dgid, g: Group, node: string, now: string)
    requires CollisionFree(c, inPlay) && Honest(c) && Owned(c, inPlay, me, g)
    requires RevokeInPlay(c, inPlay, g, me, node, now)
    ensures var after := Revoked(c, g, me, node, now);
      && Owned(c, inPlay, me, after) && Extends(after.blobs, g.blobs)
      && forall x :: Find(FoldItems(c, after), x) ==
           if Listing(c, g, x).Some? && NodeHex(Listing(c, g, x).value) == node then None else Find(FoldItems(c, g), x)
  {
    var cis := Picked(Members(c, g, me, now), AtNode(node));
    hide FoldItems, Republished, Picked, Members, CollisionFree, EditedAll, Removals, Opened, NodeHex;
    PickedListed(c, g, me, now, AtNode(node));
    if cis != [] {
      var edits := RevokeEdits(c, g, me, node, now);
      RepublishedFold(c, inPlay, me, g, edits);
      DeskItems(c, inPlay, me, g, cis, []);
      assert edits == [SetKind(GROUP_COLLECTION)] + Removals(cis) + [];
      hide DeskFor;
    }
  }

  // ----- over any run -----

  datatype Act = Admits(device: Device, at: string) | Revokes(node: string, at: string)

  function After(c: Crypto, me: Dgid, g: Group, act: Act): Group {
    match act
    case Admits(device, at) => Admitted(c, g, me, device, at)
    case Revokes(node, at) => Revoked(c, g, me, node, at)
  }

  ghost predicate ActInPlay(c: Crypto, inPlay: iset<Blob>, me: Dgid, g: Group, act: Act) {
    match act
    case Admits(device, at) => AdmitInPlay(c, inPlay, g, me, device, at)
    case Revokes(node, at) => RevokeInPlay(c, inPlay, g, me, node, at)
  }

  ghost predicate Acts(c: Crypto, inPlay: iset<Blob>, me: Dgid, start: Group, acts: seq<Act>, end: Group)
    decreases |acts|
  {
    if acts == [] then start == end
    else ActInPlay(c, inPlay, me, start, acts[0]) && Acts(c, inPlay, me, After(c, me, start, acts[0]), acts[1..], end)
  }

  /** What the group lists under `x` after an act, from what it listed before. */
  function Relisted(c: Crypto, me: Dgid, g: Group, act: Act, x: Hash): Option<Device> {
    var was := Listing(c, g, x);
    match act
    case Admits(device, at) =>
      if !Admissible(c, me, device) || Already(c, g, me, device, at) then was
      else if x == c.address(DeviceBlob(device)) then Some(device)
      else if was.Some? && was.value.pubkey == device.pubkey then None
      else was
    case Revokes(node, at) => if was.Some? && NodeHex(was.value) == node then None else was
  }

  lemma KeptListing(c: Crypto, before: Group, after: Group, x: Hash, keep: bool)
    requires Extends(after.blobs, before.blobs)
    requires Find(FoldItems(c, before), x).Some? ==> Listing(c, before, x).Some?
    requires Find(FoldItems(c, after), x) == if keep then Find(FoldItems(c, before), x) else None
    ensures Listing(c, after, x) == if keep then Listing(c, before, x) else None
    ensures Find(FoldItems(c, after), x).Some? ==> Listing(c, after, x).Some?
  {
    hide FoldItems;
  }

  lemma AdmitRelists(c: Crypto, inPlay: iset<Blob>, me: Dgid, g: Group, device: Device, at: string)
    requires CollisionFree(c, inPlay) && Honest(c) && Owned(c, inPlay, me, g) && AllHeld(c, g)
    requires AdmitInPlay(c, inPlay, g, me, device, at)
    requires Admissible(c, me, device) && !Already(c, g, me, device, at)
    ensures var after := Admitted(c, g, me, device, at);
      && Owned(c, inPlay, me, after) && AllHeld(c, after)
      && forall x :: Listing(c, after, x) == Relisted(c, me, g, Admits(device, at), x)
  {
    hide Already, Admissible, CollisionFree, FoldItems, Admitted, AdmitInPlay, Owned, Find, Listing;
    var after := Admitted(c, g, me, device, at);
    AdmitLists(c, inPlay, me, g, device, at);
    forall x
      ensures Listing(c, after, x) == Relisted(c, me, g, Admits(device, at), x)
      ensures Find(FoldItems(c, after), x).Some? ==> Listing(c, after, x).Some?
    {
      var was := Listing(c, g, x);
      if x != c.address(DeviceBlob(device)) {
        KeptListing(c, g, after, x, !(was.Some? && was.value.pubkey == device.pubkey));
      }
    }
  }

  lemma StoreRelists(c: Crypto, inPlay: iset<Blob>, me: Dgid, g: Group, device: Device)
    requires CollisionFree(c, inPlay) && Owned(c, inPlay, me, g) && AllHeld(c, g) && DeviceBlob(device) in inPlay
    ensures var after := Stored(c, g, device);
      && Owned(c, inPlay, me, after) && AllHeld(c, after) && forall x :: Listing(c, after, x) == Listing(c, g, x)
  {
    hide CollisionFree, FoldItems, Owned, Find, Listing, Put;
    StoredFold(c, inPlay, me, g, device);
    forall x
      ensures Listing(c, Stored(c, g, device), x) == Listing(c, g, x)
      ensures Find(FoldItems(c, Stored(c, g, device)), x).Some? ==> Listing(c, Stored(c, g, device), x).Some?
    {
      KeptListing(c, g, Stored(c, g, device), x, true);
    }
  }

  lemma RevokeRelists(c: Crypto, inPlay: iset<Blob>, me: Dgid, g: Group, node: string, at: string)
    requires CollisionFree(c, inPlay) && Honest(c) && Owned(c, inPlay, me, g) && AllHeld(c, g)
    requires RevokeInPlay(c, inPlay, g, me, node, at)
    ensures var after := Revoked(c, g, me, node, at);
      && Owned(c, inPlay, me, after) && AllHeld(c, after)
      && forall x :: Listing(c, after, x) == Relisted(c, me, g, Revokes(node, at), x)
  {
    hide CollisionFree, FoldItems, Revoked, RevokeInPlay, Owned, Find, Listing, NodeHex;
    var after := Revoked(c, g, me, node, at);
    RevokeUnlists(c, inPlay, me, g, node, at);
    forall x
      ensures Listing(c, after, x) == Relisted(c, me, g, Revokes(node, at), x)
      ensures Find(FoldItems(c, after), x).Some? ==> Listing(c, after, x).Some?
    {
      var was := Listing(c, g, x);
      KeptListing(c, g, after, x, !(was.Some? && NodeHex(was.value) == node));
    }
  }

  /** An admit or revoke moves exactly the listings it is about: an admit lists its device and
      unlists the other records of that public key text, a revoke unlists the records of its
      node, and every other listing stays. */
  lemma ActRelists(c: Crypto, inPlay: iset<Blob>, me: Dgid, g: Group, act: Act)
    requires CollisionFree(c, inPlay) && Honest(c) && Owned(c, inPlay, me, g) && AllHeld(c, g)
    requires ActInPlay(c, inPlay, me, g, act)
    ensures var after := After(c, me, g, act);
      && Owned(c, inPlay, me, after) && AllHeld(c, after)
      && forall x :: Listing(c, after, x) == Relisted(c, me, g, act, x)
  {
    hide Already, Admissible, CollisionFree, Owned, AllHeld, Listing, Republished, Stored, Picked, PublishInPlay,
      Revoked;
    match act {
      case Admits(device, at) =>
        if Admissible(c, me, device) {
          if Already(c, g, me, device, at) {
            StoreRelists(c, inPlay, me, g, device);
          } else {
            AdmitRelists(c, inPlay, me, g, device, at);
          }
        }
      case Revokes(node, at) => RevokeRelists(c, inPlay, me, g, node, at);
    }
  }

  lemma ActKeepsInv(c: Crypto, inPlay: iset<Blob>, me: Dgid, g: Group, act: Act)
    requires CollisionFree(c, inPlay) && Honest(c) && GroupInv(c, inPlay, me, g) && ActInPlay(c, inPlay, me, g, act)
    ensures GroupInv(c, inPlay, me, After(c, me, g, act))
  {
    hide Already, Admissible, CollisionFree, Owned, AllHeld, Listing, ActInPlay, After, NodeHex;
    ActRelists(c, inPlay, me, g, act);
  }

  /** No listed record is for this node. */
  ghost predicate Absent(c: Crypto, g: Group, node: string) {
    forall x :: Listing(c, g, x).Some? ==> NodeHex(Listing(c, g, x).value) != node
  }

  ghost predicate Readmits(act: Act, node: string) {
    act.Admits? && NodeHex(act.device) == node
  }

  lemma ActKeepsAbsent(c: Crypto, inPlay: iset<Blob>, me: Dgid, g: Group, act: Act, node: string)
    requires CollisionFree(c, inPlay) && Honest(c) && GroupInv(c, inPlay, me, g) && ActInPlay(c, inPlay, me, g, act)
    requires Absent(c, g, node) && !Readmits(act, node)
    ensures Absent(c, After(c, me, g, act), node)
  {
    hide Already, Admissible, CollisionFree, Owned, AllHeld, Listing, ActInPlay, After, NodeHex;
    ActRelists(c, inPlay, me, g, act);
  }

  /** Over every run of admits and revokes the fold keeps at most one record per public key
      text. */
  lemma {:induction false} OneRecordPerKey(c: Crypto, inPlay: iset<Blob>, me: Dgid, start: Group, acts: seq<Act>,
                                           end: Group)
    requires CollisionFree(c, inPlay) && Honest(c) && GroupInv(c, inPlay, me, start)
    requires Acts(c, inPlay, me, start, acts, end)
    ensures GroupInv(c, inPlay, me, end)
    decreases |acts|
  {
    hide GroupInv, ActInPlay, After;
    if acts != [] {
      ActKeepsInv(c, inPlay, me, start, acts[0]);
      OneRecordPerKey(c, inPlay, me, After(c, me, start, acts[0]), acts[1..], end);
    }
  }

  lemma {:induction false} StaysAbsent(c: Crypto, inPlay: iset<Blob>, me: Dgid, start: Group, acts: seq<Act>,
                                       end: Group,
                                       node: string)
    requires CollisionFree(c, inPlay) && Honest(c) && GroupInv(c, inPlay, me, start) && Absent(c, start, node)
    requires Acts(c, inPlay, me, start, acts, end) && forall act :: act in acts ==> !Readmits(act, node)
    ensures GroupInv(c, inPlay, me, end) && Absent(c, end, node)
    decreases |acts|
  {
    hide GroupInv, ActInPlay, After, Absent, Readmits;
    if acts != [] {
      ActKeepsInv(c, inPlay, me, start, acts[0]);
      ActKeepsAbsent(c, inPlay, me, start, acts[0], node);
      StaysAbsent(c, inPlay, me, After(c, me, start, acts[0]), acts[1..], end, node);
    }
  }

  /** A revoked node is no member, at any time, until a device of that node is admitted again,
      whatever else is admitted or revoked meanwhile. */
  lemma RevokedUntilReadmitted(c: Crypto, inPlay: iset<Blob>, me: Dgid, start: Group, acts: seq<Act>, end: Group,
                               node: string, at: string, now: string)
    requires CollisionFree(c, inPlay) && Honest(c) && GroupInv(c, inPlay, me, start)
    requires RevokeInPlay(c, inPlay, start, me, node, at)
    requires Acts(c, inPlay, me, Revoked(c, start, me, node, at), acts, end)
    requires forall act :: act in acts ==> !Readmits(act, node)
    ensures node !in MemberIds(c, end, me, now)
  {
    hide Readmits, FoldItems, Acts, MemberIds, Listing, RevokeInPlay, NodeHex, CollisionFree, Owned;
    var revoke := Revokes(node, at);
    assert ActInPlay(c, inPlay, me, start, revoke);
    ActKeepsInv(c, inPlay, me, start, revoke);
    ActRelists(c, inPlay, me, start, revoke);
    hide Revoked;
    StaysAbsent(c, inPlay, me, Revoked(c, start, me, node, at), acts, end, node);
    MemberIdsListed(c, inPlay, end, me, now, node);
  }

  /** An admitted device is listed, whether or not it was already. */
  lemma AdmittedIsListed(c: Crypto, inPlay: iset<Blob>, me: Dgid, g: Group, device: Device, at: string)
    requires CollisionFree(c, inPlay) && Honest(c) && GroupInv(c, inPlay, me, g)
    requires AdmitInPlay(c, inPlay, g, me, device, at) && Admissible(c, me, device)
    ensures Listing(c, Admitted(c, g, me, device, at), c.address(DeviceBlob(device))) == Some(device)
  {
    hide FoldItems, NodeHex, Members, CollisionFree, Owned, AllHeld, Admissible, Republished;
    ActRelists(c, inPlay, me, g, Admits(device, at));
    if Already(c, g, me, device, at) {
      MembersListed(c, Stored(c, g, device), me, at);
      StoredFold(c, inPlay, me, g, device);
    }
  }

  ghost predicate Disturbs(act: Act, device: Device) {
    match act
    case Admits(other, _) => other.pubkey == device.pubkey
    case Revokes(node, _) => node == NodeHex(device)
  }

  /** A listed record outlives every act that neither admits a device of its public key text
      nor revokes its node. */
  lemma {:induction false} StaysListed(c: Crypto, inPlay: iset<Blob>, me: Dgid, start: Group, acts: seq<Act>,
                                       end: Group,
                                       x: Hash, device: Device)
    requires CollisionFree(c, inPlay) && Honest(c) && GroupInv(c, inPlay, me, start)
    requires Listing(c, start, x) == Some(device) && x == c.address(DeviceBlob(device)) && DeviceBlob(device) in inPlay
    requires Acts(c, inPlay, me, start, acts, end) && forall act :: act in acts ==> !Disturbs(act, device)
    ensures GroupInv(c, inPlay, me, end) && Listing(c, end, x) == Some(device)
    decreases |acts|
  {
    hide GroupInv, ActInPlay, After, Listing, NodeHex, CollisionFree;
    if acts != [] {
      ActKeepsInv(c, inPlay, me, start, acts[0]);
      ListedStays(c, inPlay, me, start, acts[0], x, device);
      StaysListed(c, inPlay, me, After(c, me, start, acts[0]), acts[1..], end, x, device);
    }
  }

  lemma ListedStays(c: Crypto, inPlay: iset<Blob>, me: Dgid, g: Group, act: Act, x: Hash, device: Device)
    requires CollisionFree(c, inPlay) && Honest(c) && GroupInv(c, inPlay, me, g) && ActInPlay(c, inPlay, me, g, act)
    requires Listing(c, g, x) == Some(device) && x == c.address(DeviceBlob(device)) && DeviceBlob(device) in inPlay
    requires !Disturbs(act, device)
    ensures Listing(c, After(c, me, g, act), x) == Some(device)
  {
    ActRelists(c, inPlay, me, g, act);
    hide Already, Admissible, Owned, AllHeld, Listing, After, NodeHex, PublishInPlay;
    if act.Admits? {
      assert act.device != device;
      assert c.address(DeviceBlob(act.device)) != x;
    }
  }

  /** An admitted device is a member for as long as its record is in date, over every run that
      admits no device of its public key text and does not revoke its node. */
  lemma AdmittedIsMember(c: Crypto, inPlay: iset<Blob>, me: Dgid, g: Group, device: Device, at: string,
                         acts: seq<Act>, end: Group, now: string)
    requires CollisionFree(c, inPlay) && Honest(c) && GroupInv(c, inPlay, me, g)
    requires AdmitInPlay(c, inPlay, g, me, device, at) && Admissible(c, me, device)
    requires Acts(c, inPlay, me, Admitted(c, g, me, device, at), acts, end)
    requires forall act :: act in acts ==> !Disturbs(act, device)
    ensures Clock.Expired(device.settings.expires, now) || NodeHex(device) in MemberIds(c, end, me, now)
  {
    var ci := c.address(DeviceBlob(device));
    hide FoldItems, MemberIds, CollisionFree, Listing, Acts, NodeHex, Owned, Disturbs;
    AdmittedIsListed(c, inPlay, me, g, device, at);
    ActKeepsInv(c, inPlay, me, g, Admits(device, at));
    StaysListed(c, inPlay, me, Admitted(c, g, me, device, at), acts, end, ci, device);
    MemberIdsListed(c, inPlay, end, me, now, NodeHex(device));
    assert !Clock.Expired(device.settings.expires, now) ==> InForce(c, end, me, now, NodeHex(device), ci);
  }

  // ----- what an admit publishes -----

  lemma {:induction false} RemovalsOnly(cis: seq<Hash>, edit: Edit)
    ensures edit in Removals(cis) ==> edit.RemoveItem? && edit.ci in cis
  {
    if cis != [] {
      RemovalsOnly(cis[1..], edit);
      assert Removals(cis) == [RemoveItem(cis[0])] + Removals(cis[1..]);
    }
  }

  lemma AdmitEditsTell(c: Crypto, g: Group, me: Dgid, device: Device, now: string, kind: string)
    ensures var edits := AdmitEdits(c, g, me, device, now);
      && (forall h :: AddRecord(h) in edits <==> h == c.address(DeviceBlob(device)))
      && (forall h :: AddAttestation(h) !in edits) && KindAfter(edits, kind) == GROUP_COLLECTION
  {
    var ci := c.address(DeviceBlob(device));
    var cis := Picked(Members(c, Stored(c, g, device), me, now), SamePubkey(device));
    var edits := AdmitEdits(c, g, me, device, now);
    AdmitKind(cis, DeviceItem(ci, device), ci, kind);
    hide Members, Picked, KindAfter, Stored;
    forall edit ensures edit in Removals(cis) ==> edit.RemoveItem? { RemovalsOnly(cis, edit); }
    assert edits[|edits| - 1] == AddRecord(ci);
    hide Removals;
  }

  lemma AdmittedHead(c: Crypto, inPlay: iset<Blob>, me: Dgid, g: Group, device: Device, now: string)
    requires CollisionFree(c, inPlay) && Honest(c) && Owned(c, inPlay, me, g)
    requires AdmitInPlay(c, inPlay, g, me, device, now)
    requires Admissible(c, me, device) && !Already(c, g, me, device, now)
    ensures var after, stored := Admitted(c, g, me, device, now), Stored(c, g, device);
      && HeadAt(stored.blobs, stored.head) == HeadAt(g.blobs, g.head)
      && HeadAt(after.blobs, after.head)
         == Some(PublishedHead(c, DeskFor(c, stored, me, AdmitEdits(c, g, me, device, now))))
      && SitsIn(c, after.blobs, DeviceBlob(device))
  {
    StoredFold(c, inPlay, me, g, device);
    hide DeskFor, PublishedHead, FoldItems, AdmitEdits, Put, Already, Republished;
    RepublishedHead(c, inPlay, me, Stored(c, g, device), AdmitEdits(c, g, me, device, now));
  }

  /** A fresh admit publishes a head of the group that records the device and refers to it, so that
      whoever pulls the head has the record too; what was recorded before is still, in its place. */
  lemma AdmittedIsRecorded(c: Crypto, inPlay: iset<Blob>, me: Dgid, g: Group, device: Device, now: string)
    requires CollisionFree(c, inPlay) && Honest(c) && Owned(c, inPlay, me, g)
    requires AdmitInPlay(c, inPlay, g, me, device, now) && ListsApart(HeadAt(g.blobs, g.head))
    requires Admissible(c, me, device) && !Already(c, g, me, device, now)
    ensures var after := Admitted(c, g, me, device, now); var ci := c.address(DeviceBlob(device));
      && HeadAt(after.blobs, after.head).Some? && ListsApart(HeadAt(after.blobs, after.head))
      && var was, head := HeadAt(g.blobs, g.head), HeadAt(after.blobs, after.head).value;
      && head.kind == "device-group" && head.name == "device-group" && head.owner == me && head.forkedFrom.None?
      && ci in head.records && ci in head.refs && SitsIn(c, after.blobs, DeviceBlob(device))
      && (was.Some? ==> was.value.records <= head.records && was.value.ops <= head.ops)
      && (forall h :: h in head.records <==> h == ci || (was.Some? && h in was.value.records))
      && (forall h :: h in head.attestations <==> was.Some? && h in was.value.attestations)
  {
    var was := HeadAt(g.blobs, g.head);
    assert was.Some? ==> was.value.owner == me;
    hide HeadAt, PublishedHead, KindAfter, Opened, EditedAll, Put, Admitted, AdmitEdits, Already, AdmitInPlay, Owned;
    AdmittedHead(c, inPlay, me, g, device, now);
    PublishTells(c, Stored(c, g, device).blobs, was, GROUP_COLLECTION, me, AdmitEdits(c, g, me, device, now));
    AdmitEditsTell(c, g, me, device, now, if was.Some? then was.value.kind else "collection");
  }

  lemma {:induction false} RemovalsKind(cis: seq<Hash>, kind: string)
    ensures KindAfter([SetKind(GROUP_COLLECTION)] + Removals(cis), kind) == GROUP_COLLECTION
    decreases |cis|
  {
    if cis == [] {
      assert [SetKind(GROUP_COLLECTION)] + Removals(cis) == [SetKind(GROUP_COLLECTION)];
    } else {
      var n := |cis| - 1;
      RemovalsSnoc(cis, n);
      assert cis[..n + 1] == cis;
      RemovalsKind(cis[..n], kind);
      var all := [SetKind(GROUP_COLLECTION)] + Removals(cis);
      assert all[..|all| - 1] == [SetKind(GROUP_COLLECTION)] + Removals(cis[..n]);
    }
  }

  lemma AdmitKind(cis: seq<Hash>, item: Item, ci: Hash, kind: string)
    ensures KindAfter([SetKind(GROUP_COLLECTION)] + Removals(cis) + [AddItem(item), AddRecord(ci)], kind)
      == GROUP_COLLECTION
  {
    var so := [SetKind(GROUP_COLLECTION)] + Removals(cis);
    RemovalsKind(cis, kind);
    assert (so + [AddItem(item), AddRecord(ci)])[..|so| + 1] == so + [AddItem(item)];
    assert (so + [AddItem(item)])[..|so|] == so;
    hide Removals;
  }

  /** What is published sits in the store, over what was there. */
  lemma RepublishedHead(c: Crypto, inPlay: iset<Blob>, me: Dgid, g: Group, edits: seq<Edit>)
    requires CollisionFree(c, inPlay) && Honest(c) && Owned(c, inPlay, me, g)
    requires PublishInPlay(c, inPlay, DeskFor(c, g, me, edits))
    ensures var after := Republished(c, g, me, edits);
      && HeadAt(after.blobs, after.head) == Some(PublishedHead(c, DeskFor(c, g, me, edits)))
      && Extends(after.blobs, g.blobs)
  {
    RepublishedFold(c, inPlay, me, g, edits);
    hide PublishedHead, DeskFor, PublishedBlobs, FoldItems;
    var after := Republished(c, g, me, edits);
    assert after.blobs[after.head.value] in inPlay;
  }
}
