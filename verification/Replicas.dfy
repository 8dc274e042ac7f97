/** Any number of replicas of one collection, each editing it under the owner's key and
    merging any head ever published, in any order. */
module Replicas {
  import opened Options
  import opened Records
  import opened Store
  import opened Fold
  import opened Builder
  import opened Merge

  /** The collection being replicated, and the primitives it rests on. */
  datatype Setting = Setting(c: Crypto, usable: string -> bool, name: string, owner: Dgid)

  datatype Replica = Replica(blobs: Blobs, head: Option<Hash>)

  /** An operation was minted by an author whose head held `seen`. */
  datatype Event = Event(op: Op, seen: set<Op>)

  /** `published` is every head ever published, `taken` the refs of all heads a replica has
      published or merged, `events` every minting. */
  datatype Net = Net(
    replicas: seq<Replica>,
    published: map<Hash, Collection>,
    taken: seq<set<Hash>>,
    events: set<Event>)

  datatype Action =
    | StoreBlob(at: nat, blob: Blob)
    | Publish(at: nat, edits: seq<Edit>)
    | Pull(at: nat, source: nat, head: Hash)

  // ----- steps -----

  function DeskOf(s: Setting, r: Replica, edits: seq<Edit>): Desk {
    EditedAll(Opened(s.c, r.blobs, HeadAt(r.blobs, r.head), s.name, s.owner), edits)
  }

  function HeadHash(s: Setting, desk: Desk): Hash {
    s.c.address(HeadBlob(PublishedHead(s.c, desk)))
  }

  function RefMap(s: Setting, head: Option<Hash>): map<string, Hash> {
    if head.Some? then map[s.name := head.value] else map[]
  }

  /** What I hold, then what the provider has of `wanted`. */
  function PulledBlobs(mine: Blobs, theirs: Blobs, wanted: set<Hash>): Blobs {
    map h | h in mine.Keys + (theirs.Keys * wanted) :: if h in mine then mine[h] else theirs[h]
  }

  function Fetched(net: Net, a: Action): Blobs
    requires a.Pull? && a.at < |net.replicas| && a.source < |net.replicas| && a.head in net.published
  {
    PulledBlobs(net.replicas[a.at].blobs, net.replicas[a.source].blobs, {a.head} + net.published[a.head].refs)
  }

  function PullOutcome(s: Setting, net: Net, a: Action): Outcome
    requires a.Pull? && a.at < |net.replicas| && a.source < |net.replicas| && a.head in net.published
  {
    MergeOutcome(s.c, s.usable, Fetched(net, a), RefMap(s, net.replicas[a.at].head), s.name, a.head)
  }

  /** Records and attestations name held content, never an operation. */
  ghost predicate FairEdit(blobs: Blobs, edit: Edit) {
    match edit
    case AddRecord(h) => h in blobs && !blobs[h].OpBlob?
    case AddAttestation(h) => h in blobs && !blobs[h].OpBlob?
    case _ => true
  }

  ghost predicate Enabled(s: Setting, inPlay: iset<Blob>, net: Net, a: Action) {
    && a.at < |net.replicas| == |net.taken|
    && match a
       case StoreBlob(at, blob) => blob in inPlay
       case Publish(at, edits) =>
         && (forall e :: e in edits ==> FairEdit(net.replicas[at].blobs, e))
         && PublishInPlay(s.c, inPlay, DeskOf(s, net.replicas[at], edits))
       case Pull(at, source, head) =>
         && source < |net.replicas| && head in net.published
         && {head} + net.published[head].refs <= net.replicas[source].blobs.Keys
         && var mine := HeadAt(net.replicas[at].blobs, net.replicas[at].head);
         && (mine.Some? ==> HeadBlob(MergedHead(mine.value, net.published[head])) in inPlay)
  }

  /** The mintings of one publish: each sees the loaded operations and those minted before. */
  ghost function Mintings(s: Setting, blobs: Blobs, desk: Desk): set<Event> {
    var minted := Minted(s.c, desk);
    set k | 0 <= k < |minted| :: Event(minted[k], Elements(LoadOps(blobs, desk.ops)) + Elements(minted[..k]))
  }

  ghost function AfterPublish(s: Setting, net: Net, at: nat, edits: seq<Edit>): Net
    requires at < |net.replicas| == |net.taken|
  {
    var r := net.replicas[at];
    var desk := DeskOf(s, r, edits);
    var head := PublishedHead(s.c, desk);
    Net(net.replicas[at := Replica(PublishedBlobs(s.c, desk, r.blobs), Some(HeadHash(s, desk)))],
        net.published[HeadHash(s, desk) := head],
        net.taken[at := net.taken[at] + head.refs],
        net.events + Mintings(s, r.blobs, desk))
  }

  function AfterPull(s: Setting, net: Net, a: Action): Net
    requires a.Pull? && a.at < |net.replicas| == |net.taken| && a.source < |net.replicas| && a.head in net.published
  {
    var out := PullOutcome(s, net, a);
    var now := if s.name in out.refs then Some(out.refs[s.name]) else None;
    var head := HeadAt(out.blobs, now);
    Net(net.replicas[a.at := Replica(out.blobs, now)],
        if head.Some? then net.published[now.value := head.value] else net.published,
        net.taken[a.at := net.taken[a.at] + net.published[a.head].refs],
        net.events)
  }

  ghost function Next(s: Setting, net: Net, a: Action): Net
    requires a.at < |net.replicas| == |net.taken|
    requires a.Pull? ==> a.source < |net.replicas| && a.head in net.published
  {
    match a
    case StoreBlob(at, blob) =>
      net.(replicas := net.replicas[at := net.replicas[at].(blobs := Put(s.c, net.replicas[at].blobs, blob))])
    case Publish(at, edits) => AfterPublish(s, net, at, edits)
    case Pull(_, _, _) => AfterPull(s, net, a)
  }

  ghost predicate Runs(s: Setting, inPlay: iset<Blob>, start: Net, actions: seq<Action>, end: Net)
    decreases |actions|
  {
    if actions == [] then start == end
    else Enabled(s, inPlay, start, actions[0]) && Runs(s, inPlay, Next(s, start, actions[0]), actions[1..], end)
  }

  /** Replicas holding nothing. */
  function Empty(n: nat): Net {
    Net(seq(n, i => Replica(map[], None)), map[], seq(n, i => {}), {})
  }

  // ----- what every step keeps -----

  ghost predicate IsOp(s: Setting, inPlay: iset<Blob>, h: Hash) {
    exists op :: OpBlob(op) in inPlay && s.c.address(OpBlob(op)) == h
  }

  ghost predicate IsOther(s: Setting, inPlay: iset<Blob>, h: Hash) {
    exists blob :: blob in inPlay && !blob.OpBlob? && s.c.address(blob) == h
  }

  /** A head of the collection, whose `ops` are operations and whose other refs are not. */
  ghost predicate WellMade(s: Setting, inPlay: iset<Blob>, head: Collection) {
    && head.owner == s.owner && head.name == s.name && Indexed(head)
    && HeadBlob(head) in inPlay
    && (forall h :: h in head.ops ==> IsOp(s, inPlay, h))
    && (forall h :: h in head.attestations || h in head.records ==> IsOther(s, inPlay, h))
  }

  /** The head is held with everything it refers to. */
  ghost predicate GoodHead(s: Setting, blobs: Blobs, head: Collection) {
    && head.owner == s.owner && head.name == s.name && Indexed(head)
    && HoldsOps(blobs, head.ops)
    && (forall h :: h in head.attestations || h in head.records ==> h in blobs && !blobs[h].OpBlob?)
  }

  lemma HeldWhole(s: Setting, inPlay: iset<Blob>, blobs: Blobs, head: Collection)
    requires CollisionFree(s.c, inPlay) && Intact(s.c, inPlay, blobs) && WellMade(s, inPlay, head)
    requires head.refs <= blobs.Keys
    ensures GoodHead(s, blobs, head)
  {
    forall h | h in head.ops ensures h in blobs && blobs[h].OpBlob? {
      var op :| OpBlob(op) in inPlay && s.c.address(OpBlob(op)) == h;
      assert blobs[h] in inPlay && s.c.address(blobs[h]) == h;
    }
    forall h | h in head.attestations || h in head.records ensures h in blobs && !blobs[h].OpBlob? {
      var blob :| blob in inPlay && !blob.OpBlob? && s.c.address(blob) == h;
      assert blobs[h] in inPlay && s.c.address(blobs[h]) == h;
    }
  }

  lemma WholeIsWellMade(s: Setting, inPlay: iset<Blob>, blobs: Blobs, head: Collection)
    requires Intact(s.c, inPlay, blobs) && GoodHead(s, blobs, head) && HeadBlob(head) in inPlay
    ensures WellMade(s, inPlay, head)
  {
    forall h | h in head.ops ensures IsOp(s, inPlay, h) {
      assert blobs[h] == OpBlob(blobs[h].op);
    }
  }

  ghost predicate GoodReplica(s: Setting, inPlay: iset<Blob>, published: map<Hash, Collection>, r: Replica) {
    && Intact(s.c, inPlay, r.blobs)
    && (r.head.Some? ==>
         && r.head.value in published && r.head.value in r.blobs
         && r.blobs[r.head.value] == HeadBlob(published[r.head.value])
         && GoodHead(s, r.blobs, published[r.head.value]))
  }

  function RefsOf(published: map<Hash, Collection>, r: Replica): set<Hash> {
    if r.head.Some? && r.head.value in published then published[r.head.value].refs else {}
  }

  ghost predicate GoodPublished(s: Setting, inPlay: iset<Blob>, published: map<Hash, Collection>) {
    forall h :: h in published ==> WellMade(s, inPlay, published[h]) && s.c.address(HeadBlob(published[h])) == h
  }

  /** Each replica points at a published head it holds whole, and that head's refs are exactly
      the union of everything the replica has published or merged. */
  ghost predicate Inv(s: Setting, inPlay: iset<Blob>, net: Net) {
    && |net.taken| == |net.replicas|
    && GoodPublished(s, inPlay, net.published)
    && (forall i :: 0 <= i < |net.replicas| ==> GoodReplica(s, inPlay, net.published, net.replicas[i]))
    && (forall i :: 0 <= i < |net.replicas| ==> net.taken[i] == RefsOf(net.published, net.replicas[i]))
  }

  lemma GoodHeadGrows(s: Setting, small: Blobs, large: Blobs, head: Collection)
    requires GoodHead(s, small, head) && Extends(large, small)
    ensures GoodHead(s, large, head)
  {
  }

  /** Publishing a further head changes no head published before. */
  lemma PublishedGrows(s: Setting, inPlay: iset<Blob>, published: map<Hash, Collection>, hash: Hash, head: Collection)
    requires CollisionFree(s.c, inPlay) && GoodPublished(s, inPlay, published)
    requires WellMade(s, inPlay, head) && s.c.address(HeadBlob(head)) == hash
    ensures GoodPublished(s, inPlay, published[hash := head])
    ensures forall h :: h in published ==> published[hash := head][h] == published[h]
  {
    if hash in published {
      assert HeadBlob(published[hash]) in inPlay && s.c.address(HeadBlob(published[hash])) == hash;
    }
  }

  // ----- publishing -----

  lemma {:induction false} EditedRecords(blobs: Blobs, desk: Desk, edits: seq<Edit>)
    requires forall e :: e in edits ==> FairEdit(blobs, e)
    requires forall h :: h in desk.attestations || h in desk.records ==> h in blobs && !blobs[h].OpBlob?
    ensures var after := EditedAll(desk, edits);
      && (forall h :: h in after.attestations || h in after.records ==> h in blobs && !blobs[h].OpBlob?)
      && (forall h :: h in desk.attestations ==> h in after.attestations)
      && (forall h :: h in desk.records ==> h in after.records)
    decreases |edits|
  {
    if edits != [] {
      var step := Edited(desk, edits[0]);
      assert FairEdit(blobs, edits[0]);
      assert forall h :: h in desk.attestations ==> h in step.attestations;
      assert forall h :: h in desk.records ==> h in step.records;
      EditedRecords(blobs, step, edits[1..]);
      assert EditedAll(desk, edits) == EditedAll(step, edits[1..]);
    }
  }

  /** A publish by a builder holding `ops`, `records` and `attestations` makes a whole head. */
  lemma PublishedGood(s: Setting, inPlay: iset<Blob>, blobs: Blobs, desk: Desk)
    requires CollisionFree(s.c, inPlay) && Intact(s.c, inPlay, blobs) && HoldsOps(blobs, desk.ops)
    requires PublishInPlay(s.c, inPlay, desk) && desk.owner == s.owner && desk.name == s.name
    requires forall h :: h in desk.attestations || h in desk.records ==> h in blobs && !blobs[h].OpBlob?
    ensures GoodHead(s, PublishedBlobs(s.c, desk, blobs), PublishedHead(s.c, desk))
  {
    hide Minted;
    PublishedStore(s.c, inPlay, blobs, desk);
    hide PublishedBlobs;
  }

  lemma PublishedRefs(s: Setting, before: Collection, desk: Desk)
    requires Indexed(before) && desk.ops == before.ops
    requires forall h :: h in before.attestations ==> h in desk.attestations
    requires forall h :: h in before.records ==> h in desk.records
    ensures before.refs <= PublishedHead(s.c, desk).refs
  {
    hide Minted;
  }

  /** A good replica publishes a head that is whole in its own store and holds every ref of
      the head before it. */
  lemma PublishGood(s: Setting, inPlay: iset<Blob>, published: map<Hash, Collection>, r: Replica, edits: seq<Edit>)
    requires CollisionFree(s.c, inPlay) && GoodReplica(s, inPlay, published, r)
    requires forall e :: e in edits ==> FairEdit(r.blobs, e)
    requires PublishInPlay(s.c, inPlay, DeskOf(s, r, edits))
    ensures Coherent(s.c, inPlay, r.blobs, DeskOf(s, r, edits))
    ensures GoodHead(s, PublishedBlobs(s.c, DeskOf(s, r, edits), r.blobs), PublishedHead(s.c, DeskOf(s, r, edits)))
    ensures RefsOf(published, r) <= PublishedHead(s.c, DeskOf(s, r, edits)).refs
    ensures DeskOf(s, r, edits).ops == if r.head.Some? then published[r.head.value].ops else []
    ensures DeskOf(s, r, edits).owner == s.owner && DeskOf(s, r, edits).name == s.name
  {
    hide Folded, Coherent, PublishedHead, PublishedBlobs, PublishInPlay, EditedAll, Intact;
    var head := HeadAt(r.blobs, r.head);
    var open := Opened(s.c, r.blobs, head, s.name, s.owner);
    var desk := DeskOf(s, r, edits);
    OpenedCoherent(s.c, inPlay, r.blobs, head, s.name, s.owner);
    EditedAllCoherent(s.c, inPlay, r.blobs, open, edits);
    EditedRecords(r.blobs, open, edits);
    hide Opened;
    PublishedGood(s, inPlay, r.blobs, desk);
    if r.head.Some? {
      PublishedRefs(s, published[r.head.value], desk);
    }
  }

  // ----- the steps keep the invariant -----

  lemma StoreKeepsInv(s: Setting, inPlay: iset<Blob>, net: Net, a: Action)
    requires CollisionFree(s.c, inPlay) && Inv(s, inPlay, net) && Enabled(s, inPlay, net, a) && a.StoreBlob?
    ensures Inv(s, inPlay, Next(s, net, a))
  {
    var r := net.replicas[a.at];
    PutGet(s.c, inPlay, r.blobs, a.blob);
    hide Put, CollisionFree, WellMade;
    if r.head.Some? {
      GoodHeadGrows(s, r.blobs, Put(s.c, r.blobs, a.blob), net.published[r.head.value]);
    }
  }

  lemma OthersStayGood(s: Setting, inPlay: iset<Blob>, published: map<Hash, Collection>, hash: Hash, head: Collection,
                       r: Replica)
    requires GoodReplica(s, inPlay, published, r)
    requires forall h :: h in published ==> published[hash := head][h] == published[h]
    ensures GoodReplica(s, inPlay, published[hash := head], r)
    ensures RefsOf(published[hash := head], r) == RefsOf(published, r)
  {
    hide Intact, GoodHead;
  }

  lemma MovedIsGood(s: Setting, inPlay: iset<Blob>, published: map<Hash, Collection>, blobs: Blobs, hash: Hash,
                    head: Collection)
    requires Intact(s.c, inPlay, blobs) && SitsIn(s.c, blobs, HeadBlob(head)) && s.c.address(HeadBlob(head)) == hash
    requires GoodHead(s, blobs, head)
    ensures GoodReplica(s, inPlay, published[hash := head], Replica(blobs, Some(hash)))
    ensures RefsOf(published[hash := head], Replica(blobs, Some(hash))) == head.refs
  {
    hide Intact, GoodHead;
  }

  /** One replica moves to a whole head with its old refs and those of what it took. */
  lemma MovedReplica(s: Setting, inPlay: iset<Blob>, net: Net, at: nat, blobs: Blobs, hash: Hash, head: Collection,
                     took: set<Hash>, events: set<Event>)
    requires CollisionFree(s.c, inPlay) && Inv(s, inPlay, net) && at < |net.replicas|
    requires Intact(s.c, inPlay, blobs) && SitsIn(s.c, blobs, HeadBlob(head)) && s.c.address(HeadBlob(head)) == hash
    requires GoodHead(s, blobs, head) && HeadBlob(head) in inPlay
    requires head.refs == RefsOf(net.published, net.replicas[at]) + took
    ensures Inv(s, inPlay, Net(net.replicas[at := Replica(blobs, Some(hash))], net.published[hash := head],
                               net.taken[at := net.taken[at] + took], events))
  {
    WholeIsWellMade(s, inPlay, blobs, head);
    PublishedGrows(s, inPlay, net.published, hash, head);
    MovedIsGood(s, inPlay, net.published, blobs, hash, head);
    hide CollisionFree, GoodHead, WellMade, Intact, GoodReplica, RefsOf, SitsIn, GoodPublished;
    var replicas := net.replicas[at := Replica(blobs, Some(hash))];
    forall i | 0 <= i < |replicas| && i != at
      ensures GoodReplica(s, inPlay, net.published[hash := head], replicas[i])
      ensures RefsOf(net.published[hash := head], replicas[i]) == RefsOf(net.published, net.replicas[i])
    {
      OthersStayGood(s, inPlay, net.published, hash, head, net.replicas[i]);
    }
  }

  lemma PublishKeepsInv(s: Setting, inPlay: iset<Blob>, net: Net, a: Action)
    requires CollisionFree(s.c, inPlay) && Inv(s, inPlay, net) && Enabled(s, inPlay, net, a) && a.Publish?
    ensures Inv(s, inPlay, Next(s, net, a))
  {
    var r := net.replicas[a.at];
    var desk := DeskOf(s, r, a.edits);
    var head := PublishedHead(s.c, desk);
    hide DeskOf, PublishedHead, PublishedBlobs, CollisionFree, GoodHead, Minted, Coherent, Mintings, LoadOps;
    PublishGood(s, inPlay, net.published, r, a.edits);
    CoherentHolds(s, inPlay, r.blobs, desk);
    PublishedStore(s.c, inPlay, r.blobs, desk);
    MovedReplica(s, inPlay, net, a.at, PublishedBlobs(s.c, desk, r.blobs), HeadHash(s, desk), head, head.refs,
                 net.events + Mintings(s, r.blobs, desk));
  }

  lemma CoherentHolds(s: Setting, inPlay: iset<Blob>, blobs: Blobs, desk: Desk)
    requires Coherent(s.c, inPlay, blobs, desk)
    ensures HoldsOps(blobs, desk.ops) && Intact(s.c, inPlay, blobs)
  {
  }

  /** A successful pull leaves the incoming head and all its refs in the store. */
  lemma FetchedWhole(s: Setting, inPlay: iset<Blob>, net: Net, a: Action)
    requires CollisionFree(s.c, inPlay) && Inv(s, inPlay, net) && Enabled(s, inPlay, net, a) && a.Pull?
    ensures Intact(s.c, inPlay, Fetched(net, a)) && Extends(Fetched(net, a), net.replicas[a.at].blobs)
    ensures HeadAt(Fetched(net, a), Some(a.head)) == Some(net.published[a.head])
    ensures GoodHead(s, Fetched(net, a), net.published[a.head])
  {
    var mine, theirs := net.replicas[a.at].blobs, net.replicas[a.source].blobs;
    assert GoodReplica(s, inPlay, net.published, net.replicas[a.at]);
    assert GoodReplica(s, inPlay, net.published, net.replicas[a.source]);
    var head := net.published[a.head];
    assert WellMade(s, inPlay, head);
    var blobs := Fetched(net, a);
    assert Intact(s.c, inPlay, blobs);
    assert a.head in blobs && blobs[a.head] in inPlay && s.c.address(blobs[a.head]) == a.head;
    assert blobs[a.head] == HeadBlob(head);
    assert head.refs <= blobs.Keys;
    HeldWhole(s, inPlay, blobs, head);
  }

  lemma UnionGood(s: Setting, blobs: Blobs, mine: Collection, theirs: Collection)
    requires GoodHead(s, blobs, mine) && GoodHead(s, blobs, theirs)
    ensures GoodHead(s, blobs, MergedHead(mine, theirs))
  {
  }

  function LocalHead(net: Net, i: nat): Option<Collection>
    requires i < |net.replicas|
  {
    var at := net.replicas[i].head;
    if at.Some? && at.value in net.published then Some(net.published[at.value]) else None
  }

  /** The head a pull ends on, out of the local head and the incoming one. */
  ghost predicate Joins(mine: Option<Collection>, theirs: Collection, head: Collection) {
    match mine
    case None => head == theirs
    case Some(m) => (head == m || head == theirs || head == MergedHead(m, theirs)) && head.refs == m.refs + theirs.refs
  }

  /** The store a pull leaves names a whole head that joins the two. */
  ghost predicate LandsOn(s: Setting, inPlay: iset<Blob>, before: Blobs, out: Outcome,
                          mine: Option<Collection>, theirs: Collection) {
    && s.name in out.refs && Intact(s.c, inPlay, out.blobs) && Extends(out.blobs, before)
    && HeadAt(out.blobs, Some(out.refs[s.name])).Some?
    && var head := HeadAt(out.blobs, Some(out.refs[s.name])).value;
    && s.c.address(HeadBlob(head)) == out.refs[s.name] && HeadBlob(head) in inPlay
    && GoodHead(s, out.blobs, head)
    && Joins(mine, theirs, head)
  }

  /** After the fetch the local head and the incoming one can be merged. */
  lemma PullReady(s: Setting, inPlay: iset<Blob>, net: Net, a: Action)
    requires CollisionFree(s.c, inPlay) && s.usable(s.name)
    requires Inv(s, inPlay, net) && Enabled(s, inPlay, net, a) && a.Pull? && LocalHead(net, a.at).Some?
    ensures net.replicas[a.at].head.Some?
    ensures HeadAt(Fetched(net, a), net.replicas[a.at].head) == LocalHead(net, a.at)
    ensures HeadAt(Fetched(net, a), Some(a.head)) == Some(net.published[a.head])
    ensures GoodHead(s, Fetched(net, a), LocalHead(net, a.at).value)
    ensures GoodHead(s, Fetched(net, a), net.published[a.head])
    ensures Mergeable(s.c, inPlay, s.usable, Fetched(net, a), RefMap(s, net.replicas[a.at].head), s.name, a.head)
  {
    var r := net.replicas[a.at];
    var blobs := Fetched(net, a);
    FetchedWhole(s, inPlay, net, a);
    assert GoodReplica(s, inPlay, net.published, r);
    GoodHeadGrows(s, r.blobs, blobs, LocalHead(net, a.at).value);
    hide Fetched, CollisionFree, MergedHead;
    assert HeadAt(blobs, Some(RefMap(s, r.head)[s.name])) == LocalHead(net, a.at);
  }

  lemma MergeLands(s: Setting, inPlay: iset<Blob>, blobs: Blobs, refs: map<string, Hash>, incoming: Hash,
                   mine: Collection, theirs: Collection)
    requires CollisionFree(s.c, inPlay) && Mergeable(s.c, inPlay, s.usable, blobs, refs, s.name, incoming)
    requires HeadAt(blobs, Some(refs[s.name])) == Some(mine) && HeadAt(blobs, Some(incoming)) == Some(theirs)
    requires GoodHead(s, blobs, mine) && GoodHead(s, blobs, theirs)
    ensures LandsOn(s, inPlay, blobs, MergeOutcome(s.c, s.usable, blobs, refs, s.name, incoming), Some(mine), theirs)
  {
    var out := MergeOutcome(s.c, s.usable, blobs, refs, s.name, incoming);
    MergeJoins(s.c, inPlay, s.usable, blobs, refs, s.name, incoming);
    UnionGood(s, blobs, mine, theirs);
    hide MergeOutcome, MergedHead, CollisionFree;
    var head := HeadAt(out.blobs, Some(out.refs[s.name])).value;
    assert head == mine || head == theirs || head == MergedHead(mine, theirs);
    GoodHeadGrows(s, blobs, out.blobs, head);
  }

  /** What a pull leaves: a whole head with both ref sets. */
  lemma PullGood(s: Setting, inPlay: iset<Blob>, net: Net, a: Action)
    requires CollisionFree(s.c, inPlay) && s.usable(s.name)
    requires Inv(s, inPlay, net) && Enabled(s, inPlay, net, a) && a.Pull?
    ensures LandsOn(s, inPlay, net.replicas[a.at].blobs, PullOutcome(s, net, a),
                    LocalHead(net, a.at), net.published[a.head])
  {
    hide Fetched, GoodHead, Intact, MergeOutcome, CollisionFree, Mergeable, WellMade;
    FetchedWhole(s, inPlay, net, a);
    if LocalHead(net, a.at).Some? {
      PullReady(s, inPlay, net, a);
      hide Inv, Enabled;
      MergeLands(s, inPlay, Fetched(net, a), RefMap(s, net.replicas[a.at].head), a.head, LocalHead(net, a.at).value,
                 net.published[a.head]);
    } else {
      assert GoodReplica(s, inPlay, net.published, net.replicas[a.at]);
      assert HeadBlob(net.published[a.head]) in inPlay && s.c.address(HeadBlob(net.published[a.head])) == a.head by {
        HeadInPlay(s, inPlay, net, a.head);
      }
      hide Inv, Enabled;
      FirstPull(s, inPlay, Fetched(net, a), a.head, net.published[a.head]);
    }
  }

  lemma HeadInPlay(s: Setting, inPlay: iset<Blob>, net: Net, h: Hash)
    requires Inv(s, inPlay, net) && h in net.published
    ensures HeadBlob(net.published[h]) in inPlay && s.c.address(HeadBlob(net.published[h])) == h
  {
  }

  lemma FirstPull(s: Setting, inPlay: iset<Blob>, blobs: Blobs, incoming: Hash, theirs: Collection)
    requires s.usable(s.name) && Intact(s.c, inPlay, blobs) && HeadAt(blobs, Some(incoming)) == Some(theirs)
    requires GoodHead(s, blobs, theirs) && HeadBlob(theirs) in inPlay && s.c.address(HeadBlob(theirs)) == incoming
    ensures LandsOn(s, inPlay, blobs, MergeOutcome(s.c, s.usable, blobs, map[], s.name, incoming), None, theirs)
  {
    hide GoodHead, Intact;
  }

  lemma PullKeepsInv(s: Setting, inPlay: iset<Blob>, net: Net, a: Action)
    requires CollisionFree(s.c, inPlay) && s.usable(s.name)
    requires Inv(s, inPlay, net) && Enabled(s, inPlay, net, a) && a.Pull?
    ensures Inv(s, inPlay, Next(s, net, a))
  {
    var out := PullOutcome(s, net, a);
    hide PullOutcome, CollisionFree, GoodHead, Intact, MergedHead, Enabled;
    assert a.at < |net.replicas|;
    PullGood(s, inPlay, net, a);
    MovedReplica(s, inPlay, net, a.at, out.blobs, out.refs[s.name], HeadAt(out.blobs, Some(out.refs[s.name])).value,
                 net.published[a.head].refs, net.events);
  }

  /** Every step keeps the invariant. */
  lemma StepKeepsInv(s: Setting, inPlay: iset<Blob>, net: Net, a: Action)
    requires CollisionFree(s.c, inPlay) && s.usable(s.name)
    requires Inv(s, inPlay, net) && Enabled(s, inPlay, net, a)
    ensures Inv(s, inPlay, Next(s, net, a))
  {
    hide Inv, Enabled, Next;
    match a {
      case StoreBlob(_, _) => StoreKeepsInv(s, inPlay, net, a);
      case Publish(_, _) => PublishKeepsInv(s, inPlay, net, a);
      case Pull(_, _, _) => PullKeepsInv(s, inPlay, net, a);
    }
  }
}
