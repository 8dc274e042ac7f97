/** Replication: choosing the best provider of a ref, pulling what it offers, merging it, and
    why that goes quiet. */
module Replication {
  import opened Options
  import opened Records
  import opened Store
  import opened Merge
  import opened Gossip
  import Replicas

  /** A peer as `best_provider` sees it: its adverts, the trust in it, whether an address is
      known, and the identity its id spells. */
  datatype Peer = Peer(adverts: seq<RefAdvert>, level: Level, reachable: bool, dgid: Option<Dgid>)

  /** What the node says of its own ref: `owner` and `manifest` only when there is a head. */
  datatype Local = Local(manifest: Option<Hash>, held: nat, owner: Option<Dgid>)

  /** `RefAdvert::complete`. */
  predicate Complete(advert: RefAdvert) {
    advert.total > 0 && advert.held >= advert.total
  }

  predicate OwnerMatches(ours: Option<Dgid>, theirs: Option<Dgid>) {
    ours.Some? && theirs.Some? ==> ours.value == theirs.value
  }

  /** The first advert of the name whose owner is not another's. */
  function Offer(name: string, ours: Option<Dgid>, adverts: seq<RefAdvert>): Option<RefAdvert> {
    if adverts == [] then None
    else if adverts[0].name == name && OwnerMatches(ours, adverts[0].owner) then Some(adverts[0])
    else Offer(name, ours, adverts[1..])
  }

  predicate Sibling(local: Local, merged: set<Hash>, advert: RefAdvert) {
    && Complete(advert) && local.owner.Some? && advert.owner == local.owner
    && local.manifest != Some(advert.manifest) && advert.manifest !in merged
  }

  predicate Wanted(local: Local, merged: set<Hash>, advert: RefAdvert) {
    advert.total != 0 && (advert.held > local.held || Sibling(local, merged, advert))
  }

  predicate Eligible(name: string, local: Local, merged: set<Hash>, peer: Peer) {
    var offer := Offer(name, local.owner, peer.adverts);
    offer.Some? && Wanted(local, merged, offer.value) && peer.level >= CACHE && peer.reachable
  }

  predicate OwnersDevice(peer: Peer, advert: RefAdvert) {
    advert.owner.Some? && peer.dgid == advert.owner
  }

  /** The owner's own device first, then trust, then how much is held. */
  predicate Outranks(a: Peer, forA: RefAdvert, b: Peer, forB: RefAdvert) {
    if OwnersDevice(a, forA) != OwnersDevice(b, forB) then OwnersDevice(a, forA)
    else if a.level != b.level then a.level > b.level
    else forA.held > forB.held
  }

  predicate Beats(name: string, local: Local, merged: set<Hash>, a: Peer, b: Peer)
    requires Eligible(name, local, merged, a) && Eligible(name, local, merged, b)
  {
    Outranks(a, Offer(name, local.owner, a.adverts).value, b, Offer(name, local.owner, b.adverts).value)
  }

  /** The eligible peer no other outranks, and of those the first in id order. */
  predicate Picks(name: string, local: Local, merged: set<Hash>, peers: seq<Peer>, i: nat) {
    && i < |peers| && Eligible(name, local, merged, peers[i])
    && (forall j | 0 <= j < |peers| && Eligible(name, local, merged, peers[j]) ::
          !Beats(name, local, merged, peers[j], peers[i]))
    && (forall j | 0 <= j < i && Eligible(name, local, merged, peers[j]) ::
          Beats(name, local, merged, peers[i], peers[j]))
  }

  /** `best_provider`: over the peers in id order, keeping the best so far. */
  method BestProvider(name: string, local: Local, merged: set<Hash>, peers: seq<Peer>) returns (best: Option<nat>)
    ensures best.Some? ==> Picks(name, local, merged, peers, best.value)
    ensures best.None? ==> forall j :: 0 <= j < |peers| ==> !Eligible(name, local, merged, peers[j])
  {
    best := None;
    for i := 0 to |peers|
      invariant best.Some? ==> best.value < i && Picks(name, local, merged, peers[..i], best.value)
      invariant best.None? ==> forall j :: 0 <= j < i ==> !Eligible(name, local, merged, peers[j])
    {
      var peer := peers[i];
      assert peers[..i + 1] == peers[..i] + [peer];
      var advert := Offer(name, local.owner, peer.adverts);
      if advert.None? {
        continue;
      }
      if advert.value.total == 0 {
        continue;
      }
      if !(advert.value.held > local.held) && !Sibling(local, merged, advert.value) {
        continue;
      }
      if peer.level < CACHE {
        continue;
      }
      if !peer.reachable {
        continue;
      }
      if best.None? || Beats(name, local, merged, peer, peers[best.value]) {
        best := Some(i);
      }
    }
    assert peers[..|peers|] == peers;
  }

  /** The pick is determined. */
  lemma PicksOne(name: string, local: Local, merged: set<Hash>, peers: seq<Peer>, i: nat, j: nat)
    requires Picks(name, local, merged, peers, i) && Picks(name, local, merged, peers, j)
    ensures i == j
  {
  }

  /** The first advert of the name that is no other owner's. */
  ghost predicate OffersAt(name: string, ours: Option<Dgid>, adverts: seq<RefAdvert>, k: nat) {
    && k < |adverts| && Fits(name, ours, adverts[k]) && forall j :: 0 <= j < k ==> !Fits(name, ours, adverts[j])
  }

  ghost predicate Fits(name: string, ours: Option<Dgid>, advert: RefAdvert) {
    advert.name == name && !(ours.Some? && advert.owner.Some? && ours.value != advert.owner.value)
  }

  lemma {:induction false} OfferExactly(name: string, ours: Option<Dgid>, adverts: seq<RefAdvert>, k: nat)
    ensures OffersAt(name, ours, adverts, k) ==> Offer(name, ours, adverts) == Some(adverts[k])
    ensures Offer(name, ours, adverts).None? <==> forall j :: 0 <= j < |adverts| ==> !Fits(name, ours, adverts[j])
  {
    if adverts != [] && !Fits(name, ours, adverts[0]) {
      OfferExactly(name, ours, adverts[1..], if k > 0 then k - 1 else 0);
      assert forall j :: 0 < j < |adverts| ==> adverts[j] == adverts[1..][j - 1];
    }
  }

  /** Of what is advertised, the node wants what more is held of, or a whole head of its own
      collection that is neither its own nor merged; never of what refers to nothing. */
  ghost predicate Wants(local: Local, merged: set<Hash>, advert: RefAdvert) {
    && advert.total > 0
    && (|| advert.held > local.held
        || (advert.held >= advert.total && (exists owner :: local.owner == Some(owner) && advert.owner == Some(owner))
            && local.manifest != Some(advert.manifest) && advert.manifest !in merged))
  }

  /** A peer is eligible exactly when it can be reached, is trusted as a cache at least, and its
      first offer of the name is wanted. */
  lemma EligibleExactly(name: string, local: Local, merged: set<Hash>, peer: Peer, k: nat)
    requires OffersAt(name, local.owner, peer.adverts, k)
    ensures Eligible(name, local, merged, peer) <==>
      peer.reachable && peer.level >= 2 && Wants(local, merged, peer.adverts[k])
  {
    OfferExactly(name, local.owner, peer.adverts, k);
    hide Offer;
  }

  lemma NothingOffered(name: string, local: Local, merged: set<Hash>, peer: Peer)
    requires forall k :: 0 <= k < |peer.adverts| ==> !Fits(name, local.owner, peer.adverts[k])
    ensures !Eligible(name, local, merged, peer)
  {
    OfferExactly(name, local.owner, peer.adverts, 0);
  }

  /** The advert is of the peer's own collection. */
  ghost predicate Own(peer: Peer, advert: RefAdvert) {
    exists owner :: peer.dgid == Some(owner) && advert.owner == Some(owner)
  }

  /** What the pick is: the owner's own device if any is eligible, then the most trusted, then the
      one that holds most, and of those alike in all three the first. */
  lemma PickedRanks(name: string, local: Local, merged: set<Hash>, peers: seq<Peer>, i: nat, j: nat)
    requires Picks(name, local, merged, peers, i) && j < |peers| && Eligible(name, local, merged, peers[j])
    ensures var a, b := peers[i], peers[j];
      var mine, other := Offer(name, local.owner, a.adverts).value, Offer(name, local.owner, b.adverts).value;
      && (Own(b, other) ==> Own(a, mine))
      && ((Own(a, mine) <==> Own(b, other)) ==>
            && b.level <= a.level
            && (b.level == a.level ==> other.held <= mine.held)
            && (b.level == a.level && other.held == mine.held ==> i <= j))
  {
    var a, b := peers[i], peers[j];
    var mine, other := Offer(name, local.owner, a.adverts).value, Offer(name, local.owner, b.adverts).value;
    assert Own(a, mine) <==> OwnersDevice(a, mine);
    assert Own(b, other) <==> OwnersDevice(b, other);
    hide Own, OwnersDevice;
    assert !Beats(name, local, merged, b, a);
  }

  // ----- pulling -----

  /** `referenced`: what a manifest refers to. */
  function Links(blob: Blob): set<Hash> {
    match blob
    case HeadBlob(head) => head.refs
    case EnvelopeBlob(links) => Elements(links)
    case _ => {}
  }

  /** A repeat of a held hash counts again, and what is not held counts for nothing. */
  lemma {:induction false} CountHeldExactly(blobs: Blobs, links: seq<Hash>)
    ensures CountHeld(blobs, links) == |set i | 0 <= i < |links| && links[i] in blobs|
  {
    var held := set i | 0 <= i < |links| && links[i] in blobs;
    if links == [] {
      assert held == {};
    } else {
      var front, last := links[..|links| - 1], |links| - 1;
      var before := set i | 0 <= i < |front| && front[i] in blobs;
      CountHeldExactly(blobs, front);
      CountHeldSnoc(blobs, front, links[last]);
      assert links == front + [links[last]];
      assert held == if links[last] in blobs then before + {last} else before;
    }
  }

  lemma {:induction false} CountHeldSnoc(blobs: Blobs, front: seq<Hash>, last: Hash)
    ensures CountHeld(blobs, front + [last]) == CountHeld(blobs, front) + if last in blobs then 1 else 0
  {
    if front == [] {
      assert [] + [last] == [last] && [last][1..] == [];
    } else {
      assert (front + [last])[1..] == front[1..] + [last];
      CountHeldSnoc(blobs, front[1..], last);
    }
  }

  function OwnerOf(blob: Blob): Option<Dgid> {
    if blob.HeadBlob? then Some(blob.head.owner) else None
  }

  function CountHeld(blobs: Blobs, links: seq<Hash>): (n: nat)
    ensures n <= |links|
    ensures Elements(links) <= blobs.Keys ==> n == |links|
  {
    if links == [] then 0
    else
      assert links == [links[0]] + links[1..];
      (if links[0] in blobs then 1 else 0) + CountHeld(blobs, links[1..])
  }

  /** `completeness`: how many refs there are, repeats counted, and how many are held. */
  function TotalOf(blob: Blob): nat {
    match blob
    case HeadBlob(head) => |head.refs|
    case EnvelopeBlob(links) => |links|
    case _ => 0
  }

  function HeldOf(blobs: Blobs, blob: Blob): nat {
    match blob
    case HeadBlob(head) => |head.refs * blobs.Keys|
    case EnvelopeBlob(links) => CountHeld(blobs, links)
    case _ => 0
  }

  /** The collection pulled, and the primitives it rests on. */
  datatype Setting = Setting(c: Crypto, usable: string -> bool, name: string)

  /** A puller: its blobs and refs, and the heads noted as merged. */
  datatype Puller = Puller(blobs: Blobs, refs: map<string, Hash>, merged: set<Hash>)

  /** `local_refs`, for the one name. */
  function LocalOf(s: Setting, p: Puller): Local {
    if s.name !in p.refs then Local(None, 0, None)
    else if p.refs[s.name] !in p.blobs then Local(Some(p.refs[s.name]), 0, None)
    else
      var blob := p.blobs[p.refs[s.name]];
      Local(Some(p.refs[s.name]), HeldOf(p.blobs, blob), OwnerOf(blob))
  }

  /** What a node says of its ref: nothing without one; of a head its owner and how many of its refs
      are held; of another manifest how many of its links; of one it lacks only that it is named. */
  lemma LocalTells(s: Setting, p: Puller)
    ensures var local := LocalOf(s, p);
      && (s.name !in p.refs ==> local == Local(None, 0, None))
      && (s.name in p.refs ==> local.manifest == Some(p.refs[s.name]))
      && (s.name in p.refs && p.refs[s.name] !in p.blobs ==> local.held == 0 && local.owner.None?)
      && (forall head: Collection | s.name in p.refs && p.refs[s.name] in p.blobs
            && p.blobs[p.refs[s.name]] == HeadBlob(head) ::
            local.owner == Some(head.owner) && local.held == |set h | h in head.refs && h in p.blobs|)
      && (forall links: seq<Hash> | s.name in p.refs && p.refs[s.name] in p.blobs
            && p.blobs[p.refs[s.name]] == EnvelopeBlob(links) ::
            local.owner.None? && local.held == |set i | 0 <= i < |links| && links[i] in p.blobs|)
  {
    if s.name in p.refs && p.refs[s.name] in p.blobs {
      match p.blobs[p.refs[s.name]] {
        case HeadBlob(head) => assert head.refs * p.blobs.Keys == set h | h in head.refs && h in p.blobs;
        case EnvelopeBlob(links) => CountHeldExactly(p.blobs, links);
        case _ =>
      }
    }
  }

  function AfterMerge(s: Setting, p: Puller, got: Blobs, manifest: Hash): Puller {
    var out := MergeOutcome(s.c, s.usable, got, p.refs, s.name, manifest);
    Puller(out.blobs, out.refs, p.merged + {manifest})
  }

  predicate Available(mine: Blobs, theirs: Blobs, manifest: Hash) {
    manifest in mine.Keys + theirs.Keys
    && Links(if manifest in mine then mine[manifest] else theirs[manifest]) <= mine.Keys + theirs.Keys
  }

  function Fetched(mine: Blobs, theirs: Blobs, manifest: Hash): Blobs
    requires manifest in mine.Keys + theirs.Keys
  {
    Replicas.PulledBlobs(mine, theirs, {manifest}
      + Links(if manifest in mine then mine[manifest] else theirs[manifest]))
  }

  lemma PulledOneMore(mine: Blobs, theirs: Blobs, wanted: set<Hash>, hash: Hash)
    ensures Replicas.PulledBlobs(mine, theirs, {}) == mine
    ensures var before := Replicas.PulledBlobs(mine, theirs, wanted);
      Replicas.PulledBlobs(mine, theirs, wanted + {hash}) ==
        if hash !in before && hash in theirs then before[hash := theirs[hash]] else before
  {
  }

  lemma PulledIntact(c: Crypto, inPlay: iset<Blob>, mine: Blobs, theirs: Blobs, wanted: set<Hash>)
    requires Intact(c, inPlay, mine) && Intact(c, inPlay, theirs)
    ensures Intact(c, inPlay, Replicas.PulledBlobs(mine, theirs, wanted))
    ensures Extends(Replicas.PulledBlobs(mine, theirs, wanted), mine)
    ensures Replicas.PulledBlobs(mine, theirs, wanted).Keys == mine.Keys + theirs.Keys * wanted
  {
  }

  method FetchAll(store: BlobStore, theirs: Blobs, wanted: set<Hash>, ghost inPlay: iset<Blob>) returns (ok: bool)
    requires Intact(store.crypto, inPlay, theirs) && Intact(store.crypto, inPlay, store.blobs)
    modifies store`blobs
    ensures ok <==> wanted <= old(store.blobs).Keys + theirs.Keys
    ensures ok ==> store.blobs == Replicas.PulledBlobs(old(store.blobs), theirs, wanted)
    ensures Intact(store.crypto, inPlay, store.blobs) && Extends(store.blobs, old(store.blobs))
  {
    hide Replicas.PulledBlobs;
    ghost var mine := store.blobs;
    var left := wanted;
    PulledOneMore(mine, theirs, {}, 0);
    assert wanted - left == {};
    while left != {}
      invariant left <= wanted && wanted - left <= mine.Keys + theirs.Keys
      invariant store.blobs == Replicas.PulledBlobs(mine, theirs, wanted - left)
      decreases |left|
    {
      var hash :| hash in left;
      PulledOneMore(mine, theirs, wanted - left, hash);
      PulledIntact(store.crypto, inPlay, mine, theirs, wanted - left);
      assert wanted - (left - {hash}) == wanted - left + {hash};
      if hash !in store.blobs {
        if hash !in theirs {
          return false;
        }
        var put := store.PutBlob(theirs[hash]);
        assert put == hash;
      }
      left := left - {hash};
    }
    PulledIntact(store.crypto, inPlay, mine, theirs, wanted);
    assert wanted - left == wanted;
    ok := true;
  }

  lemma FetchedInTwo(mine: Blobs, theirs: Blobs, manifest: Hash, got: Blobs)
    requires manifest in mine.Keys + theirs.Keys && got == Replicas.PulledBlobs(mine, theirs, {manifest})
    ensures manifest in got && got[manifest] == if manifest in mine then mine[manifest] else theirs[manifest]
    ensures Replicas.PulledBlobs(got, theirs, Links(got[manifest])) == Fetched(mine, theirs, manifest)
    ensures Links(got[manifest]) <= got.Keys + theirs.Keys <==> Available(mine, theirs, manifest)
    ensures Extends(got, mine)
  {
    assert got.Keys + theirs.Keys == mine.Keys + theirs.Keys;
    assert manifest in got;
    hide Links;
  }

  lemma ExtendsOn(large: Blobs, mid: Blobs, small: Blobs)
    requires Extends(large, mid) && Extends(mid, small)
    ensures Extends(large, small)
  {
  }

  /** `pull_ref`: the manifest, everything it refers to, and then the merge. A provider
      without one of them leaves the refs as they were. */
  method PullRef(store: BlobStore, theirs: Blobs, name: string, manifest: Hash, ghost inPlay: iset<Blob>)
      returns (r: Result<Merged, string>)
    requires Intact(store.crypto, inPlay, theirs) && Intact(store.crypto, inPlay, store.blobs)
    modifies store
    ensures r.Ok? ==> Available(old(store.blobs), theirs, manifest) && store.usable(name)
    ensures Available(old(store.blobs), theirs, manifest) && store.usable(name) ==>
      Outcome(r, store.blobs, store.refs)
      == MergeOutcome(store.crypto, store.usable, Fetched(old(store.blobs), theirs, manifest), old(store.refs), name,
        manifest)
    ensures !(Available(old(store.blobs), theirs, manifest) && store.usable(name)) ==>
      store.refs == old(store.refs) && Extends(store.blobs, old(store.blobs))
  {
    hide Replicas.PulledBlobs, Available, Fetched, MergeOutcome, Links, Intact, Extends;
    ghost var mine := store.blobs;
    NotAvailable(mine, theirs, manifest);
    if !store.usable(name) {
      Unmoved(store.blobs);
      return Err("refusing to pull unsafe ref name");
    }
    var first := FetchAll(store, theirs, {manifest}, inPlay);
    if !first {
      return Err("manifest not offered");
    }
    ghost var got := store.blobs;
    FetchedInTwo(mine, theirs, manifest, got);
    var rest := FetchAll(store, theirs, Links(store.blobs[manifest]), inPlay);
    ExtendsOn(store.blobs, got, mine);
    if !rest {
      return Err("reference not offered");
    }
    r := MergeHead(store, name, manifest);
  }

  lemma Unmoved(blobs: Blobs)
    ensures Extends(blobs, blobs)
  {
  }

  lemma NotAvailable(mine: Blobs, theirs: Blobs, manifest: Hash)
    ensures Available(mine, theirs, manifest) ==> {manifest} <= mine.Keys + theirs.Keys
  {
  }

  /** Everything needed was fetched and nothing held before was lost. */
  ghost predicate Got(s: Setting, inPlay: iset<Blob>, before: Blobs, got: Blobs, manifest: Hash) {
    Intact(s.c, inPlay, got) && Extends(got, before) && manifest in got && Links(got[manifest]) <= got.Keys
  }

  lemma FetchedGot(s: Setting, inPlay: iset<Blob>, mine: Blobs, theirs: Blobs, manifest: Hash)
    requires CollisionFree(s.c, inPlay) && Intact(s.c, inPlay, mine) && Intact(s.c, inPlay, theirs)
    requires Available(mine, theirs, manifest)
    ensures Got(s, inPlay, mine, Fetched(mine, theirs, manifest), manifest)
  {
  }

  // ----- what an honest advert says -----

  /** The advert tells of the blob: its refs counted, its owner, and a head named for the ref. */
  ghost predicate TellsOf(s: Setting, blob: Blob, advert: RefAdvert) {
    && advert.name == s.name && advert.total == TotalOf(blob) && advert.held <= advert.total
    && advert.owner == OwnerOf(blob)
    && (blob.HeadBlob? ==> Named(s, blob.head))
  }

  ghost predicate Named(s: Setting, head: Collection) {
    head.name == s.name && Indexed(head)
  }

  ghost predicate Truthful(s: Setting, inPlay: iset<Blob>, advert: RefAdvert) {
    exists blob :: blob in inPlay && s.c.address(blob) == advert.manifest && TellsOf(s, blob, advert)
  }

  ghost predicate AllTruthful(s: Setting, inPlay: iset<Blob>, peers: seq<Peer>) {
    forall peer, advert :: peer in peers && advert in peer.adverts && advert.name == s.name ==>
      Truthful(s, inPlay, advert)
  }

  /** The ref's own blob is held, and a head there is named for the ref. */
  ghost predicate GoodPuller(s: Setting, inPlay: iset<Blob>, p: Puller) {
    && Intact(s.c, inPlay, p.blobs) && s.usable(s.name)
    && (s.name in p.refs ==> p.refs[s.name] in p.blobs)
    && (HeadAt(p.blobs, RefOf(s, p)).Some? ==> Named(s, HeadAt(p.blobs, RefOf(s, p)).value))
  }

  function RefOf(s: Setting, p: Puller): Option<Hash> {
    if s.name in p.refs then Some(p.refs[s.name]) else None
  }

  /** The union head a merge may store is in play. */
  ghost predicate UnionInPlay(s: Setting, inPlay: iset<Blob>, p: Puller, got: Blobs, manifest: Hash) {
    HeadAt(got, RefOf(s, p)).Some? && HeadAt(got, Some(manifest)).Some? ==>
      HeadBlob(MergedHead(HeadAt(got, RefOf(s, p)).value, HeadAt(got, Some(manifest)).value)) in inPlay
  }

  /** A successful pull of the advert picked. */
  ghost predicate Pulls(s: Setting, inPlay: iset<Blob>, p: Puller, peers: seq<Peer>, i: nat, got: Blobs) {
    && Picks(s.name, LocalOf(s, p), p.merged, peers, i)
    && var advert := Offer(s.name, LocalOf(s, p).owner, peers[i].adverts).value;
    && Got(s, inPlay, p.blobs, got, advert.manifest) && UnionInPlay(s, inPlay, p, got, advert.manifest)
  }

  lemma {:induction false} OfferIn(name: string, ours: Option<Dgid>, adverts: seq<RefAdvert>)
    ensures Offer(name, ours, adverts).Some? ==>
      var advert := Offer(name, ours, adverts).value;
      advert in adverts && advert.name == name && OwnerMatches(ours, advert.owner)
  {
    if adverts != [] {
      OfferIn(name, ours, adverts[1..]);
    }
  }

  // ----- a pull gains what was offered and loses nothing -----

  lemma HeldWhole(blobs: Blobs, blob: Blob)
    requires Links(blob) <= blobs.Keys
    ensures HeldOf(blobs, blob) == TotalOf(blob)
  {
    if blob.HeadBlob? {
      assert blob.head.refs * blobs.Keys == blob.head.refs;
    }
  }

  /** No less is held than before, nor than was offered, and the manifest is noted. */
  ghost predicate Gained(s: Setting, before: Puller, after: Puller, advert: RefAdvert) {
    && LocalOf(s, after).held >= LocalOf(s, before).held
    && LocalOf(s, after).held >= advert.held
    && after.merged == before.merged + {advert.manifest}
  }

  /** A puller that takes the manifest as it is. */
  lemma TookAsIs(s: Setting, inPlay: iset<Blob>, p: Puller, got: Blobs, advert: RefAdvert)
    requires Got(s, inPlay, p.blobs, got, advert.manifest) && TellsOf(s, got[advert.manifest], advert)
    ensures var after := Puller(got, p.refs[s.name := advert.manifest], p.merged + {advert.manifest});
      LocalOf(s, after).held == advert.total && LocalOf(s, after).owner == advert.owner
  {
    HeldWhole(got, got[advert.manifest]);
  }

  lemma ManifestTells(s: Setting, inPlay: iset<Blob>, got: Blobs, advert: RefAdvert)
    requires CollisionFree(s.c, inPlay) && Truthful(s, inPlay, advert) && Intact(s.c, inPlay, got)
    requires advert.manifest in got
    ensures TellsOf(s, got[advert.manifest], advert)
  {
  }

  /** Where no two heads of one owner meet, the manifest replaces the ref; it is only wanted
      because more of it is held. */
  lemma ReplacingGains(s: Setting, inPlay: iset<Blob>, p: Puller, got: Blobs, advert: RefAdvert)
    requires CollisionFree(s.c, inPlay) && GoodPuller(s, inPlay, p) && Truthful(s, inPlay, advert)
    requires Got(s, inPlay, p.blobs, got, advert.manifest)
    requires Wanted(LocalOf(s, p), p.merged, advert) && OwnerMatches(LocalOf(s, p).owner, advert.owner)
    requires LocalOf(s, p).owner.None? || advert.owner.None?
    requires HeadAt(got, RefOf(s, p)).None? || HeadAt(got, Some(advert.manifest)).None?
    ensures GoodPuller(s, inPlay, AfterMerge(s, p, got, advert.manifest))
    ensures Gained(s, p, AfterMerge(s, p, got, advert.manifest), advert)
  {
    ManifestTells(s, inPlay, got, advert);
    TookAsIs(s, inPlay, p, got, advert);
    HeldWhole(got, got[advert.manifest]);
    hide MergedHead, CollisionFree, Truthful;
  }

  /** Where two heads of one owner meet, the merge joins them. */
  lemma JoiningGains(s: Setting, inPlay: iset<Blob>, p: Puller, got: Blobs, advert: RefAdvert)
    requires CollisionFree(s.c, inPlay) && GoodPuller(s, inPlay, p) && Truthful(s, inPlay, advert)
    requires Got(s, inPlay, p.blobs, got, advert.manifest) && UnionInPlay(s, inPlay, p, got, advert.manifest)
    requires HeadAt(got, RefOf(s, p)).Some? && HeadAt(got, Some(advert.manifest)).Some?
    requires HeadAt(got, RefOf(s, p)).value.owner == HeadAt(got, Some(advert.manifest)).value.owner
    requires Named(s, HeadAt(got, RefOf(s, p)).value)
    ensures GoodPuller(s, inPlay, AfterMerge(s, p, got, advert.manifest))
    ensures Gained(s, p, AfterMerge(s, p, got, advert.manifest), advert)
    ensures HeadAt(AfterMerge(s, p, got, advert.manifest).blobs, RefOf(s, AfterMerge(s, p, got, advert.manifest))).Some?
    ensures var after := AfterMerge(s, p, got, advert.manifest);
      HeadAt(after.blobs, RefOf(s, after)).value.refs
      == HeadAt(got, RefOf(s, p)).value.refs + HeadAt(got, Some(advert.manifest)).value.refs
  {
    var after := AfterMerge(s, p, got, advert.manifest);
    var mine, theirs := HeadAt(got, RefOf(s, p)).value, HeadAt(got, Some(advert.manifest)).value;
    ManifestTells(s, inPlay, got, advert);
    MergeJoins(s.c, inPlay, s.usable, got, p.refs, s.name, advert.manifest);
    hide MergeOutcome, CollisionFree, Truthful;
    var now := HeadAt(after.blobs, RefOf(s, after)).value;
    JoinedNamed(s, inPlay, got, p, advert, now);
    HeldAfterJoin(p.blobs, got, after.blobs, mine, theirs, now);
  }

  lemma JoinedNamed(s: Setting, inPlay: iset<Blob>, got: Blobs, p: Puller, advert: RefAdvert, now: Collection)
    requires CollisionFree(s.c, inPlay)
    requires Mergeable(s.c, inPlay, s.usable, got, p.refs, s.name, advert.manifest)
    requires var out := MergeOutcome(s.c, s.usable, got, p.refs, s.name, advert.manifest);
      s.name in out.refs && HeadAt(out.blobs, Some(out.refs[s.name])) == Some(now)
    ensures Named(s, now)
  {
    MergeCases(s.c, inPlay, s.usable, got, p.refs, s.name, advert.manifest);
    var mine, theirs := HeadAt(got, Some(p.refs[s.name])).value, HeadAt(got, Some(advert.manifest)).value;
    PutGet(s.c, inPlay, got, HeadBlob(MergedHead(mine, theirs)));
    UnionRefs(mine, theirs);
    hide Put, MergeOutcome, CollisionFree, Intact;
  }

  lemma HeldAfterJoin(before: Blobs, got: Blobs, after: Blobs, mine: Collection, theirs: Collection, now: Collection)
    requires Extends(got, before) && Extends(after, got) && theirs.refs <= got.Keys
    requires now.refs == mine.refs + theirs.refs
    ensures |mine.refs * before.Keys| <= |now.refs * after.Keys|
    ensures |theirs.refs| <= |now.refs * after.Keys|
  {
    Smaller(mine.refs * before.Keys, now.refs * after.Keys);
    Smaller(theirs.refs, now.refs * after.Keys);
  }

  /** A successful pull never lowers the held count, and ends holding at least as much as the
      advert offered. */
  lemma PullGains(s: Setting, inPlay: iset<Blob>, p: Puller, peers: seq<Peer>, i: nat, got: Blobs)
    requires CollisionFree(s.c, inPlay) && GoodPuller(s, inPlay, p) && AllTruthful(s, inPlay, peers)
    requires Pulls(s, inPlay, p, peers, i, got)
    ensures var advert := Offer(s.name, LocalOf(s, p).owner, peers[i].adverts).value;
      && Truthful(s, inPlay, advert)
      && GoodPuller(s, inPlay, AfterMerge(s, p, got, advert.manifest))
      && Gained(s, p, AfterMerge(s, p, got, advert.manifest), advert)
  {
    var local := LocalOf(s, p);
    var advert := Offer(s.name, local.owner, peers[i].adverts).value;
    OfferIn(s.name, local.owner, peers[i].adverts);
    assert Truthful(s, inPlay, advert);
    ManifestTells(s, inPlay, got, advert);
    LocalHead(s, inPlay, p, got, advert);
    hide AfterMerge, Gained, Picks, Truthful, AllTruthful;
    if local.owner.Some? && advert.owner.Some? {
      JoiningGains(s, inPlay, p, got, advert);
    } else {
      ReplacingGains(s, inPlay, p, got, advert);
    }
  }

  /** Fetching more does not change what the ref's own head says, when it is held. */
  lemma LocalHead(s: Setting, inPlay: iset<Blob>, p: Puller, got: Blobs, advert: RefAdvert)
    requires GoodPuller(s, inPlay, p) && Extends(got, p.blobs) && advert.manifest in got
    requires TellsOf(s, got[advert.manifest], advert)
    ensures LocalOf(s, p).owner.Some? <==> HeadAt(got, RefOf(s, p)).Some?
    ensures LocalOf(s, p).owner.Some? ==>
      && HeadAt(got, RefOf(s, p)).value.owner == LocalOf(s, p).owner.value
      && Named(s, HeadAt(got, RefOf(s, p)).value)
    ensures advert.owner.Some? <==> HeadAt(got, Some(advert.manifest)).Some?
    ensures advert.owner.Some? ==> HeadAt(got, Some(advert.manifest)).value.owner == advert.owner.value
  {
  }

  // ----- over a run of pulls -----

  /** Nothing more to gain from the advert: enough is held, and its manifest was merged. */
  predicate Spent(s: Setting, p: Puller, advert: RefAdvert) {
    advert.held <= LocalOf(s, p).held && advert.manifest in p.merged
  }

  lemma SpentIsUnwanted(s: Setting, p: Puller, advert: RefAdvert)
    requires Spent(s, p, advert)
    ensures !Wanted(LocalOf(s, p), p.merged, advert)
  {
  }

  function AdvertsOf(name: string, peers: seq<Peer>): set<RefAdvert> {
    set peer, advert | peer in peers && advert in peer.adverts && advert.name == name :: advert
  }

  function Unspent(s: Setting, p: Puller, peers: seq<Peer>): set<RefAdvert> {
    set advert | advert in AdvertsOf(s.name, peers) && !Spent(s, p, advert)
  }

  function Picked(s: Setting, p: Puller, peers: seq<Peer>, i: nat): RefAdvert
    requires Picks(s.name, LocalOf(s, p), p.merged, peers, i)
  {
    Offer(s.name, LocalOf(s, p).owner, peers[i].adverts).value
  }

  /** One round: which peer was picked and what is held once its refs are fetched. */
  datatype Round = Round(pick: nat, got: Blobs)

  function AfterRound(s: Setting, p: Puller, peers: seq<Peer>, round: Round): Puller
    requires Picks(s.name, LocalOf(s, p), p.merged, peers, round.pick)
  {
    AfterMerge(s, p, round.got, Picked(s, p, peers, round.pick).manifest)
  }

  /** Rounds of converging on one name, every pull succeeding. */
  ghost predicate Rounds(s: Setting, inPlay: iset<Blob>, start: Puller, peers: seq<Peer>, rounds: seq<Round>,
                         end: Puller)
    decreases |rounds|
  {
    if rounds == [] then start == end
    else Pulls(s, inPlay, start, peers, rounds[0].pick, rounds[0].got)
         && Rounds(s, inPlay, AfterRound(s, start, peers, rounds[0]), peers, rounds[1..], end)
  }

  lemma PickedUnspent(s: Setting, p: Puller, peers: seq<Peer>, i: nat)
    requires Picks(s.name, LocalOf(s, p), p.merged, peers, i)
    ensures Picked(s, p, peers, i) in Unspent(s, p, peers)
  {
    var advert := Picked(s, p, peers, i);
    OfferIn(s.name, LocalOf(s, p).owner, peers[i].adverts);
    assert advert in peers[i].adverts && peers[i] in peers;
    hide LocalOf;
    assert advert in AdvertsOf(s.name, peers);
    if Spent(s, p, advert) {
      SpentIsUnwanted(s, p, advert);
    }
  }

  /** A round spends the advert it pulled and leaves every spent advert spent. */
  lemma RoundSpends(s: Setting, inPlay: iset<Blob>, p: Puller, peers: seq<Peer>, round: Round)
    requires CollisionFree(s.c, inPlay) && GoodPuller(s, inPlay, p) && AllTruthful(s, inPlay, peers)
    requires Pulls(s, inPlay, p, peers, round.pick, round.got)
    ensures var after := AfterRound(s, p, peers, round);
      && GoodPuller(s, inPlay, after) && LocalOf(s, p).held <= LocalOf(s, after).held
      && Spent(s, after, Picked(s, p, peers, round.pick))
      && Unspent(s, after, peers) < Unspent(s, p, peers)
  {
    var after := AfterRound(s, p, peers, round);
    PullGains(s, inPlay, p, peers, round.pick, round.got);
    PickedUnspent(s, p, peers, round.pick);
    hide LocalOf, GoodPuller, AfterRound, AllTruthful, Truthful, Picks, Got, AdvertsOf, CollisionFree;
    forall advert | advert in Unspent(s, after, peers) ensures advert in Unspent(s, p, peers) {
    }
    assert Picked(s, p, peers, round.pick) !in Unspent(s, after, peers);
  }

  /** Converging on one name against fixed, truthful adverts: the held count never falls, and
      there are never more pulls than adverts left to spend. */
  lemma {:induction false} ConvergingIsBounded(s: Setting, inPlay: iset<Blob>, start: Puller, peers: seq<Peer>,
                                               rounds: seq<Round>, end: Puller)
    requires CollisionFree(s.c, inPlay) && GoodPuller(s, inPlay, start) && AllTruthful(s, inPlay, peers)
    requires Rounds(s, inPlay, start, peers, rounds, end)
    ensures GoodPuller(s, inPlay, end) && LocalOf(s, start).held <= LocalOf(s, end).held
    ensures |rounds| + |Unspent(s, end, peers)| <= |Unspent(s, start, peers)|
    decreases |rounds|
  {
    hide LocalOf, GoodPuller, AfterRound, AllTruthful, Picks, Got, Unspent, CollisionFree, Spent;
    if rounds != [] {
      var next := AfterRound(s, start, peers, rounds[0]);
      RoundSpends(s, inPlay, start, peers, rounds[0]);
      Smaller(Unspent(s, next, peers), Unspent(s, start, peers));
      ConvergingIsBounded(s, inPlay, next, peers, rounds[1..], end);
    }
  }

  /** An advert once pulled is never picked again. */
  lemma {:induction false} SpentForGood(s: Setting, inPlay: iset<Blob>, start: Puller, peers: seq<Peer>,
                                        rounds: seq<Round>, end: Puller, advert: RefAdvert, i: nat)
    requires CollisionFree(s.c, inPlay) && GoodPuller(s, inPlay, start) && AllTruthful(s, inPlay, peers)
    requires Rounds(s, inPlay, start, peers, rounds, end) && Spent(s, start, advert)
    requires advert in AdvertsOf(s.name, peers)
    ensures Spent(s, end, advert)
    ensures Picks(s.name, LocalOf(s, end), end.merged, peers, i) ==> Picked(s, end, peers, i) != advert
    decreases |rounds|
  {
    hide LocalOf, GoodPuller, AfterRound, AllTruthful, Got, AdvertsOf, CollisionFree, Spent, Picked, Picks;
    if rounds == [] {
      if Picks(s.name, LocalOf(s, end), end.merged, peers, i) {
        PickedUnspent(s, end, peers, i);
      }
    } else {
      RoundSpends(s, inPlay, start, peers, rounds[0]);
      var next := AfterRound(s, start, peers, rounds[0]);
      assert advert !in Unspent(s, start, peers) && advert !in Unspent(s, next, peers);
      SpentForGood(s, inPlay, next, peers, rounds[1..], end, advert, i);
    }
  }

  /** The advert pulled in a round is picked in no later round. */
  lemma PulledOnce(s: Setting, inPlay: iset<Blob>, p: Puller, peers: seq<Peer>, round: Round,
                   rounds: seq<Round>, end: Puller, i: nat)
    requires CollisionFree(s.c, inPlay) && GoodPuller(s, inPlay, p) && AllTruthful(s, inPlay, peers)
    requires Pulls(s, inPlay, p, peers, round.pick, round.got)
    requires Rounds(s, inPlay, AfterRound(s, p, peers, round), peers, rounds, end)
    requires Picks(s.name, LocalOf(s, end), end.merged, peers, i)
    ensures Picked(s, end, peers, i) != Picked(s, p, peers, round.pick)
  {
    RoundSpends(s, inPlay, p, peers, round);
    PickedUnspent(s, p, peers, round.pick);
    hide LocalOf, GoodPuller, AfterRound, AllTruthful, Got, AdvertsOf, CollisionFree, Spent, Picked, Picks;
    SpentForGood(s, inPlay, AfterRound(s, p, peers, round), peers, rounds, end, Picked(s, p, peers, round.pick), i);
  }

  /** After as many pulls as there are adverts, no peer is eligible. */
  lemma GoesQuiet(s: Setting, inPlay: iset<Blob>, start: Puller, peers: seq<Peer>, rounds: seq<Round>, end: Puller,
                  i: nat)
    requires CollisionFree(s.c, inPlay) && GoodPuller(s, inPlay, start) && AllTruthful(s, inPlay, peers)
    requires Rounds(s, inPlay, start, peers, rounds, end)
    ensures |rounds| <= |AdvertsOf(s.name, peers)|
    ensures |rounds| == |AdvertsOf(s.name, peers)| && i < |peers| ==>
      !Eligible(s.name, LocalOf(s, end), end.merged, peers[i])
  {
    ConvergingIsBounded(s, inPlay, start, peers, rounds, end);
    Smaller(Unspent(s, start, peers), AdvertsOf(s.name, peers));
    hide LocalOf, GoodPuller, AllTruthful, AdvertsOf, CollisionFree, Spent;
    if |rounds| == |AdvertsOf(s.name, peers)| && i < |peers|
      && Eligible(s.name, LocalOf(s, end), end.merged, peers[i]) {
      assert Unspent(s, end, peers) == {};
      EligibleUnspent(s, end, peers, i);
    }
  }

  lemma EligibleUnspent(s: Setting, p: Puller, peers: seq<Peer>, i: nat)
    requires i < |peers| && Eligible(s.name, LocalOf(s, p), p.merged, peers[i])
    ensures Unspent(s, p, peers) != {}
  {
    var advert := Offer(s.name, LocalOf(s, p).owner, peers[i].adverts).value;
    OfferIn(s.name, LocalOf(s, p).owner, peers[i].adverts);
    assert peers[i] in peers && advert in AdvertsOf(s.name, peers);
    hide LocalOf;
    if Spent(s, p, advert) {
      SpentIsUnwanted(s, p, advert);
    }
    assert advert in Unspent(s, p, peers);
  }

  // ----- the loop body as a method -----

  /** The converging side of a mesh node. */
  class Replicator {
    const store: BlobStore
    var merged: set<Hash>

    constructor (store: BlobStore)
      ensures this.store == store && merged == {}
    {
      this.store, merged := store, {};
    }

    function State(): Puller
      reads this, store
    {
      Puller(store.blobs, store.refs, merged)
    }

    /** `converge`, for one followed name: pick a provider, pull, and note what was merged.
        `serves` is what each peer has to give. */
    method Converge(name: string, peers: seq<Peer>, serves: seq<Blobs>, ghost inPlay: iset<Blob>)
        returns (picked: Option<nat>)
      requires |serves| == |peers| && Intact(store.crypto, inPlay, store.blobs)
      requires forall i :: 0 <= i < |serves| ==> Intact(store.crypto, inPlay, serves[i])
      modifies this, store
      ensures var s := Setting(store.crypto, store.usable, name); var local := LocalOf(s, old(State()));
        match picked
        case None =>
          && State() == old(State())
          && (store.usable(name) ==>
                forall i :: 0 <= i < |peers| ==> !Eligible(name, local, old(merged), peers[i]))
        case Some(i) =>
          && Picks(name, local, old(merged), peers, i)
          && var manifest := Offer(name, local.owner, peers[i].adverts).value.manifest;
          && (Available(old(store.blobs), serves[i], manifest) ==>
                var got := Fetched(old(store.blobs), serves[i], manifest);
                var after := AfterMerge(s, old(State()), got, manifest);
                State() == if MergeOutcome(s.c, s.usable, got, old(store.refs), name, manifest).result.Ok? then after
                           else after.(merged := old(merged)))
          && (!Available(old(store.blobs), serves[i], manifest) ==>
                store.refs == old(store.refs) && merged == old(merged) && Extends(store.blobs, old(store.blobs)))
    {
      hide LocalOf, Intact, Available, Fetched, MergeOutcome, Picks, Eligible, Extends;
      picked := None;
      if !store.usable(name) {
        return;
      }
      ghost var before := State();
      var local := LocalOf(Setting(store.crypto, store.usable, name), State());
      picked := BestProvider(name, local, merged, peers);
      if picked.None? {
        return;
      }
      PickHasOffer(name, local, merged, peers, picked.value);
      var advert := Offer(name, local.owner, peers[picked.value].adverts).value;
      var pulled := PullRef(store, serves[picked.value], name, advert.manifest, inPlay);
      if pulled.Ok? {
        merged := merged + {advert.manifest};
      }
    }
  }

  lemma PickHasOffer(name: string, local: Local, merged: set<Hash>, peers: seq<Peer>, i: nat)
    requires Picks(name, local, merged, peers, i)
    ensures i < |peers| && Offer(name, local.owner, peers[i].adverts).Some?
  {
  }
}
