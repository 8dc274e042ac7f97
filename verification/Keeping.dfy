/** When pulling keeps the node's collection, what being quiet then means, and a name under which
    pulling never ends. */
module Keeping {
  import opened Options
  import opened Records
  import opened Store
  import opened Merge
  import opened Gossip
  import opened Replication

  // ----- keeping the collection -----

  /** The ref names a head that holds these refs. */
  ghost predicate HoldsRefs(s: Setting, p: Puller, refs: set<Hash>) {
    HeadAt(p.blobs, RefOf(s, p)).Some? && refs <= HeadAt(p.blobs, RefOf(s, p)).value.refs
  }

  lemma FirstPull(s: Setting, inPlay: iset<Blob>, p: Puller, got: Blobs, advert: RefAdvert)
    requires s.usable(s.name) && s.name !in p.refs && advert.manifest in got && got[advert.manifest].HeadBlob?
    ensures var after := AfterMerge(s, p, got, advert.manifest);
      HeadAt(after.blobs, RefOf(s, after)) == Some(got[advert.manifest].head)
  {
  }

  lemma OnlyOne(s: Setting, inPlay: iset<Blob>, after: Puller, advert: RefAdvert, theirs: Collection, owner: Dgid)
    requires CollisionFree(s.c, inPlay) && after.merged == {advert.manifest}
    requires HeadBlob(theirs) in inPlay && s.c.address(HeadBlob(theirs)) == advert.manifest && theirs.owner == owner
    requires HeadAt(after.blobs, RefOf(s, after)) == Some(theirs)
    ensures CaughtUp(s, inPlay, after, owner)
  {
    forall head: Collection | HeadBlob(head) in inPlay && s.c.address(HeadBlob(head)) in after.merged
      && head.owner == owner
      ensures HoldsRefs(s, after, head.refs)
    {
      assert HeadBlob(head) == HeadBlob(theirs);
    }
  }

  lemma SameHead(s: Setting, inPlay: iset<Blob>, p: Puller, got: Blobs)
    requires GoodPuller(s, inPlay, p) && Extends(got, p.blobs) && s.name in p.refs
    ensures HeadAt(got, RefOf(s, p)) == HeadAt(p.blobs, RefOf(s, p))
  {
  }

  lemma JoinedCatchesUp(s: Setting, inPlay: iset<Blob>, p: Puller, got: Blobs, after: Puller, advert: RefAdvert,
                        owner: Dgid)
    requires CollisionFree(s.c, inPlay) && CaughtUp(s, inPlay, p, owner) && Intact(s.c, inPlay, got)
    requires HeadAt(got, Some(advert.manifest)).Some? && HeadAt(p.blobs, RefOf(s, p)).Some?
    requires after.merged == p.merged + {advert.manifest} && HeadAt(after.blobs, RefOf(s, after)).Some?
    requires s.name in p.refs && s.name in after.refs && LocalOf(s, after).owner == Some(owner)
    requires HeadAt(after.blobs, RefOf(s, after)).value.refs
      == HeadAt(p.blobs, RefOf(s, p)).value.refs + HeadAt(got, Some(advert.manifest)).value.refs
    ensures CaughtUp(s, inPlay, after, owner)
  {
    forall head: Collection | HeadBlob(head) in inPlay && s.c.address(HeadBlob(head)) in after.merged
      && head.owner == owner
      ensures HoldsRefs(s, after, head.refs)
    {
      if s.c.address(HeadBlob(head)) !in p.merged {
        assert HeadBlob(head) == got[advert.manifest];
      } else {
        assert HoldsRefs(s, p, head.refs);
      }
    }
  }

  lemma OwnerAfterJoin(s: Setting, inPlay: iset<Blob>, p: Puller, got: Blobs, advert: RefAdvert)
    requires CollisionFree(s.c, inPlay) && Mergeable(s.c, inPlay, s.usable, got, p.refs, s.name, advert.manifest)
    ensures var after := AfterMerge(s, p, got, advert.manifest);
      s.name in after.refs && after.refs[s.name] in after.blobs
      && LocalOf(s, after).owner == Some(HeadAt(got, RefOf(s, p)).value.owner)
  {
    MergeCases(s.c, inPlay, s.usable, got, p.refs, s.name, advert.manifest);
    var mine, theirs := HeadAt(got, Some(p.refs[s.name])).value, HeadAt(got, Some(advert.manifest)).value;
    PutGet(s.c, inPlay, got, HeadBlob(MergedHead(mine, theirs)));
    hide Put, MergeOutcome, CollisionFree, Intact;
  }

  lemma PulledHead(s: Setting, inPlay: iset<Blob>, p: Puller, peers: seq<Peer>, round: Round, owner: Dgid)
    requires CollisionFree(s.c, inPlay) && GoodPuller(s, inPlay, p) && AllTruthful(s, inPlay, peers)
    requires Pulls(s, inPlay, p, peers, round.pick, round.got) && LocalOf(s, p).owner == Some(owner)
    requires Picked(s, p, peers, round.pick).owner.Some?
    ensures var after := AfterRound(s, p, peers, round); var advert := Picked(s, p, peers, round.pick);
      && advert.owner == Some(owner) && LocalOf(s, after).owner == Some(owner) && s.name in p.refs
        && s.name in after.refs
      && HeadAt(p.blobs, RefOf(s, p)).Some? && HeadAt(round.got, Some(advert.manifest)).Some?
      && HeadAt(after.blobs, RefOf(s, after)).Some? && Intact(s.c, inPlay, round.got)
      && HeadAt(after.blobs, RefOf(s, after)).value.refs
         == HeadAt(p.blobs, RefOf(s, p)).value.refs + HeadAt(round.got, Some(advert.manifest)).value.refs
  {
    var advert := Picked(s, p, peers, round.pick);
    var got := round.got;
    OfferIn(s.name, LocalOf(s, p).owner, peers[round.pick].adverts);
    PullGains(s, inPlay, p, peers, round.pick, got);
    ManifestTells(s, inPlay, got, advert);
    LocalHead(s, inPlay, p, got, advert);
    hide AllTruthful, Picks, AfterMerge;
    JoiningGains(s, inPlay, p, got, advert);
    SameHead(s, inPlay, p, got);
    OwnerAfterJoin(s, inPlay, p, got, advert);
  }

  lemma PulledPlain(s: Setting, inPlay: iset<Blob>, p: Puller, peers: seq<Peer>, round: Round)
    requires CollisionFree(s.c, inPlay) && GoodPuller(s, inPlay, p) && AllTruthful(s, inPlay, peers)
    requires Pulls(s, inPlay, p, peers, round.pick, round.got) && Picked(s, p, peers, round.pick).owner.None?
    ensures var after := AfterRound(s, p, peers, round); HeadAt(after.blobs, RefOf(s, after)).None?
  {
    var advert := Picked(s, p, peers, round.pick);
    OfferIn(s.name, LocalOf(s, p).owner, peers[round.pick].adverts);
    PullGains(s, inPlay, p, peers, round.pick, round.got);
    ManifestTells(s, inPlay, round.got, advert);
    LocalHead(s, inPlay, p, round.got, advert);
    hide AllTruthful, Picks, MergedHead;
  }

  /** A pull keeps the node's collection exactly when the advert it picked is of a collection: a
      plain manifest of which a peer holds more takes the ref over. */
  lemma PullKeepsCollectionExactly(s: Setting, inPlay: iset<Blob>, p: Puller, peers: seq<Peer>, round: Round)
    requires CollisionFree(s.c, inPlay) && GoodPuller(s, inPlay, p) && AllTruthful(s, inPlay, peers)
    requires Pulls(s, inPlay, p, peers, round.pick, round.got) && LocalOf(s, p).owner.Some?
    ensures HeadAt(p.blobs, RefOf(s, p)).Some?
    ensures HoldsRefs(s, AfterRound(s, p, peers, round), HeadAt(p.blobs, RefOf(s, p)).value.refs)
      <==> Picked(s, p, peers, round.pick).owner.Some?
  {
    LocalIsHead(s, inPlay, p);
    hide LocalOf, AfterRound, Picked, GoodPuller, AllTruthful, HeadAt, Pulls, CollisionFree;
    if Picked(s, p, peers, round.pick).owner.Some? {
      PulledHead(s, inPlay, p, peers, round, LocalOf(s, p).owner.value);
    } else {
      PulledPlain(s, inPlay, p, peers, round);
    }
  }

  lemma LocalIsHead(s: Setting, inPlay: iset<Blob>, p: Puller)
    requires GoodPuller(s, inPlay, p)
    ensures LocalOf(s, p).owner.Some? <==> HeadAt(p.blobs, RefOf(s, p)).Some?
  {
  }

  /** Every advert picked in the run is of a collection of this owner. */
  ghost predicate HeadsOf(s: Setting, p: Puller, peers: seq<Peer>, rounds: seq<Round>, owner: Dgid)
    decreases |rounds|
  {
    rounds != [] ==>
      && Picks(s.name, LocalOf(s, p), p.merged, peers, rounds[0].pick)
      && Picked(s, p, peers, rounds[0].pick).owner == Some(owner)
      && HeadsOf(s, AfterRound(s, p, peers, rounds[0]), peers, rounds[1..], owner)
  }

  /** After every round of the run the ref names a head that holds these refs. */
  ghost predicate KeptThroughout(s: Setting, p: Puller, peers: seq<Peer>, rounds: seq<Round>, refs: set<Hash>)
    decreases |rounds|
  {
    && HoldsRefs(s, p, refs)
    && (rounds != [] ==>
          && Picks(s.name, LocalOf(s, p), p.merged, peers, rounds[0].pick)
          && KeptThroughout(s, AfterRound(s, p, peers, rounds[0]), peers, rounds[1..], refs))
  }

  /** A run keeps the collection it started with, round by round, exactly when it only picks
      adverts of that collection's owner. */
  lemma {:induction false} RunKeepsCollectionExactly(s: Setting, inPlay: iset<Blob>, start: Puller, peers: seq<Peer>,
                                                     rounds: seq<Round>, end: Puller, owner: Dgid, refs: set<Hash>)
    requires CollisionFree(s.c, inPlay) && GoodPuller(s, inPlay, start) && AllTruthful(s, inPlay, peers)
    requires Rounds(s, inPlay, start, peers, rounds, end)
    requires LocalOf(s, start).owner == Some(owner) && HoldsRefs(s, start, refs)
    ensures KeptThroughout(s, start, peers, rounds, refs) <==> HeadsOf(s, start, peers, rounds, owner)
    decreases |rounds|
  {
    hide LocalOf, GoodPuller, AfterRound, AllTruthful, Picks, Got, CollisionFree, Picked;
    if rounds != [] {
      var next := AfterRound(s, start, peers, rounds[0]);
      RoundSpends(s, inPlay, start, peers, rounds[0]);
      if Picked(s, start, peers, rounds[0].pick).owner.Some? {
        PulledHead(s, inPlay, start, peers, rounds[0], owner);
        hide HeadAt;
        RunKeepsCollectionExactly(s, inPlay, next, peers, rounds[1..], end, owner, refs);
      } else {
        PulledPlain(s, inPlay, start, peers, rounds[0]);
        assert !KeptThroughout(s, next, peers, rounds[1..], refs);
      }
    }
  }

  /** Such an advert is picked when nothing better is on offer: a reachable, trusted peer that
      holds more of a plain manifest than the node holds of its own collection is eligible. */
  lemma PlainManifestDisplaces(s: Setting, inPlay: iset<Blob>, p: Puller, got: Blobs, peer: Peer, advert: RefAdvert)
    requires GoodPuller(s, inPlay, p) && LocalOf(s, p).owner.Some? && peer.level >= CACHE && peer.reachable
    requires Offer(s.name, LocalOf(s, p).owner, peer.adverts) == Some(advert) && advert.owner.None?
    requires advert.total > 0 && advert.held > LocalOf(s, p).held
    requires Got(s, inPlay, p.blobs, got, advert.manifest) && got[advert.manifest].EnvelopeBlob?
    ensures Picks(s.name, LocalOf(s, p), p.merged, [peer], 0)
    ensures LocalOf(s, AfterMerge(s, p, got, advert.manifest)).owner.None?
  {
    hide HeldOf;
  }

  // ----- what being quiet means -----

  /** The head of every merged manifest in play is inside the node's own. */
  ghost predicate CaughtUp(s: Setting, inPlay: iset<Blob>, p: Puller, owner: Dgid) {
    && (s.name in p.refs ==> LocalOf(s, p).owner == Some(owner)) && (s.name !in p.refs ==> p.merged == {})
    && forall head: Collection | HeadBlob(head) in inPlay && s.c.address(HeadBlob(head)) in p.merged
      && head.owner == owner ::
         HoldsRefs(s, p, head.refs)
  }

  lemma RoundCatchesUp(s: Setting, inPlay: iset<Blob>, p: Puller, peers: seq<Peer>, round: Round, owner: Dgid)
    requires CollisionFree(s.c, inPlay) && GoodPuller(s, inPlay, p) && AllTruthful(s, inPlay, peers)
    requires Pulls(s, inPlay, p, peers, round.pick, round.got) && CaughtUp(s, inPlay, p, owner)
    requires Picked(s, p, peers, round.pick).owner == Some(owner)
    ensures CaughtUp(s, inPlay, AfterRound(s, p, peers, round), owner)
  {
    var advert := Picked(s, p, peers, round.pick);
    var after := AfterRound(s, p, peers, round);
    var got := round.got;
    PullGains(s, inPlay, p, peers, round.pick, got);
    ManifestTells(s, inPlay, got, advert);
    hide AllTruthful, Picks, AfterMerge, HeldOf;
    if s.name in p.refs {
      PulledHead(s, inPlay, p, peers, round, owner);
      JoinedCatchesUp(s, inPlay, p, got, after, advert, owner);
    } else {
      FirstPull(s, inPlay, p, got, advert);
      OnlyOne(s, inPlay, after, advert, got[advert.manifest].head, owner);
    }
  }

  lemma {:induction false} RoundsCatchUp(s: Setting, inPlay: iset<Blob>, start: Puller, peers: seq<Peer>,
                                         rounds: seq<Round>, end: Puller, owner: Dgid)
    requires CollisionFree(s.c, inPlay) && GoodPuller(s, inPlay, start) && AllTruthful(s, inPlay, peers)
    requires Rounds(s, inPlay, start, peers, rounds, end)
    requires CaughtUp(s, inPlay, start, owner) && HeadsOf(s, start, peers, rounds, owner)
    ensures CaughtUp(s, inPlay, end, owner)
    decreases |rounds|
  {
    hide LocalOf, GoodPuller, AfterRound, AllTruthful, Picks, Got, CollisionFree, CaughtUp, Picked;
    if rounds != [] {
      RoundSpends(s, inPlay, start, peers, rounds[0]);
      RoundCatchesUp(s, inPlay, start, peers, rounds[0], owner);
      RoundsCatchUp(s, inPlay, AfterRound(s, start, peers, rounds[0]), peers, rounds[1..], end, owner);
    }
  }

  /** After a run that kept its collection, a node that finds no provider holds every ref of
      every complete head offered by a peer it trusts and can reach. */
  lemma QuietIsCaughtUp(s: Setting, inPlay: iset<Blob>, start: Puller, peers: seq<Peer>,
                        rounds: seq<Round>, end: Puller, owner: Dgid, i: nat, head: Collection)
    requires CollisionFree(s.c, inPlay) && GoodPuller(s, inPlay, start) && AllTruthful(s, inPlay, peers)
    requires Rounds(s, inPlay, start, peers, rounds, end)
    requires CaughtUp(s, inPlay, start, owner) && HeadsOf(s, start, peers, rounds, owner)
    requires i < |peers| && !Eligible(s.name, LocalOf(s, end), end.merged, peers[i])
    requires peers[i].level >= CACHE && peers[i].reachable
    requires var offer := Offer(s.name, LocalOf(s, end).owner, peers[i].adverts);
      offer.Some? && Complete(offer.value) && HeadBlob(head) in inPlay
        && s.c.address(HeadBlob(head)) == offer.value.manifest
    ensures HoldsRefs(s, end, head.refs)
  {
    RoundsCatchUp(s, inPlay, start, peers, rounds, end, owner);
    ConvergingIsBounded(s, inPlay, start, peers, rounds, end);
    var advert := Offer(s.name, LocalOf(s, end).owner, peers[i].adverts).value;
    OfferIn(s.name, LocalOf(s, end).owner, peers[i].adverts);
    assert peers[i] in peers && Truthful(s, inPlay, advert);
    OwnersHead(s, inPlay, end, advert, head);
    hide LocalOf, Rounds, HeadsOf, Truthful, AllTruthful;
    assert s.name in end.refs;
    assert head.owner == owner;
  }

  lemma OwnersHead(s: Setting, inPlay: iset<Blob>, p: Puller, advert: RefAdvert, head: Collection)
    requires CollisionFree(s.c, inPlay) && GoodPuller(s, inPlay, p)
    requires HeadBlob(head) in inPlay && s.c.address(HeadBlob(head)) == advert.manifest
    ensures Truthful(s, inPlay, advert) ==> advert.owner == Some(head.owner)
    ensures LocalOf(s, p).owner.Some? && LocalOf(s, p).manifest == Some(advert.manifest) ==>
      HeadAt(p.blobs, RefOf(s, p)) == Some(head)
    ensures LocalOf(s, p).owner.Some? <==> HeadAt(p.blobs, RefOf(s, p)).Some?
    ensures s.name !in p.refs ==> LocalOf(s, p).held == 0
  {
  }

  // ----- a name under which pulling never ends -----

  /** The ref names a whole head of another name, and the peer picked offers a head that goes
      with it, of which it holds more, neither containing the other. */
  ghost predicate Stuck(s: Setting, inPlay: iset<Blob>, p: Puller, peers: seq<Peer>, i: nat, theirs: Collection) {
    && Intact(s.c, inPlay, p.blobs) && s.usable(s.name) && s.name in p.refs
    && HeadAt(p.blobs, RefOf(s, p)).Some?
    && var mine := HeadAt(p.blobs, RefOf(s, p)).value;
    && mine.name != s.name && mine.refs <= p.blobs.Keys
    && Picks(s.name, LocalOf(s, p), p.merged, peers, i)
    && var advert := Picked(s, p, peers, i);
    && advert.held > LocalOf(s, p).held
    && HeadBlob(theirs) in inPlay && s.c.address(HeadBlob(theirs)) == advert.manifest
    && theirs.owner == mine.owner && theirs.name == mine.name
    && !(theirs.refs <= mine.refs) && !(mine.refs <= theirs.refs)
    && HeadBlob(MergedHead(mine, theirs)) in inPlay
  }

  /** Neither head holds the other, and the local one has another name: the ref stays put. */
  lemma UnionGoesElsewhere(s: Setting, p: Puller, got: Blobs, manifest: Hash, mine: Collection, theirs: Collection)
    requires s.usable(s.name) && s.name in p.refs && HeadAt(got, RefOf(s, p)) == Some(mine)
    requires HeadAt(got, Some(manifest)) == Some(theirs)
    requires mine.name != s.name && theirs.owner == mine.owner && theirs.name == mine.name
    requires !(theirs.refs <= mine.refs) && !(mine.refs <= theirs.refs)
    ensures var after := AfterMerge(s, p, got, manifest);
      && after.blobs == Put(s.c, got, HeadBlob(MergedHead(mine, theirs))) && after.merged == p.merged + {manifest}
      && s.name in after.refs && after.refs[s.name] == p.refs[s.name]
  {
    hide MergedHead, Put;
  }

  lemma StuckMerge(s: Setting, inPlay: iset<Blob>, p: Puller, peers: seq<Peer>, i: nat, theirs: Collection, got: Blobs)
    requires CollisionFree(s.c, inPlay) && Stuck(s, inPlay, p, peers, i, theirs)
    requires Got(s, inPlay, p.blobs, got, Picked(s, p, peers, i).manifest)
    ensures var after := AfterMerge(s, p, got, Picked(s, p, peers, i).manifest);
      && Intact(s.c, inPlay, after.blobs) && Extends(after.blobs, p.blobs) && s.name in after.refs
      && after.refs[s.name] == p.refs[s.name]
  {
    var manifest := Picked(s, p, peers, i).manifest;
    var mine := HeadAt(p.blobs, RefOf(s, p)).value;
    assert got[manifest] == HeadBlob(theirs);
    assert HeadAt(got, RefOf(s, p)) == Some(mine);
    hide MergedHead, Picks, Put, CollisionFree, Picked, AfterMerge, LocalOf;
    PutGet(s.c, inPlay, got, HeadBlob(MergedHead(mine, theirs)));
    UnionGoesElsewhere(s, p, got, manifest, mine, theirs);
  }

  lemma SameLocal(s: Setting, before: Puller, after: Puller)
    requires s.name in before.refs && s.name in after.refs && after.refs[s.name] == before.refs[s.name]
    requires Extends(after.blobs, before.blobs) && HeadAt(before.blobs, RefOf(s, before)).Some?
    requires HeadAt(before.blobs, RefOf(s, before)).value.refs <= before.blobs.Keys
    ensures LocalOf(s, after) == LocalOf(s, before)
    ensures HeadAt(after.blobs, RefOf(s, after)) == HeadAt(before.blobs, RefOf(s, before))
  {
    var refs := HeadAt(before.blobs, RefOf(s, before)).value.refs;
    assert refs * before.blobs.Keys == refs && refs * after.blobs.Keys == refs;
  }

  /** Noting more merges leaves the same pick, when it was wanted for what it holds. */
  lemma SamePick(name: string, local: Local, before: set<Hash>, after: set<Hash>, peers: seq<Peer>, i: nat)
    requires Picks(name, local, before, peers, i) && before <= after
    requires Offer(name, local.owner, peers[i].adverts).value.held > local.held
    ensures Picks(name, local, after, peers, i)
  {
    forall j | 0 <= j < |peers| && Eligible(name, local, after, peers[j])
      ensures Eligible(name, local, before, peers[j])
    {
    }
  }

  lemma StuckStays(s: Setting, inPlay: iset<Blob>, p: Puller, peers: seq<Peer>, i: nat, theirs: Collection, got: Blobs)
    requires CollisionFree(s.c, inPlay) && Stuck(s, inPlay, p, peers, i, theirs)
    requires Got(s, inPlay, p.blobs, got, Picked(s, p, peers, i).manifest)
    ensures var after := AfterMerge(s, p, got, Picked(s, p, peers, i).manifest);
      Stuck(s, inPlay, after, peers, i, theirs) && LocalOf(s, after) == LocalOf(s, p)
  {
    var manifest := Picked(s, p, peers, i).manifest;
    var after := AfterMerge(s, p, got, manifest);
    StuckMerge(s, inPlay, p, peers, i, theirs, got);
    SameLocal(s, p, after);
    assert after.merged == p.merged + {manifest};
    SamePick(s.name, LocalOf(s, p), p.merged, after.merged, peers, i);
    hide AfterMerge, LocalOf, Picks, CollisionFree, MergedHead, HeadAt;
  }

  /** What each pull of the same advert leaves. */
  function Pulled(s: Setting, p: Puller, manifest: Hash, gots: seq<Blobs>): Puller
    decreases |gots|
  {
    if gots == [] then p else Pulled(s, AfterMerge(s, p, gots[0], manifest), manifest, gots[1..])
  }

  ghost predicate Fetches(s: Setting, inPlay: iset<Blob>, p: Puller, manifest: Hash, gots: seq<Blobs>)
    decreases |gots|
  {
    gots != [] ==>
      Got(s, inPlay, p.blobs, gots[0], manifest)
        && Fetches(s, inPlay, AfterMerge(s, p, gots[0], manifest), manifest, gots[1..])
  }

  /** The union goes to the head's own name, so under this one the held count never moves and
      the same provider is picked again, however often it is pulled. */
  lemma {:induction false} StuckForGood(s: Setting, inPlay: iset<Blob>, p: Puller, peers: seq<Peer>, i: nat,
                                        theirs: Collection,
                                        gots: seq<Blobs>)
    requires CollisionFree(s.c, inPlay) && Stuck(s, inPlay, p, peers, i, theirs)
    requires Fetches(s, inPlay, p, Picked(s, p, peers, i).manifest, gots)
    ensures var end := Pulled(s, p, Picked(s, p, peers, i).manifest, gots);
      && LocalOf(s, end) == LocalOf(s, p) && Picks(s.name, LocalOf(s, end), end.merged, peers, i)
      && Picked(s, end, peers, i) == Picked(s, p, peers, i)
    decreases |gots|
  {
    if gots != [] {
      StuckStays(s, inPlay, p, peers, i, theirs, gots[0]);
      hide AfterMerge, LocalOf, Picks, CollisionFree, Got;
      StuckForGood(s, inPlay, AfterMerge(s, p, gots[0], Picked(s, p, peers, i).manifest), peers, i, theirs, gots[1..]);
    }
  }

  /** A first pull that files a head of another name, and a peer with more of a head that goes
      with it, are enough. */
  lemma StuckAfterFirstPull(s: Setting, inPlay: iset<Blob>, got: Blobs, mine: Collection, theirs: Collection,
                            advert: RefAdvert,
                            peer: Peer)
    requires Intact(s.c, inPlay, got) && s.usable(s.name) && mine.name != s.name
    requires s.c.address(HeadBlob(mine)) in got && got[s.c.address(HeadBlob(mine))] == HeadBlob(mine)
    requires mine.refs <= got.Keys
    requires HeadBlob(theirs) in inPlay && HeadBlob(MergedHead(mine, theirs)) in inPlay
    requires theirs.owner == mine.owner && theirs.name == mine.name
    requires !(theirs.refs <= mine.refs) && !(mine.refs <= theirs.refs) && |theirs.refs| > |mine.refs|
    requires advert.name == s.name && advert.manifest == s.c.address(HeadBlob(theirs))
    requires advert.owner == Some(mine.owner)
    requires advert.held == advert.total == |theirs.refs|
    requires peer.adverts == [advert] && peer.level >= CACHE && peer.reachable
    ensures var first := AfterMerge(s, Puller(map[], map[], {}), got, s.c.address(HeadBlob(mine)));
      Stuck(s, inPlay, first, [peer], 0, theirs)
  {
    var p := AfterMerge(s, Puller(map[], map[], {}), got, s.c.address(HeadBlob(mine)));
    assert p == Puller(got, map[s.name := s.c.address(HeadBlob(mine))], {s.c.address(HeadBlob(mine))});
    assert mine.refs * got.Keys == mine.refs;
    assert Offer(s.name, LocalOf(s, p).owner, peer.adverts) == Some(advert);
    hide MergedHead, AfterMerge;
  }
}
