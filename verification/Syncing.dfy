/** Any number of nodes pulling one collection from each other, each from the provider it picks:
    how many pulls there can be, and what all nodes show once none is left. */
module Syncing {
  import opened Options
  import opened Records
  import opened Store
  import opened Fold
  import opened Merge
  import opened Replication
  import opened Keeping
  import Replicas
  import Builder
  import Convergence

  /** `ever` is every head some node's ref has named. */
  datatype Net = Net(nodes: seq<Puller>, ever: set<Hash>)

  /** One node's turn: the peers as it sees them then, and the pull of the one it picks. */
  datatype Turn = Turn(node: nat, peers: seq<Peer>, round: Round)

  function Whole(s: Setting, owner: Dgid): Replicas.Setting {
    Replicas.Setting(s.c, s.usable, s.name, owner)
  }

  /** The refs of the node's own head. */
  function RefsAt(s: Setting, p: Puller): set<Hash> {
    var head := HeadAt(p.blobs, RefOf(s, p));
    if head.Some? then head.value.refs else {}
  }

  /** A head of the collection, made of the refs there are. */
  ghost predicate GoodHead(s: Setting, inPlay: iset<Blob>, owner: Dgid, all: set<Hash>, head: Collection) {
    Replicas.WellMade(Whole(s, owner), inPlay, head) && head.refs <= all
  }

  /** A node has no ref, or names a whole head of the collection holding every head it merged. */
  ghost predicate Sits(s: Setting, inPlay: iset<Blob>, owner: Dgid, all: set<Hash>, ever: set<Hash>, p: Puller) {
    && GoodPuller(s, inPlay, p) && CaughtUp(s, inPlay, p, owner)
    && (s.name in p.refs ==> p.refs[s.name] in ever && HoldsGood(s, inPlay, owner, all, p))
  }

  ghost predicate HoldsGood(s: Setting, inPlay: iset<Blob>, owner: Dgid, all: set<Hash>, p: Puller) {
    && HeadAt(p.blobs, RefOf(s, p)).Some? && RefsAt(s, p) <= p.blobs.Keys
    && GoodHead(s, inPlay, owner, all, HeadAt(p.blobs, RefOf(s, p)).value)
  }

  ghost predicate EverGood(s: Setting, inPlay: iset<Blob>, owner: Dgid, all: set<Hash>, ever: set<Hash>) {
    forall head: Collection | HeadBlob(head) in inPlay && s.c.address(HeadBlob(head)) in ever ::
      GoodHead(s, inPlay, owner, all, head)
  }

  ghost predicate Inv(s: Setting, inPlay: iset<Blob>, owner: Dgid, all: set<Hash>, net: Net) {
    && (forall i | 0 <= i < |net.nodes| :: Sits(s, inPlay, owner, all, net.ever, net.nodes[i]))
    && EverGood(s, inPlay, owner, all, net.ever)
  }

  /** The node picks from truthful adverts, and the pick is of a head some node had. */
  ghost predicate Takes(s: Setting, inPlay: iset<Blob>, owner: Dgid, ever: set<Hash>, p: Puller, turn: Turn) {
    && AllTruthful(s, inPlay, turn.peers) && Pulls(s, inPlay, p, turn.peers, turn.round.pick, turn.round.got)
    && Picked(s, p, turn.peers, turn.round.pick).owner == Some(owner)
    && Picked(s, p, turn.peers, turn.round.pick).manifest in ever
  }

  ghost predicate Enabled(s: Setting, inPlay: iset<Blob>, owner: Dgid, net: Net, turn: Turn) {
    turn.node < |net.nodes| && Takes(s, inPlay, owner, net.ever, net.nodes[turn.node], turn)
  }

  function Current(s: Setting, p: Puller): set<Hash> {
    if s.name in p.refs then {p.refs[s.name]} else {}
  }

  ghost function Next(s: Setting, inPlay: iset<Blob>, owner: Dgid, net: Net, turn: Turn): Net
    requires Enabled(s, inPlay, owner, net, turn)
  {
    var after := AfterRound(s, net.nodes[turn.node], turn.peers, turn.round);
    Net(net.nodes[turn.node := after], net.ever + Current(s, after))
  }

  ghost predicate Runs(s: Setting, inPlay: iset<Blob>, owner: Dgid, start: Net, turns: seq<Turn>, end: Net)
    decreases |turns|
  {
    if turns == [] then start == end
    else
      && Enabled(s, inPlay, owner, start, turns[0])
      && Runs(s, inPlay, owner, Next(s, inPlay, owner, start, turns[0]), turns[1..], end)
  }

  /** The heads the nodes' refs name. */
  function Heads(s: Setting, nodes: seq<Puller>): set<Hash> {
    set p | p in nodes && s.name in p.refs :: p.refs[s.name]
  }

  /** A start: nodes that have merged nothing, each without a ref or on a whole head of the
      collection. */
  lemma StartIsGood(s: Setting, inPlay: iset<Blob>, owner: Dgid, all: set<Hash>, nodes: seq<Puller>)
    requires CollisionFree(s.c, inPlay) && s.usable(s.name)
    requires forall p | p in nodes ::
      Intact(s.c, inPlay, p.blobs) && p.merged == {} && (s.name in p.refs ==> HoldsGood(s, inPlay, owner, all, p))
    ensures Inv(s, inPlay, owner, all, Net(nodes, Heads(s, nodes)))
  {
    var ever := Heads(s, nodes);
    forall i | 0 <= i < |nodes| ensures Sits(s, inPlay, owner, all, ever, nodes[i]) {
      assert nodes[i] in nodes;
    }
    forall head: Collection | HeadBlob(head) in inPlay && s.c.address(HeadBlob(head)) in ever
      ensures GoodHead(s, inPlay, owner, all, head)
    {
      var p :| p in nodes && s.name in p.refs && p.refs[s.name] == s.c.address(HeadBlob(head));
      assert p.blobs[p.refs[s.name]] in inPlay;
      assert HeadBlob(HeadAt(p.blobs, RefOf(s, p)).value) == HeadBlob(head);
    }
  }

  // ----- one turn -----

  lemma AfterExtends(s: Setting, p: Puller, got: Blobs, manifest: Hash)
    ensures Extends(AfterMerge(s, p, got, manifest).blobs, got)
  {
    hide MergedHead;
  }

  /** The head pulled. */
  lemma PickedHead(s: Setting, inPlay: iset<Blob>, owner: Dgid, all: set<Hash>, ever: set<Hash>, p: Puller, turn: Turn)
      returns (theirs: Collection)
    requires CollisionFree(s.c, inPlay) && Takes(s, inPlay, owner, ever, p, turn)
    requires EverGood(s, inPlay, owner, all, ever)
    ensures var advert := Picked(s, p, turn.peers, turn.round.pick);
      && HeadAt(turn.round.got, Some(advert.manifest)) == Some(theirs) && GoodHead(s, inPlay, owner, all, theirs)
      && theirs.refs <= turn.round.got.Keys && advert.held <= |theirs.refs| && TellsOf(s, HeadBlob(theirs), advert)
  {
    var advert := Picked(s, p, turn.peers, turn.round.pick);
    OfferIn(s.name, LocalOf(s, p).owner, turn.peers[turn.round.pick].adverts);
    var peer := turn.peers[turn.round.pick];
    assert peer in turn.peers && advert in peer.adverts;
    assert Truthful(s, inPlay, advert);
    ManifestTells(s, inPlay, turn.round.got, advert);
    theirs := turn.round.got[advert.manifest].head;
    hide Replicas.WellMade, Picks;
  }

  lemma UnionWellMade(w: Replicas.Setting, inPlay: iset<Blob>, mine: Collection, theirs: Collection)
    requires Replicas.WellMade(w, inPlay, mine) && Replicas.WellMade(w, inPlay, theirs)
    requires HeadBlob(MergedHead(mine, theirs)) in inPlay
    ensures Replicas.WellMade(w, inPlay, MergedHead(mine, theirs))
  {
    UnionRefs(mine, theirs);
    hide Replicas.IsOp, Replicas.IsOther;
  }

  /** The head a merge of two ends on. */
  function Reconciled(mine: Collection, theirs: Collection): Collection {
    if theirs.refs <= mine.refs then mine else if mine.refs <= theirs.refs then theirs else MergedHead(mine, theirs)
  }

  lemma ReconciledGood(s: Setting, inPlay: iset<Blob>, owner: Dgid, all: set<Hash>, mine: Collection,
                       theirs: Collection)
    requires GoodHead(s, inPlay, owner, all, mine) && GoodHead(s, inPlay, owner, all, theirs)
    requires HeadBlob(MergedHead(mine, theirs)) in inPlay
    ensures GoodHead(s, inPlay, owner, all, Reconciled(mine, theirs))
    ensures Reconciled(mine, theirs).refs == mine.refs + theirs.refs
  {
    UnionWellMade(Whole(s, owner), inPlay, mine, theirs);
    UnionRefs(mine, theirs);
    hide Replicas.WellMade, MergedHead;
  }

  lemma HeadAfter(s: Setting, inPlay: iset<Blob>, p: Puller, got: Blobs, manifest: Hash, mine: Collection,
                  theirs: Collection)
    requires CollisionFree(s.c, inPlay) && s.name in p.refs
    requires HeadAt(got, RefOf(s, p)) == Some(mine) && HeadAt(got, Some(manifest)) == Some(theirs)
    requires Mergeable(s.c, inPlay, s.usable, got, p.refs, s.name, manifest)
    ensures var after := AfterMerge(s, p, got, manifest);
      && HeadAt(after.blobs, RefOf(s, after)) == Some(Reconciled(mine, theirs))
      && (theirs.refs <= mine.refs ==> Current(s, after) == Current(s, p))
  {
    MergeCases(s.c, inPlay, s.usable, got, p.refs, s.name, manifest);
    PutGet(s.c, inPlay, got, HeadBlob(MergedHead(mine, theirs)));
    hide MergedHead, MergeOutcome, CollisionFree, Put, Indexed, Mergeable;
  }

  /** Two heads of the collection meet: the ref names one with both ref sets, and the same as
      before when there was nothing new. */
  lemma Joins(s: Setting, inPlay: iset<Blob>, owner: Dgid, all: set<Hash>, p: Puller, got: Blobs, manifest: Hash,
              theirs: Collection)
    requires CollisionFree(s.c, inPlay) && HoldsGood(s, inPlay, owner, all, p)
    requires GoodHead(s, inPlay, owner, all, theirs)
    requires s.usable(s.name) && s.name in p.refs && Got(s, inPlay, p.blobs, got, manifest)
    requires HeadAt(got, Some(manifest)) == Some(theirs) && UnionInPlay(s, inPlay, p, got, manifest)
    ensures var after := AfterMerge(s, p, got, manifest);
      && HoldsGood(s, inPlay, owner, all, after) && RefsAt(s, after) == RefsAt(s, p) + theirs.refs
      && (theirs.refs <= RefsAt(s, p) ==> Current(s, after) == Current(s, p))
  {
    var after := AfterMerge(s, p, got, manifest);
    var mine := HeadAt(p.blobs, RefOf(s, p)).value;
    assert HeadAt(got, RefOf(s, p)) == Some(mine);
    assert Mergeable(s.c, inPlay, s.usable, got, p.refs, s.name, manifest);
    hide AfterMerge, MergedHead, Replicas.WellMade, CollisionFree, Mergeable;
    HeadAfter(s, inPlay, p, got, manifest, mine, theirs);
    ReconciledGood(s, inPlay, owner, all, mine, theirs);
    AfterExtends(s, p, got, manifest);
    assert mine.refs <= got.Keys && theirs.refs <= got.Keys && got.Keys <= after.blobs.Keys;
    hide Reconciled, Got;
  }

  /** Where there was no ref, the head is taken as it is. */
  lemma TakesFirst(s: Setting, inPlay: iset<Blob>, owner: Dgid, all: set<Hash>, p: Puller, got: Blobs, manifest: Hash,
                   theirs: Collection)
    requires GoodHead(s, inPlay, owner, all, theirs) && s.usable(s.name) && s.name !in p.refs
    requires Got(s, inPlay, p.blobs, got, manifest) && HeadAt(got, Some(manifest)) == Some(theirs)
    ensures var after := AfterMerge(s, p, got, manifest);
      s.name in after.refs && HoldsGood(s, inPlay, owner, all, after) && RefsAt(s, after) == theirs.refs
        && RefsAt(s, p) == {}
  {
    hide Replicas.WellMade, MergedHead, CollisionFree;
  }

  /** A turn leaves the node on a good head, with the refs of both; one that brings no ref
      leaves the head and notes a merge that was not noted. */
  lemma TurnGains(s: Setting, inPlay: iset<Blob>, owner: Dgid, all: set<Hash>, ever: set<Hash>, p: Puller, turn: Turn)
    requires CollisionFree(s.c, inPlay) && Takes(s, inPlay, owner, ever, p, turn)
    requires Sits(s, inPlay, owner, all, ever, p) && EverGood(s, inPlay, owner, all, ever)
    ensures var after := AfterRound(s, p, turn.peers, turn.round);
      var manifest := Picked(s, p, turn.peers, turn.round.pick).manifest;
      && s.name in after.refs && HoldsGood(s, inPlay, owner, all, after)
      && RefsAt(s, p) <= RefsAt(s, after) && after.merged == p.merged + {manifest} && manifest in ever
      && (RefsAt(s, after) == RefsAt(s, p) ==> Current(s, after) == Current(s, p) && manifest !in p.merged)
  {
    var advert := Picked(s, p, turn.peers, turn.round.pick);
    var got := turn.round.got;
    var theirs := PickedHead(s, inPlay, owner, all, ever, p, turn);
    assert Wanted(LocalOf(s, p), p.merged, advert) && Got(s, inPlay, p.blobs, got, advert.manifest)
      && UnionInPlay(s, inPlay, p, got, advert.manifest) && advert.total == |theirs.refs|;
    LocalCount(s, inPlay, owner, all, p);
    if s.name in p.refs {
      Joins(s, inPlay, owner, all, p, got, advert.manifest, theirs);
    } else {
      TakesFirst(s, inPlay, owner, all, p, got, advert.manifest, theirs);
    }
    hide LocalOf, HoldsGood, GoodHead, CaughtUp, Got, UnionInPlay, Picks, RefsAt, AllTruthful, EverGood;
    if theirs.refs <= RefsAt(s, p) {
      Smaller(theirs.refs, RefsAt(s, p));
      assert advert.held <= LocalOf(s, p).held;
    }
  }

  /** A whole head is counted in full. */
  lemma LocalCount(s: Setting, inPlay: iset<Blob>, owner: Dgid, all: set<Hash>, p: Puller)
    requires s.name in p.refs ==> HoldsGood(s, inPlay, owner, all, p)
    ensures LocalOf(s, p).held == |RefsAt(s, p)|
  {
    var refs := RefsAt(s, p);
    assert s.name in p.refs ==> refs * p.blobs.Keys == refs;
    hide GoodHead;
  }

  lemma TurnKeepsInv(s: Setting, inPlay: iset<Blob>, owner: Dgid, all: set<Hash>, net: Net, turn: Turn)
    requires CollisionFree(s.c, inPlay) && Inv(s, inPlay, owner, all, net) && Enabled(s, inPlay, owner, net, turn)
    ensures Inv(s, inPlay, owner, all, Next(s, inPlay, owner, net, turn))
  {
    var p := net.nodes[turn.node];
    var after := AfterRound(s, p, turn.peers, turn.round);
    TurnGains(s, inPlay, owner, all, net.ever, p, turn);
    RoundSpends(s, inPlay, p, turn.peers, turn.round);
    RoundCatchesUp(s, inPlay, p, turn.peers, turn.round, owner);
    EverGrows(s, inPlay, owner, all, net.ever, after);
    hide GoodPuller, CaughtUp, HoldsGood, EverGood, Takes, AfterRound;
  }

  lemma EverGrows(s: Setting, inPlay: iset<Blob>, owner: Dgid, all: set<Hash>, ever: set<Hash>, after: Puller)
    requires CollisionFree(s.c, inPlay) && EverGood(s, inPlay, owner, all, ever) && GoodPuller(s, inPlay, after)
    requires s.name in after.refs && HoldsGood(s, inPlay, owner, all, after)
    ensures EverGood(s, inPlay, owner, all, ever + Current(s, after))
  {
    var hash := after.refs[s.name];
    var now := HeadAt(after.blobs, RefOf(s, after)).value;
    assert after.blobs[hash] == HeadBlob(now) && HeadBlob(now) in inPlay && s.c.address(HeadBlob(now)) == hash;
    hide GoodHead;
    forall head: Collection | HeadBlob(head) in inPlay && s.c.address(HeadBlob(head)) in ever + Current(s, after)
      ensures GoodHead(s, inPlay, owner, all, head)
    {
      if s.c.address(HeadBlob(head)) !in ever {
        assert HeadBlob(head) == HeadBlob(now);
      }
    }
  }

  // ----- what is left to do -----

  /** The refs a node still lacks, each worth a merge by every node, and the heads it may still
      come to merge. */
  function Left(s: Setting, n: nat, all: set<Hash>, ever: set<Hash>, p: Puller): nat {
    (n + 1) * |all - RefsAt(s, p)| + |ever - p.merged|
  }

  function LeftOf(s: Setting, n: nat, all: set<Hash>, ever: set<Hash>, nodes: seq<Puller>): nat {
    if nodes == [] then 0 else Left(s, n, all, ever, nodes[0]) + LeftOf(s, n, all, ever, nodes[1..])
  }

  lemma {:induction false} LeftUpdate(s: Setting, n: nat, all: set<Hash>, ever: set<Hash>, nodes: seq<Puller>, i: nat,
                                      p: Puller)
    requires i < |nodes|
    ensures LeftOf(s, n, all, ever, nodes[i := p]) - Left(s, n, all, ever, p)
      == LeftOf(s, n, all, ever, nodes) - Left(s, n, all, ever, nodes[i])
  {
    hide Left;
    if i == 0 {
      assert nodes[0 := p][1..] == nodes[1..];
    } else {
      assert nodes[i := p][1..] == nodes[1..][i - 1 := p];
      LeftUpdate(s, n, all, ever, nodes[1..], i - 1, p);
    }
  }

  /** One more head is one more merge for each node. */
  lemma {:induction false} LeftEver(s: Setting, n: nat, all: set<Hash>, ever: set<Hash>, more: set<Hash>,
                                    nodes: seq<Puller>)
    requires |more| <= 1
    ensures LeftOf(s, n, all, ever + more, nodes) <= LeftOf(s, n, all, ever, nodes) + |nodes|
  {
    if nodes != [] {
      var p := nodes[0];
      LeftEver(s, n, all, ever, more, nodes[1..]);
      Smaller(ever + more - p.merged, (ever - p.merged) + more);
      assert |(ever - p.merged) + more| <= |ever - p.merged| + |more|;
      hide RefsAt;
    }
  }

  lemma Times(n: nat, small: nat, large: nat)
    requires small < large
    ensures (n + 1) * small + n + 1 <= (n + 1) * large
  {
    assert (n + 1) * (small + 1) <= (n + 1) * large;
  }

  lemma GrowingLeft(s: Setting, n: nat, all: set<Hash>, ever: set<Hash>, p: Puller, after: Puller)
    requires RefsAt(s, p) < RefsAt(s, after) <= all && p.merged <= after.merged
    ensures Left(s, n, all, ever, after) + n + 1 <= Left(s, n, all, ever, p)
  {
    hide RefsAt;
    var h :| h in RefsAt(s, after) && h !in RefsAt(s, p);
    assert h in all - RefsAt(s, p) && h !in all - RefsAt(s, after);
    Smaller(all - RefsAt(s, after), all - RefsAt(s, p));
    Smaller(ever - after.merged, ever - p.merged);
    Times(n, |all - RefsAt(s, after)|, |all - RefsAt(s, p)|);
  }

  lemma NotingLeft(s: Setting, n: nat, all: set<Hash>, ever: set<Hash>, p: Puller, after: Puller, manifest: Hash)
    requires RefsAt(s, p) == RefsAt(s, after) && after.merged == p.merged + {manifest}
    requires manifest in ever && manifest !in p.merged
    ensures Left(s, n, all, ever, after) < Left(s, n, all, ever, p)
  {
    hide RefsAt;
    assert manifest in ever - p.merged && manifest !in ever - after.merged;
    Smaller(ever - after.merged, ever - p.merged);
  }

  lemma NodeLeavesLess(s: Setting, all: set<Hash>, net: Net, i: nat, after: Puller, manifest: Hash)
    requires i < |net.nodes| && manifest in net.ever && after.merged == net.nodes[i].merged + {manifest}
    requires RefsAt(s, net.nodes[i]) <= RefsAt(s, after) <= all
    requires RefsAt(s, after) == RefsAt(s, net.nodes[i]) ==>
      Current(s, after) <= net.ever && manifest !in net.nodes[i].merged
    ensures LeftOf(s, |net.nodes|, all, net.ever + Current(s, after), net.nodes[i := after])
      < LeftOf(s, |net.nodes|, all, net.ever, net.nodes)
  {
    var n, p := |net.nodes|, net.nodes[i];
    assert |Current(s, after)| <= 1;
    hide LeftOf, Left, RefsAt, Current;
    LeftUpdate(s, n, all, net.ever, net.nodes, i, after);
    if RefsAt(s, after) == RefsAt(s, p) {
      assert net.ever + Current(s, after) == net.ever;
      NotingLeft(s, n, all, net.ever, p, after, manifest);
    } else {
      GrowingLeft(s, n, all, net.ever, p, after);
      LeftEver(s, n, all, net.ever, Current(s, after), net.nodes[i := after]);
    }
  }

  /** Every turn leaves less to do. */
  lemma TurnLeavesLess(s: Setting, inPlay: iset<Blob>, owner: Dgid, all: set<Hash>, net: Net, turn: Turn)
    requires CollisionFree(s.c, inPlay) && Inv(s, inPlay, owner, all, net) && Enabled(s, inPlay, owner, net, turn)
    ensures var next := Next(s, inPlay, owner, net, turn);
      && |next.nodes| == |net.nodes|
      && LeftOf(s, |net.nodes|, all, next.ever, next.nodes) < LeftOf(s, |net.nodes|, all, net.ever, net.nodes)
  {
    var p := net.nodes[turn.node];
    var after := AfterRound(s, p, turn.peers, turn.round);
    assert Sits(s, inPlay, owner, all, net.ever, p);
    hide AfterRound, LeftOf, GoodPuller, CaughtUp, Pulls, AllTruthful, EverGood, CollisionFree;
    TurnGains(s, inPlay, owner, all, net.ever, p, turn);
    assert RefsAt(s, after) <= all;
    NodeLeavesLess(s, all, net, turn.node, after, Picked(s, p, turn.peers, turn.round.pick).manifest);
  }

  /** However the nodes take turns, whatever truthful adverts each sees at the time: there are at
      most as many pulls as there was left to do, and every node stays on a good head. */
  lemma {:induction false} TurnsAreBounded(s: Setting, inPlay: iset<Blob>, owner: Dgid, all: set<Hash>,
                                           start: Net, turns: seq<Turn>, end: Net)
    requires CollisionFree(s.c, inPlay) && Inv(s, inPlay, owner, all, start)
    requires Runs(s, inPlay, owner, start, turns, end)
    ensures Inv(s, inPlay, owner, all, end) && |end.nodes| == |start.nodes|
    ensures |turns| + LeftOf(s, |end.nodes|, all, end.ever, end.nodes)
      <= LeftOf(s, |start.nodes|, all, start.ever, start.nodes)
    decreases |turns|
  {
    hide Inv, Enabled, Next, LeftOf, CollisionFree;
    if turns != [] {
      TurnKeepsInv(s, inPlay, owner, all, start, turns[0]);
      TurnLeavesLess(s, inPlay, owner, all, start, turns[0]);
      TurnsAreBounded(s, inPlay, owner, all, Next(s, inPlay, owner, start, turns[0]), turns[1..], end);
    }
  }

  // ----- quiet -----

  /** The peer is trusted and reachable, and its offer is of the head, all of it held. */
  ghost predicate Shows(s: Setting, inPlay: iset<Blob>, owner: Dgid, peer: Peer, head: Collection) {
    && peer.level >= CACHE && peer.reachable
    && var offer := Offer(s.name, Some(owner), peer.adverts);
    && offer.Some? && offer.value.manifest == s.c.address(HeadBlob(head)) && offer.value.held == offer.value.total
    && TellsOf(s, HeadBlob(head), offer.value)
    && Offer(s.name, None, peer.adverts) == offer
  }

  /** The node finds no provider, though it sees every other node's head on offer. */
  ghost predicate Quiet(s: Setting, inPlay: iset<Blob>, owner: Dgid, net: Net, p: Puller, peers: seq<Peer>) {
    && (forall k | 0 <= k < |peers| :: !Eligible(s.name, LocalOf(s, p), p.merged, peers[k]))
    && (forall q | q in net.nodes && q != p && s.name in q.refs :: Seen(s, inPlay, owner, peers, q))
  }

  ghost predicate Seen(s: Setting, inPlay: iset<Blob>, owner: Dgid, peers: seq<Peer>, q: Puller) {
    && HeadAt(q.blobs, RefOf(s, q)).Some?
    && exists peer | peer in peers :: Shows(s, inPlay, owner, peer, HeadAt(q.blobs, RefOf(s, q)).value)
  }

  /** A node wants a head on offer exactly when the head has refs, is not the node's own, and was
      not merged before. */
  lemma WantsExactly(s: Setting, inPlay: iset<Blob>, owner: Dgid, all: set<Hash>, ever: set<Hash>, p: Puller,
                     peer: Peer, head: Collection)
    requires CollisionFree(s.c, inPlay) && Sits(s, inPlay, owner, all, ever, p) && Shows(s, inPlay, owner, peer, head)
    requires HeadBlob(head) in inPlay && head.owner == owner
    ensures Eligible(s.name, LocalOf(s, p), p.merged, peer) <==>
      && head.refs != {} && s.c.address(HeadBlob(head)) !in Current(s, p)
      && s.c.address(HeadBlob(head)) !in p.merged
  {
    var offer := Offer(s.name, LocalOf(s, p).owner, peer.adverts).value;
    assert offer.total == |head.refs| && offer.owner == Some(owner);
    LocalCount(s, inPlay, owner, all, p);
    if s.c.address(HeadBlob(head)) in Current(s, p) {
      var now := HeadAt(p.blobs, RefOf(s, p)).value;
      assert HeadBlob(now) == HeadBlob(head);
    } else if s.c.address(HeadBlob(head)) in p.merged {
      assert HoldsRefs(s, p, head.refs);
      Smaller(head.refs, RefsAt(s, p));
    }
  }

  /** A node that does not want a head on offer holds all of it. */
  lemma UnwantedIsHeld(s: Setting, inPlay: iset<Blob>, owner: Dgid, all: set<Hash>, ever: set<Hash>, p: Puller,
                       peer: Peer, head: Collection)
    requires CollisionFree(s.c, inPlay) && Sits(s, inPlay, owner, all, ever, p) && Shows(s, inPlay, owner, peer, head)
    requires HeadBlob(head) in inPlay && head.owner == owner && !Eligible(s.name, LocalOf(s, p), p.merged, peer)
    ensures head.refs <= RefsAt(s, p)
  {
    WantsExactly(s, inPlay, owner, all, ever, p, peer, head);
    if s.c.address(HeadBlob(head)) in Current(s, p) {
      var now := HeadAt(p.blobs, RefOf(s, p)).value;
      assert HeadBlob(now) == HeadBlob(head);
    } else if s.c.address(HeadBlob(head)) in p.merged {
      assert HoldsRefs(s, p, head.refs);
    }
    hide LocalOf, Eligible, Shows;
  }

  /** When every node is quiet they all hold the same refs, and show the same list. */
  lemma QuietIsOneList(s: Setting, inPlay: iset<Blob>, owner: Dgid, all: set<Hash>, net: Net, peers: seq<seq<Peer>>,
                       i: nat, j: nat)
    requires CollisionFree(s.c, inPlay) && Inv(s, inPlay, owner, all, net) && |peers| == |net.nodes|
    requires forall k | 0 <= k < |net.nodes| :: Quiet(s, inPlay, owner, net, net.nodes[k], peers[k])
    requires i < |net.nodes| && j < |net.nodes|
    ensures RefsAt(s, net.nodes[i]) == RefsAt(s, net.nodes[j])
    ensures Shown(s, owner, net.nodes[i]) == Shown(s, owner, net.nodes[j])
  {
    QuietHolds(s, inPlay, owner, all, net, i, net.nodes[j], peers[i]);
    QuietHolds(s, inPlay, owner, all, net, j, net.nodes[i], peers[j]);
    hide Quiet;
    ShownByRefs(s, inPlay, owner, all, net.ever, net.nodes[i], net.nodes[j]);
  }

  lemma QuietHolds(s: Setting, inPlay: iset<Blob>, owner: Dgid, all: set<Hash>, net: Net, i: nat, q: Puller,
                   peers: seq<Peer>)
    requires CollisionFree(s.c, inPlay) && Inv(s, inPlay, owner, all, net) && i < |net.nodes| && q in net.nodes
    requires Quiet(s, inPlay, owner, net, net.nodes[i], peers)
    ensures RefsAt(s, q) <= RefsAt(s, net.nodes[i])
  {
    var p := net.nodes[i];
    assert Sits(s, inPlay, owner, all, net.ever, p) && Sits(s, inPlay, owner, all, net.ever, q);
    if s.name in q.refs && q != p {
      assert Seen(s, inPlay, owner, peers, q);
      var head := HeadAt(q.blobs, RefOf(s, q)).value;
      var peer :| peer in peers && Shows(s, inPlay, owner, peer, head);
      var k :| 0 <= k < |peers| && peers[k] == peer;
      assert HeadBlob(head) in inPlay;
      hide LocalOf, Eligible, Shows, Seen;
      UnwantedIsHeld(s, inPlay, owner, all, net.ever, p, peer, head);
    }
  }

  /** The list a node shows. */
  function Shown(s: Setting, owner: Dgid, p: Puller): seq<Item> {
    match HeadAt(p.blobs, RefOf(s, p))
    case None => []
    case Some(head) => Folded(s.c, owner, LoadOps(p.blobs, head.ops))
  }

  function OpsAt(s: Setting, p: Puller): seq<Op> {
    match HeadAt(p.blobs, RefOf(s, p))
    case None => []
    case Some(head) => LoadOps(p.blobs, head.ops)
  }

  lemma ShownOps(s: Setting, inPlay: iset<Blob>, owner: Dgid, p: Puller)
    requires Intact(s.c, inPlay, p.blobs)
    ensures Shown(s, owner, p) == Folded(s.c, owner, OpsAt(s, p)) && InPlay(inPlay, OpsAt(s, p))
  {
    NoOps(s.c, owner);
    hide Folded;
    if HeadAt(p.blobs, RefOf(s, p)).Some? {
      Builder.LoadedInPlay(s.c, inPlay, p.blobs, HeadAt(p.blobs, RefOf(s, p)).value.ops);
    }
  }

  lemma NoOps(c: Crypto, owner: Dgid)
    ensures Folded(c, owner, []) == []
  {
  }

  lemma OpsGrow(s: Setting, inPlay: iset<Blob>, owner: Dgid, all: set<Hash>, ever: set<Hash>, p: Puller, q: Puller)
    requires CollisionFree(s.c, inPlay) && Sits(s, inPlay, owner, all, ever, p) && Sits(s, inPlay, owner, all, ever, q)
    requires RefsAt(s, p) <= RefsAt(s, q)
    ensures forall op :: op in OpsAt(s, p) ==> op in OpsAt(s, q)
  {
    var w := Whole(s, owner);
    if s.name in p.refs {
      var mine := HeadAt(p.blobs, RefOf(s, p)).value;
      Replicas.HeldWhole(w, inPlay, p.blobs, mine);
      if s.name in q.refs {
        var theirs := HeadAt(q.blobs, RefOf(s, q)).value;
        Replicas.HeldWhole(w, inPlay, q.blobs, theirs);
        hide Replicas.WellMade, Replicas.GoodHead, CollisionFree, CaughtUp, LoadOps;
        Convergence.SameRefsSameOps(w, inPlay, p.blobs, mine, q.blobs, theirs);
      } else {
        assert forall h :: h in mine.ops ==> h in mine.refs;
      }
    }
  }

  lemma ShownByRefs(s: Setting, inPlay: iset<Blob>, owner: Dgid, all: set<Hash>, ever: set<Hash>, p: Puller, q: Puller)
    requires CollisionFree(s.c, inPlay) && Sits(s, inPlay, owner, all, ever, p) && Sits(s, inPlay, owner, all, ever, q)
    requires RefsAt(s, p) == RefsAt(s, q)
    ensures Shown(s, owner, p) == Shown(s, owner, q)
  {
    OpsGrow(s, inPlay, owner, all, ever, p, q);
    OpsGrow(s, inPlay, owner, all, ever, q, p);
    ShownOps(s, inPlay, owner, p);
    ShownOps(s, inPlay, owner, q);
    hide Folded, OpsAt, Shown, CollisionFree;
    FoldOfSet(s.c, inPlay, owner, OpsAt(s, p), OpsAt(s, q));
  }

  /** From any start, over every run: the pulls are bounded, and a mesh in which no node finds a
      provider any more, though each sees the others' heads, shows one list everywhere. */
  lemma NodesConverge(s: Setting, inPlay: iset<Blob>, owner: Dgid, all: set<Hash>, start: Net, turns: seq<Turn>,
                      end: Net,
                      peers: seq<seq<Peer>>)
    requires CollisionFree(s.c, inPlay) && Inv(s, inPlay, owner, all, start)
    requires Runs(s, inPlay, owner, start, turns, end)
    requires |peers| == |end.nodes|
    ensures |turns| <= LeftOf(s, |start.nodes|, all, start.ever, start.nodes)
    ensures (forall k | 0 <= k < |end.nodes| :: Quiet(s, inPlay, owner, end, end.nodes[k], peers[k])) ==>
      forall i, j | 0 <= i < |end.nodes| && 0 <= j < |end.nodes| ::
        Shown(s, owner, end.nodes[i]) == Shown(s, owner, end.nodes[j])
  {
    TurnsAreBounded(s, inPlay, owner, all, start, turns, end);
    hide Inv, Quiet, Shown, LeftOf, CollisionFree;
    if forall k | 0 <= k < |end.nodes| :: Quiet(s, inPlay, owner, end, end.nodes[k], peers[k]) {
      forall i, j | 0 <= i < |end.nodes| && 0 <= j < |end.nodes|
        ensures Shown(s, owner, end.nodes[i]) == Shown(s, owner, end.nodes[j])
      {
        QuietIsOneList(s, inPlay, owner, all, end, peers, i, j);
      }
    }
  }

  lemma {:induction false} HeadsOfFew(s: Setting, nodes: seq<Puller>)
    ensures |Heads(s, nodes)| <= |nodes|
  {
    if nodes == [] {
      assert Heads(s, nodes) == {};
    } else {
      HeadsOfFew(s, nodes[1..]);
      assert nodes == [nodes[0]] + nodes[1..];
      assert Heads(s, nodes) == Current(s, nodes[0]) + Heads(s, nodes[1..]);
    }
  }

  /** What one of `n` nodes may have left, with `r` refs and `h` heads in all. */
  function Each(n: nat, r: nat, h: nat): nat {
    (n + 1) * r + h
  }

  lemma Scales(n: nat, small: nat, large: nat)
    requires small <= large
    ensures n * small <= n * large
  {
  }

  lemma OneMore(n: nat, each: nat)
    requires n > 0
    ensures n * each == each + (n - 1) * each
  {
  }

  lemma LeftEach(s: Setting, n: nat, all: set<Hash>, ever: set<Hash>, p: Puller)
    ensures Left(s, n, all, ever, p) <= Each(n, |all|, |ever|)
  {
    Smaller(all - RefsAt(s, p), all);
    Smaller(ever - p.merged, ever);
    hide RefsAt;
    Scales(n + 1, |all - RefsAt(s, p)|, |all|);
  }

  lemma {:induction false} LeftAtMost(s: Setting, n: nat, all: set<Hash>, ever: set<Hash>, nodes: seq<Puller>)
    ensures LeftOf(s, n, all, ever, nodes) <= |nodes| * Each(n, |all|, |ever|)
  {
    hide Each, Left;
    if nodes != [] {
      LeftEach(s, n, all, ever, nodes[0]);
      LeftAtMost(s, n, all, ever, nodes[1..]);
      OneMore(|nodes|, Each(n, |all|, |ever|));
    }
  }

  lemma FreshLeft(s: Setting, all: set<Hash>, nodes: seq<Puller>)
    ensures LeftOf(s, |nodes|, all, Heads(s, nodes), nodes) <= |nodes| * ((|nodes| + 1) * |all| + |nodes|)
  {
    hide LeftOf, Heads;
    HeadsOfFew(s, nodes);
    LeftAtMost(s, |nodes|, all, Heads(s, nodes), nodes);
    Scales(|nodes|, Each(|nodes|, |all|, |Heads(s, nodes)|), (|nodes| + 1) * |all| + |nodes|);
  }

  /** So `n` nodes that have merged nothing yet, with refs from a set of `r`, make at most
      n((n + 1)r + n) pulls in all before they show one list. */
  lemma FreshNodesConverge(s: Setting, inPlay: iset<Blob>, owner: Dgid, all: set<Hash>, nodes: seq<Puller>,
                           turns: seq<Turn>, end: Net, peers: seq<seq<Peer>>)
    requires CollisionFree(s.c, inPlay) && s.usable(s.name)
    requires forall p | p in nodes ::
      Intact(s.c, inPlay, p.blobs) && p.merged == {} && (s.name in p.refs ==> HoldsGood(s, inPlay, owner, all, p))
    requires Runs(s, inPlay, owner, Net(nodes, Heads(s, nodes)), turns, end) && |peers| == |end.nodes|
    ensures |turns| <= |nodes| * ((|nodes| + 1) * |all| + |nodes|)
    ensures (forall k | 0 <= k < |end.nodes| :: Quiet(s, inPlay, owner, end, end.nodes[k], peers[k])) ==>
      forall i, j | 0 <= i < |end.nodes| && 0 <= j < |end.nodes| ::
        Shown(s, owner, end.nodes[i]) == Shown(s, owner, end.nodes[j])
  {
    var start := Net(nodes, Heads(s, nodes));
    StartIsGood(s, inPlay, owner, all, nodes);
    FreshLeft(s, all, nodes);
    hide *;
    NodesConverge(s, inPlay, owner, all, start, turns, end, peers);
  }
}
