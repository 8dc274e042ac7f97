/** What holds over every run of the replicas: convergence, causality and quiescence. */
module Convergence {
  import opened Options
  import opened Records
  import opened Store
  import opened Fold
  import opened Builder
  import opened Merge
  import opened Replicas

  // ----- strong convergence -----

  lemma EmptyInv(s: Setting, inPlay: iset<Blob>, n: nat)
    ensures Inv(s, inPlay, Empty(n))
  {
  }

  lemma {:induction false} RunKeepsInv(s: Setting, inPlay: iset<Blob>, start: Net, actions: seq<Action>, end: Net)
    requires CollisionFree(s.c, inPlay) && s.usable(s.name)
    requires Inv(s, inPlay, start) && Runs(s, inPlay, start, actions, end)
    ensures Inv(s, inPlay, end)
    decreases |actions|
  {
    hide Inv, Next;
    if actions != [] {
      StepKeepsInv(s, inPlay, start, actions[0]);
      RunKeepsInv(s, inPlay, Next(s, start, actions[0]), actions[1..], end);
    }
  }

  function FoldAt(s: Setting, net: Net, i: nat): seq<Item>
    requires i < |net.replicas|
  {
    match HeadAt(net.replicas[i].blobs, net.replicas[i].head)
    case None => []
    case Some(head) => Folded(s.c, s.owner, LoadOps(net.replicas[i].blobs, head.ops))
  }

  /** Two whole heads with the same refs fold alike, in whatever stores they sit and in
      whatever order they list their operations. */
  lemma SameRefsSameOps(s: Setting, inPlay: iset<Blob>, blobs1: Blobs, head1: Collection, blobs2: Blobs,
                        head2: Collection)
    requires CollisionFree(s.c, inPlay) && Intact(s.c, inPlay, blobs1) && Intact(s.c, inPlay, blobs2)
    requires GoodHead(s, blobs1, head1) && GoodHead(s, blobs2, head2) && head1.refs <= head2.refs
    ensures forall op :: op in LoadOps(blobs1, head1.ops) ==> op in LoadOps(blobs2, head2.ops)
  {
    forall op | op in LoadOps(blobs1, head1.ops) ensures op in LoadOps(blobs2, head2.ops) {
      var h :| h in head1.ops && h in blobs1 && blobs1[h] == OpBlob(op);
      assert h in head2.refs && h in blobs2;
      assert blobs1[h] in inPlay && blobs2[h] in inPlay && s.c.address(blobs2[h]) == h;
      assert h in head2.ops;
    }
  }

  /** Replicas whose heads hold the same refs show the same items in the same order, even
      when the heads themselves differ. */
  lemma SameRefsSameFold(s: Setting, inPlay: iset<Blob>, net: Net, i: nat, j: nat)
    requires CollisionFree(s.c, inPlay) && Inv(s, inPlay, net)
    requires i < |net.replicas| && j < |net.replicas| && net.replicas[i].head.Some? && net.replicas[j].head.Some?
    requires net.taken[i] == net.taken[j]
    ensures FoldAt(s, net, i) == FoldAt(s, net, j)
  {
    hide Folded, CollisionFree;
    var r1, r2 := net.replicas[i], net.replicas[j];
    assert GoodReplica(s, inPlay, net.published, r1) && GoodReplica(s, inPlay, net.published, r2);
    var head1, head2 := net.published[r1.head.value], net.published[r2.head.value];
    SameRefsSameOps(s, inPlay, r1.blobs, head1, r2.blobs, head2);
    SameRefsSameOps(s, inPlay, r2.blobs, head2, r1.blobs, head1);
    var ops1, ops2 := LoadOps(r1.blobs, head1.ops), LoadOps(r2.blobs, head2.ops);
    hide LoadOps;
    assert InPlay(inPlay, ops1) by { LoadedInPlay(s.c, inPlay, r1.blobs, head1.ops); }
    assert InPlay(inPlay, ops2) by { LoadedInPlay(s.c, inPlay, r2.blobs, head2.ops); }
    FoldOfSet(s.c, inPlay, s.owner, ops1, ops2);
  }

  /** Both replicas have a head, and have taken the same refs. */
  ghost predicate Agree(net: Net, i: int, j: int) {
    && 0 <= i < |net.replicas| == |net.taken| && 0 <= j < |net.replicas|
    && net.replicas[i].head.Some? && net.replicas[j].head.Some? && net.taken[i] == net.taken[j]
  }

  /** Strong convergence. However the replicas edit and merge: each one's head holds exactly
      the union of the refs it has published or merged, and any two that have taken the same
      refs fold to the same list. */
  lemma StrongConvergence(s: Setting, inPlay: iset<Blob>, n: nat, actions: seq<Action>, end: Net)
    requires CollisionFree(s.c, inPlay) && s.usable(s.name)
    requires Runs(s, inPlay, Empty(n), actions, end)
    ensures forall i :: 0 <= i < |end.replicas| ==>
      |end.taken| == |end.replicas| && end.taken[i] == RefsOf(end.published, end.replicas[i])
    ensures forall i, j | Agree(end, i, j) :: FoldAt(s, end, i) == FoldAt(s, end, j)
  {
    EmptyInv(s, inPlay, n);
    RunKeepsInv(s, inPlay, Empty(n), actions, end);
    forall i, j | Agree(end, i, j)
      ensures FoldAt(s, end, i) == FoldAt(s, end, j)
    {
      SameRefsSameFold(s, inPlay, end, i, j);
    }
  }

  // ----- causality -----

  /** Each operation of the head comes with everything its author had seen. */
  ghost predicate Closed(s: Setting, inPlay: iset<Blob>, events: set<Event>, head: Collection) {
    forall op :: OpBlob(op) in inPlay && s.c.address(OpBlob(op)) in head.ops ==> MintedWithin(s, events, head, op)
  }

  ghost predicate MintedWithin(s: Setting, events: set<Event>, head: Collection, op: Op) {
    exists e :: e in events && e.op == op && SeenWithin(s, e, head)
  }

  ghost predicate SeenWithin(s: Setting, e: Event, head: Collection) {
    forall a :: a in e.seen ==> s.c.address(OpBlob(a)) in head.ops
  }

  /** Every operation outnumbers all its author had seen, and no head shows an operation
      without what its author had seen. */
  ghost predicate Causal(s: Setting, inPlay: iset<Blob>, net: Net) {
    && (forall e, a :: e in net.events && a in e.seen ==> a.claim.seqNo < e.op.claim.seqNo)
    && (forall h :: h in net.published ==> Closed(s, inPlay, net.events, net.published[h]))
  }

  lemma ClosedGrows(s: Setting, inPlay: iset<Blob>, few: set<Event>, many: set<Event>, head: Collection)
    requires few <= many && Closed(s, inPlay, few, head)
    ensures Closed(s, inPlay, many, head)
  {
    forall op | OpBlob(op) in inPlay && s.c.address(OpBlob(op)) in head.ops ensures MintedWithin(s, many, head, op) {
      assert MintedWithin(s, few, head, op);
    }
  }

  lemma ClosedLarger(s: Setting, events: set<Event>, small: Collection, large: Collection, op: Op)
    requires MintedWithin(s, events, small, op)
    requires forall h :: h in small.ops ==> h in large.ops
    ensures MintedWithin(s, events, large, op)
  {
    var e :| e in events && e.op == op && SeenWithin(s, e, small);
    assert SeenWithin(s, e, large);
  }

  lemma UnionClosed(s: Setting, inPlay: iset<Blob>, events: set<Event>, mine: Collection, theirs: Collection)
    requires Closed(s, inPlay, events, mine) && Closed(s, inPlay, events, theirs)
    ensures Closed(s, inPlay, events, MergedHead(mine, theirs))
  {
    var head := MergedHead(mine, theirs);
    forall op | OpBlob(op) in inPlay && s.c.address(OpBlob(op)) in head.ops ensures MintedWithin(s, events, head, op) {
      if s.c.address(OpBlob(op)) in mine.ops {
        ClosedLarger(s, events, mine, head, op);
      } else {
        ClosedLarger(s, events, theirs, head, op);
      }
    }
  }

  lemma MintingsOrdered(s: Setting, inPlay: iset<Blob>, blobs: Blobs, desk: Desk)
    requires Coherent(s.c, inPlay, blobs, desk)
    ensures forall e, a :: e in Mintings(s, blobs, desk) && a in e.seen ==> a.claim.seqNo < e.op.claim.seqNo
  {
    hide Folded, Shows, Base;
    var minted := Minted(s.c, desk);
    forall e, a | e in Mintings(s, blobs, desk) && a in e.seen ensures a.claim.seqNo < e.op.claim.seqNo {
      var k :| 0 <= k < |minted| && e == Event(minted[k], Elements(LoadOps(blobs, desk.ops)) + Elements(minted[..k]));
      if a in minted[..k] {
        var j :| 0 <= j < k && minted[..k][j] == a;
      }
    }
  }

  /** A publish whose builder opened on a closed head, or on nothing, publishes a closed head. */
  lemma PublishClosed(s: Setting, inPlay: iset<Blob>, events: set<Event>, blobs: Blobs, desk: Desk, before: Collection)
    requires CollisionFree(s.c, inPlay) && Coherent(s.c, inPlay, blobs, desk) && PublishInPlay(s.c, inPlay, desk)
    requires Closed(s, inPlay, events, before) && desk.ops == before.ops
    ensures Closed(s, inPlay, events + Mintings(s, blobs, desk), PublishedHead(s.c, desk))
  {
    hide Folded, Coherent;
    var minted := Minted(s.c, desk);
    var head := PublishedHead(s.c, desk);
    var many := events + Mintings(s, blobs, desk);
    CoherentHolds(s, inPlay, blobs, desk);
    forall op | OpBlob(op) in inPlay && s.c.address(OpBlob(op)) in head.ops ensures MintedWithin(s, many, head, op) {
      if s.c.address(OpBlob(op)) in before.ops {
        ClosedGrows(s, inPlay, events, many, before);
        ClosedLarger(s, many, before, head, op);
      } else {
        var m :| m in minted && s.c.address(OpBlob(op)) == s.c.address(OpBlob(m));
        assert OpBlob(m) in inPlay && m == op;
        var k :| 0 <= k < |minted| && minted[k] == op;
        MintingWithin(s, inPlay, blobs, desk, k);
      }
    }
  }

  lemma MintingWithin(s: Setting, inPlay: iset<Blob>, blobs: Blobs, desk: Desk, k: nat)
    requires Intact(s.c, inPlay, blobs) && k < |Minted(s.c, desk)|
    ensures MintedWithin(s, Mintings(s, blobs, desk), PublishedHead(s.c, desk), Minted(s.c, desk)[k])
  {
    var minted := Minted(s.c, desk);
    var e := Event(minted[k], Elements(LoadOps(blobs, desk.ops)) + Elements(minted[..k]));
    assert e in Mintings(s, blobs, desk);
    forall a | a in e.seen ensures s.c.address(OpBlob(a)) in PublishedHead(s.c, desk).ops {
      if a in minted[..k] {
        assert a in minted;
      } else {
        var h :| h in desk.ops && h in blobs && blobs[h] == OpBlob(a);
        assert s.c.address(blobs[h]) == h;
      }
    }
    assert SeenWithin(s, e, PublishedHead(s.c, desk));
  }

  /** Every step keeps causality. */
  lemma StepKeepsCausal(s: Setting, inPlay: iset<Blob>, net: Net, a: Action)
    requires CollisionFree(s.c, inPlay) && s.usable(s.name)
    requires Inv(s, inPlay, net) && Enabled(s, inPlay, net, a) && Causal(s, inPlay, net)
    ensures Causal(s, inPlay, Next(s, net, a))
  {
    match a {
      case StoreBlob(_, _) =>
      case Publish(at, edits) => PublishKeepsCausal(s, inPlay, net, a);
      case Pull(at, source, h) => PullKeepsCausal(s, inPlay, net, a);
    }
  }

  lemma PublishKeepsCausal(s: Setting, inPlay: iset<Blob>, net: Net, a: Action)
    requires CollisionFree(s.c, inPlay)
    requires Inv(s, inPlay, net) && Enabled(s, inPlay, net, a) && Causal(s, inPlay, net) && a.Publish?
    ensures Causal(s, inPlay, Next(s, net, a))
  {
    var r := net.replicas[a.at];
    var desk := DeskOf(s, r, a.edits);
    hide DeskOf, Mintings, PublishedHead, PublishedBlobs, Minted, CollisionFree, Intact, Coherent;
    assert GoodReplica(s, inPlay, net.published, r);
    PublishGood(s, inPlay, net.published, r, a.edits);
    MintingsOrdered(s, inPlay, r.blobs, desk);
    var before := if r.head.Some? then net.published[r.head.value] else NewHead("", s.name, s.owner, None, [], [], []);
    PublishClosed(s, inPlay, net.events, r.blobs, desk, before);
    var many := net.events + Mintings(s, r.blobs, desk);
    forall h | h in net.published ensures Closed(s, inPlay, many, net.published[h]) {
      ClosedGrows(s, inPlay, net.events, many, net.published[h]);
    }
    hide Closed;
  }

  lemma PullKeepsCausal(s: Setting, inPlay: iset<Blob>, net: Net, a: Action)
    requires CollisionFree(s.c, inPlay) && s.usable(s.name)
    requires Inv(s, inPlay, net) && Enabled(s, inPlay, net, a) && Causal(s, inPlay, net) && a.Pull?
    ensures Causal(s, inPlay, Next(s, net, a))
  {
    hide PullOutcome, GoodHead, Intact, CollisionFree, Closed, MergedHead;
    PullGood(s, inPlay, net, a);
    if LocalHead(net, a.at).Some? {
      UnionClosed(s, inPlay, net.events, LocalHead(net, a.at).value, net.published[a.head]);
    }
  }

  lemma {:induction false} RunKeepsCausal(s: Setting, inPlay: iset<Blob>, start: Net, actions: seq<Action>, end: Net)
    requires CollisionFree(s.c, inPlay) && s.usable(s.name)
    requires Inv(s, inPlay, start) && Causal(s, inPlay, start) && Runs(s, inPlay, start, actions, end)
    ensures Causal(s, inPlay, end)
    decreases |actions|
  {
    hide Inv, Next, Causal;
    if actions != [] {
      StepKeepsInv(s, inPlay, start, actions[0]);
      StepKeepsCausal(s, inPlay, start, actions[0]);
      RunKeepsCausal(s, inPlay, Next(s, start, actions[0]), actions[1..], end);
    }
  }

  /** A chain of mintings, each author having seen the operation before. */
  ghost predicate HappenedBefore(events: set<Event>, chain: seq<Op>) {
    && |chain| >= 2
    && forall i :: 1 <= i < |chain| ==> SeenBy(events, chain[i - 1], chain[i])
  }

  ghost predicate SeenBy(events: set<Event>, a: Op, b: Op) {
    exists e :: e in events && e.op == b && a in e.seen
  }

  lemma {:induction false} ChainRises(s: Setting, inPlay: iset<Blob>, net: Net, chain: seq<Op>)
    requires Causal(s, inPlay, net) && HappenedBefore(net.events, chain)
    ensures chain[0].claim.seqNo < chain[|chain| - 1].claim.seqNo
  {
    var n := |chain| - 1;
    assert SeenBy(net.events, chain[n - 1], chain[n]);
    if n > 1 {
      ChainRises(s, inPlay, net, chain[..n]);
    }
  }

  /** The fold order extends happened-before, at every replica of every run. */
  lemma CausalOrder(s: Setting, inPlay: iset<Blob>, n: nat, actions: seq<Action>, end: Net, chain: seq<Op>)
    requires CollisionFree(s.c, inPlay) && s.usable(s.name)
    requires Runs(s, inPlay, Empty(n), actions, end) && HappenedBefore(end.events, chain)
    ensures Precedes(s.c, chain[0], chain[|chain| - 1])
  {
    EmptyInv(s, inPlay, n);
    RunKeepsCausal(s, inPlay, Empty(n), actions, end);
    ChainRises(s, inPlay, end, chain);
  }

  /** Where a replica holds an add or remove of an item, no edit of that item which the
      author had seen decides the fold. */
  lemma SeenEditsAreOverridden(s: Setting, inPlay: iset<Blob>, net: Net, i: nat, e: Event, ci: Hash)
    requires CollisionFree(s.c, inPlay) && Inv(s, inPlay, net) && Causal(s, inPlay, net) && i < |net.replicas|
    requires LocalHead(net, i).Some? && e in net.events
    requires Counts(s.c, s.owner, e.op) && Touches(e.op, ci)
    requires e.op in LoadOps(net.replicas[i].blobs, LocalHead(net, i).value.ops)
    ensures exists w | Latest(s.c, s.owner, LoadOps(net.replicas[i].blobs, LocalHead(net, i).value.ops), ci, w) ::
      w !in e.seen && Find(FoldAt(s, net, i), ci) == Write(w)
  {
    hide Folded;
    var r := net.replicas[i];
    assert GoodReplica(s, inPlay, net.published, r);
    var ops := LoadOps(r.blobs, LocalHead(net, i).value.ops);
    LoadedInPlay(s.c, inPlay, r.blobs, LocalHead(net, i).value.ops);
    LastWriterWins(s.c, inPlay, s.owner, ops, ci);
    hide LoadOps, CollisionFree, Inv, InPlay, GoodReplica;
    var w :| Latest(s.c, s.owner, ops, ci, w);
    assert w == e.op || Precedes(s.c, e.op, w);
  }

  // ----- growth and quiescence -----

  lemma PullCases(s: Setting, inPlay: iset<Blob>, net: Net, a: Action)
    requires CollisionFree(s.c, inPlay) && s.usable(s.name)
    requires Inv(s, inPlay, net) && Enabled(s, inPlay, net, a) && a.Pull? && LocalHead(net, a.at).Some?
    ensures var mine, theirs, out := LocalHead(net, a.at).value, net.published[a.head], PullOutcome(s, net, a);
      if theirs.refs <= mine.refs then out.result == Ok(Unchanged) && out.refs == RefMap(s, net.replicas[a.at].head)
      else if mine.refs <= theirs.refs then out.result == Ok(Adopted(a.head)) && out.refs == map[s.name := a.head]
      else out.result.Ok? && out.result.value.Union?
  {
    hide Inv, CollisionFree, MergedHead, Fetched, MergeOutcome, Put, Indexed, Intact;
    PullReady(s, inPlay, net, a);
    MergeCases(s.c, inPlay, s.usable, Fetched(net, a), RefMap(s, net.replicas[a.at].head), s.name, a.head);
    hide Enabled;
  }

  /** A pull says `Unchanged` exactly when everything incoming was held, and then changes
      nothing; every other pull strictly enlarges the refs. */
  lemma PullGrows(s: Setting, inPlay: iset<Blob>, net: Net, a: Action)
    requires CollisionFree(s.c, inPlay) && s.usable(s.name)
    requires Inv(s, inPlay, net) && Enabled(s, inPlay, net, a) && a.Pull? && LocalHead(net, a.at).Some?
    ensures PullOutcome(s, net, a).result == Ok(Unchanged) <==> net.published[a.head].refs <= net.taken[a.at]
    ensures PullOutcome(s, net, a).result == Ok(Unchanged) ==>
      Next(s, net, a).replicas[a.at].head == net.replicas[a.at].head && Next(s, net, a).taken == net.taken
    ensures PullOutcome(s, net, a).result != Ok(Unchanged) ==> net.taken[a.at] < Next(s, net, a).taken[a.at]
  {
    PullCases(s, inPlay, net, a);
    hide PullOutcome, Enabled, CollisionFree, GoodReplica, GoodPublished;
    if PullOutcome(s, net, a).result == Ok(Unchanged) {
      assert net.taken[a.at] + net.published[a.head].refs == net.taken[a.at];
    }
  }

  /** A head published over another holds all its refs: a replica still on the old head
      adopts the new one verbatim, unless the publish added nothing. */
  lemma SuccessorIsAdopted(s: Setting, inPlay: iset<Blob>, net: Net, a: Action, pull: Action)
    requires CollisionFree(s.c, inPlay) && s.usable(s.name)
    requires Inv(s, inPlay, net) && Enabled(s, inPlay, net, a) && a.Publish? && LocalHead(net, a.at).Some?
    requires Enabled(s, inPlay, Next(s, net, a), pull) && pull.Pull?
    requires Next(s, net, a).replicas[pull.at].head == net.replicas[a.at].head
    requires pull.head == HeadHash(s, DeskOf(s, net.replicas[a.at], a.edits))
    ensures var head := PublishedHead(s.c, DeskOf(s, net.replicas[a.at], a.edits));
      && LocalHead(net, a.at).value.refs <= head.refs
      && PullOutcome(s, Next(s, net, a), pull).result ==
           if head.refs == LocalHead(net, a.at).value.refs then Ok(Unchanged) else Ok(Adopted(pull.head))
  {
    var after := Next(s, net, a);
    hide DeskOf, Inv, PublishedHead, PullOutcome, CollisionFree, HeadHash, LocalHead, HeadAt, Enabled, Next;
    SuccessorHolds(s, inPlay, net, a, pull.at);
    StepKeepsInv(s, inPlay, net, a);
    LargerHeadIsAdopted(s, inPlay, after, pull);
  }

  /** Pulling a head that holds all of mine adopts it, unless it holds no more. */
  lemma LargerHeadIsAdopted(s: Setting, inPlay: iset<Blob>, net: Net, pull: Action)
    requires CollisionFree(s.c, inPlay) && s.usable(s.name)
    requires Inv(s, inPlay, net) && Enabled(s, inPlay, net, pull) && pull.Pull? && LocalHead(net, pull.at).Some?
    requires LocalHead(net, pull.at).value.refs <= net.published[pull.head].refs
    ensures PullOutcome(s, net, pull).result ==
      if net.published[pull.head].refs == LocalHead(net, pull.at).value.refs then Ok(Unchanged)
      else Ok(Adopted(pull.head))
  {
    hide Inv, PullOutcome, CollisionFree, LocalHead;
    PullCases(s, inPlay, net, pull);
  }

  lemma SuccessorHolds(s: Setting, inPlay: iset<Blob>, net: Net, a: Action, at: nat)
    requires CollisionFree(s.c, inPlay)
    requires Inv(s, inPlay, net) && Enabled(s, inPlay, net, a) && a.Publish? && LocalHead(net, a.at).Some?
    requires at < |net.replicas| && Next(s, net, a).replicas[at].head == net.replicas[a.at].head
    ensures var desk := DeskOf(s, net.replicas[a.at], a.edits); var head := PublishedHead(s.c, desk);
      && LocalHead(net, a.at).value.refs <= head.refs
      && HeadHash(s, desk) in Next(s, net, a).published && Next(s, net, a).published[HeadHash(s, desk)] == head
      && LocalHead(Next(s, net, a), at) == LocalHead(net, a.at)
  {
    var r := net.replicas[a.at];
    var head := PublishedHead(s.c, DeskOf(s, r, a.edits));
    hide Coherent, CollisionFree, GoodHead, Mintings, PublishedBlobs, EditedAll;
    assert GoodReplica(s, inPlay, net.published, r);
    PublishGood(s, inPlay, net.published, r, a.edits);
    assert HeadBlob(head) in inPlay;
    hide DeskOf, PublishedHead, Enabled;
    SameHashSameHead(s, inPlay, net, r.head.value, head);
  }

  lemma SameHashSameHead(s: Setting, inPlay: iset<Blob>, net: Net, h: Hash, head: Collection)
    requires CollisionFree(s.c, inPlay) && Inv(s, inPlay, net) && h in net.published && HeadBlob(head) in inPlay
    ensures s.c.address(HeadBlob(head)) == h ==> net.published[h] == head
  {
    assert WellMade(s, inPlay, net.published[h]);
  }

  // ----- only finitely many changes -----

  /** All published refs lie in `all`. */
  ghost predicate Bounded(net: Net, all: set<Hash>) {
    forall h :: h in net.published ==> net.published[h].refs <= all
  }

  function RoomAt(net: Net, all: set<Hash>, i: nat): int
    requires i < |net.replicas| == |net.taken|
  {
    if net.replicas[i].head.None? then |all| + 1 else |all| - |net.taken[i]|
  }

  /** How far the first `n` replicas can still grow. */
  function Room(net: Net, all: set<Hash>, n: nat): int
    requires n <= |net.replicas| == |net.taken|
  {
    if n == 0 then 0 else Room(net, all, n - 1) + RoomAt(net, all, n - 1)
  }

  ghost predicate Changes(s: Setting, net: Net, a: Action)
    requires a.Pull? && a.at < |net.replicas| == |net.taken| && a.source < |net.replicas| && a.head in net.published
  {
    Next(s, net, a).replicas[a.at].head != net.replicas[a.at].head
  }

  /** How many head changes a run of pulls makes. */
  ghost function ChangeCount(s: Setting, inPlay: iset<Blob>, net: Net, pulls: seq<Action>, end: Net): nat
    requires Runs(s, inPlay, net, pulls, end) && forall a :: a in pulls ==> a.Pull?
    decreases |pulls|
  {
    if pulls == [] then 0
    else (if Changes(s, net, pulls[0]) then 1 else 0) + ChangeCount(s, inPlay, Next(s, net, pulls[0]), pulls[1..], end)
  }

  lemma {:induction false} RoomChanged(before: Net, after: Net, all: set<Hash>, at: nat, n: nat)
    requires n <= |before.replicas| == |before.taken| == |after.replicas| == |after.taken| && at < |before.replicas|
    requires forall i :: 0 <= i < |before.replicas| && i != at ==>
      after.replicas[i] == before.replicas[i] && after.taken[i] == before.taken[i]
    ensures Room(after, all, n) ==
      Room(before, all, n) + if at < n then RoomAt(after, all, at) - RoomAt(before, all, at) else 0
  {
    if n > 0 {
      RoomChanged(before, after, all, at, n - 1);
    }
  }

  lemma {:induction false} RoomNotNegative(net: Net, all: set<Hash>, n: nat)
    requires n <= |net.replicas| == |net.taken|
    requires forall i :: 0 <= i < |net.replicas| ==> RoomAt(net, all, i) >= 0
    ensures Room(net, all, n) >= 0
  {
    if n > 0 {
      RoomNotNegative(net, all, n - 1);
    }
  }

  lemma TakenBounded(s: Setting, inPlay: iset<Blob>, net: Net, all: set<Hash>, i: nat)
    requires Inv(s, inPlay, net) && Bounded(net, all) && i < |net.replicas|
    ensures net.taken[i] <= all && RoomAt(net, all, i) >= 0
  {
    Smaller(net.taken[i], all);
  }

  lemma PullTaken(s: Setting, inPlay: iset<Blob>, net: Net, a: Action, all: set<Hash>)
    requires CollisionFree(s.c, inPlay) && s.usable(s.name)
    requires Inv(s, inPlay, net) && Enabled(s, inPlay, net, a) && a.Pull? && Bounded(net, all)
    ensures Bounded(Next(s, net, a), all)
  {
    PullGood(s, inPlay, net, a);
    hide PullOutcome, GoodHead, Intact, CollisionFree, GoodPublished, GoodReplica, Enabled, Inv;
    assert net.published[a.head].refs <= all;
    var head := LocalHead(net, a.at);
    assert head.Some? ==> head.value.refs <= all;
  }

  lemma PullIsLocal(s: Setting, inPlay: iset<Blob>, net: Net, a: Action)
    requires Enabled(s, inPlay, net, a) && a.Pull?
    ensures var after := Next(s, net, a);
      && |net.replicas| == |net.taken| == |after.replicas| == |after.taken| && a.at < |net.replicas|
      && forall i :: 0 <= i < |net.replicas| && i != a.at ==>
           after.replicas[i] == net.replicas[i] && after.taken[i] == net.taken[i]
  {
    hide PullOutcome;
  }

  lemma RoomAtDrops(s: Setting, inPlay: iset<Blob>, net: Net, a: Action, all: set<Hash>)
    requires CollisionFree(s.c, inPlay) && s.usable(s.name)
    requires Inv(s, inPlay, net) && Enabled(s, inPlay, net, a) && a.Pull? && Bounded(net, all)
    requires |Next(s, net, a).replicas| == |net.replicas| == |Next(s, net, a).taken| && a.at < |net.replicas|
    ensures RoomAt(Next(s, net, a), all, a.at) <= RoomAt(net, all, a.at) - if Changes(s, net, a) then 1 else 0
  {
    var after := Next(s, net, a);
    HeadIsLocal(s, inPlay, net, a.at);
    hide PullOutcome, CollisionFree, Inv, Bounded, Enabled;
    StepKeepsInv(s, inPlay, net, a);
    PullTaken(s, inPlay, net, a, all);
    TakenBounded(s, inPlay, after, all, a.at);
    if LocalHead(net, a.at).Some? {
      PullGrows(s, inPlay, net, a);
      hide Next, LocalHead;
      Smaller(net.taken[a.at], after.taken[a.at]);
    }
  }

  lemma HeadIsLocal(s: Setting, inPlay: iset<Blob>, net: Net, at: nat)
    requires Inv(s, inPlay, net) && at < |net.replicas|
    ensures net.replicas[at].head.Some? <==> LocalHead(net, at).Some?
  {
    assert GoodReplica(s, inPlay, net.published, net.replicas[at]);
  }

  /** A head change uses up room at its replica and nowhere else. */
  lemma PullUsesRoom(s: Setting, inPlay: iset<Blob>, net: Net, a: Action, all: set<Hash>)
    requires CollisionFree(s.c, inPlay) && s.usable(s.name)
    requires Inv(s, inPlay, net) && Enabled(s, inPlay, net, a) && a.Pull? && Bounded(net, all)
    ensures |Next(s, net, a).replicas| == |net.replicas| == |Next(s, net, a).taken|
    ensures Room(Next(s, net, a), all, |net.replicas|)
      <= Room(net, all, |net.replicas|) - if Changes(s, net, a) then 1 else 0
  {
    hide Next, CollisionFree, Inv, Bounded, RoomAt, Changes, PullOutcome;
    PullIsLocal(s, inPlay, net, a);
    RoomAtDrops(s, inPlay, net, a, all);
    RoomChanged(net, Next(s, net, a), all, a.at, |net.replicas|);
  }

  lemma AllRoom(s: Setting, inPlay: iset<Blob>, net: Net, all: set<Hash>)
    requires Inv(s, inPlay, net) && Bounded(net, all)
    ensures |net.replicas| == |net.taken| && Room(net, all, |net.replicas|) >= 0
  {
    forall i | 0 <= i < |net.replicas| ensures RoomAt(net, all, i) >= 0 { TakenBounded(s, inPlay, net, all, i); }
    RoomNotNegative(net, all, |net.replicas|);
  }

  /** Without new edits, a run changes heads no more often than there is room to grow, whatever
      is pulled and in whatever order. */
  lemma {:induction false} FinitelyManyChanges(s: Setting, inPlay: iset<Blob>, net: Net, pulls: seq<Action>, end: Net,
                                               all: set<Hash>)
    requires CollisionFree(s.c, inPlay) && s.usable(s.name)
    requires Inv(s, inPlay, net) && Bounded(net, all)
    requires Runs(s, inPlay, net, pulls, end) && forall a :: a in pulls ==> a.Pull?
    ensures |net.replicas| == |net.taken|
    ensures ChangeCount(s, inPlay, net, pulls, end) <= Room(net, all, |net.replicas|)
    decreases |pulls|
  {
    hide Inv, Bounded, CollisionFree, Room, Changes;
    AllRoom(s, inPlay, net, all);
    if pulls != [] {
      StepKeepsInv(s, inPlay, net, pulls[0]);
      PullTaken(s, inPlay, net, pulls[0], all);
      PullUsesRoom(s, inPlay, net, pulls[0], all);
      FinitelyManyChanges(s, inPlay, Next(s, net, pulls[0]), pulls[1..], end, all);
      hide Next, Enabled;
    }
  }
}
