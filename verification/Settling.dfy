/** When pulling has nothing left to do, and that it gets there. */
module Settling {
  import opened Options
  import opened Records
  import opened Store
  import opened Merge
  import opened Replicas
  import opened Convergence

  /** Replica `i` pulls the head replica `j` has now. */
  function CurrentPull(net: Net, i: nat, j: nat): Action
    requires j < |net.replicas| && net.replicas[j].head.Some?
  {
    Pull(i, j, net.replicas[j].head.value)
  }

  /** Pulling it would leave the head of `i` as it is. */
  ghost predicate Idle(s: Setting, inPlay: iset<Blob>, net: Net, i: nat, j: nat)
    requires i < |net.replicas| && j < |net.replicas| && net.replicas[j].head.Some?
  {
    var a := CurrentPull(net, i, j);
    Enabled(s, inPlay, net, a) ==> Next(s, net, a).replicas[i].head == net.replicas[i].head
  }

  /** No pull of any replica's current head would change a head. */
  ghost predicate Settled(s: Setting, inPlay: iset<Blob>, net: Net) {
    forall i, j | 0 <= i < |net.replicas| && 0 <= j < |net.replicas| && net.replicas[j].head.Some? ::
      Idle(s, inPlay, net, i, j)
  }

  /** The union of two heads of the collection is in play. */
  ghost predicate JoinsInPlay(s: Setting, inPlay: iset<Blob>) {
    forall a, b | WellMade(s, inPlay, a) && WellMade(s, inPlay, b) :: HeadBlob(MergedHead(a, b)) in inPlay
  }

  lemma CurrentPullEnabled(s: Setting, inPlay: iset<Blob>, net: Net, i: nat, j: nat)
    requires Inv(s, inPlay, net) && JoinsInPlay(s, inPlay)
    requires i < |net.replicas| && j < |net.replicas| && net.replicas[j].head.Some?
    ensures Enabled(s, inPlay, net, CurrentPull(net, i, j))
  {
    hide WellMade, MergedHead, Intact;
    var mine, theirs := net.replicas[i], net.replicas[j];
    assert GoodReplica(s, inPlay, net.published, mine) && GoodReplica(s, inPlay, net.published, theirs);
    if HeadAt(mine.blobs, mine.head).Some? {
      assert WellMade(s, inPlay, net.published[mine.head.value])
        && WellMade(s, inPlay, net.published[theirs.head.value]);
    }
  }

  lemma SameHeadSameRefs(s: Setting, inPlay: iset<Blob>, before: Net, after: Net, i: nat)
    requires CollisionFree(s.c, inPlay) && Inv(s, inPlay, before) && Inv(s, inPlay, after)
    requires i < |before.replicas| && i < |after.replicas|
    requires before.replicas[i].head.Some? && after.replicas[i].head == before.replicas[i].head
    ensures after.taken[i] == before.taken[i]
  {
    var h := before.replicas[i].head.value;
    assert GoodReplica(s, inPlay, before.published, before.replicas[i])
      && GoodReplica(s, inPlay, after.published, after.replicas[i]);
    hide GoodHead, Intact;
    assert HeadBlob(before.published[h]) in inPlay && HeadBlob(after.published[h]) in inPlay;
  }

  /** A pull leaves the head exactly when there is one and it holds every ref of the other. */
  lemma IdleExactly(s: Setting, inPlay: iset<Blob>, net: Net, i: nat, j: nat)
    requires CollisionFree(s.c, inPlay) && s.usable(s.name) && Inv(s, inPlay, net)
    requires i < |net.replicas| && j < |net.replicas| && net.replicas[j].head.Some?
    requires Enabled(s, inPlay, net, CurrentPull(net, i, j))
    ensures Next(s, net, CurrentPull(net, i, j)).replicas[i].head == net.replicas[i].head <==>
      net.replicas[i].head.Some? && RefsOf(net.published, net.replicas[j]) <= RefsOf(net.published, net.replicas[i])
  {
    var a := CurrentPull(net, i, j);
    var after := Next(s, net, a);
    HeadIsLocal(s, inPlay, net, i);
    TakenIsRefs(s, inPlay, net, i);
    StepKeepsInv(s, inPlay, net, a);
    if net.replicas[i].head.Some? {
      PullGrows(s, inPlay, net, a);
      hide Next, Enabled, Inv, PullOutcome, CollisionFree, LocalHead;
      if after.replicas[i].head == net.replicas[i].head {
        SameHeadSameRefs(s, inPlay, net, after, i);
      }
    } else {
      PullGood(s, inPlay, net, a);
      hide PullOutcome, Inv, CollisionFree, GoodHead, Intact;
    }
  }

  lemma TakenIsRefs(s: Setting, inPlay: iset<Blob>, net: Net, i: nat)
    requires Inv(s, inPlay, net) && i < |net.replicas|
    ensures |net.taken| == |net.replicas| && net.taken[i] == RefsOf(net.published, net.replicas[i])
  {
  }

  /** Nothing is left to pull exactly when no replica has a head, or all have one and they hold
      the same refs. */
  lemma SettledExactly(s: Setting, inPlay: iset<Blob>, net: Net)
    requires CollisionFree(s.c, inPlay) && s.usable(s.name) && Inv(s, inPlay, net) && JoinsInPlay(s, inPlay)
    ensures Settled(s, inPlay, net) <==>
      forall i, j | 0 <= i < |net.replicas| && 0 <= j < |net.replicas| && net.replicas[j].head.Some? ::
        net.replicas[i].head.Some? && RefsOf(net.published, net.replicas[j]) <= RefsOf(net.published, net.replicas[i])
  {
    hide Inv, JoinsInPlay, CollisionFree, RefsOf, Next, Enabled;
    forall i, j | 0 <= i < |net.replicas| && 0 <= j < |net.replicas| && net.replicas[j].head.Some?
      ensures Idle(s, inPlay, net, i, j) <==>
        net.replicas[i].head.Some? && RefsOf(net.published, net.replicas[j]) <= RefsOf(net.published, net.replicas[i])
    {
      CurrentPullEnabled(s, inPlay, net, i, j);
      IdleExactly(s, inPlay, net, i, j);
    }
  }

  /** All replicas have a head and show one list, or none has a head. */
  ghost predicate OneList(s: Setting, net: Net) {
    forall i, j | 0 <= i < |net.replicas| && 0 <= j < |net.replicas| && net.replicas[j].head.Some? ::
      net.replicas[i].head.Some? && FoldAt(s, net, i) == FoldAt(s, net, j)
  }

  /** Once no pull would change a head, every replica shows the same list. */
  lemma SettledConverged(s: Setting, inPlay: iset<Blob>, net: Net)
    requires CollisionFree(s.c, inPlay) && s.usable(s.name) && Inv(s, inPlay, net) && JoinsInPlay(s, inPlay)
    requires Settled(s, inPlay, net)
    ensures OneList(s, net)
  {
    SettledExactly(s, inPlay, net);
    hide Settled, FoldAt;
    forall i, j | 0 <= i < |net.replicas| && 0 <= j < |net.replicas| && net.replicas[j].head.Some?
      ensures net.replicas[i].head.Some? && FoldAt(s, net, i) == FoldAt(s, net, j)
    {
      assert RefsOf(net.published, net.replicas[j]) <= RefsOf(net.published, net.replicas[i]);
      assert RefsOf(net.published, net.replicas[i]) <= RefsOf(net.published, net.replicas[j]);
      TakenIsRefs(s, inPlay, net, i);
      TakenIsRefs(s, inPlay, net, j);
      SameRefsSameFold(s, inPlay, net, i, j);
    }
  }

  /** A pull of another's current head that changes the puller's. */
  ghost predicate Useful(s: Setting, inPlay: iset<Blob>, net: Net, a: Action) {
    && a.Pull? && Enabled(s, inPlay, net, a) && net.replicas[a.source].head == Some(a.head) && Changes(s, net, a)
  }

  /** A run of useful pulls, each chosen in any way. */
  ghost predicate UsefulRun(s: Setting, inPlay: iset<Blob>, net: Net, pulls: seq<Action>, end: Net)
    decreases |pulls|
  {
    if pulls == [] then net == end
    else Useful(s, inPlay, net, pulls[0]) && UsefulRun(s, inPlay, Next(s, net, pulls[0]), pulls[1..], end)
  }

  /** However the useful pulls are chosen there are no more of them than there is room to grow,
      and once none is left every replica shows the same list. */
  lemma {:induction false} UsefulRunsConverge(s: Setting, inPlay: iset<Blob>, net: Net, pulls: seq<Action>, end: Net,
                                              all: set<Hash>)
    requires CollisionFree(s.c, inPlay) && s.usable(s.name) && JoinsInPlay(s, inPlay)
    requires Inv(s, inPlay, net) && Bounded(net, all) && UsefulRun(s, inPlay, net, pulls, end)
    ensures Inv(s, inPlay, end) && Bounded(end, all) && |net.replicas| == |net.taken|
    ensures |end.replicas| == |end.taken| == |net.replicas|
    ensures |pulls| + Room(end, all, |end.replicas|) <= Room(net, all, |net.replicas|)
    ensures Room(end, all, |end.replicas|) >= 0
    ensures (forall a :: !Useful(s, inPlay, end, a)) ==> OneList(s, end)
    decreases |pulls|
  {
    hide Inv, Bounded, CollisionFree, Room, Changes, JoinsInPlay;
    AllRoom(s, inPlay, net, all);
    if pulls == [] {
      if forall a :: !Useful(s, inPlay, end, a) {
        NoneUsefulIsSettled(s, inPlay, end);
        SettledConverged(s, inPlay, end);
      }
    } else {
      StepKeepsInv(s, inPlay, net, pulls[0]);
      PullTaken(s, inPlay, net, pulls[0], all);
      PullUsesRoom(s, inPlay, net, pulls[0], all);
      hide Next, Enabled, OneList;
      UsefulRunsConverge(s, inPlay, Next(s, net, pulls[0]), pulls[1..], end, all);
    }
  }

  lemma NoneUsefulIsSettled(s: Setting, inPlay: iset<Blob>, net: Net)
    requires Inv(s, inPlay, net) && forall a :: !Useful(s, inPlay, net, a)
    ensures Settled(s, inPlay, net)
  {
    forall i, j | 0 <= i < |net.replicas| && 0 <= j < |net.replicas| && net.replicas[j].head.Some?
      ensures Idle(s, inPlay, net, i, j)
    {
      hide Next, Inv;
      assert !Useful(s, inPlay, net, CurrentPull(net, i, j));
    }
  }

  /** And such a run exists from every reachable state: the replicas do converge. */
  lemma {:induction false} ReplicasConverge(s: Setting, inPlay: iset<Blob>, net: Net, all: set<Hash>)
      returns (pulls: seq<Action>, end: Net)
    requires CollisionFree(s.c, inPlay) && s.usable(s.name) && JoinsInPlay(s, inPlay)
    requires Inv(s, inPlay, net) && Bounded(net, all) && |net.replicas| == |net.taken|
    ensures UsefulRun(s, inPlay, net, pulls, end) && |pulls| <= Room(net, all, |net.replicas|)
    ensures Settled(s, inPlay, end) && OneList(s, end)
    decreases Room(net, all, |net.replicas|)
  {
    hide Inv, Bounded, CollisionFree, Room, Changes, JoinsInPlay, Settled, OneList;
    AllRoom(s, inPlay, net, all);
    if a :| Useful(s, inPlay, net, a) {
      StepKeepsInv(s, inPlay, net, a);
      PullTaken(s, inPlay, net, a, all);
      PullUsesRoom(s, inPlay, net, a, all);
      hide Next, Enabled;
      var rest;
      var next := Next(s, net, a);
      AllRoom(s, inPlay, next, all);
      rest, end := ReplicasConverge(s, inPlay, next, all);
      pulls := [a] + rest;
      assert pulls[1..] == rest;
    } else {
      pulls, end := [], net;
      NoneUsefulIsSettled(s, inPlay, net);
      SettledConverged(s, inPlay, net);
    }
  }
}
