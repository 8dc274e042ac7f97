/** Two nodes reading each other: what one reading teaches about addresses, what an exchange
    leaves, and when readings that cross go on teaching for ever. */
module Crossings {
  import opened Options
  import opened Presence
  import opened Gossip
  import opened Remerging

  // ----- one reading -----

  /** Merging the view changes what is known of addresses. */
  predicate TaughtBy(node: Node, view: View) {
    Teaches(node, view.addr, None) || AnyTeaches(Recorded(node, view.addr, None), view.peers, view.addr.id)
  }

  /** The other knows a third that the node does not, or at other addresses. */
  predicate Brings(node: Node, other: Node, third: string) {
    && third in other.known && third != node.id && third !in node.forgotten
    && (third in node.known ==>
          other.known[third].addrs != {} && node.known[third].addrs != other.known[third].addrs)
  }

  /** Nobody is both known and forgotten. */
  ghost predicate Clear(node: Node) {
    node.known.Keys !! node.forgotten
  }

  lemma {:induction false} RecordedAllClear(node: Node, peers: seq<Addr>, sender: string)
    requires Clear(node)
    ensures Clear(RecordedAll(node, peers, sender))
  {
    if peers != [] {
      RecordedAllClear(node, peers[..|peers| - 1], sender);
    }
  }

  /** Every merge and every forgetting leaves that so. */
  lemma ClearStays(node: Node, view: View, at: Moment, ids: seq<string>)
    requires Clear(node)
    ensures Clear(Merged(node, view, at)) && Clear(WithoutPeers(node, ids))
  {
    RecordedAllClear(Recorded(node, view.addr, None), view.peers, view.addr.id);
    hide RecordedAll, Informs, MergedBook, ForgottenAll;
  }

  /** Reading a sound node teaches addresses exactly when its own are news, or it brings a third. */
  lemma ReadingTeachesExactly(x: Node, y: Node, view: View, shown: Moment)
    requires Sound(y) && ViewOf(y, view, shown)
    ensures TaughtBy(x, view) <==> Teaches(x, view.addr, None) || exists third :: Brings(x, y, third)
  {
    var first := Recorded(x, view.addr, None);
    NothingTaught(first, view.peers, view.addr.id);
    forall addr | addr in view.peers
      ensures Filed(first, addr, view.addr.id) <==> !Brings(x, y, addr.id)
    {
      assert addr.id != view.addr.id && y.known[addr.id] == addr;
    }
    hide AnyTeaches, Teaches, Recorded, Filed;
    if third :| Brings(x, y, third) {
      assert y.known[third] in view.peers;
    }
    if TaughtBy(x, view) && !Teaches(x, view.addr, None) {
      var addr :| addr in view.peers && !Filed(first, addr, view.addr.id);
      assert Brings(x, y, addr.id);
    }
  }

  lemma {:induction false} Untouched(node: Node, peers: seq<Addr>, sender: string, id: string)
    requires forall addr :: addr in peers ==> addr.id != id
    ensures var after := RecordedAll(node, peers, sender);
      && (id in after.known <==> id in node.known) && (id in node.known ==> after.known[id] == node.known[id])
  {
    if peers != [] {
      hide Teaches;
      assert peers[|peers| - 1] in peers;
      Untouched(node, peers[..|peers| - 1], sender, id);
    }
  }

  /** Of a view that names each id once, each peer is recorded as if it came alone. */
  lemma {:induction false} Alone(node: Node, peers: seq<Addr>, sender: string, addr: Addr)
    requires DistinctIds(peers) && addr in peers
    ensures var after, one := RecordedAll(node, peers, sender), Recorded(node, addr, Some(sender));
      && (addr.id in after.known <==> addr.id in one.known)
      && (addr.id in one.known ==> after.known[addr.id] == one.known[addr.id])
  {
    var front, last := peers[..|peers| - 1], peers[|peers| - 1];
    assert peers == front + [last];
    IntroducedAllKeeps(node, front, sender);
    if last == addr {
      Untouched(node, front, sender, addr.id);
    } else {
      assert addr in front && last.id != addr.id;
      Alone(node, front, sender, addr);
    }
  }

  /** What a node knows of a third once it has read another. */
  lemma ReadsThird(x: Node, y: Node, view: View, shown: Moment, at: Moment, third: string)
    requires Sound(y) && ViewOf(y, view, shown) && third != x.id && third != y.id
    ensures var after := Merged(x, view, at);
      && (third in after.forgotten <==> third in x.forgotten)
      && (third in after.known <==> third in x.known || (third in y.known && third !in x.forgotten))
      && (third in after.known ==>
            after.known[third].addrs == (if Brings(x, y, third) then y.known[third] else x.known[third]).addrs)
  {
    var first := Recorded(x, view.addr, None);
    IntroducedAllKeeps(first, view.peers, view.addr.id);
    if third in y.known {
      assert y.known[third] in view.peers;
      Alone(first, view.peers, view.addr.id, y.known[third]);
    } else {
      Untouched(first, view.peers, view.addr.id, third);
    }
    hide RecordedAll, Informs, MergedBook;
  }

  /** A node that has been read has its own addresses on file, until it shows others. */
  lemma OwnIsFiled(x: Node, y: Node, view: View, shown: Moment, at: Moment, next: View)
    requires Sound(y) && ViewOf(y, view, shown) && next.addr == view.addr
    ensures !Teaches(Merged(x, view, at), next.addr, None)
  {
    var first := Recorded(x, view.addr, None);
    IntroducedAllKeeps(first, view.peers, view.addr.id);
    Untouched(first, view.peers, view.addr.id, view.addr.id);
    hide RecordedAll, Informs, MergedBook;
  }

  // ----- one exchange, and readings that cross -----

  /** Both know the third, each at other addresses. */
  ghost predicate Disagree(x: Node, y: Node, third: string) {
    && third != x.id && third != y.id && third !in x.forgotten && third !in y.forgotten
    && third in x.known && third in y.known && x.known[third].addrs != y.known[third].addrs
    && x.known[third].addrs != {} && y.known[third].addrs != {}
  }

  ghost predicate Quarrel(x: Node, y: Node) {
    exists third :: Disagree(x, y, third)
  }

  /** What every node of a run is: sound, and clear. */
  ghost predicate Proper(node: Node) {
    Sound(node) && Clear(node)
  }

  lemma ProperStays(node: Node, view: View, at: Moment)
    requires Proper(node)
    ensures Proper(Merged(node, view, at)) && Merged(node, view, at).id == node.id
  {
    MergeKeepsSound(node, view, at);
    ClearStays(node, view, at, []);
    RecordedKeeps(node, view.addr, None);
    RecordedAllKeeps(Recorded(node, view.addr, None), view.peers, view.addr.id);
    hide Recorded, RecordedAll, Informs, MergedBook;
  }

  /** An exchange, in which the node called merges before it replies, leaves nothing either could
      still bring the other. */
  lemma ExchangeAgrees(x: Node, y: Node, fromX: View, reply: View, shown: Moment, heard: Moment, at: Moment)
    requires Proper(x) && Proper(y) && x.id != y.id && ViewOf(x, fromX, shown)
    requires ViewOf(Merged(y, fromX, heard), reply, heard)
    ensures var called := Merged(y, fromX, heard); var caller := Merged(x, reply, at);
      forall third | third != x.id && third != y.id :: !Brings(caller, called, third) && !Brings(called, caller, third)
  {
    var called := Merged(y, fromX, heard);
    var caller := Merged(x, reply, at);
    ProperStays(y, fromX, heard);
    ProperStays(x, reply, at);
    forall third | third != x.id && third != y.id
      ensures !Brings(caller, called, third) && !Brings(called, caller, third)
    {
      hide Merged, ViewOf;
      ReadsThird(y, x, fromX, shown, heard, third);
      ReadsThird(x, called, reply, heard, at, third);
    }
  }

  /** After two readings that cross, each brings the other exactly what they disagreed on. */
  lemma CrossedBrings(x: Node, y: Node, fromX: View, fromY: View, at: Moment, third: string)
    requires Proper(x) && Proper(y) && x.id != y.id && ViewOf(x, fromX, at) && ViewOf(y, fromY, at)
    ensures var nextX, nextY := Merged(x, fromY, at), Merged(y, fromX, at);
      && (Brings(nextX, nextY, third) <==> Disagree(x, y, third))
      && (Disagree(nextX, nextY, third) <==> Disagree(x, y, third))
  {
    var nextX, nextY := Merged(x, fromY, at), Merged(y, fromX, at);
    ProperStays(x, fromY, at);
    ProperStays(y, fromX, at);
    hide Merged, ViewOf;
    if third != x.id && third != y.id {
      ReadsThird(x, y, fromY, at, at, third);
      ReadsThird(y, x, fromX, at, at, third);
    }
  }

  /** Two views sent at once, each read by the other. */
  datatype Crossing = Crossing(fromX: View, fromY: View, at: Moment)

  function AfterX(x: Node, y: Node, rounds: seq<Crossing>): Node
    decreases |rounds|
  {
    if rounds == [] then x
    else AfterX(Merged(x, rounds[0].fromY, rounds[0].at), Merged(y, rounds[0].fromX, rounds[0].at), rounds[1..])
  }

  function AfterY(x: Node, y: Node, rounds: seq<Crossing>): Node
    decreases |rounds|
  {
    if rounds == [] then y
    else AfterY(Merged(x, rounds[0].fromY, rounds[0].at), Merged(y, rounds[0].fromX, rounds[0].at), rounds[1..])
  }

  ghost predicate Cross(x: Node, y: Node, rounds: seq<Crossing>)
    decreases |rounds|
  {
    rounds != [] ==>
      && ViewOf(x, rounds[0].fromX, rounds[0].at) && ViewOf(y, rounds[0].fromY, rounds[0].at)
      && Cross(Merged(x, rounds[0].fromY, rounds[0].at), Merged(y, rounds[0].fromX, rounds[0].at), rounds[1..])
  }

  /** One crossing round: both are taught whatever they disagree on, swap it, and go on disagreeing. */
  lemma CrossedOnce(x: Node, y: Node, view: View, at: Moment, third: string)
    requires Sound(x) && Sound(y) && Disagree(x, y, third) && ViewOf(y, view, at)
    ensures var after := Merged(x, view, at);
      && Informs(x, view, at) && after.version == x.version + 1 && Sound(after) && after.id == x.id
      && third in after.known && after.known[third].addrs == y.known[third].addrs && third !in after.forgotten
  {
    assert Brings(x, y, third);
    ReadingTeachesExactly(x, y, view, at);
    ReadsThird(x, y, view, at, at, third);
    MergeKeepsSound(x, view, at);
    RecordedKeeps(x, view.addr, None);
    RecordedAllKeeps(Recorded(x, view.addr, None), view.peers, view.addr.id);
    hide Recorded, RecordedAll, AnyTeaches, Teaches, MergedBook, Visible, AfterHearing, SameAdverts, Brings, Sound;
  }

  /** Without agreement gossip need not come to rest: two nodes that know a third at different
      addresses, and whose readings keep crossing, swap them and are informed in every round. */
  lemma {:induction false} CrossedForever(x: Node, y: Node, rounds: seq<Crossing>, third: string)
    requires Sound(x) && Sound(y) && Disagree(x, y, third) && Cross(x, y, rounds)
    ensures Disagree(AfterX(x, y, rounds), AfterY(x, y, rounds), third)
    ensures AfterX(x, y, rounds).version == x.version + |rounds| && AfterY(x, y, rounds).version == y.version + |rounds|
    decreases |rounds|
  {
    if rounds != [] {
      var round := rounds[0];
      CrossedOnce(x, y, round.fromY, round.at, third);
      CrossedOnce(y, x, round.fromX, round.at, third);
      hide ViewOf, Merged, Informs, Sound;
      CrossedForever(Merged(x, round.fromY, round.at), Merged(y, round.fromX, round.at), rounds[1..], third);
    }
  }

  /** Each node shows the same addresses of itself in every round. */
  predicate ShowThemselves(rounds: seq<Crossing>, ofX: Addr, ofY: Addr) {
    forall round | round in rounds :: round.fromX.addr == ofX && round.fromY.addr == ofY
  }

  /** After one crossing the next reading teaches exactly when there was a quarrel. */
  lemma CrossedThenTaught(x: Node, y: Node, fromX: View, fromY: View, at: Moment, next: View, shown: Moment)
    requires Proper(x) && Proper(y) && x.id != y.id && ViewOf(x, fromX, at) && ViewOf(y, fromY, at)
    requires ViewOf(Merged(y, fromX, at), next, shown) && next.addr == fromY.addr
    ensures TaughtBy(Merged(x, fromY, at), next) <==> Quarrel(x, y)
  {
    var nextX, nextY := Merged(x, fromY, at), Merged(y, fromX, at);
    ProperStays(y, fromX, at);
    OwnIsFiled(x, y, fromY, at, at, next);
    ReadingTeachesExactly(nextX, nextY, next, shown);
    hide Merged, ViewOf, TaughtBy, Teaches, Brings, Disagree;
    forall third ensures Brings(nextX, nextY, third) <==> Disagree(x, y, third) {
      CrossedBrings(x, y, fromX, fromY, at, third);
    }
  }

  lemma QuarrelTurned(x: Node, y: Node)
    ensures Quarrel(x, y) <==> Quarrel(y, x)
  {
    if third :| Disagree(x, y, third) {
      assert Disagree(y, x, third);
    }
    if third :| Disagree(y, x, third) {
      assert Disagree(x, y, third);
    }
  }

  lemma QuarrelStays(x: Node, y: Node, round: Crossing)
    requires Proper(x) && Proper(y) && x.id != y.id
    requires ViewOf(x, round.fromX, round.at) && ViewOf(y, round.fromY, round.at)
    ensures var nextX, nextY := Merged(x, round.fromY, round.at), Merged(y, round.fromX, round.at);
      && Proper(nextX) && Proper(nextY) && nextX.id == x.id && nextY.id == y.id
      && (Quarrel(nextX, nextY) <==> Quarrel(x, y))
  {
    var nextX, nextY := Merged(x, round.fromY, round.at), Merged(y, round.fromX, round.at);
    ProperStays(x, round.fromY, round.at);
    ProperStays(y, round.fromX, round.at);
    hide Merged, ViewOf, Disagree;
    forall third ensures Disagree(nextX, nextY, third) <==> Disagree(x, y, third) {
      CrossedBrings(x, y, round.fromX, round.fromY, round.at, third);
    }
  }

  /** The first of the rounds, and the rest. */
  lemma Unrolled(x: Node, y: Node, rounds: seq<Crossing>, ofX: Addr, ofY: Addr)
    requires rounds != [] && Cross(x, y, rounds) && ShowThemselves(rounds, ofX, ofY)
    ensures var round := rounds[0];
      var nextX, nextY := Merged(x, round.fromY, round.at), Merged(y, round.fromX, round.at);
      && ViewOf(x, round.fromX, round.at) && ViewOf(y, round.fromY, round.at)
      && round.fromX.addr == ofX && round.fromY.addr == ofY
      && Cross(nextX, nextY, rounds[1..]) && ShowThemselves(rounds[1..], ofX, ofY)
      && AfterX(x, y, rounds) == AfterX(nextX, nextY, rounds[1..])
      && AfterY(x, y, rounds) == AfterY(nextX, nextY, rounds[1..])
      && (|rounds| == 1 ==> AfterX(x, y, rounds) == nextX && AfterY(x, y, rounds) == nextY)
  {
    hide Merged, ViewOf;
    assert rounds[0] in rounds;
  }

  /** From the second round on, crossing readings teach addresses exactly when the two nodes
      disagreed on some third at the start: otherwise they come to rest after one round. */
  lemma {:induction false} CrossingsTeachExactly(x: Node, y: Node, rounds: seq<Crossing>, ofX: Addr, ofY: Addr,
                                                 next: Crossing)
    requires Proper(x) && Proper(y) && x.id != y.id && rounds != [] && Cross(x, y, rounds)
    requires ViewOf(AfterX(x, y, rounds), next.fromX, next.at) && ViewOf(AfterY(x, y, rounds), next.fromY, next.at)
    requires ShowThemselves(rounds, ofX, ofY) && next.fromX.addr == ofX && next.fromY.addr == ofY
    ensures TaughtBy(AfterX(x, y, rounds), next.fromY) <==> Quarrel(x, y)
    ensures TaughtBy(AfterY(x, y, rounds), next.fromX) <==> Quarrel(x, y)
    decreases |rounds|
  {
    hide *;
    var round := rounds[0];
    Unrolled(x, y, rounds, ofX, ofY);
    if |rounds| == 1 {
      CrossedThenTaught(x, y, round.fromX, round.fromY, round.at, next.fromY, next.at);
      CrossedThenTaught(y, x, round.fromY, round.fromX, round.at, next.fromX, next.at);
      QuarrelTurned(x, y);
    } else {
      QuarrelStays(x, y, round);
      CrossingsTeachExactly(Merged(x, round.fromY, round.at), Merged(y, round.fromX, round.at), rounds[1..],
                            ofX, ofY, next);
    }
  }
}
