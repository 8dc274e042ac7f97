/** When gossip comes to rest: how often merges can still inform the nodes of a mesh, and what
    keeps them informing for ever. */
module Heartbeat {
  import opened Options
  import opened Records
  import opened Presence
  import opened Gossip
  import opened Hearsay

  /** What holds of each id: its addresses, the refs it adverts, and its table. */
  datatype Truth = Truth(
    home: string -> set<string>,
    adverts: string -> seq<RefAdvert>,
    table: string -> Option<string>)

  /** The ids and tables there are. */
  datatype Scope = Scope(ids: set<string>, tables: set<(string, string)>)

  // ----- what is left to learn -----

  function Unmet(scope: Scope, node: Node): set<string> {
    scope.ids - node.known.Keys
  }

  function Unread(t: Truth, scope: Scope, peerRefs: map<string, seq<RefAdvert>>): set<string> {
    set id | id in scope.ids && !(id in peerRefs && SameAdverts(peerRefs[id], t.adverts(id)))
  }

  /** The host's own word stands: its table is live first-hand, or its silence is on record, so
      no hearsay about it is taken. */
  predicate Spoken(t: Truth, book: Book, host: string, at: Moment) {
    && (forall key: (string, string) | key in book.relayed :: key.0 != host)
    && match t.table(host)
       case Some(name) => Direct(book, host, at.now) && book.firstHand[host].name == name
       case None => host !in book.firstHand && host in book.withdrawn && book.withdrawn[host] >= at.epoch
  }

  ghost function Unheard(t: Truth, scope: Scope, book: Book, at: Moment): set<string> {
    set id | id in scope.ids && !Spoken(t, book, id, at)
  }

  ghost function Unseen(t: Truth, scope: Scope, book: Book, at: Moment): set<(string, string)> {
    set key | key in scope.tables && !Spoken(t, book, key.0, at) && key !in Visible(book, at)
  }

  ghost function Left(t: Truth, scope: Scope, node: Node, at: Moment): nat {
    |Unmet(scope, node)| + |Unread(t, scope, node.peerRefs)|
    + |Unheard(t, scope, node.book, at)| + |Unseen(t, scope, node.book, at)|
  }

  /** The address is the one its id has. */
  predicate True(t: Truth, scope: Scope, addr: Addr) {
    addr.id in scope.ids && addr.addrs == t.home(addr.id)
  }

  ghost predicate TrueView(t: Truth, scope: Scope, view: View) {
    && True(t, scope, view.addr) && (forall addr :: addr in view.peers ==> True(t, scope, addr))
    && view.refs == t.adverts(view.addr.id) && view.table == t.table(view.addr.id)
    && forall line :: line in view.heard ==> (line.host, line.name) in scope.tables
  }

  ghost predicate TrueNode(t: Truth, scope: Scope, node: Node) {
    && (forall id :: id in node.known ==> node.known[id].id == id && True(t, scope, node.known[id]))
    && node.id in scope.ids && node.id !in node.known && node.table == t.table(node.id)
    && (forall host :: host in node.book.firstHand ==> (host, node.book.firstHand[host].name) in scope.tables)
    && (forall key :: key in node.book.relayed ==> key in scope.tables)
  }

  ghost predicate ScopeHolds(t: Truth, scope: Scope) {
    && (forall id :: id in scope.ids && t.table(id).Some? ==> (id, t.table(id).value) in scope.tables)
    && (forall key :: key in scope.tables ==> key.0 in scope.ids)
  }

  // ----- addresses and adverts -----

  lemma RecordedTrue(t: Truth, scope: Scope, node: Node, addr: Addr, via: Option<string>)
    requires TrueNode(t, scope, node) && True(t, scope, addr)
    ensures var after := Recorded(node, addr, via);
      && TrueNode(t, scope, after) && node.known.Keys <= after.known.Keys
      && (Teaches(node, addr, via) ==> addr.id !in node.known && addr.id in after.known)
  {
  }

  /** Where all addresses are true, only an id not known yet teaches anything. */
  lemma {:induction false} RecordedAllTrue(t: Truth, scope: Scope, node: Node, peers: seq<Addr>, sender: string)
    requires TrueNode(t, scope, node) && forall addr :: addr in peers ==> True(t, scope, addr)
    ensures var after := RecordedAll(node, peers, sender);
      && TrueNode(t, scope, after) && Unmet(scope, after) <= Unmet(scope, node)
      && (AnyTeaches(node, peers, sender) ==> Unmet(scope, after) < Unmet(scope, node))
  {
    if peers != [] {
      hide Recorded, Teaches, TrueNode;
      var front, last := peers[..|peers| - 1], peers[|peers| - 1];
      assert last in peers;
      RecordedAllTrue(t, scope, node, front, sender);
      RecordedTrue(t, scope, RecordedAll(node, front, sender), last, Some(sender));
      assert last.id in scope.ids;
    }
  }

  /** A merge teaches by address or by ref adverts. */
  predicate Lesson(node: Node, view: View) {
    || Teaches(node, view.addr, None) || AnyTeaches(Recorded(node, view.addr, None), view.peers, view.addr.id)
    || (view.addr.id in node.peerRefs ==> !SameAdverts(node.peerRefs[view.addr.id], view.refs))
  }

  lemma SameAsItself(refs: seq<RefAdvert>)
    ensures SameAdverts(refs, refs)
  {
  }

  /** At any time a lesson leaves fewer ids to meet or adverts to read, and no merge leaves more. */
  lemma LessonLeavesLess(t: Truth, scope: Scope, node: Node, view: View, at: Moment)
    requires TrueNode(t, scope, node) && TrueView(t, scope, view)
    ensures var after := Merged(node, view, at);
      && Unmet(scope, after) <= Unmet(scope, node)
        && Unread(t, scope, after.peerRefs) <= Unread(t, scope, node.peerRefs)
      && (Lesson(node, view) ==>
            Unmet(scope, after) < Unmet(scope, node)
              || Unread(t, scope, after.peerRefs) < Unread(t, scope, node.peerRefs))
  {
    var first, after := Recorded(node, view.addr, None), Merged(node, view, at);
    RecordedTrue(t, scope, node, view.addr, None);
    RecordedAllTrue(t, scope, first, view.peers, view.addr.id);
    RecordedKeeps(node, view.addr, None);
    RecordedAllKeeps(first, view.peers, view.addr.id);
    hide Recorded, RecordedAll, AnyTeaches, Teaches, TrueNode, Informs, MergedBook, SameAdverts;
    SameAsItself(view.refs);
    var sender := view.addr.id;
    assert sender in scope.ids && sender !in Unread(t, scope, after.peerRefs);
    if view.addr.id in node.peerRefs ==> !SameAdverts(node.peerRefs[sender], view.refs) {
      assert sender in Unread(t, scope, node.peerRefs);
    }
  }

  // ----- tables -----

  /** Hearing the host changes nothing about the others. */
  lemma OthersKeepTheirWord(t: Truth, book: Book, sender: string, at: Moment, host: string)
    requires host != sender
    ensures var after := AfterHearing(book, sender, t.table(sender), at);
      && (Spoken(t, after, host, at) <==> Spoken(t, book, host, at))
      && forall name :: (host, name) in Visible(after, at) <==> (host, name) in Visible(book, at)
  {
    hide Live, Standing, ListsHost;
    var after := AfterHearing(book, sender, t.table(sender), at);
    assert Direct(after, host, at.now) <==> Direct(book, host, at.now);
    forall name ensures (host, name) in Visible(after, at) <==> (host, name) in Visible(book, at) {
      ShownIs(after, at, host, name);
      ShownIs(book, at, host, name);
    }
    hide Visible;
    assert forall key: (string, string) | key.0 == host :: key in after.relayed <==> key in book.relayed;
  }

  lemma ShownIs(book: Book, at: Moment, host: string, name: string)
    ensures (host, name) in Visible(book, at) <==>
      || (Direct(book, host, at.now) && book.firstHand[host].name == name)
      || (!Direct(book, host, at.now) && (host, name) in book.relayed && Standing(book.relayed[(host, name)], at))
  {
    hide Live, Standing;
    if Direct(book, host, at.now) && book.firstHand[host].name == name {
      assert Entry(host, name, book.firstHand[host].heardAt, false) in Entries(book, at);
    }
    if !Direct(book, host, at.now) && (host, name) in book.relayed && Standing(book.relayed[(host, name)], at) {
      assert Entry(host, name, book.relayed[(host, name)].heardAt, true) in Entries(book, at);
    }
  }

  /** Once a host has spoken, what it says again changes nothing; a change makes it spoken. */
  lemma OwnWord(t: Truth, book: Book, sender: string, at: Moment, name: string)
    ensures var after := AfterHearing(book, sender, t.table(sender), at);
      && (Spoken(t, book, sender, at) ==> Spoken(t, after, sender, at))
      && (!Spoken(t, after, sender, at) || Spoken(t, book, sender, at) ==>
            ((sender, name) in Visible(after, at) <==> (sender, name) in Visible(book, at)))
  {
    var after := AfterHearing(book, sender, t.table(sender), at);
    ShownIs(after, at, sender, name);
    ShownIs(book, at, sender, name);
    if (sender, name) in Visible(book, at) {
      var e :| e in Entries(book, at) && (e.host, e.name) == (sender, name);
      assert ListsHost(book, sender, at);
    }
    hide Standing, Visible, Entries;
    assert forall key: (string, string) | key in after.relayed :: key.0 != sender;
  }

  lemma HearingLeavesLess(t: Truth, scope: Scope, book: Book, sender: string, at: Moment)
    requires sender in scope.ids
    ensures var after := AfterHearing(book, sender, t.table(sender), at);
      && Unheard(t, scope, after, at) <= Unheard(t, scope, book, at)
        && Unseen(t, scope, after, at) <= Unseen(t, scope, book, at)
      && (Visible(after, at) != Visible(book, at) ==> Unheard(t, scope, after, at) < Unheard(t, scope, book, at))
  {
    var after := AfterHearing(book, sender, t.table(sender), at);
    hide Spoken, Visible, AfterHearing;
    forall host | host != sender
      ensures Spoken(t, after, host, at) <==> Spoken(t, book, host, at)
      ensures forall name :: (host, name) in Visible(after, at) <==> (host, name) in Visible(book, at)
    {
      OthersKeepTheirWord(t, book, sender, at, host);
    }
    OwnWord(t, book, sender, at, "");
    forall name
      ensures !Spoken(t, after, sender, at) || Spoken(t, book, sender, at) ==>
        ((sender, name) in Visible(after, at) <==> (sender, name) in Visible(book, at))
    {
      OwnWord(t, book, sender, at, name);
    }
    if !Spoken(t, after, sender, at) || Spoken(t, book, sender, at) {
      forall key: (string, string) ensures key in Visible(after, at) <==> key in Visible(book, at) {
        var (host, name) := key;
        if host == sender {
          OwnWord(t, book, sender, at, name);
        } else {
          OthersKeepTheirWord(t, book, sender, at, host);
        }
      }
      assert Visible(after, at) == Visible(book, at);
    } else {
      assert sender in Unheard(t, scope, book, at) && sender !in Unheard(t, scope, after, at);
    }
  }

  lemma SweptSame(t: Truth, book: Book, at: Moment, host: string, name: string)
    ensures Spoken(t, book, host, at) ==> Spoken(t, Swept(book, at), host, at)
    ensures (host, name) in Visible(Swept(book, at), at) <==> (host, name) in Visible(book, at)
  {
    ShownIs(book, at, host, name);
    ShownIs(Swept(book, at), at, host, name);
    hide Standing, Visible;
  }

  /** One line of hearsay leaves every spoken word standing, and hides nothing. */
  lemma TookAdds(t: Truth, book: Book, reader: Reader, sender: string, entry: Heard, at: Moment, host: string,
                 name: string)
    requires entry.heardAt <= at.epoch
    ensures var after := Took(book, reader, sender, entry, at);
      && (Spoken(t, book, host, at) ==> Spoken(t, after, host, at))
      && ((host, name) in Visible(book, at) ==> (host, name) in Visible(after, at))
      && ((host, name) in Visible(after, at) && (host, name) !in Visible(book, at) ==>
            (host, name) == (entry.host, entry.name) && !Spoken(t, book, host, at))
  {
    var after := Took(book, reader, sender, entry, at);
    ShownIs(book, at, host, name);
    ShownIs(after, at, host, name);
    hide Visible, Live;
  }

  lemma TookLeavesLess(t: Truth, scope: Scope, book: Book, reader: Reader, sender: string, entry: Heard, at: Moment)
    requires entry.heardAt <= at.epoch && (entry.host, entry.name) in scope.tables
    ensures var after := Took(book, reader, sender, entry, at);
      && Unheard(t, scope, after, at) <= Unheard(t, scope, book, at)
        && Unseen(t, scope, after, at) <= Unseen(t, scope, book, at)
      && (Visible(after, at) != Visible(book, at) ==> Unseen(t, scope, after, at) < Unseen(t, scope, book, at))
  {
    var after := Took(book, reader, sender, entry, at);
    hide Spoken, Visible, Took;
    forall host ensures Spoken(t, book, host, at) ==> Spoken(t, after, host, at) {
      TookAdds(t, book, reader, sender, entry, at, host, "");
    }
    forall host, name
      ensures (host, name) in Visible(book, at) ==> (host, name) in Visible(after, at)
      ensures (host, name) in Visible(after, at) && (host, name) !in Visible(book, at) ==>
        (host, name) == (entry.host, entry.name) && !Spoken(t, book, host, at)
    {
      TookAdds(t, book, reader, sender, entry, at, host, name);
    }
    if Visible(after, at) != Visible(book, at) {
      var key: (string, string) :| (key in Visible(after, at)) != (key in Visible(book, at));
      assert key == (key.0, key.1);
      assert key in Unseen(t, scope, book, at) && key !in Unseen(t, scope, after, at);
    }
  }

  lemma {:induction false} TookAllLeavesLess(t: Truth, scope: Scope, book: Book, reader: Reader, sender: string,
                                             heard: seq<Heard>, at: Moment)
    requires forall line :: line in heard ==> line.heardAt <= at.epoch && (line.host, line.name) in scope.tables
    ensures var after := TookAll(book, reader, sender, heard, at);
      && Unheard(t, scope, after, at) <= Unheard(t, scope, book, at)
        && Unseen(t, scope, after, at) <= Unseen(t, scope, book, at)
      && (Visible(after, at) != Visible(book, at) ==> Unseen(t, scope, after, at) < Unseen(t, scope, book, at))
  {
    if heard != [] {
      hide Unheard, Unseen, Visible, Took;
      var front, last := heard[..|heard| - 1], heard[|heard| - 1];
      assert last in heard;
      TookAllLeavesLess(t, scope, book, reader, sender, front, at);
      TookLeavesLess(t, scope, TookAll(book, reader, sender, front, at), reader, sender, last, at);
    }
  }

  lemma LearningLeavesLess(t: Truth, scope: Scope, book: Book, reader: Reader, sender: string, heard: seq<Heard>,
                           at: Moment)
    requires forall line :: line in heard ==> line.heardAt <= at.epoch && (line.host, line.name) in scope.tables
    ensures var after := Learned(book, reader, sender, heard, at);
      && Unheard(t, scope, after, at) <= Unheard(t, scope, book, at)
        && Unseen(t, scope, after, at) <= Unseen(t, scope, book, at)
      && (Visible(after, at) != Visible(book, at) ==> Unseen(t, scope, after, at) < Unseen(t, scope, book, at))
  {
    var swept := Swept(book, at);
    hide Spoken, Visible, Swept;
    forall host ensures Spoken(t, book, host, at) ==> Spoken(t, swept, host, at) {
      SweptSame(t, book, at, host, "");
    }
    forall host, name ensures (host, name) in Visible(swept, at) <==> (host, name) in Visible(book, at)
    {
      SweptSame(t, book, at, host, name);
    }
    forall key: (string, string) ensures key in Visible(swept, at) <==> key in Visible(book, at) {
      assert key == (key.0, key.1);
    }
    assert Visible(swept, at) == Visible(book, at);
    assert Unheard(t, scope, swept, at) <= Unheard(t, scope, book, at);
    assert Unseen(t, scope, swept, at) <= Unseen(t, scope, book, at);
    hide Unheard, Unseen, TookAll;
    TookAllLeavesLess(t, scope, swept, reader, sender, heard, at);
  }

  // ----- one merge -----

  lemma Fewer<T>(a: set<T>, b: set<T>)
    requires a <= b
    ensures |a| <= |b| && (a < b ==> |a| < |b|)
  {
    Smaller(a, b);
  }

  /** A merge that informs the node leaves less to learn at that instant, and no merge leaves
      more. */
  lemma MergeLeavesLess(t: Truth, scope: Scope, node: Node, view: View, at: Moment)
    requires TrueNode(t, scope, node) && TrueView(t, scope, view)
    requires forall line :: line in view.heard ==> line.heardAt <= at.epoch
    ensures var after := Merged(node, view, at);
      after.version + Left(t, scope, after, at) <= node.version + Left(t, scope, node, at)
  {
    var after, met := Merged(node, view, at), Introduced(node, view);
    var heard := AfterHearing(node.book, view.addr.id, view.table, at);
    var reader := Reader(met.id, met.known.Keys);
    LessonLeavesLess(t, scope, node, view, at);
    IntroducedBook(node, view);
    HearingLeavesLess(t, scope, node.book, view.addr.id, at);
    assert TrueView(t, scope, view);
    LearningLeavesLess(t, scope, heard, reader, view.addr.id, view.heard, at);
    hide Introduced, Unmet, Unread, Unheard, Unseen, Visible, AfterHearing, Learned, SameAdverts, Teaches, AnyTeaches,
      TrueNode;
    Fewer(Unmet(scope, after), Unmet(scope, node));
    Fewer(Unread(t, scope, after.peerRefs), Unread(t, scope, node.peerRefs));
    Fewer(Unheard(t, scope, heard, at), Unheard(t, scope, node.book, at));
    Fewer(Unseen(t, scope, heard, at), Unseen(t, scope, node.book, at));
    Fewer(Unheard(t, scope, after.book, at), Unheard(t, scope, heard, at));
    Fewer(Unseen(t, scope, after.book, at), Unseen(t, scope, heard, at));
  }

  // ----- any run -----

  /** Every node and every view under way is true. */
  ghost predicate TrueWorld(t: Truth, scope: Scope, w: World) {
    && (forall i | 0 <= i < |w.nodes| :: TrueNode(t, scope, w.nodes[i]))
    && forall view | view in w.sent :: TrueView(t, scope, view)
  }

  /** Time passes, a node shows its own addresses and adverts as they are, or a view arrives. */
  predicate Truthfully(t: Truth, a: Action) {
    match a
    case Wait(_) => true
    case Show(_, view) => view.addr.addrs == t.home(view.addr.id) && view.refs == t.adverts(view.addr.id)
    case Deliver(_, _) => true
    case _ => false
  }

  lemma ShownIsTrue(t: Truth, scope: Scope, node: Node, view: View, at: Moment)
    requires TrueNode(t, scope, node) && ViewOf(node, view, at)
    requires view.addr.addrs == t.home(view.addr.id) && view.refs == t.adverts(view.addr.id)
    ensures TrueView(t, scope, view)
  {
    hide Standing, Direct;
    forall line | line in view.heard ensures (line.host, line.name) in scope.tables {
      assert line in Relays(node.book, at);
    }
  }

  /** Every table the book names is one there is. */
  ghost predicate BookWithin(scope: Scope, book: Book) {
    && (forall host :: host in book.firstHand ==> (host, book.firstHand[host].name) in scope.tables)
    && (forall key :: key in book.relayed ==> key in scope.tables)
  }

  lemma {:induction false} TookAllWithin(scope: Scope, book: Book, reader: Reader, sender: string, heard: seq<Heard>,
                                         at: Moment)
    requires BookWithin(scope, book) && forall line :: line in heard ==> (line.host, line.name) in scope.tables
    ensures BookWithin(scope, TookAll(book, reader, sender, heard, at))
  {
    if heard != [] {
      hide Admits;
      assert heard[|heard| - 1] in heard;
      TookAllWithin(scope, book, reader, sender, heard[..|heard| - 1], at);
    }
  }

  lemma HeardWithin(t: Truth, scope: Scope, book: Book, sender: string, at: Moment)
    requires ScopeHolds(t, scope) && BookWithin(scope, book) && sender in scope.ids
    ensures BookWithin(scope, AfterHearing(book, sender, t.table(sender), at))
  {
    hide ListsHost;
  }

  lemma SweptWithin(scope: Scope, book: Book, at: Moment)
    requires BookWithin(scope, book)
    ensures BookWithin(scope, Swept(book, at))
  {
    hide Standing, Fresh;
  }

  lemma MergeKeepsTrue(t: Truth, scope: Scope, node: Node, view: View, at: Moment)
    requires ScopeHolds(t, scope) && TrueNode(t, scope, node) && TrueView(t, scope, view)
    ensures TrueNode(t, scope, Merged(node, view, at))
  {
    var first, met := Recorded(node, view.addr, None), Introduced(node, view);
    RecordedTrue(t, scope, node, view.addr, None);
    RecordedAllTrue(t, scope, first, view.peers, view.addr.id);
    IntroducedBook(node, view);
    assert BookWithin(scope, node.book);
    var heard := AfterHearing(node.book, view.addr.id, view.table, at);
    HeardWithin(t, scope, node.book, view.addr.id, at);
    SweptWithin(scope, heard, at);
    hide Recorded, RecordedAll, Informs, AfterHearing, TookAll, Swept;
    TookAllWithin(scope, Swept(heard, at), Reader(met.id, met.known.Keys), view.addr.id, view.heard, at);
  }

  lemma StepKeepsTrue(t: Truth, scope: Scope, w: World, a: Action)
    requires ScopeHolds(t, scope) && TrueWorld(t, scope, w) && Enabled(w, a) && Truthfully(t, a)
    ensures TrueWorld(t, scope, Next(w, a))
  {
    hide TrueNode, TrueView, Merged, ViewOf, ScopeHolds;
    match a {
      case Deliver(i, view) => MergeKeepsTrue(t, scope, w.nodes[i], view, MomentOf(w.clock));
      case Show(i, view) => ShownIsTrue(t, scope, w.nodes[i], view, MomentOf(w.clock));
      case _ =>
    }
  }

  function Versions(nodes: seq<Node>): nat {
    if nodes == [] then 0 else nodes[0].version + Versions(nodes[1..])
  }

  ghost function LeftAll(t: Truth, scope: Scope, nodes: seq<Node>, at: Moment): nat {
    if nodes == [] then 0 else Left(t, scope, nodes[0], at) + LeftAll(t, scope, nodes[1..], at)
  }

  lemma {:induction false} OneChanges(t: Truth, scope: Scope, nodes: seq<Node>, i: nat, node: Node, at: Moment)
    requires i < |nodes|
    ensures LeftAll(t, scope, nodes[i := node], at) - Left(t, scope, node, at)
      == LeftAll(t, scope, nodes, at) - Left(t, scope, nodes[i], at)
    ensures Versions(nodes[i := node]) - node.version == Versions(nodes) - nodes[i].version
  {
    hide Left;
    if i == 0 {
      assert nodes[0 := node][1..] == nodes[1..];
    } else {
      assert nodes[i := node][1..] == nodes[1..][i - 1 := node];
      OneChanges(t, scope, nodes[1..], i - 1, node, at);
    }
  }

  lemma StampsSoFar(w: World, view: View)
    requires Inv(w) && view in w.sent
    ensures forall line :: line in view.heard ==> line.heardAt <= w.clock / SECOND
  {
    forall line | line in view.heard ensures line.heardAt <= w.clock / SECOND {
      assert GroundedView(view, w.log);
      var x :| x in w.log && x.host == line.host && x.name == line.name && x.at / SECOND == line.heardAt;
      Later(x.at, w.clock - x.at);
    }
  }

  lemma StepLeavesLess(t: Truth, scope: Scope, w: World, a: Action)
    requires Inv(w) && TrueWorld(t, scope, w) && Enabled(w, a) && Truthfully(t, a) && !a.Wait?
    ensures var next := Next(w, a); var at := MomentOf(w.clock);
      && next.clock == w.clock && |next.nodes| == |w.nodes|
      && Versions(next.nodes) + LeftAll(t, scope, next.nodes, at) <= Versions(w.nodes) + LeftAll(t, scope, w.nodes, at)
  {
    hide TrueNode, TrueView, Merged, Inv, Versions, LeftAll, Left;
    if a.Deliver? {
      var at := MomentOf(w.clock);
      StampsSoFar(w, a.view);
      MergeLeavesLess(t, scope, w.nodes[a.receiver], a.view, at);
      OneChanges(t, scope, w.nodes, a.receiver, Merged(w.nodes[a.receiver], a.view, at), at);
    }
  }

  /** Gossip comes to rest: among views that agree on everyone's addresses, adverts and table, in
      whatever order and however often they arrive at one instant, the versions of all nodes
      together rise by no more than what was left to learn. */
  lemma {:induction false} GossipRests(t: Truth, scope: Scope, start: World, actions: seq<Action>, end: World)
    requires Inv(start) && ScopeHolds(t, scope) && TrueWorld(t, scope, start) && Runs(start, actions, end)
    requires forall a :: a in actions ==> Truthfully(t, a) && !a.Wait?
    ensures Inv(end) && TrueWorld(t, scope, end) && end.clock == start.clock
    ensures var at := MomentOf(start.clock);
      Versions(end.nodes) + LeftAll(t, scope, end.nodes, at)
        <= Versions(start.nodes) + LeftAll(t, scope, start.nodes, at)
    decreases |actions|
  {
    hide Inv, Enabled, Next, TrueWorld, Truthfully, ScopeHolds, Versions, LeftAll;
    if actions != [] {
      StepKeepsInv(start, actions[0]);
      StepKeepsTrue(t, scope, start, actions[0]);
      StepLeavesLess(t, scope, start, actions[0]);
      GossipRests(t, scope, Next(start, actions[0]), actions[1..], end);
    }
  }

  // ----- lessons, whatever the time -----

  ghost function ToLearn(t: Truth, scope: Scope, nodes: seq<Node>): nat {
    if nodes == [] then 0
    else |Unmet(scope, nodes[0])| + |Unread(t, scope, nodes[0].peerRefs)| + ToLearn(t, scope, nodes[1..])
  }

  lemma {:induction false} OneLearns(t: Truth, scope: Scope, nodes: seq<Node>, i: nat, node: Node)
    requires i < |nodes|
    ensures ToLearn(t, scope, nodes[i := node]) - |Unmet(scope, node)| - |Unread(t, scope, node.peerRefs)|
      == ToLearn(t, scope, nodes) - |Unmet(scope, nodes[i])| - |Unread(t, scope, nodes[i].peerRefs)|
  {
    hide Unmet, Unread;
    if i == 0 {
      assert nodes[0 := node][1..] == nodes[1..];
    } else {
      assert nodes[i := node][1..] == nodes[1..][i - 1 := node];
      OneLearns(t, scope, nodes[1..], i - 1, node);
    }
  }

  /** How many of the deliveries teach addresses or adverts. */
  ghost function Lessons(w: World, actions: seq<Action>, end: World): nat
    requires Runs(w, actions, end)
    decreases |actions|
  {
    if actions == [] then 0
    else
      Lessons(Next(w, actions[0]), actions[1..], end)
      + if actions[0].Deliver? && Lesson(w.nodes[actions[0].receiver], actions[0].view) then 1 else 0
  }

  lemma StepTeaches(t: Truth, scope: Scope, w: World, a: Action)
    requires TrueWorld(t, scope, w) && Enabled(w, a) && Truthfully(t, a)
    ensures |Next(w, a).nodes| == |w.nodes|
    ensures ToLearn(t, scope, Next(w, a).nodes) + (if a.Deliver? && Lesson(w.nodes[a.receiver], a.view) then 1 else 0)
      <= ToLearn(t, scope, w.nodes)
  {
    hide TrueNode, TrueView, Merged, ToLearn, Unmet, Unread, Lesson;
    if a.Deliver? {
      var node := w.nodes[a.receiver];
      var after := Merged(node, a.view, MomentOf(w.clock));
      LessonLeavesLess(t, scope, node, a.view, MomentOf(w.clock));
      OneLearns(t, scope, w.nodes, a.receiver, after);
      Fewer(Unmet(scope, after), Unmet(scope, node));
      Fewer(Unread(t, scope, after.peerRefs), Unread(t, scope, node.peerRefs));
    }
  }

  /** Over any run, however long: no more merges teach an address or an advert than there were
      ids to meet and adverts to read. */
  lemma {:induction false} LessonsAreBounded(t: Truth, scope: Scope, start: World, actions: seq<Action>, end: World)
    requires ScopeHolds(t, scope) && TrueWorld(t, scope, start) && Runs(start, actions, end)
    requires forall a :: a in actions ==> Truthfully(t, a)
    ensures TrueWorld(t, scope, end)
    ensures Lessons(start, actions, end) + ToLearn(t, scope, end.nodes) <= ToLearn(t, scope, start.nodes)
    decreases |actions|
  {
    hide Enabled, Next, TrueWorld, Truthfully, ScopeHolds, ToLearn, Lesson;
    if actions != [] {
      StepKeepsTrue(t, scope, start, actions[0]);
      StepTeaches(t, scope, start, actions[0]);
      LessonsAreBounded(t, scope, Next(start, actions[0]), actions[1..], end);
    }
  }

  // ----- the heartbeat -----

  /** The host's table is live first-hand, or stands by hearsay. */
  predicate Listed(book: Book, host: string, name: string, at: Moment) {
    Direct(book, host, at.now) || ((host, name) in book.relayed && Standing(book.relayed[(host, name)], at))
  }

  /** The table is one another host of the mesh does have. */
  predicate HasTable(t: Truth, scope: Scope, self: string, host: string, name: string) {
    host in scope.ids && host != self && t.table(host) == Some(name)
  }

  /** The book names only tables that are open. */
  ghost predicate NamesOpen(t: Truth, scope: Scope, self: string, book: Book) {
    && (forall host | host in book.firstHand :: HasTable(t, scope, self, host, book.firstHand[host].name))
    && (forall key: (string, string) | key in book.relayed :: HasTable(t, scope, self, key.0, key.1))
  }

  /** It lists every one of them, each by its host's own word or by hearsay. */
  ghost predicate ListsOpen(t: Truth, scope: Scope, self: string, book: Book, at: Moment) {
    forall host, name | HasTable(t, scope, self, host, name) :: Listed(book, host, name, at)
  }

  ghost predicate BookCalm(t: Truth, scope: Scope, self: string, book: Book, at: Moment) {
    NamesOpen(t, scope, self, book) && ListsOpen(t, scope, self, book, at)
  }

  ghost predicate ReadAll(t: Truth, scope: Scope, node: Node) {
    forall id | id in scope.ids && id != node.id ::
      id in node.peerRefs && SameAdverts(node.peerRefs[id], t.adverts(id))
  }

  /** The node has met everyone, read every advert, and lists every open table and no other. */
  ghost predicate Calm(t: Truth, scope: Scope, node: Node, at: Moment) {
    && TrueNode(t, scope, node) && node.known.Keys == scope.ids - {node.id} && ReadAll(t, scope, node)
    && BookCalm(t, scope, node.id, node.book, at)
  }

  /** Hearsay only about tables that are open. */
  ghost predicate CalmView(t: Truth, scope: Scope, view: View) {
    TrueView(t, scope, view) && forall line :: line in view.heard ==>
      line.host in scope.ids && t.table(line.host) == Some(line.name)
  }

  /** A calm book shows the open tables, whichever way it came by them. */
  lemma CalmShows(t: Truth, scope: Scope, self: string, book: Book, at: Moment, host: string, name: string)
    requires BookCalm(t, scope, self, book, at)
    ensures (host, name) in Visible(book, at) <==> HasTable(t, scope, self, host, name)
  {
    ShownIs(book, at, host, name);
    hide Visible, Live, Standing;
  }

  lemma CalmSame(t: Truth, scope: Scope, self: string, a: Book, b: Book, at: Moment)
    requires BookCalm(t, scope, self, a, at) && BookCalm(t, scope, self, b, at)
    ensures Visible(a, at) == Visible(b, at)
  {
    hide Visible, BookCalm, HasTable;
    forall key: (string, string) ensures key in Visible(a, at) <==> key in Visible(b, at) {
      assert key == (key.0, key.1);
      CalmShows(t, scope, self, a, at, key.0, key.1);
      CalmShows(t, scope, self, b, at, key.0, key.1);
    }
  }

  lemma HeardCalm(t: Truth, scope: Scope, self: string, book: Book, sender: string, at: Moment)
    requires BookCalm(t, scope, self, book, at) && sender in scope.ids && sender != self
    ensures BookCalm(t, scope, self, AfterHearing(book, sender, t.table(sender), at), at)
  {
    var after := AfterHearing(book, sender, t.table(sender), at);
    hide ListsHost, Standing;
    forall host, name | HasTable(t, scope, self, host, name) ensures Listed(after, host, name, at) {
      assert Listed(book, host, name, at);
    }
  }

  lemma SweptCalm(t: Truth, scope: Scope, self: string, book: Book, at: Moment)
    requires BookCalm(t, scope, self, book, at)
    ensures BookCalm(t, scope, self, Swept(book, at), at)
  {
    hide Standing, Live, Fresh;
    forall host, name | HasTable(t, scope, self, host, name) ensures Listed(Swept(book, at), host, name, at) {
      assert Listed(book, host, name, at);
    }
  }

  lemma TookCalm(t: Truth, scope: Scope, book: Book, reader: Reader, sender: string, entry: Heard, at: Moment)
    requires BookCalm(t, scope, reader.self, book, at)
    requires entry.host in scope.ids && t.table(entry.host) == Some(entry.name)
    ensures BookCalm(t, scope, reader.self, Took(book, reader, sender, entry, at), at)
  {
    var after := Took(book, reader, sender, entry, at);
    forall host, name | HasTable(t, scope, reader.self, host, name) ensures Listed(after, host, name, at) {
      assert Listed(book, host, name, at);
    }
    hide ListsOpen, Standing, Live;
  }

  lemma {:induction false} TookAllCalm(t: Truth, scope: Scope, book: Book, reader: Reader, sender: string,
                                       heard: seq<Heard>, at: Moment)
    requires BookCalm(t, scope, reader.self, book, at)
    requires forall line :: line in heard ==> line.host in scope.ids && t.table(line.host) == Some(line.name)
    ensures BookCalm(t, scope, reader.self, TookAll(book, reader, sender, heard, at), at)
  {
    if heard != [] {
      hide BookCalm, Took;
      var front, last := heard[..|heard| - 1], heard[|heard| - 1];
      assert last in heard;
      TookAllCalm(t, scope, book, reader, sender, front, at);
      TookCalm(t, scope, TookAll(book, reader, sender, front, at), reader, sender, last, at);
    }
  }

  /** Everyone is met and every advert read, so nothing is taught. */
  lemma NoLesson(t: Truth, scope: Scope, node: Node, view: View)
    requires TrueNode(t, scope, node) && node.known.Keys == scope.ids - {node.id} && ReadAll(t, scope, node)
    requires TrueView(t, scope, view) && view.addr.id != node.id
    ensures !Lesson(node, view) && Introduced(node, view).known.Keys == node.known.Keys
  {
    var first, met := Recorded(node, view.addr, None), Introduced(node, view);
    RecordedTrue(t, scope, node, view.addr, None);
    RecordedAllTrue(t, scope, first, view.peers, view.addr.id);
    RecordedKeeps(node, view.addr, None);
    RecordedAllKeeps(first, view.peers, view.addr.id);
    hide Recorded, RecordedAll, AnyTeaches, Teaches, SameAdverts;
    assert met.known.Keys <= scope.ids - {node.id} && first.known.Keys <= scope.ids - {node.id};
    assert Unmet(scope, met) == Unmet(scope, first) == {node.id};
  }

  lemma ReadStill(t: Truth, scope: Scope, node: Node, after: Node, sender: string)
    requires ReadAll(t, scope, node) && after.id == node.id
    requires after.peerRefs == node.peerRefs[sender := t.adverts(sender)]
    ensures ReadAll(t, scope, after)
  {
    SameAsItself(t.adverts(sender));
    hide SameAdverts;
  }

  /** In a calm mesh a merge informs nobody, and leaves the node calm. */
  lemma CalmMerge(t: Truth, scope: Scope, node: Node, view: View, at: Moment)
    requires ScopeHolds(t, scope) && Calm(t, scope, node, at) && CalmView(t, scope, view) && view.addr.id != node.id
    ensures !Informs(node, view, at) && Merged(node, view, at).version == node.version
    ensures Calm(t, scope, Merged(node, view, at), at)
  {
    var sender := view.addr.id;
    var met, after := Introduced(node, view), Merged(node, view, at);
    var heard := AfterHearing(node.book, sender, t.table(sender), at);
    MergeKeepsTrue(t, scope, node, view, at);
    NoLesson(t, scope, node, view);
    IntroducedBook(node, view);
    HeardCalm(t, scope, node.id, node.book, sender, at);
    SweptCalm(t, scope, node.id, heard, at);
    TookAllCalm(t, scope, Swept(heard, at), Reader(met.id, met.known.Keys), sender, view.heard, at);
    hide Introduced, AnyTeaches, Teaches, TrueNode, SameAdverts, AfterHearing, Swept, TookAll, BookCalm, ReadAll;
    CalmSame(t, scope, node.id, node.book, heard, at);
    CalmSame(t, scope, node.id, heard, after.book, at);
    ReadStill(t, scope, node, after, sender);
  }

  // ----- calm over time -----

  /** All nodes are calm, and so is every view under way. */
  ghost predicate CalmWorld(t: Truth, scope: Scope, w: World) {
    && (forall i | 0 <= i < |w.nodes| :: Calm(t, scope, w.nodes[i], MomentOf(w.clock)))
    && forall view | view in w.sent :: CalmView(t, scope, view)
  }

  /** Every node has each open table from its host within 150 seconds, or by hearsay with a stamp
      and an arrival within 300. */
  ghost predicate InTime(t: Truth, scope: Scope, w: World) {
    forall i | 0 <= i < |w.nodes| :: ListsOpen(t, scope, w.nodes[i].id, w.nodes[i].book, MomentOf(w.clock))
  }

  /** The clock waits for no table to expire, and nobody reads its own view. */
  ghost predicate Beats(t: Truth, scope: Scope, w: World, a: Action) {
    && Enabled(w, a) && Truthfully(t, a) && (a.Deliver? ==> a.view.addr.id != w.nodes[a.receiver].id)
    && (a.Wait? ==> InTime(t, scope, Next(w, a)))
  }

  ghost predicate BeatsThroughout(t: Truth, scope: Scope, w: World, actions: seq<Action>, end: World)
    decreases |actions|
  {
    if actions == [] then w == end
    else Beats(t, scope, w, actions[0]) && BeatsThroughout(t, scope, Next(w, actions[0]), actions[1..], end)
  }

  lemma CalmShown(t: Truth, scope: Scope, node: Node, view: View, at: Moment)
    requires Calm(t, scope, node, at) && ViewOf(node, view, at)
    requires view.addr.addrs == t.home(view.addr.id) && view.refs == t.adverts(view.addr.id)
    ensures CalmView(t, scope, view)
  {
    ShownIsTrue(t, scope, node, view, at);
    hide TrueView, TrueNode, Live, Standing;
    forall line | line in view.heard ensures line.host in scope.ids && t.table(line.host) == Some(line.name) {
      assert line in Relays(node.book, at);
      assert HasTable(t, scope, node.id, line.host, line.name);
    }
  }

  lemma BeatKeepsCalm(t: Truth, scope: Scope, w: World, a: Action)
    requires ScopeHolds(t, scope) && CalmWorld(t, scope, w) && Beats(t, scope, w, a)
    ensures CalmWorld(t, scope, Next(w, a)) && |Next(w, a).nodes| == |w.nodes|
    ensures forall i | 0 <= i < |w.nodes| :: Next(w, a).nodes[i].version == w.nodes[i].version
  {
    hide CalmView, Merged, ViewOf, ScopeHolds, ListsOpen, NamesOpen, TrueNode, ReadAll;
    match a {
      case Deliver(i, view) => CalmMerge(t, scope, w.nodes[i], view, MomentOf(w.clock));
      case Show(i, view) => CalmShown(t, scope, w.nodes[i], view, MomentOf(w.clock));
      case Wait(time) =>
        forall i | 0 <= i < |w.nodes| ensures Calm(t, scope, w.nodes[i], MomentOf(w.clock + time)) {
          assert Calm(t, scope, w.nodes[i], MomentOf(w.clock));
          assert Next(w, a).nodes[i] == w.nodes[i] && Next(w, a).clock == w.clock + time;
        }
      case _ =>
    }
  }

  /** The heartbeat: a calm mesh stays calm, and no version moves, for as long as every node is
      reminded of every open table, by its host or by hearsay, before what it has expires. */
  lemma {:induction false} HeartbeatIsQuiet(t: Truth, scope: Scope, start: World, actions: seq<Action>, end: World)
    requires ScopeHolds(t, scope) && CalmWorld(t, scope, start) && BeatsThroughout(t, scope, start, actions, end)
    ensures CalmWorld(t, scope, end) && |end.nodes| == |start.nodes|
    ensures forall i | 0 <= i < |start.nodes| :: end.nodes[i].version == start.nodes[i].version
    decreases |actions|
  {
    hide CalmWorld, Enabled, Truthfully, InTime, Next, ScopeHolds;
    if actions != [] {
      BeatKeepsCalm(t, scope, start, actions[0]);
      HeartbeatIsQuiet(t, scope, Next(start, actions[0]), actions[1..], end);
    }
  }
}
