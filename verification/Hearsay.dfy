/** Any number of nodes exchanging views under one clock: views are delivered late, again or
    never, in any order and along any route. */
module Hearsay {
  import opened Options
  import opened Presence
  import opened Gossip

  const SECOND: nat := 1_000_000_000

  /** A node merged a view in which `host` itself offered the table `name`, at this nanosecond. */
  datatype Hearing = Hearing(host: string, name: string, at: nat)

  /** `sent` is every view ever shown, `log` every first-hand hearing. */
  datatype World = World(nodes: seq<Node>, sent: set<View>, log: set<Hearing>, clock: nat)

  datatype Action =
    | Wait(time: nat)
    | Show(shower: nat, view: View)
    | Deliver(receiver: nat, view: View)
    | Open(at: nat, table: Option<string>)
    | DropTable(at: nat, host: string)
    | DropPeers(at: nat, ids: seq<string>)

  function MomentOf(clock: nat): Moment {
    Moment(clock, clock / SECOND)
  }

  ghost predicate Enabled(w: World, a: Action) {
    match a
    case Wait(_) => true
    case Show(i, view) => i < |w.nodes| && ViewOf(w.nodes[i], view, MomentOf(w.clock))
    case Deliver(i, view) => i < |w.nodes| && view in w.sent
    case Open(i, _) => i < |w.nodes|
    case DropTable(i, _) => i < |w.nodes|
    case DropPeers(i, _) => i < |w.nodes|
  }

  function HearingsIn(view: View, clock: nat): set<Hearing> {
    if view.table.Some? then {Hearing(view.addr.id, view.table.value, clock)} else {}
  }

  ghost function Next(w: World, a: Action): World
    requires Enabled(w, a)
  {
    match a
    case Wait(time) => w.(clock := w.clock + time)
    case Show(_, view) => w.(sent := w.sent + {view})
    case Deliver(i, view) =>
      w.(nodes := w.nodes[i := Merged(w.nodes[i], view, MomentOf(w.clock))], log := w.log + HearingsIn(view, w.clock))
    case Open(i, table) => w.(nodes := w.nodes[i := w.nodes[i].(table := table, version := w.nodes[i].version + 1)])
    case DropTable(i, host) => w.(nodes := w.nodes[i := WithoutTable(w.nodes[i], host, MomentOf(w.clock))])
    case DropPeers(i, ids) => w.(nodes := w.nodes[i := WithoutPeers(w.nodes[i], ids)])
  }

  ghost predicate Runs(start: World, actions: seq<Action>, end: World)
    decreases |actions|
  {
    if actions == [] then start == end
    else Enabled(start, actions[0]) && Runs(Next(start, actions[0]), actions[1..], end)
  }

  /** Nodes that have heard nothing, and no view under way. */
  ghost predicate Start(w: World) {
    w.sent == {} && w.log == {}
    && forall i :: 0 <= i < |w.nodes| ==> w.nodes[i].book == Book(map[], map[], map[])
  }

  // ----- every entry goes back to a hearing -----

  /** The host itself offered the table in the second `stamp`. */
  ghost predicate Backed(log: set<Hearing>, host: string, name: string, stamp: nat) {
    exists x :: x in log && x.host == host && x.name == name && x.at / SECOND == stamp
  }

  ghost predicate GroundedFirstHand(book: Book, log: set<Hearing>) {
    forall host | host in book.firstHand ::
      Hearing(host, book.firstHand[host].name, book.firstHand[host].seen) in log
      && book.firstHand[host].heardAt == book.firstHand[host].seen / SECOND
  }

  ghost predicate GroundedHearsay(book: Book, log: set<Hearing>) {
    forall key: (string, string) | key in book.relayed :: Backed(log, key.0, key.1, book.relayed[key].heardAt)
  }

  ghost predicate Grounded(book: Book, log: set<Hearing>) {
    GroundedFirstHand(book, log) && GroundedHearsay(book, log)
  }

  ghost predicate GroundedView(view: View, log: set<Hearing>) {
    forall line :: line in view.heard ==> Backed(log, line.host, line.name, line.heardAt)
  }

  ghost predicate Inv(w: World) {
    && (forall i :: 0 <= i < |w.nodes| ==> Grounded(w.nodes[i].book, w.log))
    && (forall view :: view in w.sent ==> GroundedView(view, w.log))
    && (forall x :: x in w.log ==> x.at <= w.clock)
  }

  lemma GroundedGrows(book: Book, log: set<Hearing>, more: set<Hearing>)
    requires Grounded(book, log)
    ensures Grounded(book, log + more)
  {
    forall key: (string, string) | key in book.relayed
      ensures Backed(log + more, key.0, key.1, book.relayed[key].heardAt)
    {
      BackedGrows(log, more, key.0, key.1, book.relayed[key].heardAt);
    }
  }

  lemma BackedGrows(log: set<Hearing>, more: set<Hearing>, host: string, name: string, stamp: nat)
    requires Backed(log, host, name, stamp)
    ensures Backed(log + more, host, name, stamp)
  {
    var x :| x in log && x.host == host && x.name == name && x.at / SECOND == stamp;
    assert x in log + more;
  }

  lemma ViewGrows(view: View, log: set<Hearing>, more: set<Hearing>)
    requires GroundedView(view, log)
    ensures GroundedView(view, log + more)
  {
    forall line | line in view.heard ensures Backed(log + more, line.host, line.name, line.heardAt) {
      BackedGrows(log, more, line.host, line.name, line.heardAt);
    }
  }

  /** What a node relays is backed by the log. */
  lemma ShownIsGrounded(node: Node, view: View, log: set<Hearing>, at: Moment)
    requires Grounded(node.book, log) && ViewOf(node, view, at)
    ensures GroundedView(view, log)
  {
    hide Standing, Direct, Backed;
    forall line | line in view.heard ensures Backed(log, line.host, line.name, line.heardAt) {
      assert line in Relays(node.book, at);
      EntriesGrounded(node.book, log, at, line);
    }
  }

  lemma EntriesGrounded(book: Book, log: set<Hearing>, at: Moment, line: Heard)
    requires Grounded(book, log) && line in Relays(book, at)
    ensures Backed(log, line.host, line.name, line.heardAt)
  {
    var e :| e in Entries(book, at) && line == Heard(e.host, e.name, e.heardAt);
    if !e.relayed {
      assert Hearing(e.host, e.name, book.firstHand[e.host].seen) in log;
    }
  }

  lemma TookGrounded(book: Book, reader: Reader, sender: string, entry: Heard, at: Moment, log: set<Hearing>)
    requires Grounded(book, log) && Backed(log, entry.host, entry.name, entry.heardAt)
    ensures Grounded(Took(book, reader, sender, entry, at), log)
  {
    hide Backed, Admits;
  }

  lemma {:induction false} TookAllGrounded(book: Book, reader: Reader, sender: string, heard: seq<Heard>, at: Moment,
                                           log: set<Hearing>)
    requires Grounded(book, log)
    requires forall line :: line in heard ==> Backed(log, line.host, line.name, line.heardAt)
    ensures Grounded(TookAll(book, reader, sender, heard, at), log)
  {
    if heard != [] {
      hide Grounded, Backed, Took;
      var front, last := heard[..|heard| - 1], heard[|heard| - 1];
      assert last in heard;
      TookAllGrounded(book, reader, sender, front, at, log);
      TookGrounded(TookAll(book, reader, sender, front, at), reader, sender, last, at, log);
    }
  }

  lemma HeardGrounded(book: Book, host: string, table: Option<string>, clock: nat, log: set<Hearing>)
    requires Grounded(book, log) && (table.Some? ==> Hearing(host, table.value, clock) in log)
    ensures Grounded(AfterHearing(book, host, table, MomentOf(clock)), log)
  {
    hide Backed, ListsHost;
  }

  lemma SweptGrounded(book: Book, at: Moment, log: set<Hearing>)
    requires Grounded(book, log)
    ensures Grounded(Swept(book, at), log)
  {
    hide Backed, Standing, Fresh;
  }

  lemma {:induction false} ForgottenGrounded(book: Book, hosts: seq<string>, seeded: set<string>, log: set<Hearing>)
    requires Grounded(book, log)
    ensures Grounded(ForgottenAll(book, hosts, seeded), log)
  {
    if hosts != [] {
      hide Backed;
      ForgottenGrounded(book, hosts[..|hosts| - 1], seeded, log);
    }
  }

  lemma IntroducedBook(node: Node, view: View)
    ensures Introduced(node, view).book == node.book && Introduced(node, view).id == node.id
  {
    hide Recorded, RecordedAll;
    RecordedKeeps(node, view.addr, None);
    RecordedAllKeeps(Recorded(node, view.addr, None), view.peers, view.addr.id);
  }

  lemma MergedGrounded(node: Node, view: View, clock: nat, log: set<Hearing>)
    requires Grounded(node.book, log) && GroundedView(view, log) && HearingsIn(view, clock) <= log
    ensures Grounded(Merged(node, view, MomentOf(clock)).book, log)
  {
    hide Grounded, Informs, Introduced, Swept, AfterHearing, TookAll, Backed;
    var met := Introduced(node, view);
    var heard := AfterHearing(met.book, view.addr.id, view.table, MomentOf(clock));
    IntroducedBook(node, view);
    HeardGrounded(node.book, view.addr.id, view.table, clock, log);
    SweptGrounded(heard, MomentOf(clock), log);
    TookAllGrounded(Swept(heard, MomentOf(clock)), Reader(met.id, met.known.Keys), view.addr.id, view.heard,
                    MomentOf(clock), log);
  }

  lemma DeliverKeepsInv(w: World, a: Action)
    requires Inv(w) && Enabled(w, a) && a.Deliver?
    ensures Inv(Next(w, a))
  {
    hide Grounded, GroundedView, Merged;
    var more := HearingsIn(a.view, w.clock);
    forall i | 0 <= i < |w.nodes| ensures Grounded(w.nodes[i].book, w.log + more) {
      GroundedGrows(w.nodes[i].book, w.log, more);
    }
    forall view | view in w.sent ensures GroundedView(view, w.log + more) {
      ViewGrows(view, w.log, more);
    }
    MergedGrounded(w.nodes[a.receiver], a.view, w.clock, w.log + more);
  }

  lemma StepKeepsInv(w: World, a: Action)
    requires Inv(w) && Enabled(w, a)
    ensures Inv(Next(w, a))
  {
    match a {
      case Deliver(_, _) => DeliverKeepsInv(w, a);
      case Show(i, view) => ShownIsGrounded(w.nodes[i], view, w.log, MomentOf(w.clock));
      case DropTable(i, host) =>
        ForgottenGrounded(w.nodes[i].book, [host], {}, w.log);
        ForgottenOne(w.nodes[i].book, host);
      case DropPeers(i, ids) => ForgottenGrounded(w.nodes[i].book, ids, w.nodes[i].seeded, w.log);
      case _ =>
    }
  }

  lemma ForgottenOne(book: Book, host: string)
    ensures ForgottenAll(book, [host], {}) == Forgotten(book, host)
  {
    assert [host][..0] == [];
  }

  lemma {:induction false} RunKeepsInv(start: World, actions: seq<Action>, end: World)
    requires Inv(start) && Runs(start, actions, end)
    ensures Inv(end)
    decreases |actions|
  {
    hide Inv, Enabled, Next;
    if actions != [] {
      StepKeepsInv(start, actions[0]);
      RunKeepsInv(Next(start, actions[0]), actions[1..], end);
    }
  }

  /** Less than 300 whole seconds apart. */
  lemma StampIsRecent(at: nat, clock: nat)
    requires clock / SECOND - at / SECOND < RELAY_EXPIRY_SECS
    ensures clock < at + RELAY_EXPIRY
  {
  }

  lemma SeenIsRecent(seen: nat, clock: nat)
    requires seen <= clock && clock - seen < FIRST_HAND_EXPIRY
    ensures clock < seen + RELAY_EXPIRY
  {
  }

  /** In every run, whatever the routes: a table any node lists or relays was offered by its
      host itself to some node, in the very second it is stamped with and less than 300 seconds
      ago. */
  lemma HearsayDiesWithItsHost(start: World, actions: seq<Action>, end: World, i: nat, e: Entry)
    requires Start(start) && Runs(start, actions, end) && i < |end.nodes|
    requires e in Entries(end.nodes[i].book, MomentOf(end.clock))
    ensures exists x | x in end.log && x.host == e.host && x.name == e.name ::
      x.at / SECOND == e.heardAt && end.clock < x.at + RELAY_EXPIRY
  {
    RunKeepsInv(start, actions, end);
    var book := end.nodes[i].book;
    assert Grounded(book, end.log);
    if e.relayed {
      assert Backed(end.log, e.host, e.name, e.heardAt);
      var x :| x in end.log && x.host == e.host && x.name == e.name && x.at / SECOND == e.heardAt;
      StampIsRecent(x.at, end.clock);
    } else {
      var x := Hearing(e.host, e.name, book.firstHand[e.host].seen);
      assert x in end.log;
      SeenIsRecent(x.at, end.clock);
    }
  }

  /** So 300 seconds after a host was last heard first-hand, no node lists it. */
  lemma SilentHostIsGone(start: World, actions: seq<Action>, end: World, host: string)
    requires Start(start) && Runs(start, actions, end)
    requires forall x :: x in end.log && x.host == host ==> x.at + RELAY_EXPIRY <= end.clock
    ensures forall i :: 0 <= i < |end.nodes| ==> !ListsHost(end.nodes[i].book, host, MomentOf(end.clock))
  {
    forall i | 0 <= i < |end.nodes| ensures !ListsHost(end.nodes[i].book, host, MomentOf(end.clock)) {
      if e :| e in Entries(end.nodes[i].book, MomentOf(end.clock)) && e.host == host {
        HearsayDiesWithItsHost(start, actions, end, i, e);
      }
    }
  }

  // ----- news gets through -----

  /** A node that merges a host's view lists the table it offers, and no other of that host. */
  lemma OfferedIsListed(w: World, a: Action, name: string)
    requires Enabled(w, a) && a.Deliver?
    ensures (a.view.addr.id, name) in Visible(Next(w, a).nodes[a.receiver].book, MomentOf(w.clock)) <==>
      a.view.table == Some(name)
  {
    var node, host, at := w.nodes[a.receiver], a.view.addr.id, MomentOf(w.clock);
    var met := Introduced(node, a.view);
    IntroducedBook(node, a.view);
    var heard := AfterHearing(node.book, host, a.view.table, at);
    var after := Next(w, a).nodes[a.receiver].book;
    SenderSpared(Swept(heard, at), Reader(met.id, met.known.Keys), host, a.view.heard, at);
    hide Introduced, TookAll, Informs;
    if e :| e in Entries(after, at) && e.host == host && e.name == name {
      ListsExactly(after, at, e);
    }
    if a.view.table == Some(name) {
      ListsExactly(after, at, Entry(host, name, at.epoch, false));
    }
    hide Entries;
  }

  lemma {:induction false} SenderSpared(book: Book, reader: Reader, sender: string, heard: seq<Heard>, at: Moment)
    ensures var after := TookAll(book, reader, sender, heard, at);
      && (sender in after.firstHand <==> sender in book.firstHand)
      && (sender in book.firstHand ==> after.firstHand[sender] == book.firstHand[sender])
      && (forall name :: (sender, name) in after.relayed <==> (sender, name) in book.relayed)
  {
    if heard != [] {
      SenderSpared(book, reader, sender, heard[..|heard| - 1], at);
    }
  }

  /** Hearsay gets through: a line that passes the checks is listed, unless the host's own word
      stands. */
  lemma RelayedIsListed(book: Book, reader: Reader, sender: string, heard: seq<Heard>, at: Moment, line: Heard)
    requires line in heard && Admits(Swept(book, at), reader, sender, line, at)
    ensures (line.host, line.name) in Visible(Learned(book, reader, sender, heard, at), at)
  {
    var swept, after := Swept(book, at), Learned(book, reader, sender, heard, at);
    LearnedIsJoin(swept, reader, sender, heard, at);
    assert Offers(swept, reader, sender, heard, at, line);
    SweptTwice(book, at);
    TookAllKeepsSwept(swept, reader, sender, heard, at);
    AdmitsExactly(swept, reader, sender, line, at);
    var entry := Entry(line.host, line.name, after.relayed[(line.host, line.name)].heardAt, true);
    assert Standing(after.relayed[(line.host, line.name)], at) by {
      assert (line.host, line.name) in Swept(after, at).relayed;
    }
    ListsExactly(after, at, entry);
    hide Learned, TookAll, Entries, Swept, Admits;
  }

  // ----- a withdrawn table stays gone -----

  /** The host's own view, with a table. */
  predicate Advertises(a: Action, host: string) {
    a.Deliver? && a.view.addr.id == host && a.view.table.Some?
  }

  /** No hearing of the host is stamped after `since`. */
  ghost predicate HeardUpTo(log: set<Hearing>, host: string, since: nat) {
    forall x :: x in log && x.host == host ==> x.at / SECOND <= since
  }

  lemma MergedStaysBuried(node: Node, view: View, at: Moment, host: string, since: nat, epoch: nat)
    requires Buried(node.book, host, since, epoch) && epoch <= at.epoch
    requires view.addr.id == host ==> view.table.None?
    requires forall line :: line in view.heard && line.host == host ==> line.heardAt <= since
    ensures Buried(Merged(node, view, at).book, host, since, at.epoch)
  {
    var met := Introduced(node, view);
    var hears := Act(Hears(view.addr.id, view.table), at);
    var learns := Act(Learns(Reader(met.id, met.known.Keys), view.addr.id, view.heard), at);
    hide Buried, AfterHearing, Learned, Informs, Introduced;
    IntroducedBook(node, view);
    ActKeepsBuried(node.book, hears, host, since, epoch);
    ActKeepsBuried(Applied(node.book, hears), learns, host, since, at.epoch);
  }

  lemma {:induction false} ForgottenStaysBuried(book: Book, hosts: seq<string>, seeded: set<string>, host: string,
                                                since: nat, epoch: nat)
    requires Buried(book, host, since, epoch)
    ensures Buried(ForgottenAll(book, hosts, seeded), host, since, epoch)
  {
    if hosts != [] {
      ForgottenStaysBuried(book, hosts[..|hosts| - 1], seeded, host, since, epoch);
    }
  }

  lemma StepKeepsBuried(w: World, a: Action, i: nat, host: string, since: nat)
    requires Inv(w) && Enabled(w, a) && i < |w.nodes|
    requires Buried(w.nodes[i].book, host, since, w.clock / SECOND) && HeardUpTo(w.log, host, since)
    requires !Advertises(a, host)
    ensures |Next(w, a).nodes| == |w.nodes| && HeardUpTo(Next(w, a).log, host, since)
    ensures Buried(Next(w, a).nodes[i].book, host, since, Next(w, a).clock / SECOND)
  {
    match a {
      case Deliver(j, view) =>
        hide Merged;
        forall line | line in view.heard && line.host == host ensures line.heardAt <= since {
          assert GroundedView(view, w.log);
          var x :| x in w.log && x.host == line.host && x.name == line.name && x.at / SECOND == line.heardAt;
        }
        MergedStaysBuried(w.nodes[i], view, MomentOf(w.clock), host, since, w.clock / SECOND);
      case DropTable(j, other) =>
        ForgottenStaysBuried(w.nodes[i].book, [other], {}, host, since, w.clock / SECOND);
        ForgottenOne(w.nodes[i].book, other);
      case DropPeers(j, ids) =>
        ForgottenStaysBuried(w.nodes[i].book, ids, w.nodes[i].seeded, host, since, w.clock / SECOND);
      case Wait(time) => Later(w.clock, time);
      case _ =>
    }
  }

  lemma Later(clock: nat, time: nat)
    ensures clock / SECOND <= (clock + time) / SECOND
  {
  }

  lemma {:induction false} RunKeepsBuried(start: World, actions: seq<Action>, end: World, i: nat, host: string,
                                          since: nat)
    requires Inv(start) && Runs(start, actions, end) && i < |start.nodes|
    requires Buried(start.nodes[i].book, host, since, start.clock / SECOND) && HeardUpTo(start.log, host, since)
    requires forall a :: a in actions ==> !Advertises(a, host)
    ensures i < |end.nodes| && Buried(end.nodes[i].book, host, since, end.clock / SECOND)
    decreases |actions|
  {
    hide Inv, Enabled, Next, Buried, HeardUpTo, Advertises;
    if actions != [] {
      StepKeepsInv(start, actions[0]);
      StepKeepsBuried(start, actions[0], i, host, since);
      RunKeepsBuried(Next(start, actions[0]), actions[1..], end, i, host, since);
    }
  }

  /** A node that held a host's table, expired or not, or listed one by hearsay, and then merges
      that host's view without a table never lists it again, however late the hearsay under way
      arrives, until the host advertises again. */
  lemma WithdrawnStaysGone(start: World, before: seq<Action>, w: World, a: Action, after: seq<Action>, end: World,
                           at: Moment)
    requires Start(start) && Runs(start, before, w)
    requires Enabled(w, a) && a.Deliver? && a.view.table.None?
    requires var book := w.nodes[a.receiver].book;
      a.view.addr.id in book.firstHand || ListsHost(book, a.view.addr.id, MomentOf(w.clock))
    requires Runs(Next(w, a), after, end) && forall b :: b in after ==> !Advertises(b, a.view.addr.id)
    ensures a.receiver < |end.nodes| && !ListsHost(end.nodes[a.receiver].book, a.view.addr.id, at)
  {
    var host := a.view.addr.id;
    var since := w.clock / SECOND;
    hide ListsHost, Start;
    RunKeepsInv(start, before, w);
    StepKeepsInv(w, a);
    WithdrawalBuries(w, a, since);
    RunKeepsBuried(Next(w, a), after, end, a.receiver, host, since);
    BuriedIsHidden(end.nodes[a.receiver].book, host, since, end.clock / SECOND, at);
  }

  lemma WithdrawalBuries(w: World, a: Action, since: nat)
    requires Inv(w) && Enabled(w, a) && a.Deliver? && a.view.table.None? && since == w.clock / SECOND
    requires var book := w.nodes[a.receiver].book;
      a.view.addr.id in book.firstHand || ListsHost(book, a.view.addr.id, MomentOf(w.clock))
    ensures HeardUpTo(Next(w, a).log, a.view.addr.id, since)
    ensures Buried(Next(w, a).nodes[a.receiver].book, a.view.addr.id, since, since)
  {
    var node := w.nodes[a.receiver];
    var host := a.view.addr.id;
    var met := Introduced(node, a.view);
    var at := MomentOf(w.clock);
    forall x | x in w.log && x.host == host ensures x.at / SECOND <= since {
      Later(x.at, w.clock - x.at);
    }
    IntroducedBook(node, a.view);
    var heard := AfterHearing(node.book, host, None, at);
    hide Introduced, ListsHost, Backed;
    assert Buried(heard, host, since, since);
    forall line | line in a.view.heard && line.host == host ensures line.heardAt <= since {
      assert GroundedView(a.view, w.log);
      BackedStamp(w.log, line.host, line.name, line.heardAt, since);
    }
    hide Buried, AfterHearing, Learned, Informs;
    ActKeepsBuried(heard, Act(Learns(Reader(met.id, met.known.Keys), host, a.view.heard), at), host, since, since);
  }

  lemma BackedStamp(log: set<Hearing>, host: string, name: string, stamp: nat, since: nat)
    requires Backed(log, host, name, stamp) && HeardUpTo(log, host, since)
    ensures stamp <= since
  {
  }
}
