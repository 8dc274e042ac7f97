/** Merging one view again: when it teaches nothing, and what it costs when it does. */
module Remerging {
  import opened Options
  import opened Presence
  import opened Gossip

  // ----- the addresses a view brings -----

  /** Once the sender has spoken for itself, the node takes addresses for this id. */
  predicate Hears(node: Node, sender: string, id: string) {
    id != node.id && (id == sender || id !in node.forgotten)
  }

  /** The two do not give one id two different sets of addresses. */
  predicate AgreeOn(node: Node, sender: string, a: Addr, b: Addr) {
    a.id == b.id && Hears(node, sender, a.id) && a.addrs != {} && b.addrs != {} ==> a.addrs == b.addrs
  }

  /** What the view says of itself, then of its peers. */
  function Addresses(view: View): seq<Addr> {
    [view.addr] + view.peers
  }

  /** No id the node takes addresses for comes with two different sets of them. */
  ghost predicate Agrees(node: Node, view: View) {
    forall a, b | a in Addresses(view) && b in Addresses(view) :: AgreeOn(node, view.addr.id, a, b)
  }

  /** Recording the address for this sender would teach nothing. */
  predicate Filed(node: Node, addr: Addr, sender: string) {
    !Teaches(node, addr, Some(sender))
  }

  /** As `AgreeOn`, of a node that has just heard the sender. */
  predicate Match(node: Node, a: Addr, b: Addr) {
    a.id == b.id && a.id != node.id && a.id !in node.forgotten && a.addrs != {} && b.addrs != {} ==> a.addrs == b.addrs
  }

  lemma FiledIsNoted(node: Node, addr: Addr, sender: string)
    ensures Filed(node, addr, sender) ==> Recorded(node, addr, Some(sender)) == node
    ensures Filed(Recorded(node, addr, Some(sender)), addr, sender)
  {
  }

  /** Recording a peer moves nothing but the known addresses. */
  lemma IntroducedKeeps(node: Node, addr: Addr, sender: string)
    ensures Recorded(node, addr, Some(sender)) == node.(known := Recorded(node, addr, Some(sender)).known)
  {
  }

  lemma {:induction false} IntroducedAllKeeps(node: Node, peers: seq<Addr>, sender: string)
    ensures RecordedAll(node, peers, sender) == node.(known := RecordedAll(node, peers, sender).known)
  {
    if peers != [] {
      hide Recorded;
      IntroducedAllKeeps(node, peers[..|peers| - 1], sender);
      IntroducedKeeps(RecordedAll(node, peers[..|peers| - 1], sender), peers[|peers| - 1], sender);
    }
  }

  /** After the sender's own address, what it introduces is judged by `Hears`. */
  lemma SenderSpeaks(node: Node, view: View)
    ensures var first := Recorded(node, view.addr, None);
      && first.id == node.id
      && (forall id :: Hears(node, view.addr.id, id) <==> id != first.id && id !in first.forgotten)
      && Filed(first, view.addr, view.addr.id)
  {
  }

  lemma StaysFiled(node: Node, addr: Addr, other: Addr, sender: string)
    requires Filed(node, addr, sender)
    requires Match(node, addr, other)
    ensures Filed(Recorded(node, other, Some(sender)), addr, sender)
  {
  }

  /** Addresses that agree stay filed while the peers are recorded. */
  lemma {:induction false} AllFiled(node: Node, first: Addr, peers: seq<Addr>, sender: string)
    requires Filed(node, first, sender)
    requires forall a, b | a in [first] + peers && b in [first] + peers :: Match(node, a, b)
    ensures forall a :: a in [first] + peers ==> Filed(RecordedAll(node, peers, sender), a, sender)
  {
    if peers == [] {
      assert [first] + peers == [first];
    } else {
      hide Recorded, Filed;
      var front, last := peers[..|peers| - 1], peers[|peers| - 1];
      assert [first] + peers == [first] + front + [last];
      AllFiled(node, first, front, sender);
      var before := RecordedAll(node, front, sender);
      IntroducedAllKeeps(node, front, sender);
      FiledIsNoted(before, last, sender);
      forall a | a in [first] + front ensures Filed(Recorded(before, last, Some(sender)), a, sender) {
        assert a in [first] + peers && last in [first] + peers;
        StaysFiled(before, a, last, sender);
      }
    }
  }

  /** Nothing is taught exactly when every peer is filed already. */
  lemma {:induction false} NothingTaught(node: Node, peers: seq<Addr>, sender: string)
    ensures !AnyTeaches(node, peers, sender) <==> forall a :: a in peers ==> Filed(node, a, sender)
    ensures !AnyTeaches(node, peers, sender) ==> RecordedAll(node, peers, sender) == node
  {
    if peers != [] {
      hide Recorded, Teaches;
      var front, last := peers[..|peers| - 1], peers[|peers| - 1];
      assert peers == front + [last];
      NothingTaught(node, front, sender);
      FiledIsNoted(node, last, sender);
    }
  }

  lemma FiledAgree(node: Node, a: Addr, b: Addr, sender: string)
    requires Filed(node, a, sender) && Filed(node, b, sender)
    ensures Match(node, a, b)
  {
  }

  /** The sender's own address, once it has spoken, is recorded like an introduced one. */
  lemma SpeaksAgain(node: Node, addr: Addr)
    requires addr.id != node.id ==> addr.id !in node.forgotten
    ensures Recorded(node, addr, None) == Recorded(node, addr, Some(addr.id))
    ensures Teaches(node, addr, None) <==> Teaches(node, addr, Some(addr.id))
  {
  }

  /** Introducing a view again teaches nothing exactly when its addresses agree. */
  lemma IntroducedTwice(node: Node, view: View)
    ensures var met := Introduced(node, view);
      && (!Teaches(met, view.addr, None) && !AnyTeaches(Recorded(met, view.addr, None), view.peers, view.addr.id)
          <==> Agrees(node, view))
      && (Agrees(node, view) ==> Introduced(met, view) == met)
  {
    var sender := view.addr.id;
    var first, met := Recorded(node, view.addr, None), Introduced(node, view);
    SenderSpeaks(node, view);
    IntroducedAllKeeps(first, view.peers, sender);
    SpeaksAgain(met, view.addr);
    FiledIsNoted(met, view.addr, sender);
    NothingTaught(met, view.peers, sender);
    hide Recorded, RecordedAll, AnyTeaches, Teaches, Hears;
    if Agrees(node, view) {
      forall a, b | a in [view.addr] + view.peers && b in [view.addr] + view.peers
        ensures Match(first, a, b)
      {
        assert AgreeOn(node, sender, a, b);
      }
      AllFiled(first, view.addr, view.peers, sender);
      assert view.addr in [view.addr] + view.peers;
      assert forall a :: a in view.peers ==> a in [view.addr] + view.peers;
    }
    if Filed(met, view.addr, sender) && forall a :: a in view.peers ==> Filed(met, a, sender) {
      forall a, b | a in Addresses(view) && b in Addresses(view) ensures AgreeOn(node, sender, a, b) {
        FiledAgree(met, a, b, sender);
      }
    }
  }

  /** Only the book, the ref adverts and the version differ. */
  lemma SameAddresses(node: Node, other: Node, addr: Addr, via: Option<string>)
    requires other == node.(book := other.book, peerRefs := other.peerRefs, version := other.version)
    ensures Recorded(other, addr, via)
      == Recorded(node, addr, via).(book := other.book, peerRefs := other.peerRefs, version := other.version)
    ensures Teaches(other, addr, via) <==> Teaches(node, addr, via)
  {
  }

  lemma {:induction false} SameAddressesAll(node: Node, other: Node, peers: seq<Addr>, sender: string)
    requires other == node.(book := other.book, peerRefs := other.peerRefs, version := other.version)
    ensures RecordedAll(other, peers, sender)
      == RecordedAll(node, peers, sender).(book := other.book, peerRefs := other.peerRefs, version := other.version)
    ensures AnyTeaches(other, peers, sender) <==> AnyTeaches(node, peers, sender)
  {
    if peers != [] {
      hide Recorded, Teaches;
      var front, last := peers[..|peers| - 1], peers[|peers| - 1];
      SameAddressesAll(node, other, front, sender);
      SameAddresses(RecordedAll(node, front, sender), RecordedAll(other, front, sender), last, Some(sender));
    }
  }

  /** A host's own table is untouched by hearsay from that host. */
  lemma TookSparesSender(book: Book, reader: Reader, sender: string, entry: Heard, at: Moment)
    ensures var after := Took(book, reader, sender, entry, at);
      && (sender in after.firstHand <==> sender in book.firstHand)
      && (sender in book.firstHand ==> after.firstHand[sender] == book.firstHand[sender])
      && after.withdrawn == book.withdrawn
      && (forall key: (string, string) | key.0 == sender :: key in after.relayed <==> key in book.relayed)
  {
  }

  lemma {:induction false} TookAllSparesSender(book: Book, reader: Reader, sender: string, heard: seq<Heard>,
                                               at: Moment)
    ensures var after := TookAll(book, reader, sender, heard, at);
      && (sender in after.firstHand <==> sender in book.firstHand)
      && (sender in book.firstHand ==> after.firstHand[sender] == book.firstHand[sender])
      && after.withdrawn == book.withdrawn
      && (forall key: (string, string) | key.0 == sender :: key in after.relayed <==> key in book.relayed)
  {
    if heard != [] {
      hide Took;
      TookAllSparesSender(book, reader, sender, heard[..|heard| - 1], at);
      TookSparesSender(TookAll(book, reader, sender, heard[..|heard| - 1], at), reader, sender, heard[|heard| - 1], at);
    }
  }

  /** Hearing the same thing again, after the hearsay that came with it, changes nothing. */
  lemma HeardTwice(book: Book, reader: Reader, sender: string, advert: Option<string>, heard: seq<Heard>, at: Moment)
    ensures var once := Learned(AfterHearing(book, sender, advert, at), reader, sender, heard, at);
      AfterHearing(once, sender, advert, at) == once
  {
    var first := AfterHearing(book, sender, advert, at);
    TookAllSparesSender(Swept(first, at), reader, sender, heard, at);
    var once := Learned(first, reader, sender, heard, at);
    hide TookAll;
    assert forall key :: key in once.relayed ==> key.0 != sender;
    assert WithoutHearsay(once, sender) == once.relayed;
    match advert {
      case Some(name) =>
        assert once.withdrawn - {sender} == once.withdrawn;
        assert once.firstHand[sender := FirstHand(name, at.now, at.epoch)] == once.firstHand;
      case None =>
        assert sender !in once.firstHand && !ListsHost(once, sender, at);
        assert once.firstHand - {sender} == once.firstHand;
    }
  }

  lemma BookTwice(book: Book, reader: Reader, sender: string, advert: Option<string>, heard: seq<Heard>, at: Moment)
    ensures var once := Learned(AfterHearing(book, sender, advert, at), reader, sender, heard, at);
      AfterHearing(once, sender, advert, at) == once && Learned(once, reader, sender, heard, at) == once
  {
    HeardTwice(book, reader, sender, advert, heard, at);
    LearnIdempotent(AfterHearing(book, sender, advert, at), reader, sender, heard, at);
  }

  lemma SameAdvertsReflexive(refs: seq<RefAdvert>)
    ensures SameAdverts(refs, refs)
  {
  }

  // ----- merging again -----

  lemma InformsByAddress(node: Node, view: View, at: Moment)
    requires MergedBook(Introduced(node, view), view, at) == node.book && view.addr.id in node.peerRefs
    requires AfterHearing(node.book, view.addr.id, view.table, at) == node.book
    requires node.peerRefs[view.addr.id] == view.refs
    requires Introduced(node, view).book == node.book
    ensures Informs(node, view, at) <==>
      Teaches(node, view.addr, None) || AnyTeaches(Recorded(node, view.addr, None), view.peers, view.addr.id)
  {
    SameAdvertsReflexive(view.refs);
    hide Recorded, RecordedAll, AnyTeaches, Teaches, Learned, SameAdverts, Visible, AfterHearing;
  }

  /** The ids a run of introductions makes known. */
  function MetIds(node: Node, peers: seq<Addr>): set<string> {
    set addr | addr in peers && addr.id != node.id && addr.id !in node.forgotten :: addr.id
  }

  lemma {:induction false} KnownIds(node: Node, peers: seq<Addr>, sender: string)
    ensures RecordedAll(node, peers, sender).known.Keys == node.known.Keys + MetIds(node, peers)
  {
    if peers == [] {
      assert MetIds(node, []) == {};
    } else {
      var front, last := peers[..|peers| - 1], peers[|peers| - 1];
      assert peers == front + [last];
      KnownIds(node, front, sender);
      IntroducedAllKeeps(node, front, sender);
      var more := if last.id != node.id && last.id !in node.forgotten then {last.id} else {};
      assert MetIds(node, peers) == MetIds(node, front) + more by { hide RecordedAll; }
      assert Recorded(RecordedAll(node, front, sender), last, Some(sender)).known.Keys
        == RecordedAll(node, front, sender).known.Keys + more;
    }
  }

  /** Introducing a view again makes nobody new known. */
  lemma NobodyNew(node: Node, view: View)
    ensures var met := Introduced(node, view);
      Introduced(met, view).known.Keys == met.known.Keys && Introduced(met, view).id == met.id
  {
    var sender := view.addr.id;
    var first, met := Recorded(node, view.addr, None), Introduced(node, view);
    KnownIds(first, view.peers, sender);
    IntroducedAllKeeps(first, view.peers, sender);
    var again := Recorded(met, view.addr, None);
    assert again.known.Keys == met.known.Keys && again.forgotten == met.forgotten && again.id == met.id;
    KnownIds(again, view.peers, sender);
    IntroducedAllKeeps(again, view.peers, sender);
  }

  lemma BookAgain(node: Node, view: View, at: Moment)
    ensures var once := Merged(node, view, at);
      && AfterHearing(once.book, view.addr.id, view.table, at) == once.book && Introduced(once, view).book == once.book
      && MergedBook(Introduced(once, view), view, at) == once.book && once.peerRefs[view.addr.id] == view.refs
  {
    var met, once := Introduced(node, view), Merged(node, view, at);
    NobodyNew(node, view);
    SameAddresses(met, once, view.addr, None);
    SameAddressesAll(Recorded(met, view.addr, None), Recorded(once, view.addr, None), view.peers, view.addr.id);
    hide Recorded, RecordedAll, AfterHearing, Learned, Informs;
    BookTwice(met.book, Reader(met.id, met.known.Keys), view.addr.id, view.table, view.heard, at);
    RecordedKeeps(once, view.addr, None);
    RecordedAllKeeps(Recorded(once, view.addr, None), view.peers, view.addr.id);
  }

  /** Merging a view again at the same instant informs the node, and bumps its version, exactly
      when the view gives one id, that the node takes addresses for, two different sets of them;
      otherwise it changes nothing at all. */
  lemma MergeAgainExactly(node: Node, view: View, at: Moment)
    ensures var once := Merged(node, view, at);
      && (!Informs(once, view, at) <==> Agrees(node, view))
      && (Merged(once, view, at).version == once.version <==> Agrees(node, view))
      && (Merged(once, view, at) == once <==> Agrees(node, view))
  {
    var met, once := Introduced(node, view), Merged(node, view, at);
    IntroducedTwice(node, view);
    var again := Recorded(once, view.addr, None);
    SameAddresses(met, once, view.addr, None);
    SameAddressesAll(Recorded(met, view.addr, None), again, view.peers, view.addr.id);
    BookAgain(node, view, at);
    hide Recorded, RecordedAll, AnyTeaches, Teaches, AfterHearing, Learned, SameAdverts, Visible, Agrees, Informs;
    InformsByAddress(once, view, at);
  }

  /** Merged so often, at one instant. */
  function MergedTimes(node: Node, view: View, at: Moment, n: nat): Node {
    if n == 0 then node else Merged(MergedTimes(node, view, at, n - 1), view, at)
  }

  lemma AgreesStill(node: Node, view: View, at: Moment)
    ensures Agrees(Merged(node, view, at), view) <==> Agrees(node, view)
  {
    var sender := view.addr.id;
    var first, once := Recorded(node, view.addr, None), Merged(node, view, at);
    IntroducedAllKeeps(first, view.peers, sender);
    hide RecordedAll, Informs, MergedBook;
    assert forall id :: Hears(once, sender, id) <==> Hears(node, sender, id);
    hide Hears;
    forall a, b ensures AgreeOn(once, sender, a, b) <==> AgreeOn(node, sender, a, b) {
    }
  }

  /** Hearing a view over and over costs one version at most where it agrees, and one every time
      where it does not. */
  lemma {:induction false} MergedOften(node: Node, view: View, at: Moment, n: nat)
    ensures var once := Merged(node, view, at);
      && once.version <= node.version + 1
      && MergedTimes(once, view, at, n).version == once.version + (if Agrees(node, view) then 0 else n)
    ensures Agrees(MergedTimes(node, view, at, n), view) <==> Agrees(node, view)
  {
    hide Informs, MergedBook, Agrees, Introduced;
    if n > 0 {
      var before := MergedTimes(node, view, at, n - 1);
      MergedOften(node, view, at, n - 1);
      MergedShift(node, view, at, n - 1);
      MergeAgainExactly(before, view, at);
      AgreesStill(before, view, at);
      hide Merged;
    }
  }

  lemma {:induction false} MergedShift(node: Node, view: View, at: Moment, n: nat)
    ensures MergedTimes(Merged(node, view, at), view, at, n) == MergedTimes(node, view, at, n + 1)
  {
    hide Merged;
    if n > 0 {
      MergedShift(node, view, at, n - 1);
    }
  }

  /** What a sound node shows of itself agrees, whoever reads it. */
  lemma ShownAgrees(node: Node, view: View, shown: Moment, reader: Node)
    requires Sound(node) && ViewOf(node, view, shown)
    ensures Agrees(reader, view)
  {
    ViewsAreWellFormed(node, view, shown);
    forall a, b | a in Addresses(view) && b in Addresses(view) && a.id == b.id ensures a == b {
      if a in view.peers && b in view.peers {
        var i :| 0 <= i < |view.peers| && view.peers[i] == a;
        var j :| 0 <= j < |view.peers| && view.peers[j] == b;
      }
    }
  }

  /** A view that names a peer twice, at different addresses, informs every time. */
  lemma RepeatedPeerInforms(node: Node, view: View, at: Moment, i: nat, j: nat)
    requires i < |view.peers| && j < |view.peers| && view.peers[i].id == view.peers[j].id
    requires view.peers[i].addrs != view.peers[j].addrs && view.peers[i].addrs != {} && view.peers[j].addrs != {}
    requires Hears(node, view.addr.id, view.peers[i].id)
    ensures Informs(Merged(node, view, at), view, at)
  {
    MergeAgainExactly(node, view, at);
    assert view.peers[i] in Addresses(view) && view.peers[j] in Addresses(view);
    assert !AgreeOn(node, view.addr.id, view.peers[i], view.peers[j]);
    hide Informs, Merged;
  }
}
