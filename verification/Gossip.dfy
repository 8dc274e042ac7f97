/** Gossip: merging a peer's view into what a node knows, and any number of nodes exchanging
    views under one clock. */
module Gossip {
  import opened Options
  import opened Records
  import opened Presence

  /** `EndpointAddr`: a peer id and the addresses it may be reached at. */
  datatype Addr = Addr(id: string, addrs: set<string>)

  /** `total` and `held` count the refs of the manifest, and those of them on disk. */
  datatype RefAdvert = RefAdvert(name: string, manifest: Hash, total: nat, held: nat, owner: Option<Dgid>)

  datatype View = View(addr: Addr, peers: seq<Addr>, refs: seq<RefAdvert>, table: Option<string>, heard: seq<Heard>)

  /** What a node keeps about the mesh, as one value. */
  datatype Node = Node(
    id: string,
    seeded: set<string>,
    known: map<string, Addr>,
    forgotten: set<string>,
    book: Book,
    peerRefs: map<string, seq<RefAdvert>>,
    version: nat,
    table: Option<string>)

  // ----- what the methods compute -----

  predicate AdmitsIntroduction(forgotten: set<string>, id: string, introducedBy: Option<string>) {
    introducedBy.None? || id !in forgotten
  }

  /** `record_addr` would change what is known. */
  predicate Teaches(node: Node, addr: Addr, introducedBy: Option<string>) {
    && addr.id != node.id && AdmitsIntroduction(node.forgotten, addr.id, introducedBy)
    && (addr.id in node.known ==> node.known[addr.id].addrs != addr.addrs && addr.addrs != {})
  }

  function Recorded(node: Node, addr: Addr, introducedBy: Option<string>): Node {
    if addr.id == node.id || !AdmitsIntroduction(node.forgotten, addr.id, introducedBy) then node
    else
      node.(forgotten := node.forgotten - {addr.id},
            known := if Teaches(node, addr, introducedBy) then node.known[addr.id := addr] else node.known)
  }

  function RecordedAll(node: Node, peers: seq<Addr>, sender: string): Node {
    if peers == [] then node
    else Recorded(RecordedAll(node, peers[..|peers| - 1], sender), peers[|peers| - 1], Some(sender))
  }

  predicate AnyTeaches(node: Node, peers: seq<Addr>, sender: string) {
    peers != [] && (AnyTeaches(node, peers[..|peers| - 1], sender)
                    || Teaches(RecordedAll(node, peers[..|peers| - 1], sender), peers[|peers| - 1], Some(sender)))
  }

  predicate SameAdverts(left: seq<RefAdvert>, right: seq<RefAdvert>) {
    |left| == |right|
    && forall i :: 0 <= i < |left| ==>
         && left[i].name == right[i].name && left[i].manifest == right[i].manifest
         && left[i].total == right[i].total && left[i].held == right[i].held && left[i].owner == right[i].owner
  }

  function MergedBook(node: Node, view: View, at: Moment): Book {
    Learned(AfterHearing(node.book, view.addr.id, view.table, at), Reader(node.id, node.known.Keys),
            view.addr.id, view.heard, at)
  }

  function Introduced(node: Node, view: View): Node {
    RecordedAll(Recorded(node, view.addr, None), view.peers, view.addr.id)
  }

  /** The merge taught the node something, so its own view is due to its peers again. */
  predicate Informs(node: Node, view: View, at: Moment) {
    var sender := view.addr.id;
    var met := Introduced(node, view);
    var heard := AfterHearing(met.book, sender, view.table, at);
    || Teaches(node, view.addr, None) || AnyTeaches(Recorded(node, view.addr, None), view.peers, sender)
    || Visible(met.book, at) != Visible(heard, at) || Visible(heard, at) != Visible(MergedBook(met, view, at), at)
    || (sender in node.peerRefs ==> !SameAdverts(node.peerRefs[sender], view.refs))
  }

  /** `merge`. */
  function Merged(node: Node, view: View, at: Moment): Node {
    var met := Introduced(node, view);
    met.(book := MergedBook(met, view, at), peerRefs := node.peerRefs[view.addr.id := view.refs],
         version := node.version + if Informs(node, view, at) then 1 else 0)
  }

  function ForgottenAll(book: Book, hosts: seq<string>, seeded: set<string>): Book {
    if hosts == [] then book
    else
      var before := ForgottenAll(book, hosts[..|hosts| - 1], seeded);
      if hosts[|hosts| - 1] in seeded then before else Forgotten(before, hosts[|hosts| - 1])
  }

  function WithoutAll(node: Node, ids: seq<string>): Node {
    var gone := Elements(ids) - node.seeded;
    node.(known := node.known - gone, peerRefs := node.peerRefs - gone, forgotten := node.forgotten + gone,
          book := ForgottenAll(node.book, ids, node.seeded))
  }

  /** `forget_peers`. */
  function WithoutPeers(node: Node, ids: seq<string>): Node {
    var after := WithoutAll(node, ids);
    after.(version := after.version + 1)
  }

  lemma WithoutNone(node: Node)
    ensures WithoutAll(node, []) == node
  {
    assert Elements<string>([]) == {};
  }

  lemma WithoutOneMore(node: Node, ids: seq<string>, i: nat)
    requires i < |ids|
    ensures var before := WithoutAll(node, ids[..i]);
      WithoutAll(node, ids[..i + 1]) ==
        if ids[i] in node.seeded then before
        else before.(known := before.known - {ids[i]}, peerRefs := before.peerRefs - {ids[i]},
                     forgotten := before.forgotten + {ids[i]}, book := Forgotten(before.book, ids[i]))
  {
    hide Forgotten;
    assert ids[..i + 1][..i] == ids[..i];
    assert Elements(ids[..i + 1]) == Elements(ids[..i]) + {ids[i]};
  }

  /** `forget_table`. */
  function WithoutTable(node: Node, host: string, at: Moment): Node {
    var book := Forgotten(node.book, host);
    node.(book := book, version := node.version + if Visible(node.book, at) != Visible(book, at) then 1 else 0)
  }

  // ----- the mesh as an object -----

  class Mesh {
    const id: string
    const seeded: set<string>
    const tables: TableBook
    var known: map<string, Addr>
    var forgotten: set<string>
    var peerRefs: map<string, seq<RefAdvert>>
    var version: nat
    var table: Option<string>

    function State(): Node
      reads this, tables
    {
      Node(id, seeded, known, forgotten, tables.State(), peerRefs, version, table)
    }

    constructor (id: string, seeded: set<string>)
      ensures State() == Node(id, seeded, map[], {}, Book(map[], map[], map[]), map[], 1, None) && fresh(tables)
    {
      this.id, this.seeded := id, seeded;
      tables := new TableBook();
      known, forgotten, peerRefs, version, table := map[], {}, map[], 1, None;
    }

    method RecordAddr(addr: Addr, introducedBy: Option<string>) returns (learned: bool)
      modifies this`known, this`forgotten
      ensures State() == Recorded(old(State()), addr, introducedBy)
      ensures learned <==> Teaches(old(State()), addr, introducedBy)
    {
      if addr.id == id {
        return false;
      }
      if !AdmitsIntroduction(forgotten, addr.id, introducedBy) {
        return false;
      }
      forgotten := forgotten - {addr.id};
      if addr.id in known && (known[addr.id].addrs == addr.addrs || addr.addrs == {}) {
        return false;
      }
      known := known[addr.id := addr];
      learned := true;
    }

    method RecordAll(peers: seq<Addr>, sender: string) returns (learned: bool)
      modifies this`known, this`forgotten
      ensures State() == RecordedAll(old(State()), peers, sender)
      ensures learned <==> AnyTeaches(old(State()), peers, sender)
    {
      ghost var node := State();
      learned := false;
      hide Recorded, Teaches;
      for i := 0 to |peers|
        invariant State() == RecordedAll(node, peers[..i], sender)
        invariant learned <==> AnyTeaches(node, peers[..i], sender)
      {
        assert peers[..i + 1][..i] == peers[..i];
        var new_ := RecordAddr(peers[i], Some(sender));
        learned := learned || new_;
      }
      assert peers[..|peers|] == peers;
    }

    method Merge(view: View, at: Moment)
      modifies this, tables
      ensures State() == Merged(old(State()), view, at)
    {
      hide Recorded, RecordedAll, Teaches, AnyTeaches, AfterHearing, Learned, Visible, SameAdverts;
      var sender := view.addr.id;
      ghost var node := State();
      var met := RecordAddr(view.addr, None);
      ghost var recorded := State();
      var told := RecordAll(view.peers, sender);
      RecordedKeeps(node, view.addr, None);
      RecordedAllKeeps(recorded, view.peers, sender);
      ghost var introduced := State();
      var heard := tables.Hear(sender, view.table, at);
      var learned := tables.Learn(sender, view.heard, Reader(id, known.Keys), at);
      var changed := sender in peerRefs ==> !SameAdverts(peerRefs[sender], view.refs);
      peerRefs := peerRefs[sender := view.refs];
      if met || told || heard || learned || changed {
        version := version + 1;
      }
      assert tables.State() == MergedBook(introduced, view, at);
    }

    method ForgetPeers(ids: seq<string>, at: Moment)
      modifies this, tables
      ensures State() == WithoutPeers(old(State()), ids)
    {
      ghost var node := State();
      hide WithoutAll, Visible, Forgotten;
      WithoutNone(node);
      assert ids[..0] == [];
      for i := 0 to |ids|
        invariant State() == WithoutAll(node, ids[..i])
      {
        WithoutOneMore(node, ids, i);
        if ids[i] in seeded {
          continue;
        }
        known := known - {ids[i]};
        peerRefs := peerRefs - {ids[i]};
        var changed := tables.Forget(ids[i], at);
        forgotten := forgotten + {ids[i]};
      }
      assert ids[..|ids|] == ids;
      version := version + 1;
    }

    method ForgetTable(host: string, at: Moment)
      modifies this`version, tables
      ensures State() == WithoutTable(old(State()), host, at)
    {
      var changed := tables.Forget(host, at);
      if changed {
        version := version + 1;
      }
    }

    /** `local_view`, with the node's own addresses and ref adverts given. */
    method LocalView(addrs: set<string>, refs: seq<RefAdvert>, at: Moment) returns (view: View)
      requires Sound(State())
      ensures ViewOf(State(), view, at) && view.refs == refs && view.addr.addrs == addrs
    {
      hide Relays, Entries;
      var peers := KnownPeers(known);
      var heard := Lines(tables.Relay(at));
      view := View(Addr(id, addrs), peers, refs, table, heard);
    }
  }

  /** `known_peers`. */
  method KnownPeers(known: map<string, Addr>) returns (peers: seq<Addr>)
    requires forall k :: k in known ==> known[k].id == k
    ensures DistinctIds(peers) && forall addr :: addr in peers <==> addr.id in known && known[addr.id] == addr
  {
    peers := [];
    var left := known.Keys;
    while left != {}
      invariant left <= known.Keys && DistinctIds(peers)
      invariant forall addr :: addr in peers <==> addr.id in known.Keys - left && known[addr.id] == addr
      decreases |left|
    {
      var k :| k in left;
      forall addr | addr in peers ensures addr.id != k {
      }
      peers := peers + [known[k]];
      left := left - {k};
    }
  }

  method Lines(lines: set<Heard>) returns (heard: seq<Heard>)
    ensures Elements(heard) == lines
  {
    heard := [];
    var left := lines;
    while left != {}
      invariant Elements(heard) + left == lines
      decreases |left|
    {
      var line :| line in left;
      heard := heard + [line];
      left := left - {line};
    }
  }

  // ----- views -----

  ghost predicate DistinctIds(peers: seq<Addr>) {
    forall i, j :: 0 <= i < j < |peers| ==> peers[i].id != peers[j].id
  }

  /** Each id once: the sender, then its peers. */
  ghost predicate WellFormed(view: View) {
    DistinctIds(view.peers) && forall addr :: addr in view.peers ==> addr.id != view.addr.id
  }

  /** A node files every address under its own id, and none for itself. */
  ghost predicate Sound(node: Node) {
    node.id !in node.known && forall k :: k in node.known ==> node.known[k].id == k
  }

  /** `view` is what the node shows of itself. */
  ghost predicate ViewOf(node: Node, view: View, at: Moment) {
    && view.addr.id == node.id && view.table == node.table
    && DistinctIds(view.peers)
    && (forall addr :: addr in view.peers <==> addr.id in node.known && node.known[addr.id] == addr)
    && Elements(view.heard) == Relays(node.book, at)
  }

  /** The views of sound nodes name each id once. */
  lemma ViewsAreWellFormed(node: Node, view: View, at: Moment)
    requires Sound(node) && ViewOf(node, view, at)
    ensures WellFormed(view)
  {
  }

  lemma RecordedKeeps(node: Node, addr: Addr, introducedBy: Option<string>)
    ensures Recorded(node, addr, introducedBy) ==
      node.(known := Recorded(node, addr, introducedBy).known,
            forgotten := Recorded(node, addr, introducedBy).forgotten)
    ensures Sound(node) ==> Sound(Recorded(node, addr, introducedBy))
  {
  }

  lemma {:induction false} RecordedAllKeeps(node: Node, peers: seq<Addr>, sender: string)
    ensures RecordedAll(node, peers, sender) ==
      node.(known := RecordedAll(node, peers, sender).known, forgotten := RecordedAll(node, peers, sender).forgotten)
    ensures Sound(node) ==> Sound(RecordedAll(node, peers, sender))
  {
    if peers != [] {
      hide Recorded;
      RecordedAllKeeps(node, peers[..|peers| - 1], sender);
      RecordedKeeps(RecordedAll(node, peers[..|peers| - 1], sender), peers[|peers| - 1], Some(sender));
    }
  }

  /** Merging any view leaves a sound node sound. */
  lemma MergeKeepsSound(node: Node, view: View, at: Moment)
    requires Sound(node)
    ensures Sound(Merged(node, view, at))
  {
    hide Recorded, RecordedAll, Informs, MergedBook;
    RecordedKeeps(node, view.addr, None);
    RecordedAllKeeps(Recorded(node, view.addr, None), view.peers, view.addr.id);
  }

  // ----- what is news, and what is forgotten -----

  /** Adverts are the same when nothing in them differs. */
  lemma SameAdvertsExactly(left: seq<RefAdvert>, right: seq<RefAdvert>)
    ensures SameAdverts(left, right) <==> left == right
  {
  }

  lemma TeachingTells(node: Node, addr: Addr, via: Option<string>)
    ensures !Teaches(node, addr, via) ==> Recorded(node, addr, via).known == node.known
  {
  }

  lemma {:induction false} TeachingAllTells(node: Node, peers: seq<Addr>, sender: string)
    ensures !AnyTeaches(node, peers, sender) ==> RecordedAll(node, peers, sender).known == node.known
  {
    if peers != [] {
      hide Recorded, Teaches;
      TeachingAllTells(node, peers[..|peers| - 1], sender);
      TeachingTells(RecordedAll(node, peers[..|peers| - 1], sender), peers[|peers| - 1], Some(sender));
    }
  }

  /** A merge that changes an address, a table shown or the sender's adverts moves the version, by
      one; what it files as the sender's adverts is what the view says. */
  lemma NewsMovesVersion(node: Node, view: View, at: Moment)
    ensures var after := Merged(node, view, at);
      && node.version <= after.version <= node.version + 1
      && (after.known != node.known ==> after.version == node.version + 1)
      && (Visible(after.book, at) != Visible(node.book, at) ==> after.version == node.version + 1)
      && (after.peerRefs != node.peerRefs ==> after.version == node.version + 1)
      && after.peerRefs == node.peerRefs[view.addr.id := view.refs]
      && after.id == node.id && after.table == node.table && after.seeded == node.seeded
  {
    var first := Recorded(node, view.addr, None);
    TeachingTells(node, view.addr, None);
    TeachingAllTells(first, view.peers, view.addr.id);
    RecordedKeeps(node, view.addr, None);
    RecordedAllKeeps(first, view.peers, view.addr.id);
    if view.addr.id in node.peerRefs {
      SameAdvertsExactly(node.peerRefs[view.addr.id], view.refs);
    }
    hide Recorded, RecordedAll, Teaches, AnyTeaches, SameAdverts, Visible, AfterHearing, Learned;
  }

  lemma {:induction false} ForgottenAllTells(book: Book, hosts: seq<string>, seeded: set<string>)
    ensures var after := ForgottenAll(book, hosts, seeded);
      && after.withdrawn == book.withdrawn
      && (forall host :: host in after.firstHand <==> host in book.firstHand && (host in hosts ==> host in seeded))
      && (forall host :: host in after.firstHand ==> after.firstHand[host] == book.firstHand[host])
      && (forall key: (string, string) :: key in after.relayed <==>
            key in book.relayed && (key.0 in hosts ==> key.0 in seeded))
      && (forall key: (string, string) :: key in after.relayed ==> after.relayed[key] == book.relayed[key])
  {
    if hosts != [] {
      assert hosts == hosts[..|hosts| - 1] + [hosts[|hosts| - 1]];
      ForgottenAllTells(book, hosts[..|hosts| - 1], seeded);
    }
  }

  /** A peer is kept exactly when it is seeded or not named; of one forgotten nothing is left, and
      no introduction brings it back. The version moves by one. */
  lemma ForgettingTells(node: Node, ids: seq<string>, id: string)
    ensures var after := WithoutPeers(node, ids);
      && after.version == node.version + 1
      && (if id in ids && id !in node.seeded then
            && id !in after.known && id !in after.peerRefs && id in after.forgotten
            && id !in after.book.firstHand && (forall name :: (id, name) !in after.book.relayed)
          else
            && (id in after.known <==> id in node.known) && (id in node.known ==> after.known[id] == node.known[id])
            && (id in after.peerRefs <==> id in node.peerRefs)
            && (id in after.forgotten <==> id in node.forgotten)
            && (id in after.book.firstHand <==> id in node.book.firstHand)
            && (forall name :: (id, name) in after.book.relayed <==> (id, name) in node.book.relayed))
  {
    ForgottenAllTells(node.book, ids, node.seeded);
    hide ForgottenAll;
  }

  /** Forgetting a host's table leaves nothing listed of it, and moves the version, by one, exactly
      when something was. */
  lemma ForgottenTableTells(node: Node, host: string, at: Moment)
    ensures var after := WithoutTable(node, host, at);
      && !ListsHost(after.book, host, at)
      && after.version == node.version + (if ListsHost(node.book, host, at) then 1 else 0)
      && (forall e: Entry | e.host != host :: e in Entries(after.book, at) <==> e in Entries(node.book, at))
      && after == node.(book := after.book, version := after.version)
  {
    var after := WithoutTable(node, host, at);
    forall e ensures e in Entries(after.book, at) <==> e in Entries(node.book, at) && e.host != host {
      ListsExactly(after.book, at, e);
      ListsExactly(node.book, at, e);
    }
    hide Entries;
    if ListsHost(node.book, host, at) {
      var e :| e in Entries(node.book, at) && e.host == host;
      assert (e.host, e.name) in Visible(node.book, at) && (e.host, e.name) !in Visible(after.book, at);
    } else {
      assert Entries(after.book, at) == Entries(node.book, at);
    }
  }
}
