/** Per-peer byte accounting over interleaved connections, and pruning. */
module Peers {
  /** The bytes a connection has carried so far. */
  datatype Sample = Sample(sent: nat, received: nat)

  /** A peer's record; the fields the accounting does not touch are left out. */
  datatype PeerRecord = PeerRecord(
    sent: nat,
    received: nat,
    known: bool,
    live: map<nat, Sample>,
    connections: nat,
    lastActivity: nat)

  datatype ConnectionKey = ConnectionKey(id: string, serial: nat)

  datatype Registry = Registry(serial: nat, peers: map<string, PeerRecord>)

  // ----- what the methods compute -----

  function SaturatingSub(a: nat, b: nat): nat {
    if a > b then a - b else 0
  }

  function Blank(now: nat): PeerRecord {
    PeerRecord(0, 0, false, map[], 0, now)
  }

  /** `edit`, then `heard`: the record, made if missing, with its activity noted. */
  function Heard(r: Registry, id: string, now: nat): PeerRecord {
    (if id in r.peers then r.peers[id] else Blank(now)).(lastActivity := now)
  }

  function Opened(r: Registry, id: string, now: nat): Registry {
    var record := Heard(r, id, now);
    Registry(r.serial + 1,
             r.peers[id := record.(connections := record.connections + 1,
                                    live := record.live[r.serial := Sample(0, 0)])])
  }

  function Previous(record: PeerRecord, serial: nat): Sample {
    if serial in record.live then record.live[serial] else Sample(0, 0)
  }

  function Observed(r: Registry, key: ConnectionKey, sample: Sample, now: nat): Registry {
    var record := Heard(r, key.id, now);
    var previous := Previous(record, key.serial);
    r.(peers := r.peers[key.id := record.(
      sent := record.sent + SaturatingSub(sample.sent, previous.sent),
      received := record.received + SaturatingSub(sample.received, previous.received),
      known := true,
      live := if key.serial in record.live then record.live[key.serial := sample] else record.live)])
  }

  function Closed(r: Registry, key: ConnectionKey, now: nat): Registry {
    var record := Heard(r, key.id, now);
    r.(peers := r.peers[key.id := record.(live := record.live - {key.serial})])
  }

  /** Idle for longer than `olderThan`; a clock that stepped back makes nothing stale. */
  predicate Stale(record: PeerRecord, olderThan: nat, now: nat) {
    now >= record.lastActivity && now - record.lastActivity > olderThan
  }

  predicate Keeps(record: PeerRecord, olderThan: nat, now: nat) {
    record.live != map[] || !Stale(record, olderThan, now)
  }

  function Pruned(r: Registry, olderThan: nat, now: nat): Registry {
    r.(peers := map id | id in r.peers && Keeps(r.peers[id], olderThan, now) :: r.peers[id])
  }

  function Dropped(r: Registry, olderThan: nat, now: nat): set<string> {
    set id | id in r.peers && !Keeps(r.peers[id], olderThan, now)
  }

  // ----- the registry as an object -----

  class PeerRegistry {
    var serial: nat
    var peers: map<string, PeerRecord>

    constructor ()
      ensures State() == Registry(0, map[])
    {
      serial, peers := 0, map[];
    }

    function State(): Registry
      reads this
    {
      Registry(serial, peers)
    }

    method Hear(id: string, now: nat) returns (record: PeerRecord)
      modifies this`peers
      ensures record == Heard(old(State()), id, now) && peers == old(peers)[id := record]
    {
      if id !in peers {
        peers := peers[id := Blank(now)];
      }
      record := peers[id].(lastActivity := now);
      peers := peers[id := record];
    }

    method ConnectionOpened(id: string, now: nat) returns (key: ConnectionKey)
      modifies this
      ensures key == ConnectionKey(id, old(serial)) && State() == Opened(old(State()), id, now)
    {
      key := ConnectionKey(id, serial);
      var record := Hear(id, now);
      record := record.(connections := record.connections + 1);
      record := record.(live := record.live[serial := Sample(0, 0)]);
      peers := peers[id := record];
      serial := serial + 1;
    }

    method Observe(key: ConnectionKey, sample: Sample, now: nat)
      modifies this
      ensures State() == Observed(old(State()), key, sample, now)
    {
      var record := Hear(key.id, now);
      var previous := if key.serial in record.live then record.live[key.serial] else Sample(0, 0);
      record := record.(sent := record.sent + SaturatingSub(sample.sent, previous.sent));
      record := record.(received := record.received + SaturatingSub(sample.received, previous.received));
      record := record.(known := true);
      if key.serial in record.live {
        record := record.(live := record.live[key.serial := sample]);
      }
      peers := peers[key.id := record];
    }

    method ConnectionClosed(key: ConnectionKey, now: nat)
      modifies this
      ensures State() == Closed(old(State()), key, now)
    {
      var record := Hear(key.id, now);
      peers := peers[key.id := record.(live := record.live - {key.serial})];
    }

    /** `retain` over the peers, collecting the ids let go. */
    method PruneDead(olderThan: nat, now: nat) returns (dropped: set<string>)
      modifies this
      ensures State() == Pruned(old(State()), olderThan, now)
      ensures dropped == Dropped(old(State()), olderThan, now)
    {
      ghost var was := State();
      dropped := {};
      var left := peers.Keys;
      while left != {}
        invariant left <= was.peers.Keys && serial == was.serial
        invariant dropped == set id | id in was.peers.Keys - left && !Keeps(was.peers[id], olderThan, now)
        invariant peers ==
          map id | id in was.peers && (id in left || Keeps(was.peers[id], olderThan, now)) :: was.peers[id]
        decreases |left|
      {
        var id :| id in left;
        left := left - {id};
        if !Keeps(peers[id], olderThan, now) {
          dropped := dropped + {id};
          peers := peers - {id};
        }
      }
    }
  }

  // ----- what happened, kept aside -----

  /** A connection: whose it is, its last sample, whether it is still open, and whether the
      peer's record is still the one it was opened under. */
  datatype Connection = Connection(id: string, last: Sample, open: bool, counted: bool)

  /** The registry and every connection ever opened, by serial. */
  datatype Book = Book(registry: Registry, connections: seq<Connection>)

  function SentBy(connections: seq<Connection>, id: string): nat {
    if connections == [] then 0
    else
      var c := connections[|connections| - 1];
      SentBy(connections[..|connections| - 1], id) + if c.id == id && c.counted then c.last.sent else 0
  }

  function ReceivedBy(connections: seq<Connection>, id: string): nat {
    if connections == [] then 0
    else
      var c := connections[|connections| - 1];
      ReceivedBy(connections[..|connections| - 1], id) + if c.id == id && c.counted then c.last.received else 0
  }

  function CountOf(connections: seq<Connection>, id: string): nat {
    if connections == [] then 0
    else
      var c := connections[|connections| - 1];
      CountOf(connections[..|connections| - 1], id) + if c.id == id && c.counted then 1 else 0
  }

  datatype Event =
    | Open(id: string)
    | Take(serial: nat, sample: Sample)
    | Close(serial: nat)
    | Touch(id: string)
    | Prune(olderThan: nat)

  datatype Timed = Timed(event: Event, now: nat)

  /** Samples are taken, and closes made, between open and close; a connection's samples never
      go down. */
  ghost predicate Orderly(b: Book, event: Event) {
    match event
    case Take(serial, sample) =>
      serial < |b.connections| && b.connections[serial].open
      && sample.sent >= b.connections[serial].last.sent && sample.received >= b.connections[serial].last.received
    case Close(serial) => serial < |b.connections| && b.connections[serial].open
    case _ => true
  }

  function KeyOf(b: Book, serial: nat): ConnectionKey
    requires serial < |b.connections|
  {
    ConnectionKey(b.connections[serial].id, serial)
  }

  function Uncounted(connections: seq<Connection>, gone: set<string>): (r: seq<Connection>)
    ensures |r| == |connections|
    ensures forall i :: 0 <= i < |r| ==>
      r[i] == if connections[i].id in gone then connections[i].(counted := false) else connections[i]
  {
    seq(|connections|, i requires 0 <= i < |connections| =>
      if connections[i].id in gone then connections[i].(counted := false) else connections[i])
  }

  function After(b: Book, t: Timed): Book
    requires t.event.Take? ==> t.event.serial < |b.connections|
    requires t.event.Close? ==> t.event.serial < |b.connections|
  {
    match t.event
    case Open(id) => Book(Opened(b.registry, id, t.now), b.connections + [Connection(id, Sample(0, 0), true, true)])
    case Take(serial, sample) =>
      Book(Observed(b.registry, KeyOf(b, serial), sample, t.now),
           b.connections[serial := b.connections[serial].(last := sample)])
    case Close(serial) =>
      Book(Closed(b.registry, KeyOf(b, serial), t.now), b.connections[serial := b.connections[serial].(open := false)])
    case Touch(id) => b.(registry := b.registry.(peers := b.registry.peers[id := Heard(b.registry, id, t.now)]))
    case Prune(olderThan) =>
      Book(Pruned(b.registry, olderThan, t.now), Uncounted(b.connections, Dropped(b.registry, olderThan, t.now)))
  }

  ghost predicate Runs(start: Book, events: seq<Timed>, end: Book)
    decreases |events|
  {
    if events == [] then start == end
    else Orderly(start, events[0].event) && Runs(After(start, events[0]), events[1..], end)
  }

  // ----- conservation -----

  predicate OpenFor(connections: seq<Connection>, id: string, serial: nat) {
    serial < |connections| && connections[serial].id == id && connections[serial].open
  }

  ghost predicate Totals(record: PeerRecord, connections: seq<Connection>, id: string) {
    record.sent == SentBy(connections, id) && record.received == ReceivedBy(connections, id)
    && record.connections == CountOf(connections, id)
  }

  ghost predicate LiveMap(record: PeerRecord, connections: seq<Connection>, id: string) {
    && (forall k: nat :: k in record.live ==> OpenFor(connections, id, k) && record.live[k] == connections[k].last)
    && (forall k: nat :: OpenFor(connections, id, k) ==> k in record.live && connections[k].counted)
  }

  ghost predicate Unknown(connections: seq<Connection>, id: string) {
    forall k :: 0 <= k < |connections| && connections[k].id == id ==> !connections[k].counted && !connections[k].open
  }

  /** A peer's totals are the sum of its connections' last samples, and its live map is its
      open connections, each with its last sample. */
  ghost predicate BalancedAt(b: Book, id: string) {
    if id in b.registry.peers then
      Totals(b.registry.peers[id], b.connections, id) && LiveMap(b.registry.peers[id], b.connections, id)
    else Unknown(b.connections, id)
  }

  ghost predicate Balanced(b: Book) {
    b.registry.serial == |b.connections| && forall id :: BalancedAt(b, id)
  }

  lemma {:induction false} SumsZero(connections: seq<Connection>, id: string)
    requires forall k :: 0 <= k < |connections| && connections[k].id == id ==> !connections[k].counted
    ensures SentBy(connections, id) == 0 && ReceivedBy(connections, id) == 0 && CountOf(connections, id) == 0
  {
    if connections != [] {
      SumsZero(connections[..|connections| - 1], id);
    }
  }

  lemma SumsSnoc(connections: seq<Connection>, c: Connection, id: string)
    ensures SentBy(connections + [c], id)
      == SentBy(connections, id) + if c.id == id && c.counted then c.last.sent else 0
    ensures ReceivedBy(connections + [c], id)
      == ReceivedBy(connections, id) + if c.id == id && c.counted then c.last.received else 0
    ensures CountOf(connections + [c], id) == CountOf(connections, id) + if c.id == id && c.counted then 1 else 0
  {
    assert (connections + [c])[..|connections|] == connections;
  }

  /** One connection's share of a sum changes with its last sample, and no other share does. */
  lemma {:induction false} SumsUpdate(connections: seq<Connection>, k: nat, c: Connection, id: string)
    requires k < |connections| && c.id == connections[k].id && c.counted == connections[k].counted
    ensures var after := connections[k := c]; var share := c.id == id && c.counted;
      && SentBy(after, id) == SentBy(connections, id) + (if share then c.last.sent - connections[k].last.sent else 0)
      && ReceivedBy(after, id) == ReceivedBy(connections, id)
        + (if share then c.last.received - connections[k].last.received else 0)
      && CountOf(after, id) == CountOf(connections, id)
  {
    var n := |connections| - 1;
    if k < n {
      SumsUpdate(connections[..n], k, c, id);
      assert connections[k := c][..n] == connections[..n][k := c];
    } else {
      assert connections[k := c][..n] == connections[..n];
    }
  }

  lemma {:induction false} SumsUncounted(connections: seq<Connection>, gone: set<string>, id: string)
    requires id !in gone
    ensures var after := Uncounted(connections, gone);
      && SentBy(after, id) == SentBy(connections, id) && ReceivedBy(after, id) == ReceivedBy(connections, id)
      && CountOf(after, id) == CountOf(connections, id)
  {
    if connections != [] {
      var n := |connections| - 1;
      SumsUncounted(connections[..n], gone, id);
      assert Uncounted(connections, gone)[..n] == Uncounted(connections[..n], gone);
    }
  }

  /** A peer's record as `heard` finds it, balanced or blank. */
  lemma HeardBalanced(b: Book, id: string, now: nat)
    requires BalancedAt(b, id)
    ensures Totals(Heard(b.registry, id, now), b.connections, id)
    ensures LiveMap(Heard(b.registry, id, now), b.connections, id)
  {
    if id !in b.registry.peers {
      SumsZero(b.connections, id);
    }
    hide SentBy, ReceivedBy, CountOf;
  }

  /** Another peer's connection changes nothing of this one's. */
  lemma OtherUpdate(b: Book, k: nat, c: Connection, registry: Registry, id: string)
    requires BalancedAt(b, id) && k < |b.connections| && b.connections[k].id == c.id != id
    requires c.counted == b.connections[k].counted
    requires id in registry.peers <==> id in b.registry.peers
    requires id in registry.peers ==> registry.peers[id] == b.registry.peers[id]
    ensures BalancedAt(Book(registry, b.connections[k := c]), id)
  {
    SumsUpdate(b.connections, k, c, id);
    hide SentBy, ReceivedBy, CountOf;
    assert forall j: nat :: OpenFor(b.connections[k := c], id, j) <==> OpenFor(b.connections, id, j);
  }

  lemma LiveSnoc(record: PeerRecord, connections: seq<Connection>, id: string, c: Connection)
    requires LiveMap(record, connections, id)
    ensures c.id != id ==> LiveMap(record, connections + [c], id)
    ensures c.id == id && c.open && c.counted ==>
      LiveMap(record.(live := record.live[|connections| := c.last]), connections + [c], id)
  {
    var n := |connections|;
    assert forall j: nat :: OpenFor(connections + [c], id, j) <==>
      OpenFor(connections, id, j) || (j == n && c.id == id && c.open);
    assert forall j: nat :: j < n ==> (connections + [c])[j] == connections[j];
  }

  lemma LiveUpdate(record: PeerRecord, connections: seq<Connection>, id: string, k: nat, c: Connection)
    requires LiveMap(record, connections, id) && OpenFor(connections, id, k) && c.id == id && c.counted
    ensures c.open ==> LiveMap(record.(live := record.live[k := c.last]), connections[k := c], id)
    ensures !c.open ==> LiveMap(record.(live := record.live - {k}), connections[k := c], id)
  {
    var after := connections[k := c];
    assert forall j: nat :: OpenFor(after, id, j) <==> OpenFor(connections, id, j) && (j == k ==> c.open);
    assert forall j: nat :: j < |after| && j != k ==> after[j] == connections[j];
    assert after[k] == c;
  }

  lemma OpenKeeps(b: Book, t: Timed, id: string)
    requires Balanced(b) && t.event.Open?
    ensures BalancedAt(After(b, t), id)
  {
    var c := Connection(t.event.id, Sample(0, 0), true, true);
    var record := Heard(b.registry, id, t.now);
    assert BalancedAt(b, id);
    SumsSnoc(b.connections, c, id);
    HeardBalanced(b, id, t.now);
    LiveSnoc(record, b.connections, id, c);
    hide SentBy, ReceivedBy, CountOf, OpenFor, Heard;
    if id != c.id {
      if id in b.registry.peers {
        LiveSnoc(b.registry.peers[id], b.connections, id, c);
      }
      hide LiveMap;
    } else {
      hide LiveMap, Unknown;
    }
  }

  lemma TakeKeeps(b: Book, t: Timed, id: string)
    requires Balanced(b) && t.event.Take? && Orderly(b, t.event)
    ensures BalancedAt(After(b, t), id)
  {
    var k := t.event.serial;
    var c := b.connections[k].(last := t.event.sample);
    assert BalancedAt(b, c.id) && BalancedAt(b, id);
    if id != c.id {
      hide BalancedAt;
      OtherUpdate(b, k, c, After(b, t).registry, id);
    } else {
      HeardBalanced(b, id, t.now);
      SumsUpdate(b.connections, k, c, id);
      assert OpenFor(b.connections, id, k);
      LiveUpdate(Heard(b.registry, id, t.now), b.connections, id, k, c);
      assert k in Heard(b.registry, id, t.now).live && Heard(b.registry, id, t.now).live[k] == b.connections[k].last;
      hide SentBy, ReceivedBy, CountOf, Unknown, LiveMap, OpenFor, Heard;
    }
  }

  lemma CloseKeeps(b: Book, t: Timed, id: string)
    requires Balanced(b) && t.event.Close? && Orderly(b, t.event)
    ensures BalancedAt(After(b, t), id)
  {
    var k := t.event.serial;
    var c := b.connections[k].(open := false);
    assert BalancedAt(b, c.id) && BalancedAt(b, id);
    if id != c.id {
      hide BalancedAt;
      OtherUpdate(b, k, c, After(b, t).registry, id);
    } else {
      HeardBalanced(b, id, t.now);
      SumsUpdate(b.connections, k, c, id);
      assert OpenFor(b.connections, id, k);
      assert c.counted;
      LiveUpdate(Heard(b.registry, id, t.now), b.connections, id, k, c);
      hide SentBy, ReceivedBy, CountOf, Unknown, LiveMap, OpenFor, Heard;
    }
  }

  lemma TouchKeeps(b: Book, t: Timed, id: string)
    requires Balanced(b) && t.event.Touch?
    ensures BalancedAt(After(b, t), id)
  {
    assert BalancedAt(b, id);
    HeardBalanced(b, id, t.now);
    hide SentBy, ReceivedBy, CountOf;
  }

  lemma PruneKeeps(b: Book, t: Timed, id: string)
    requires Balanced(b) && t.event.Prune?
    ensures BalancedAt(After(b, t), id)
  {
    var gone := Dropped(b.registry, t.event.olderThan, t.now);
    assert BalancedAt(b, id);
    if id in gone {
      hide SentBy, ReceivedBy, CountOf;
      assert b.registry.peers[id].live == map[];
      forall k | 0 <= k < |b.connections| && b.connections[k].id == id ensures !b.connections[k].open {
        assert !OpenFor(b.connections, id, k);
      }
    } else {
      SumsUncounted(b.connections, gone, id);
      hide SentBy, ReceivedBy, CountOf;
      assert forall j: nat :: OpenFor(Uncounted(b.connections, gone), id, j) <==> OpenFor(b.connections, id, j);
    }
  }

  lemma StepKeeps(b: Book, t: Timed)
    requires Balanced(b) && Orderly(b, t.event)
    ensures Balanced(After(b, t))
  {
    hide BalancedAt;
    forall id ensures BalancedAt(After(b, t), id) {
      match t.event {
        case Open(_) => OpenKeeps(b, t, id);
        case Take(_, _) => TakeKeeps(b, t, id);
        case Close(_) => CloseKeeps(b, t, id);
        case Touch(_) => TouchKeeps(b, t, id);
        case Prune(_) => PruneKeeps(b, t, id);
      }
    }
  }

  /** Over every orderly interleaving of opens, samples, closes and prunes, a peer's wire totals
      are the sum of the last samples of the connections opened since its record was made. */
  lemma {:induction false} BytesAreConserved(start: Book, events: seq<Timed>, end: Book)
    requires Balanced(start) && Runs(start, events, end)
    ensures Balanced(end)
    decreases |events|
  {
    hide Balanced, After;
    if events != [] {
      StepKeeps(start, events[0]);
      BytesAreConserved(After(start, events[0]), events[1..], end);
    }
  }

  /** From the empty registry no orderly run leaves the balance. */
  lemma TotalsAreSums(events: seq<Timed>, end: Book, id: string)
    requires Runs(Book(Registry(0, map[]), []), events, end) && id in end.registry.peers
    ensures end.registry.peers[id].sent == SentBy(end.connections, id)
    ensures end.registry.peers[id].received == ReceivedBy(end.connections, id)
    ensures end.registry.peers[id].connections == CountOf(end.connections, id)
  {
    EmptyIsBalanced();
    hide SentBy, ReceivedBy, CountOf;
    BytesAreConserved(Book(Registry(0, map[]), []), events, end);
    assert BalancedAt(end, id);
  }

  lemma EmptyIsBalanced()
    ensures Balanced(Book(Registry(0, map[]), []))
  {
  }

  /** Which samples keep the totals equal to the sums: of an open connection, exactly those that
      do not go down; of a closed one, exactly when it had carried nothing; of one whose peer was
      pruned since, exactly the empty sample. */
  lemma SampleBalances(b: Book, serial: nat, sample: Sample, now: nat)
    requires Balanced(b) && serial < |b.connections|
    ensures var c := b.connections[serial];
      var after := After(b, Timed(Take(serial, sample), now));
      var record := after.registry.peers[c.id];
      (record.sent == SentBy(after.connections, c.id) && record.received == ReceivedBy(after.connections, c.id))
      <==>
      if !c.counted then sample == Sample(0, 0)
      else if c.open then sample.sent >= c.last.sent && sample.received >= c.last.received
      else c.last == Sample(0, 0)
  {
    var c := b.connections[serial];
    assert BalancedAt(b, c.id);
    HeardBalanced(b, c.id, now);
    SumsUpdate(b.connections, serial, c.(last := sample), c.id);
    hide SentBy, ReceivedBy, CountOf;
    assert c.open <==> OpenFor(b.connections, c.id, serial);
  }

  /** In every orderly run a prune lets go of exactly the peers that are idle too long and have
      no connection open, and every other record stays as it is. */
  lemma PruneSparesOpen(start: Book, events: seq<Timed>, b: Book, olderThan: nat, now: nat, id: string)
    requires Balanced(start) && Runs(start, events, b) && id in b.registry.peers
    ensures var record := b.registry.peers[id]; var after := Pruned(b.registry, olderThan, now);
      && (id !in after.peers <==>
            record.lastActivity + olderThan < now && forall k: nat :: !OpenFor(b.connections, id, k))
      && (id in after.peers ==> after.peers[id] == record)
  {
    BytesAreConserved(start, events, b);
    assert BalancedAt(b, id);
    hide SentBy, ReceivedBy, CountOf;
    var record := b.registry.peers[id];
    if record.live != map[] {
      assert record.live.Keys != {};
      var k: nat :| k in record.live;
      assert OpenFor(b.connections, id, k);
    }
  }

  /** In every orderly run, a peer with an open connection is on record whatever was pruned. */
  lemma OpenPeersStay(start: Book, events: seq<Timed>, end: Book, serial: nat)
    requires Balanced(start) && Runs(start, events, end)
    requires serial < |end.connections| && end.connections[serial].open
    ensures end.connections[serial].id in end.registry.peers
  {
    BytesAreConserved(start, events, end);
    assert BalancedAt(end, end.connections[serial].id);
  }
}
