/** The presence book: tables heard first-hand, hearsay about others with the stamps it came
    with, and tombstones of withdrawn tables. */
module Presence {
  import opened Options

  const FIRST_HAND_EXPIRY: nat := 150_000_000_000
  const RELAY_EXPIRY_SECS: nat := 300
  const RELAY_EXPIRY: nat := 300_000_000_000

  /** The monotonic clock in nanoseconds and the wall clock in seconds. */
  datatype Moment = Moment(now: nat, epoch: nat)

  datatype FirstHand = FirstHand(name: string, seen: nat, heardAt: nat)

  datatype Relayed = Relayed(heardAt: nat, learned: nat)

  /** `HeardTable`: one line of hearsay. */
  datatype Heard = Heard(host: string, name: string, heardAt: nat)

  datatype Entry = Entry(host: string, name: string, heardAt: nat, relayed: bool)

  /** The three maps of the book, as one value. */
  datatype Book = Book(
    firstHand: map<string, FirstHand>,
    relayed: map<(string, string), Relayed>,
    withdrawn: map<string, nat>)

  /** Who is reading hearsay: its own id and the peers it has an address for. */
  datatype Reader = Reader(self: string, known: set<string>)

  // ----- what the methods compute -----

  /** Elapsed time, zero when the clock reads earlier. */
  function Since(earlier: nat, later: nat): nat {
    if later > earlier then later - earlier else 0
  }

  predicate Fresh(heardAt: nat, epoch: nat) {
    Since(heardAt, epoch) < RELAY_EXPIRY_SECS
  }

  predicate Live(direct: FirstHand, now: nat) {
    Since(direct.seen, now) < FIRST_HAND_EXPIRY
  }

  predicate Standing(entry: Relayed, at: Moment) {
    Fresh(entry.heardAt, at.epoch) && Since(entry.learned, at.now) < RELAY_EXPIRY
  }

  predicate Direct(book: Book, host: string, now: nat) {
    host in book.firstHand && Live(book.firstHand[host], now)
  }

  /** `entries`: first-hand tables not expired, then hearsay about the other hosts. */
  function Entries(book: Book, at: Moment): set<Entry> {
    (set host | host in book.firstHand && Direct(book, host, at.now) ::
       Entry(host, book.firstHand[host].name, book.firstHand[host].heardAt, false))
    + (set key | key in book.relayed && !Direct(book, key.0, at.now) && Standing(book.relayed[key], at) ::
         Entry(key.0, key.1, book.relayed[key].heardAt, true))
  }

  function Visible(book: Book, at: Moment): set<(string, string)> {
    set e | e in Entries(book, at) :: (e.host, e.name)
  }

  function Swept(book: Book, at: Moment): Book {
    book.(relayed := map key | key in book.relayed && Standing(book.relayed[key], at) :: book.relayed[key],
          withdrawn := map host | host in book.withdrawn && Fresh(book.withdrawn[host], at.epoch) ::
            book.withdrawn[host])
  }

  function WithoutHearsay(book: Book, host: string): map<(string, string), Relayed> {
    map key | key in book.relayed && key.0 != host :: book.relayed[key]
  }

  predicate ListsHost(book: Book, host: string, at: Moment) {
    exists e :: e in Entries(book, at) && e.host == host
  }

  /** `hear`: the host itself speaks, with a table or without one. */
  function AfterHearing(book: Book, host: string, advert: Option<string>, at: Moment): Book {
    var relayed := WithoutHearsay(book, host);
    match advert
    case Some(name) =>
      Book(book.firstHand[host := FirstHand(name, at.now, at.epoch)], relayed, book.withdrawn - {host})
    case None =>
      Book(book.firstHand - {host}, relayed,
           if host in book.firstHand || ListsHost(book, host, at) then book.withdrawn[host := at.epoch]
           else book.withdrawn)
  }

  /** The checks a line of hearsay passes before it is taken. */
  predicate Admits(book: Book, reader: Reader, sender: string, entry: Heard, at: Moment) {
    && entry.host != reader.self && entry.host != sender && entry.host in reader.known
    && Fresh(entry.heardAt, at.epoch)
    && !(entry.host in book.withdrawn && entry.heardAt <= book.withdrawn[entry.host])
    && !Direct(book, entry.host, at.now)
  }

  function Took(book: Book, reader: Reader, sender: string, entry: Heard, at: Moment): Book {
    if !Admits(book, reader, sender, entry, at) then book
    else
      var key := (entry.host, entry.name);
      Book(book.firstHand - {entry.host},
           if key in book.relayed && entry.heardAt <= book.relayed[key].heardAt then book.relayed
           else book.relayed[key := Relayed(entry.heardAt, at.now)],
           book.withdrawn)
  }

  function TookAll(book: Book, reader: Reader, sender: string, heard: seq<Heard>, at: Moment): Book {
    if heard == [] then book
    else Took(TookAll(book, reader, sender, heard[..|heard| - 1], at), reader, sender, heard[|heard| - 1], at)
  }

  /** `learn`: a peer's hearsay. */
  function Learned(book: Book, reader: Reader, sender: string, heard: seq<Heard>, at: Moment): Book {
    TookAll(Swept(book, at), reader, sender, heard, at)
  }

  function Forgotten(book: Book, host: string): Book {
    Book(book.firstHand - {host}, WithoutHearsay(book, host), book.withdrawn)
  }

  // ----- the book as an object -----

  class TableBook {
    var firstHand: map<string, FirstHand>
    var relayed: map<(string, string), Relayed>
    var withdrawn: map<string, nat>

    function State(): Book
      reads this
    {
      Book(firstHand, relayed, withdrawn)
    }

    constructor ()
      ensures State() == Book(map[], map[], map[])
    {
      firstHand, relayed, withdrawn := map[], map[], map[];
    }

    method Sweep(at: Moment)
      modifies this
      ensures State() == Swept(old(State()), at)
    {
      relayed := map key | key in relayed && Standing(relayed[key], at) :: relayed[key];
      withdrawn := map host | host in withdrawn && Fresh(withdrawn[host], at.epoch) :: withdrawn[host];
    }

    method Hear(host: string, advert: Option<string>, at: Moment) returns (changed: bool)
      modifies this
      ensures State() == AfterHearing(old(State()), host, advert, at)
      ensures changed <==> Visible(old(State()), at) != Visible(State(), at)
    {
      hide Direct, Standing, Entries;
      var before := Entries(State(), at);
      ghost var book := State();
      relayed := map key | key in relayed && key.0 != host :: relayed[key];
      match advert {
        case Some(name) =>
          withdrawn := withdrawn - {host};
          firstHand := firstHand[host := FirstHand(name, at.now, at.epoch)];
        case None =>
          if host in firstHand || exists e :: e in before && e.host == host {
            withdrawn := withdrawn[host := at.epoch];
          }
          firstHand := firstHand - {host};
      }
      assert relayed == WithoutHearsay(book, host);
      changed := Visible(State(), at) != set e | e in before :: (e.host, e.name);
    }

    method Learn(sender: string, heard: seq<Heard>, reader: Reader, at: Moment) returns (changed: bool)
      modifies this
      ensures State() == Learned(old(State()), reader, sender, heard, at)
      ensures changed <==> Visible(old(State()), at) != Visible(State(), at)
    {
      var before := Visible(State(), at);
      Sweep(at);
      ghost var swept := State();
      for i := 0 to |heard|
        invariant State() == TookAll(swept, reader, sender, heard[..i], at)
      {
        var entry := heard[i];
        var host := entry.host;
        assert heard[..i + 1][..i] == heard[..i];
        if host == reader.self || host == sender || host !in reader.known || !Fresh(entry.heardAt, at.epoch) {
          continue;
        }
        if host in withdrawn && entry.heardAt <= withdrawn[host] {
          continue;
        }
        if host in firstHand && Live(firstHand[host], at.now) {
          continue;
        }
        firstHand := firstHand - {host};
        var key := (host, entry.name);
        if key !in relayed || entry.heardAt > relayed[key].heardAt {
          relayed := relayed[key := Relayed(entry.heardAt, at.now)];
        }
      }
      assert heard[..|heard|] == heard;
      changed := before != Visible(State(), at);
    }

    method Forget(host: string, at: Moment) returns (changed: bool)
      modifies this
      ensures State() == Forgotten(old(State()), host)
      ensures changed <==> Visible(old(State()), at) != Visible(State(), at)
    {
      var before := Visible(State(), at);
      ghost var book := State();
      firstHand := firstHand - {host};
      relayed := map key | key in relayed && key.0 != host :: relayed[key];
      assert relayed == WithoutHearsay(book, host);
      changed := before != Visible(State(), at);
    }

    /** The hearsay to pass on, each line with the stamp it came with. */
    function Relay(at: Moment): set<Heard>
      reads this
    {
      Relays(State(), at)
    }
  }

  function Relays(book: Book, at: Moment): set<Heard> {
    set e | e in Entries(book, at) :: Heard(e.host, e.name, e.heardAt)
  }

  // ----- what is listed, and for how long -----

  /** A host's own word stands for 150 seconds. Hearsay stands while the host's own word does not,
      its stamp is under 300 seconds old, and it was learned under 300 seconds ago. */
  lemma ListsExactly(book: Book, at: Moment, e: Entry)
    ensures e in Entries(book, at) <==>
      var own := e.host in book.firstHand && at.now < book.firstHand[e.host].seen + 150_000_000_000;
      if e.relayed then
        && !own && (e.host, e.name) in book.relayed && book.relayed[(e.host, e.name)].heardAt == e.heardAt
        && at.epoch < e.heardAt + 300 && at.now < book.relayed[(e.host, e.name)].learned + 300_000_000_000
      else own && book.firstHand[e.host].name == e.name && book.firstHand[e.host].heardAt == e.heardAt
  {
  }

  /** What is shown is what is listed, and what is relayed is that with its stamps. */
  lemma ShowsListed(book: Book, at: Moment, host: string, name: string, heardAt: nat)
    ensures (host, name) in Visible(book, at) <==>
      exists e :: e in Entries(book, at) && e.host == host && e.name == name
    ensures Heard(host, name, heardAt) in Relays(book, at) <==>
      exists e :: e in Entries(book, at) && e.host == host && e.name == name && e.heardAt == heardAt
  {
    hide Entries;
  }

  // ----- learning is a join -----

  lemma TookKeepsSwept(book: Book, reader: Reader, sender: string, entry: Heard, at: Moment)
    requires Swept(book, at) == book
    ensures Swept(Took(book, reader, sender, entry, at), at) == Took(book, reader, sender, entry, at)
  {
    assert forall key :: key in book.relayed ==> key in Swept(book, at).relayed;
    assert forall host :: host in book.withdrawn ==> host in Swept(book, at).withdrawn;
  }

  lemma SweptTwice(book: Book, at: Moment)
    ensures Swept(Swept(book, at), at) == Swept(book, at)
  {
  }

  lemma {:induction false} TookAllKeepsSwept(book: Book, reader: Reader, sender: string, heard: seq<Heard>, at: Moment)
    requires Swept(book, at) == book
    ensures Swept(TookAll(book, reader, sender, heard, at), at) == TookAll(book, reader, sender, heard, at)
  {
    hide Swept, Took;
    if heard != [] {
      TookAllKeepsSwept(book, reader, sender, heard[..|heard| - 1], at);
      TookKeepsSwept(TookAll(book, reader, sender, heard[..|heard| - 1], at), reader, sender, heard[|heard| - 1], at);
    }
  }

  /** Taking one line changes no verdict on another. */
  lemma AdmissionStays(book: Book, reader: Reader, s: string, e: Heard, t: string, f: Heard, at: Moment)
    ensures Admits(Took(book, reader, s, e, at), reader, t, f, at) <==> Admits(book, reader, t, f, at)
  {
  }

  /** Two lines of hearsay, whoever sent them, leave the same book in either order. */
  lemma TookCommutes(book: Book, reader: Reader, s: string, e: Heard, t: string, f: Heard, at: Moment)
    ensures Took(Took(book, reader, s, e, at), reader, t, f, at) == Took(Took(book, reader, t, f, at), reader, s, e, at)
  {
    var left := Took(Took(book, reader, s, e, at), reader, t, f, at);
    var right := Took(Took(book, reader, t, f, at), reader, s, e, at);
    AdmissionStays(book, reader, s, e, t, f, at);
    AdmissionStays(book, reader, t, f, s, e, at);
    hide Admits;
    if Admits(book, reader, s, e, at) && Admits(book, reader, t, f, at) {
      assert book.firstHand - {e.host} - {f.host} == book.firstHand - {f.host} - {e.host};
      assert left.relayed == right.relayed;
    }
  }

  lemma {:induction false} TookPastAll(book: Book, reader: Reader, s: string, e: Heard, t: string, heard: seq<Heard>,
                                       at: Moment)
    ensures TookAll(Took(book, reader, s, e, at), reader, t, heard, at)
      == Took(TookAll(book, reader, t, heard, at), reader, s, e, at)
  {
    hide Took;
    if heard != [] {
      TookPastAll(book, reader, s, e, t, heard[..|heard| - 1], at);
      TookCommutes(TookAll(book, reader, t, heard[..|heard| - 1], at), reader, s, e, t, heard[|heard| - 1], at);
    }
  }

  lemma {:induction false} TookAllCommutes(book: Book, reader: Reader, s: string, first: seq<Heard>, t: string,
                                           second: seq<Heard>, at: Moment)
    ensures TookAll(TookAll(book, reader, s, first, at), reader, t, second, at)
      == TookAll(TookAll(book, reader, t, second, at), reader, s, first, at)
  {
    hide Took;
    if first != [] {
      var front, last := first[..|first| - 1], first[|first| - 1];
      TookAllCommutes(book, reader, s, front, t, second, at);
      TookPastAll(TookAll(book, reader, s, front, at), reader, s, last, t, second, at);
    }
  }

  /** Two batches of hearsay at one instant leave the same book in either order. */
  lemma LearnCommutes(book: Book, reader: Reader, s: string, first: seq<Heard>, t: string, second: seq<Heard>,
                      at: Moment)
    ensures Learned(Learned(book, reader, s, first, at), reader, t, second, at)
      == Learned(Learned(book, reader, t, second, at), reader, s, first, at)
  {
    hide Swept, TookAll;
    SweptTwice(book, at);
    TookAllKeepsSwept(Swept(book, at), reader, s, first, at);
    TookAllKeepsSwept(Swept(book, at), reader, t, second, at);
    TookAllCommutes(Swept(book, at), reader, s, first, t, second, at);
  }

  /** The book has nothing to gain from a line of hearsay. */
  ghost predicate Settled(book: Book, reader: Reader, sender: string, entry: Heard, at: Moment) {
    Took(book, reader, sender, entry, at) == book
  }

  lemma TookSettles(book: Book, reader: Reader, s: string, e: Heard, t: string, f: Heard, at: Moment)
    ensures Settled(Took(book, reader, s, e, at), reader, s, e, at)
    ensures Settled(book, reader, s, e, at) ==> Settled(Took(book, reader, t, f, at), reader, s, e, at)
  {
    TookCommutes(book, reader, s, e, t, f, at);
  }

  lemma {:induction false} TookAllSettles(book: Book, reader: Reader, sender: string, heard: seq<Heard>, at: Moment)
    ensures forall entry :: entry in heard ==>
      Settled(TookAll(book, reader, sender, heard, at), reader, sender, entry, at)
  {
    hide Took, Settled;
    if heard != [] {
      var front, last := heard[..|heard| - 1], heard[|heard| - 1];
      assert heard == front + [last];
      TookAllSettles(book, reader, sender, front, at);
      forall entry | entry in heard
        ensures Settled(TookAll(book, reader, sender, heard, at), reader, sender, entry, at)
      {
        TookSettles(TookAll(book, reader, sender, front, at), reader, sender, entry, sender, last, at);
      }
    }
  }

  lemma {:induction false} TookNothing(book: Book, reader: Reader, sender: string, heard: seq<Heard>, at: Moment)
    requires forall entry :: entry in heard ==> Settled(book, reader, sender, entry, at)
    ensures TookAll(book, reader, sender, heard, at) == book
  {
    if heard != [] {
      hide Took;
      TookNothing(book, reader, sender, heard[..|heard| - 1], at);
      assert heard[|heard| - 1] in heard;
    }
  }

  /** Learning a batch again at the same instant changes nothing. */
  lemma LearnIdempotent(book: Book, reader: Reader, sender: string, heard: seq<Heard>, at: Moment)
    ensures var once := Learned(book, reader, sender, heard, at);
      Swept(once, at) == once && Learned(once, reader, sender, heard, at) == once
  {
    hide Swept, TookAll, Settled;
    SweptTwice(book, at);
    TookAllKeepsSwept(Swept(book, at), reader, sender, heard, at);
    TookAllSettles(Swept(book, at), reader, sender, heard, at);
    TookNothing(Learned(book, reader, sender, heard, at), reader, sender, heard, at);
  }

  /** A line of `heard` about the table passes the checks of the swept book. */
  ghost predicate Offers(swept: Book, reader: Reader, sender: string, heard: seq<Heard>, at: Moment, e: Heard) {
    e in heard && Admits(swept, reader, sender, e, at)
  }

  /** A line is taken when it is of a host the reader knows, neither the reader nor the sender, was
      stamped under 300 seconds ago and after any withdrawal on record, and the host was not heard
      first-hand in the last 150 seconds. */
  lemma AdmitsExactly(book: Book, reader: Reader, sender: string, entry: Heard, at: Moment)
    ensures Admits(book, reader, sender, entry, at) <==>
      && entry.host in reader.known && entry.host != reader.self && entry.host != sender
      && at.epoch < entry.heardAt + 300
      && (entry.host in book.withdrawn ==> book.withdrawn[entry.host] < entry.heardAt)
      && (entry.host in book.firstHand ==> book.firstHand[entry.host].seen + 150_000_000_000 <= at.now)
  {
  }

  /** For each table the newest stamp offered wins over an older one. */
  ghost predicate NewestStamps(swept: Book, reader: Reader, sender: string, heard: seq<Heard>, at: Moment,
                               after: Book) {
    && (forall key :: key in swept.relayed ==>
          key in after.relayed && after.relayed[key].heardAt >= swept.relayed[key].heardAt)
    && (forall e :: Offers(swept, reader, sender, heard, at, e) ==>
          (e.host, e.name) in after.relayed && after.relayed[(e.host, e.name)].heardAt >= e.heardAt)
    && (forall key :: key in after.relayed ==>
          || (key in swept.relayed && after.relayed[key] == swept.relayed[key])
          || (after.relayed[key].learned == at.now
              && (key in swept.relayed ==> after.relayed[key].heardAt > swept.relayed[key].heardAt)
              && Offers(swept, reader, sender, heard, at, Heard(key.0, key.1, after.relayed[key].heardAt))))
  }

  ghost predicate TalkedAbout(swept: Book, reader: Reader, sender: string, heard: seq<Heard>, at: Moment,
                              host: string) {
    exists e :: Offers(swept, reader, sender, heard, at, e) && e.host == host
  }

  /** A host that is talked about loses its expired first-hand entry; no other entry goes. */
  ghost predicate Displaced(swept: Book, reader: Reader, sender: string, heard: seq<Heard>, at: Moment, after: Book) {
    && (forall host :: host in after.firstHand <==>
          host in swept.firstHand && !TalkedAbout(swept, reader, sender, heard, at, host))
    && (forall host :: host in after.firstHand ==> after.firstHand[host] == swept.firstHand[host])
  }

  ghost predicate JoinOf(swept: Book, reader: Reader, sender: string, heard: seq<Heard>, at: Moment, after: Book) {
    && after.withdrawn == swept.withdrawn
    && NewestStamps(swept, reader, sender, heard, at, after)
    && Displaced(swept, reader, sender, heard, at, after)
  }

  lemma SameAdmission(swept: Book, reader: Reader, sender: string, heard: seq<Heard>, at: Moment, after: Book, e: Heard)
    requires after.withdrawn == swept.withdrawn && Displaced(swept, reader, sender, heard, at, after)
    ensures Admits(after, reader, sender, e, at) <==> Admits(swept, reader, sender, e, at)
  {
  }

  lemma OneMoreOffer(swept: Book, reader: Reader, sender: string, front: seq<Heard>, last: Heard, at: Moment)
    ensures forall e :: Offers(swept, reader, sender, front + [last], at, e) <==>
      Offers(swept, reader, sender, front, at, e) || (e == last && Admits(swept, reader, sender, last, at))
    ensures forall host :: TalkedAbout(swept, reader, sender, front + [last], at, host) <==>
      TalkedAbout(swept, reader, sender, front, at, host)
        || (last.host == host && Admits(swept, reader, sender, last, at))
  {
    hide Admits;
    forall host | Admits(swept, reader, sender, last, at) && host == last.host
      ensures TalkedAbout(swept, reader, sender, front + [last], at, host)
    {
      assert Offers(swept, reader, sender, front + [last], at, last);
    }
    forall host | TalkedAbout(swept, reader, sender, front, at, host)
      ensures TalkedAbout(swept, reader, sender, front + [last], at, host)
    {
      var e :| Offers(swept, reader, sender, front, at, e) && e.host == host;
      assert Offers(swept, reader, sender, front + [last], at, e);
    }
  }

  lemma JoinOneMore(swept: Book, reader: Reader, sender: string, front: seq<Heard>, last: Heard, at: Moment, mid: Book)
    requires JoinOf(swept, reader, sender, front, at, mid)
    ensures JoinOf(swept, reader, sender, front + [last], at, Took(mid, reader, sender, last, at))
  {
    SameAdmission(swept, reader, sender, front, at, mid, last);
    OneMoreOffer(swept, reader, sender, front, last, at);
    hide Admits, Offers, TalkedAbout;
  }

  /** What `learn` leaves, said without its loop. */
  lemma {:induction false} LearnedIsJoin(swept: Book, reader: Reader, sender: string, heard: seq<Heard>, at: Moment)
    ensures JoinOf(swept, reader, sender, heard, at, TookAll(swept, reader, sender, heard, at))
  {
    if heard != [] {
      hide JoinOf, Took;
      var front, last := heard[..|heard| - 1], heard[|heard| - 1];
      LearnedIsJoin(swept, reader, sender, front, at);
      JoinOneMore(swept, reader, sender, front, last, at, TookAll(swept, reader, sender, front, at));
      assert heard == front + [last];
    }
  }

  // ----- tombstones -----

  datatype Step =
    | Hears(host: string, advert: Option<string>)
    | Learns(reader: Reader, sender: string, heard: seq<Heard>)
    | Forgets(host: string)

  datatype Act = Act(step: Step, at: Moment)

  function Applied(book: Book, act: Act): Book {
    match act.step
    case Hears(host, advert) => AfterHearing(book, host, advert, act.at)
    case Learns(reader, sender, heard) => Learned(book, reader, sender, heard, act.at)
    case Forgets(host) => Forgotten(book, host)
  }

  function RunOf(book: Book, acts: seq<Act>): Book
    decreases |acts|
  {
    if acts == [] then book else RunOf(Applied(book, acts[0]), acts[1..])
  }

  /** The wall clock never steps back. */
  ghost predicate Ticks(epoch: nat, acts: seq<Act>)
    decreases |acts|
  {
    acts != [] ==> epoch <= acts[0].at.epoch && Ticks(acts[0].at.epoch, acts[1..])
  }

  /** The host does not advertise, and no hearsay about it is stamped after `since`. */
  ghost predicate Quiet(act: Act, host: string, since: nat) {
    match act.step
    case Hears(other, advert) => other == host ==> advert.None?
    case Learns(_, _, heard) => forall e :: e in heard && e.host == host ==> e.heardAt <= since
    case Forgets(_) => true
  }

  /** Nothing about the host is on record, and hearsay stamped at or before `since` is refused
      by its tombstone or, once that may be collected, by its age. */
  ghost predicate Buried(book: Book, host: string, since: nat, epoch: nat) {
    && host !in book.firstHand
    && (forall key :: key in book.relayed ==> key.0 != host)
    && ((host in book.withdrawn && book.withdrawn[host] >= since) || epoch >= since + RELAY_EXPIRY_SECS)
  }

  lemma TookKeepsBuried(book: Book, reader: Reader, sender: string, entry: Heard, at: Moment, host: string, since: nat)
    requires Buried(book, host, since, at.epoch) && (entry.host == host ==> entry.heardAt <= since)
    ensures Buried(Took(book, reader, sender, entry, at), host, since, at.epoch)
  {
  }

  lemma {:induction false} TookAllKeepsBuried(book: Book, reader: Reader, sender: string, heard: seq<Heard>, at: Moment,
                                              host: string, since: nat)
    requires Buried(book, host, since, at.epoch)
    requires forall e :: e in heard && e.host == host ==> e.heardAt <= since
    ensures Buried(TookAll(book, reader, sender, heard, at), host, since, at.epoch)
  {
    if heard != [] {
      hide Buried, Took;
      var front, last := heard[..|heard| - 1], heard[|heard| - 1];
      assert last in heard;
      TookAllKeepsBuried(book, reader, sender, front, at, host, since);
      TookKeepsBuried(TookAll(book, reader, sender, front, at), reader, sender, last, at, host, since);
    }
  }

  /** Collecting a tombstone leaves the host buried: by then the hearsay it refused is stale. */
  lemma SweptKeepsBuried(book: Book, at: Moment, host: string, since: nat, epoch: nat)
    requires Buried(book, host, since, epoch) && epoch <= at.epoch
    ensures Buried(Swept(book, at), host, since, at.epoch)
  {
  }

  lemma BuriedIsHidden(book: Book, host: string, since: nat, epoch: nat, at: Moment)
    requires Buried(book, host, since, epoch)
    ensures !ListsHost(book, host, at)
  {
  }

  lemma ActKeepsBuried(book: Book, act: Act, host: string, since: nat, epoch: nat)
    requires Buried(book, host, since, epoch) && epoch <= act.at.epoch && Quiet(act, host, since)
    ensures Buried(Applied(book, act), host, since, act.at.epoch)
  {
    match act.step {
      case Learns(reader, sender, heard) =>
        SweptKeepsBuried(book, act.at, host, since, epoch);
        TookAllKeepsBuried(Swept(book, act.at), reader, sender, heard, act.at, host, since);
      case Hears(other, advert) =>
        BuriedIsHidden(book, host, since, epoch, act.at);
        hide Entries, ListsHost;
      case Forgets(_) =>
    }
  }

  /** A buried host shows in no later state of the book. */
  lemma {:induction false} BuriedStaysHidden(book: Book, acts: seq<Act>, host: string, since: nat, epoch: nat,
                                             at: Moment)
    requires Buried(book, host, since, epoch) && Ticks(epoch, acts)
    requires forall act :: act in acts ==> Quiet(act, host, since)
    ensures !ListsHost(RunOf(book, acts), host, at)
    decreases |acts|
  {
    if acts == [] {
      BuriedIsHidden(book, host, since, epoch, at);
    } else {
      hide Buried, Applied, Quiet, ListsHost;
      ActKeepsBuried(book, acts[0], host, since, epoch);
      BuriedStaysHidden(Applied(book, acts[0]), acts[1..], host, since, acts[0].at.epoch, at);
    }
  }

  /** No quiet run from here shows the host. */
  ghost predicate StaysHidden(book: Book, host: string, since: nat, epoch: nat) {
    forall acts, at | Ticks(epoch, acts) && (forall act :: act in acts ==> Quiet(act, host, since)) ::
      !ListsHost(RunOf(book, acts), host, at)
  }

  /** A withdrawal holds against all hearsay stamped up to that second, for ever and although
      tombstones are collected, exactly when the book held or listed the table, or already
      had a tombstone as young. Otherwise no tombstone is written and hearsay of that very
      second brings the table back. */
  lemma WithdrawalHolds(book: Book, host: string, at: Moment)
    ensures StaysHidden(AfterHearing(book, host, None, at), host, at.epoch, at.epoch)
      <==> host in book.firstHand || ListsHost(book, host, at)
           || (host in book.withdrawn && book.withdrawn[host] >= at.epoch)
  {
    var after := AfterHearing(book, host, None, at);
    hide ListsHost, Entries;
    if host in book.firstHand || ListsHost(book, host, at)
      || (host in book.withdrawn && book.withdrawn[host] >= at.epoch) {
      assert Buried(after, host, at.epoch, at.epoch);
      hide AfterHearing, Buried, Quiet;
      forall acts, later | Ticks(at.epoch, acts) && forall act :: act in acts ==> Quiet(act, host, at.epoch)
        ensures !ListsHost(RunOf(after, acts), host, later)
      {
        BuriedStaysHidden(after, acts, host, at.epoch, at.epoch, later);
      }
    } else {
      Resurrected(after, host, host + "-", host + "+", at);
    }
  }

  /** Hearsay about a host with neither tombstone nor record is taken and listed. */
  lemma Resurrected(book: Book, host: string, self: string, sender: string, at: Moment)
    requires self != host && sender != host && host !in book.firstHand
      && (forall key :: key in book.relayed ==> key.0 != host)
    requires host in book.withdrawn ==> book.withdrawn[host] < at.epoch
    ensures !StaysHidden(book, host, at.epoch, at.epoch)
  {
    var line := Heard(host, "table", at.epoch);
    var reader := Reader(self, {host, sender});
    var acts := [Act(Learns(reader, sender, [line]), at)];
    var swept := Swept(book, at);
    var after := Took(swept, reader, sender, line, at);
    assert TookAll(swept, reader, sender, [line], at) == after by {
      assert [line][..0] == [];
    }
    assert RunOf(book, acts) == after by {
      assert acts[1..] == [];
    }
    assert (host, "table") in after.relayed;
    assert Entry(host, "table", at.epoch, true) in Entries(after, at);
    assert ListsHost(after, host, at);
    assert Ticks(at.epoch, acts) by {
      assert acts[1..] == [];
    }
    assert forall act :: act in acts ==> Quiet(act, host, at.epoch);
  }
}
