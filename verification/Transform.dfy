/** Locking a transform and running it: pinning every input, and the bounded loop that fetches
    what the transform asks for and runs it again. */
module Transform {
  import opened Options
  import opened Records
  import opened Cbor
  import opened Canonical
  import ReadBack
  import opened Descriptors

  const MAX_ROUNDS: nat := 16

  type Contents = map<Hash, seq<Byte>>

  type Fetcher = (nat, Utf8) -> Option<seq<Byte>>

  /** The node a transform is locked and run on. A fetch is given how many went before it, a
      run its round, so both may answer differently each time; an error is None. */
  datatype Host = Host(
    names: Names,
    address: seq<Byte> -> Hash,
    limit: nat,
    resolve: Hash -> Option<Hash>,
    find: (Utf8, Utf8) -> Option<Hash>,
    fetch: Option<Fetcher>,
    run: Option<(nat, seq<Byte>, Request) -> Option<Reply>>,
    attest: (Hash, Hash, Hash) -> seq<Byte>,
    now: Utf8)

  datatype Given = Given(name: Utf8, bytes: seq<Byte>)

  datatype Request = Request(args: Option<seq<Byte>>, inputs: seq<Given>)

  datatype Reply = Output(bytes: seq<Byte>) | NeedInputs(urls: seq<Utf8>)

  // ----- records as bytes -----

  const TDR: Utf8 := Ascii("tdr")

  function TdrValue(tdr: Tdr): Value {
    Map([Entry(Key("record"), Text(tdr.record)), Entry(Key("kind"), Text(tdr.kind)), Entry(Key("body"), tdr.body)])
  }

  /** `Tdr::encode`. */
  function TdrBytes(tdr: Tdr): Option<seq<Byte>> {
    match CanonicalBytes(TdrValue(tdr))
    case Ok(bytes) => Some(bytes)
    case Err(_) => None
  }

  /** `Tdr::decode`. */
  function TdrOf(limit: nat, bytes: seq<Byte>): Option<Tdr> {
    var read := Decode(limit, bytes);
    if read.None? || !read.value.value.Map? then None
    else
      var es := read.value.value.entries;
      var record := TextOf(Field(es, Ascii("record")));
      var kind := TextOf(Field(es, Ascii("kind")));
      var body := Field(es, Ascii("body"));
      if record == Some(TDR) && kind.Some? && body.Some? then Some(Tdr(TDR, kind.value, body.value)) else None
  }

  /** Storing keeps whatever already sits under the hash. */
  function PutBytes(h: Host, store: Contents, bytes: seq<Byte>): Contents {
    if h.address(bytes) in store then store else store[h.address(bytes) := bytes]
  }

  ghost predicate Sound(h: Host, store: Contents) {
    forall x :: x in store ==> h.address(store[x]) == x
  }

  ghost predicate Grows(small: Contents, large: Contents) {
    forall x :: x in small ==> x in large && large[x] == small[x]
  }

  lemma PutKeeps(h: Host, store: Contents, bytes: seq<Byte>)
    requires Sound(h, store)
    ensures Sound(h, PutBytes(h, store, bytes)) && Grows(store, PutBytes(h, store, bytes))
    ensures h.address(bytes) in PutBytes(h, store, bytes)
  {
  }

  class ContentStore {
    const host: Host
    var contents: Contents

    constructor (host: Host)
      ensures this.host == host && contents == map[]
    {
      this.host, contents := host, map[];
    }

    method Put(bytes: seq<Byte>) returns (hash: Hash)
      modifies this
      ensures hash == host.address(bytes) && contents == PutBytes(host, old(contents), bytes)
    {
      hash := host.address(bytes);
      if hash !in contents {
        contents := contents[hash := bytes];
      }
    }
  }

  // ----- locking -----

  datatype Pinning = Pinning(store: Contents, pinned: seq<Named>, fetched: nat)

  function PinFor(h: Host, ci: Hash): Option<Input> {
    match h.resolve(ci)
    case None => None
    case Some(blob) => Some(Pinned(Some(ci), None, blob))
  }

  function Recorded(at: Pinning, name: Utf8, pin: Option<Input>): Option<Pinning> {
    if pin.None? then None else Some(at.(pinned := With(at.pinned, name, pin.value)))
  }

  /** One turn of the lock loop; None is an error. */
  function PinOne(h: Host, at: Pinning, named: Named): Option<Pinning> {
    match named.input
    case Pinned(_, _, _) => Recorded(at, named.name, Some(named.input))
    case Ci(ci) => Recorded(at, named.name, PinFor(h, ci))
    case Query(kind, name) =>
      (match h.find(kind, name)
       case None => None
       case Some(ci) => Recorded(at, named.name, PinFor(h, ci)))
    case Url(url) =>
      var bytes := if h.fetch.Some? then h.fetch.value(at.fetched, url) else None;
      if bytes.None? then None
      else Some(Pinning(PutBytes(h, at.store, bytes.value),
                        With(at.pinned, named.name, Pinned(None, Some(url), h.address(bytes.value))),
                        at.fetched + 1))
  }

  /** Where the loop is after `declared`, and whether it got that far without an error. */
  datatype Progress = Progress(at: Pinning, ok: bool)

  function PinAll(h: Host, start: Pinning, declared: seq<Named>): Progress {
    if declared == [] then Progress(start, true)
    else
      var before := PinAll(h, start, declared[..|declared| - 1]);
      if !before.ok then before
      else match PinOne(h, before.at, declared[|declared| - 1])
        case None => Progress(before.at, false)
        case Some(at) => Progress(at, true)
  }

  /** The declared inputs; an http-get that declares no url has the one it names as text. */
  function Declared(h: Host, tdr: Tdr): seq<Named> {
    var declared := Inputs(h.names, tdr);
    if tdr.kind == HTTP_GET && Lookup(declared, Ascii("url")).None? && TextField(tdr, Ascii("url")).Some? then
      With(declared, Ascii("url"), Url(TextField(tdr, Ascii("url")).value))
    else declared
  }

  function Provenance(h: Host, tdr: Tdr, unlocked: Hash): seq<Extra> {
    [Extra(Ascii("derived_from"), h.names.showTd(unlocked))]
    + if TextField(tdr, Ascii("snapshot")).None? then [Extra(Ascii("snapshot"), h.now)] else []
  }

  datatype Locked = Locked(td: Hash, tdr: Tdr, fetched: nat)

  datatype LockEnd = LockEnd(result: Option<Locked>, store: Contents)

  /** `lock`. */
  function LockOutcome(h: Host, store: Contents, tdr: Tdr): LockEnd {
    match TdrBytes(tdr)
    case None => LockEnd(None, store)
    case Some(bytes) =>
      var end := PinAll(h, Pinning(PutBytes(h, store, bytes), [], 0), Declared(h, tdr));
      if !end.ok then LockEnd(None, end.at.store)
      else
        var locked := WithFields(h.names, tdr, end.at.pinned, Provenance(h, tdr, h.address(bytes)));
        match TdrBytes(locked)
        case None => LockEnd(None, end.at.store)
        case Some(out) => LockEnd(Some(Locked(h.address(out), locked, end.at.fetched)), PutBytes(h, end.at.store, out))
  }

  method PinInto(store: ContentStore, at: Pinning, named: Named) returns (pin: Option<Input>, fetched: nat)
    requires at.store == store.contents
    modifies store
    ensures match PinOne(store.host, at, named)
      case None => pin.None? && store.contents == old(store.contents)
      case Some(next) =>
        pin.Some? && next == Pinning(store.contents, With(at.pinned, named.name, pin.value), fetched)
  {
    pin, fetched := None, at.fetched;
    match named.input {
      case Pinned(_, _, _) => pin := Some(named.input);
      case Ci(ci) => pin := PinFor(store.host, ci);
      case Query(kind, name) =>
        var ci := store.host.find(kind, name);
        if ci.Some? {
          pin := PinFor(store.host, ci.value);
        }
      case Url(url) =>
        if store.host.fetch.None? {
          return;
        }
        var bytes := store.host.fetch.value(fetched, url);
        if bytes.Some? {
          var blob := store.Put(bytes.value);
          fetched := fetched + 1;
          pin := Some(Pinned(None, Some(url), blob));
        }
    }
  }

  /** `lock` over the store. */
  method Lock(store: ContentStore, tdr: Tdr) returns (r: Option<Locked>)
    modifies store
    ensures LockEnd(r, store.contents) == LockOutcome(store.host, old(store.contents), tdr)
  {
    hide TdrBytes, Inputs, TextField, With, WithFields, PinOne, Lookup;
    var h := store.host;
    var bytes := TdrBytes(tdr);
    if bytes.None? {
      return None;
    }
    var unlocked := store.Put(bytes.value);
    var declared := Inputs(h.names, tdr);
    if tdr.kind == HTTP_GET && Lookup(declared, Ascii("url")).None? {
      var url := TextField(tdr, Ascii("url"));
      if url.Some? {
        declared := With(declared, Ascii("url"), Url(url.value));
      }
    }
    ghost var start := Pinning(store.contents, [], 0);
    var pinned: seq<Named>, fetched: nat := [], 0;
    for i := 0 to |declared|
      invariant PinAll(h, start, declared[..i]) == Progress(Pinning(store.contents, pinned, fetched), true)
    {
      assert declared[..i + 1][..i] == declared[..i];
      PinStops(h, start, declared, i);
      var pin, count := PinInto(store, Pinning(store.contents, pinned, fetched), declared[i]);
      if pin.None? {
        return None;
      }
      pinned, fetched := With(pinned, declared[i].name, pin.value), count;
    }
    assert declared[..|declared|] == declared;
    var extra := [Extra(Ascii("derived_from"), h.names.showTd(unlocked))];
    if TextField(tdr, Ascii("snapshot")).None? {
      extra := extra + [Extra(Ascii("snapshot"), h.now)];
    }
    assert extra == Provenance(h, tdr, unlocked);
    var locked := PutFields(h.names, tdr, pinned, extra);
    var out := TdrBytes(locked);
    if out.None? {
      return None;
    }
    var td := store.Put(out.value);
    r := Some(Locked(td, locked, fetched));
  }

  /** Once an input fails, so does the whole loop. */
  lemma {:induction false} PinStops(h: Host, start: Pinning, declared: seq<Named>, i: nat)
    requires i < |declared| && PinAll(h, start, declared[..i]).ok
    ensures PinOne(h, PinAll(h, start, declared[..i]).at, declared[i]).None? ==>
      PinAll(h, start, declared) == Progress(PinAll(h, start, declared[..i]).at, false)
  {
    hide PinOne;
    if i == |declared| - 1 {
    } else {
      var front := declared[..|declared| - 1];
      assert front[..i] == declared[..i];
      PinStops(h, start, front, i);
    }
  }

  // ----- what a lock leaves -----

  /** What an input is pinned to: a pinned one stays, an identity or a query what resolves it,
      a url what was fetched from it. */
  ghost predicate PinnedFrom(h: Host, store: Contents, input: Input, pin: Input) {
    match input
    case Pinned(_, _, _) => pin == input
    case Ci(ci) => h.resolve(ci).Some? && pin == Pinned(Some(ci), None, h.resolve(ci).value)
    case Query(kind, name) =>
      h.find(kind, name).Some? && h.resolve(h.find(kind, name).value).Some?
      && pin == Pinned(h.find(kind, name), None, h.resolve(h.find(kind, name).value).value)
    case Url(url) =>
      h.fetch.Some? && pin.Pinned? && pin.blob in store
      && exists k | h.fetch.value(k, url).Some? ::
        pin == Pinned(None, Some(url), h.address(h.fetch.value(k, url).value))
  }

  function UrlCount(declared: seq<Named>): nat {
    if declared == [] then 0
    else UrlCount(declared[..|declared| - 1]) + if declared[|declared| - 1].input.Url? then 1 else 0
  }

  ghost predicate PinnedSo(h: Host, declared: seq<Named>, at: Pinning) {
    && InOrder(at.pinned) && Sound(h, at.store) && at.fetched == UrlCount(declared)
    && |at.pinned| == |declared|
    && forall i :: 0 <= i < |declared| ==>
         at.pinned[i].name == declared[i].name && PinnedFrom(h, at.store, declared[i].input, at.pinned[i].input)
  }

  lemma PinOneGives(h: Host, at: Pinning, named: Named) returns (pin: Input)
    requires Sound(h, at.store) && PinOne(h, at, named).Some?
    ensures var next := PinOne(h, at, named).value;
      && next.pinned == With(at.pinned, named.name, pin) && PinnedFrom(h, next.store, named.input, pin)
      && next.fetched == at.fetched + (if named.input.Url? then 1 else 0)
      && Sound(h, next.store) && Grows(at.store, next.store)
  {
    hide With;
    match named.input {
      case Pinned(_, _, _) => pin := named.input;
      case Ci(ci) => pin := PinFor(h, ci).value;
      case Query(kind, name) => pin := PinFor(h, h.find(kind, name).value).value;
      case Url(url) =>
        var bytes := h.fetch.value(at.fetched, url).value;
        PutKeeps(h, at.store, bytes);
        pin := Pinned(None, Some(url), h.address(bytes));
    }
  }

  lemma PinOneSo(h: Host, at: Pinning, front: seq<Named>, last: Named)
    requires PinnedSo(h, front, at) && InOrder(front + [last]) && PinOne(h, at, last).Some?
    ensures PinnedSo(h, front + [last], PinOne(h, at, last).value)
    ensures Grows(at.store, PinOne(h, at, last).value.store)
  {
    var all := front + [last];
    NamesBelow(front, last, at.pinned);
    var pin := PinOneGives(h, at, last);
    var next := PinOne(h, at, last).value;
    hide PinOne, With, Less, PinnedFrom, Sound, InOrder;
    WithLast(at.pinned, last.name, pin);
    assert all[..|all| - 1] == front;
    SameOrder(all, next.pinned);
    forall i | 0 <= i < |front| ensures PinnedFrom(h, next.store, all[i].input, next.pinned[i].input) {
      StillFrom(h, at.store, next.store, front[i].input, at.pinned[i].input);
    }
  }

  lemma NamesBelow(front: seq<Named>, last: Named, other: seq<Named>)
    requires InOrder(front + [last]) && |other| == |front| && forall i :: 0 <= i < |front| ==>
      other[i].name == front[i].name
    ensures forall e :: e in other ==> Less(e.name, last.name)
  {
    hide Less;
    var all := front + [last];
    forall e | e in other ensures Less(e.name, last.name) {
      var i :| 0 <= i < |other| && other[i] == e;
      assert all[i].name == e.name && all[|front|] == last;
    }
  }

  lemma SameOrder(m: seq<Named>, other: seq<Named>)
    requires InOrder(m) && |m| == |other| && forall i :: 0 <= i < |m| ==> other[i].name == m[i].name
    ensures InOrder(other)
  {
    hide Less;
  }

  lemma StillFrom(h: Host, small: Contents, large: Contents, input: Input, pin: Input)
    requires PinnedFrom(h, small, input, pin) && Grows(small, large)
    ensures PinnedFrom(h, large, input, pin)
  {
  }

  lemma {:induction false} PinAllSo(h: Host, start: Pinning, declared: seq<Named>)
    requires InOrder(declared) && Sound(h, start.store) && start.pinned == [] && start.fetched == 0
    ensures PinAll(h, start, declared).ok ==>
      PinnedSo(h, declared, PinAll(h, start, declared).at) && Grows(start.store, PinAll(h, start, declared).at.store)
  {
    if declared != [] {
      hide PinnedSo, PinOne, InOrder, Sound;
      var front, last := declared[..|declared| - 1], declared[|declared| - 1];
      assert declared == front + [last];
      assert InOrder(front) by { LastName(declared); }
      PinAllSo(h, start, front);
      var before := PinAll(h, start, front);
      if before.ok && PinOne(h, before.at, last).Some? {
        PinOneSo(h, before.at, front, last);
      }
    }
  }

  lemma DeclaredInOrder(h: Host, tdr: Tdr)
    ensures InOrder(Declared(h, tdr))
  {
    hide Inputs, TextField, InOrder;
    InputsInOrder(h.names, tdr);
    if TextField(tdr, Ascii("url")).Some? {
      WithNames(Inputs(h.names, tdr), Ascii("url"), Url(TextField(tdr, Ascii("url")).value));
    }
  }

  lemma ProvenanceNames(h: Host, tdr: Tdr, unlocked: Hash)
    ensures forall x :: x in Provenance(h, tdr, unlocked) ==> x.name != Ascii("inputs") && x.name != Ascii("url")
  {
  }

  /** A successful lock pins every declared input and no other, leaves pinned ones as they
      were, fetches once for each url, and stores both records. */
  lemma LockPins(h: Host, store: Contents, tdr: Tdr)
    requires Readable(h.names) && Sound(h, store) && LockOutcome(h, store, tdr).result.Some?
    ensures var end := LockOutcome(h, store, tdr); var locked := end.result.value;
      var pins := Inputs(h.names, locked.tdr);
      && PinnedSo(h, Declared(h, tdr), Pinning(end.store, pins, locked.fetched)) && Grows(store, end.store)
      && locked.td in end.store && TdrBytes(locked.tdr).Some? && locked.td == h.address(TdrBytes(locked.tdr).value)
      && TdrBytes(tdr).Some? && h.address(TdrBytes(tdr).value) in end.store
      && TextField(locked.tdr, Ascii("derived_from")) == Some(h.names.showTd(h.address(TdrBytes(tdr).value)))
  {
    var bytes := TdrBytes(tdr).value;
    var start := Pinning(PutBytes(h, store, bytes), [], 0);
    var end := PinAll(h, start, Declared(h, tdr));
    var extra := Provenance(h, tdr, h.address(bytes));
    PutKeeps(h, store, bytes);
    DeclaredInOrder(h, tdr);
    hide TdrBytes, Readable, Declared, PutBytes, WithFields, TextField, Inputs, PinnedFrom;
    PinAllSo(h, start, Declared(h, tdr));
    ProvenanceNames(h, tdr, h.address(bytes));
    InputsReadBack(h.names, tdr, end.at.pinned, extra);
    ExtraReadsBack(h.names, tdr, end.at.pinned, extra, 0);
    var locked := WithFields(h.names, tdr, end.at.pinned, extra);
    PutKeeps(h, end.at.store, TdrBytes(locked).value);
    StillPinned(h, Declared(h, tdr), end.at, PutBytes(h, end.at.store, TdrBytes(locked).value));
  }

  lemma StillPinned(h: Host, declared: seq<Named>, at: Pinning, store: Contents)
    requires PinnedSo(h, declared, at) && Sound(h, store) && Grows(at.store, store)
    ensures PinnedSo(h, declared, at.(store := store))
  {
    forall i | 0 <= i < |declared| ensures PinnedFrom(h, store, declared[i].input, at.pinned[i].input) {
      StillFrom(h, at.store, store, declared[i].input, at.pinned[i].input);
    }
  }

  /** An http-get that names no url, as an input or as text. */
  predicate NamesNoUrl(n: Names, tdr: Tdr) {
    tdr.kind == HTTP_GET && Lookup(Inputs(n, tdr), Ascii("url")).None? && TextField(tdr, Ascii("url")).None?
  }

  lemma {:induction false} SameNamesLookup(m: seq<Named>, other: seq<Named>, name: Utf8)
    requires |m| == |other| && forall i :: 0 <= i < |m| ==> other[i].name == m[i].name
    ensures Lookup(m, name).Some? <==> Lookup(other, name).Some?
  {
    if m != [] {
      SameNamesLookup(m[1..], other[1..], name);
    }
  }

  lemma PinnedLookup(h: Host, declared: seq<Named>, at: Pinning, name: Utf8)
    requires PinnedSo(h, declared, at)
    ensures AllPinned(at.pinned) && (Lookup(at.pinned, name).Some? <==> Lookup(declared, name).Some?)
  {
    SameNamesLookup(declared, at.pinned, name);
    hide Lookup, InOrder;
    forall i | 0 <= i < |declared| ensures at.pinned[i].input.Pinned? {
      assert PinnedFrom(h, at.store, declared[i].input, at.pinned[i].input);
    }
  }

  lemma DeclaredUrl(h: Host, tdr: Tdr)
    requires tdr.kind == HTTP_GET
    ensures Lookup(Declared(h, tdr), Ascii("url")).None? <==> NamesNoUrl(h.names, tdr)
  {
    hide Inputs, TextField;
    InputsInOrder(h.names, tdr);
    if TextField(tdr, Ascii("url")).Some? {
      WithNames(Inputs(h.names, tdr), Ascii("url"), Url(TextField(tdr, Ascii("url")).value));
    }
  }

  /** A successful lock yields a locked record exactly when the transform is not an http-get
      that names no url. */
  lemma LockYieldsLocked(h: Host, store: Contents, tdr: Tdr)
    requires Readable(h.names) && Sound(h, store) && LockOutcome(h, store, tdr).result.Some?
    ensures IsLocked(h.names, LockOutcome(h, store, tdr).result.value.tdr) <==> !NamesNoUrl(h.names, tdr)
  {
    var end := LockOutcome(h, store, tdr);
    var locked := end.result.value;
    LockPins(h, store, tdr);
    LockKeepsKind(h, store, tdr);
    hide LockOutcome, Declared, NamesNoUrl, PinnedSo, Inputs, Readable;
    PinnedLookup(h, Declared(h, tdr), Pinning(end.store, Inputs(h.names, locked.tdr), locked.fetched), Ascii("url"));
    if tdr.kind == HTTP_GET {
      DeclaredUrl(h, tdr);
    }
    NoUrlIsHttp(h, tdr);
  }

  lemma NoUrlIsHttp(h: Host, tdr: Tdr)
    ensures NamesNoUrl(h.names, tdr) ==> tdr.kind == HTTP_GET
  {
  }

  lemma LockKeepsKind(h: Host, store: Contents, tdr: Tdr)
    requires LockOutcome(h, store, tdr).result.Some?
    ensures LockOutcome(h, store, tdr).result.value.tdr.kind == tdr.kind
    ensures TextField(LockOutcome(h, store, tdr).result.value.tdr, Ascii("url")) == TextField(tdr, Ascii("url"))
  {
    hide TdrBytes, Declared, PutBytes, TextField, PinAll;
    var bytes := TdrBytes(tdr).value;
    var end := PinAll(h, Pinning(PutBytes(h, store, bytes), [], 0), Declared(h, tdr));
    ProvenanceNames(h, tdr, h.address(bytes));
    OtherTextStays(h.names, tdr, end.at.pinned, Provenance(h, tdr, h.address(bytes)), Ascii("url"));
  }

  /** A locked record tells the day it had, or the day of the lock. */
  lemma LockDates(h: Host, store: Contents, tdr: Tdr)
    requires LockOutcome(h, store, tdr).result.Some?
    ensures TextField(LockOutcome(h, store, tdr).result.value.tdr, Ascii("snapshot")) ==
      if TextField(tdr, Ascii("snapshot")).Some? then TextField(tdr, Ascii("snapshot")) else Some(h.now)
  {
    var bytes := TdrBytes(tdr).value;
    var pinned := PinAll(h, Pinning(PutBytes(h, store, bytes), [], 0), Declared(h, tdr)).at.pinned;
    var extra := Provenance(h, tdr, h.address(bytes));
    assert Ascii("snapshot")[0] != Ascii("derived_from")[0];
    hide TdrBytes, Declared, PutBytes, TextField, PinAll, WithFields, Ascii;
    if TextField(tdr, Ascii("snapshot")).Some? {
      OtherTextStays(h.names, tdr, pinned, extra, Ascii("snapshot"));
    } else {
      ExtraReadsBack(h.names, tdr, pinned, extra, 1);
    }
  }

  lemma {:induction false} PinAllPinned(h: Host, start: Pinning, declared: seq<Named>)
    requires InOrder(declared) && AllPinned(declared) && start.pinned == []
    ensures PinAll(h, start, declared) == Progress(start.(pinned := declared), true)
  {
    if declared != [] {
      var front, last := declared[..|declared| - 1], declared[|declared| - 1];
      assert declared == front + [last];
      assert last in declared && forall e :: e in front ==> e in declared;
      hide Less, With, InOrder, PinOne;
      NamesBelow(front, last, front);
      LastName(declared);
      PinAllPinned(h, start, front);
      WithLast(front, last.name, last.input);
      PinnedStays(h, start.(pinned := front), last);
    }
  }

  lemma PinnedStays(h: Host, at: Pinning, named: Named)
    requires named.input.Pinned?
    ensures PinOne(h, at, named) == Some(at.(pinned := With(at.pinned, named.name, named.input)))
  {
    hide With;
  }

  /** The record of a lock declares what it pinned, no more. */
  lemma DeclaredOfLocked(h: Host, store: Contents, tdr: Tdr, other: Host)
    requires Readable(h.names) && Sound(h, store) && LockOutcome(h, store, tdr).result.Some? && other.names == h.names
    ensures var locked := LockOutcome(h, store, tdr).result.value;
      Declared(other, locked.tdr) == Inputs(h.names, locked.tdr) && AllPinned(Inputs(h.names, locked.tdr))
  {
    var end := LockOutcome(h, store, tdr);
    var locked := end.result.value;
    LockPins(h, store, tdr);
    LockKeepsKind(h, store, tdr);
    PinnedLookup(h, Declared(h, tdr), Pinning(end.store, Inputs(h.names, locked.tdr), locked.fetched), Ascii("url"));
    if tdr.kind == HTTP_GET {
      DeclaredUrl(h, tdr);
    }
    hide LockOutcome, PinnedSo, Inputs, Readable, TextField;
  }

  lemma {:induction false} KeptFloatFree(entries: seq<Entry>, extra: seq<Extra>)
    requires forall e :: e in entries ==> FloatFree(e.key) && FloatFree(e.item)
    ensures forall e :: e in Kept(entries, extra) ==> FloatFree(e.key) && FloatFree(e.item)
  {
    if entries != [] {
      hide FloatFree;
      assert forall e :: e in entries[1..] ==> e in entries;
      assert entries[0] in entries;
      KeptFloatFree(entries[1..], extra);
    }
  }

  lemma TextsFloatFree(entries: seq<Entry>)
    requires forall i :: 0 <= i < |entries| ==> entries[i].key.Text? && entries[i].item.Text?
    ensures FloatFree(Map(entries))
  {
    forall e | e in entries ensures FloatFree(e.key) && FloatFree(e.item) {
    }
  }

  lemma InputFloatFree(n: Names, input: Input)
    ensures FloatFree(InputValue(n, input))
  {
    if input.Query? {
      var inner := Map([Entry(Key("kind"), Text(input.kind)), Entry(Key("name"), Text(input.name))]);
      TextsFloatFree(inner.entries);
      forall e | e in [Entry(Key("query"), inner)] ensures FloatFree(e.key) && FloatFree(e.item) {
        assert e == Entry(Key("query"), inner);
      }
    } else {
      TextsFloatFree(InputValue(n, input).entries);
    }
  }

  lemma InputEntriesFloatFree(n: Names, m: seq<Named>)
    ensures FloatFree(Map(InputEntries(n, m)))
  {
    hide InputValue;
    forall e | e in InputEntries(n, m) ensures FloatFree(e.key) && FloatFree(e.item) {
      var i :| 0 <= i < |m| && InputEntries(n, m)[i] == e;
      InputFloatFree(n, m[i].input);
    }
  }

  /** Fields put into an encodable record leave it encodable. */
  lemma WithFieldsEncodes(n: Names, tdr: Tdr, m: seq<Named>, extra: seq<Extra>)
    requires TdrBytes(tdr).Some?
    ensures TdrBytes(WithFields(n, tdr, m, extra)).Some?
  {
    TdrEncodes(tdr);
    TdrEncodes(WithFields(n, tdr, m, extra));
    hide TdrBytes;
    var kept := if tdr.body.Map? then Kept(tdr.body.entries, extra) else [];
    if tdr.body.Map? {
      KeptFloatFree(tdr.body.entries, extra);
    }
    InputEntriesFloatFree(n, m);
    hide InputEntries;
    forall e | e in WithFields(n, tdr, m, extra).body.entries ensures FloatFree(e.key) && FloatFree(e.item) {
      assert e in kept || e in ExtraEntries(extra) || e == Entry(Key("inputs"), Map(InputEntries(n, m)));
    }
  }

  lemma TdrEncodes(tdr: Tdr)
    ensures TdrBytes(tdr).Some? <==> FloatFree(tdr.body)
  {
    var es := TdrValue(tdr).entries;
    hide Shape, Encode;
    if FloatFree(tdr.body) {
      forall e | e in es ensures FloatFree(e.key) && FloatFree(e.item) {
        assert e == es[0] || e == es[1] || e == es[2];
      }
      assert FloatFree(TdrValue(tdr));
    } else {
      assert es[2] in es;
      assert !FloatFree(TdrValue(tdr));
    }
  }

  /** The same record with its body in canonical form, as it comes out of a store. */
  function Stored(tdr: Tdr): Tdr {
    tdr.(body := Shape(tdr.body))
  }

  lemma StoredReadsSame(h: Host, tdr: Tdr)
    ensures Inputs(h.names, Stored(tdr)) == Inputs(h.names, tdr) && Declared(h, Stored(tdr)) == Declared(h, tdr)
    ensures TdrBytes(tdr).Some? ==> TdrBytes(Stored(tdr)).Some?
  {
    ShapedInputs(h.names, tdr.body);
    ReadBack.ShapeKeeps(tdr.body);
    TdrEncodes(tdr);
    TdrEncodes(Stored(tdr));
    ShapedMap(tdr.body);
    hide BodyInputs, Shape, TdrBytes, FloatFree;
    if tdr.body.Map? {
      ShapeFields(tdr.body.entries, Ascii("url"));
    }
  }

  /** Locking a record whose declared inputs are all pinned. */
  lemma PinnedLocks(h: Host, store: Contents, tdr: Tdr, pins: seq<Named>)
    requires Readable(h.names) && TdrBytes(tdr).Some? && Declared(h, tdr) == pins && InOrder(pins) && AllPinned(pins)
    ensures var again := LockOutcome(h, store, tdr).result;
      again.Some? && again.value.fetched == 0 && Inputs(h.names, again.value.tdr) == pins
  {
    var bytes := TdrBytes(tdr).value;
    PinAllPinned(h, Pinning(PutBytes(h, store, bytes), [], 0), pins);
    var extra := Provenance(h, tdr, h.address(bytes));
    ProvenanceNames(h, tdr, h.address(bytes));
    InputsReadBack(h.names, tdr, pins, extra);
    WithFieldsEncodes(h.names, tdr, pins, extra);
    hide TdrBytes, Readable, Declared, PutBytes, WithFields, Inputs, PinAll, Provenance;
  }

  /** Locking a locked record again, as returned or as read back from a store, on any node with
      the same way of writing hashes, with or without a fetcher, succeeds, fetches nothing and
      keeps every pin. */
  lemma RelockIsStable(h: Host, store: Contents, tdr: Tdr, other: Host, later: Contents)
    requires Readable(h.names) && Sound(h, store) && LockOutcome(h, store, tdr).result.Some? && other.names == h.names
    ensures var locked := LockOutcome(h, store, tdr).result.value.tdr;
      forall r | r == locked || r == Stored(locked) ::
        var again := LockOutcome(other, later, r).result;
        again.Some? && again.value.fetched == 0 && Inputs(h.names, again.value.tdr) == Inputs(h.names, locked)
  {
    var locked := LockOutcome(h, store, tdr).result.value.tdr;
    LockPins(h, store, tdr);
    DeclaredOfLocked(h, store, tdr, other);
    InputsInOrder(h.names, locked);
    StoredReadsSame(other, locked);
    hide LockOutcome, Inputs, Declared, TdrBytes, Stored, PinnedSo;
    PinnedLocks(other, later, locked, Inputs(h.names, locked));
    PinnedLocks(other, later, Stored(locked), Inputs(h.names, locked));
  }

  // ----- when a lock succeeds -----

  /** The input is pinned, or resolves, or is fetched: a url with the call it is due. */
  ghost predicate Pinnable(h: Host, declared: seq<Named>, i: nat)
    requires i < |declared|
  {
    match declared[i].input
    case Pinned(_, _, _) => true
    case Ci(ci) => h.resolve(ci).Some?
    case Query(kind, name) => exists ci :: h.find(kind, name) == Some(ci) && h.resolve(ci).Some?
    case Url(url) => h.fetch.Some? && h.fetch.value(UrlCount(declared[..i]), url).Some?
  }

  lemma PinOneExactly(h: Host, at: Pinning, declared: seq<Named>, i: nat)
    requires i < |declared| && at.fetched == UrlCount(declared[..i])
    ensures PinOne(h, at, declared[i]).Some? <==> Pinnable(h, declared, i)
    ensures PinOne(h, at, declared[i]).Some? ==>
      PinOne(h, at, declared[i]).value.fetched == at.fetched + if declared[i].input.Url? then 1 else 0
  {
    hide UrlCount;
  }

  lemma {:induction false} PinAllExactly(h: Host, start: Pinning, declared: seq<Named>, n: nat)
    requires n <= |declared| && start.fetched == 0
    ensures PinAll(h, start, declared[..n]).ok <==> forall i | 0 <= i < n :: Pinnable(h, declared, i)
    ensures PinAll(h, start, declared[..n]).ok ==> PinAll(h, start, declared[..n]).at.fetched == UrlCount(declared[..n])
  {
    if n > 0 {
      hide PinOne, Pinnable;
      assert declared[..n][..n - 1] == declared[..n - 1] && declared[..n][n - 1] == declared[n - 1];
      PinAllExactly(h, start, declared, n - 1);
      var before := PinAll(h, start, declared[..n - 1]);
      if before.ok {
        PinOneExactly(h, before.at, declared, n - 1);
      }
    }
  }

  /** A lock succeeds exactly when the record holds no float and every input it declares can be
      pinned. */
  lemma LockSucceedsExactly(h: Host, store: Contents, tdr: Tdr)
    ensures LockOutcome(h, store, tdr).result.Some? <==>
      && FloatFree(tdr.body)
      && forall i | 0 <= i < |Declared(h, tdr)| :: Pinnable(h, Declared(h, tdr), i)
  {
    var declared := Declared(h, tdr);
    TdrEncodes(tdr);
    if FloatFree(tdr.body) {
      var start := Pinning(PutBytes(h, store, TdrBytes(tdr).value), [], 0);
      PinAllExactly(h, start, declared, |declared|);
      assert declared[..|declared|] == declared;
      var extra := Provenance(h, tdr, h.address(TdrBytes(tdr).value));
      WithFieldsEncodes(h.names, tdr, PinAll(h, start, declared).at.pinned, extra);
    }
    hide TdrBytes, FloatFree, Declared, Pinnable, PinAll, WithFields, Provenance;
  }
}
