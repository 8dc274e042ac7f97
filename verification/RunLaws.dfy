/** When a run succeeds, and when it does not, told round by round. */
module RunLaws {
  import opened Options
  import opened Records
  import opened Cbor
  import opened Canonical
  import opened Descriptors
  import opened Transform
  import opened Running

  // ----- what a round is given -----

  /** Every input is pinned to a blob that is held. */
  ghost predicate AllHeld(store: Contents, declared: seq<Named>) {
    forall e :: e in declared ==> e.input.Pinned? && e.input.blob in store
  }

  lemma {:induction false} GivenWhenHeld(store: Contents, declared: seq<Named>)
    ensures GivenTo(store, declared).Some? <==> AllHeld(store, declared)
  {
    if declared != [] {
      GivenWhenHeld(store, declared[..|declared| - 1]);
      assert declared == declared[..|declared| - 1] + [declared[|declared| - 1]];
    }
  }

  lemma GivenOnce(store: Contents, declared: seq<Named>, a: seq<Given>, b: seq<Given>)
    requires GivenSo(store, declared, a) && GivenSo(store, declared, b)
    ensures a == b
  {
  }

  // ----- what a round is supplied -----

  /** When its turn comes the url is pinned still, or the fetch it is due answers. */
  ghost predicate Answered(fetch: Fetcher, start: Supply, urls: seq<Utf8>, k: nat)
    requires k < |urls|
  {
    var before := Fetches(start.declared, urls[..k]);
    Running.StillPinned(start.declared, before, urls[k]) || fetch(start.fetched + |before|, urls[k]).Some?
  }

  lemma OneSupplied(h: Host, fetch: Fetcher, at: Supply, url: Utf8)
    ensures SupplyOne(h, fetch, at, url).Some? <==> HasUrl(at.declared, url) || fetch(at.fetched, url).Some?
  {
    hide HasUrl;
  }

  lemma SupplyStep(h: Host, fetch: Fetcher, start: Supply, urls: seq<Utf8>, n: nat)
    requires 0 < n <= |urls|
    ensures var before := SupplyAll(h, fetch, start, urls[..n - 1]);
      SupplyAll(h, fetch, start, urls[..n]).ok <==> before.ok && SupplyOne(h, fetch, before.at, urls[n - 1]).Some?
  {
    hide SupplyOne;
    assert urls[..n][..n - 1] == urls[..n - 1] && urls[..n][n - 1] == urls[n - 1];
  }

  lemma SuppliesNext(h: Host, fetch: Fetcher, start: Supply, urls: seq<Utf8>, k: nat)
    requires InOrder(start.declared) && k < |urls| && SupplyAll(h, fetch, start, urls[..k]).ok
    ensures SupplyOne(h, fetch, SupplyAll(h, fetch, start, urls[..k]).at, urls[k]).Some?
      <==> Answered(fetch, start, urls, k)
  {
    hide HasUrl, Running.StillPinned, InOrder, Running.Replaces, SupplyAll, Fetches, SupplyOne;
    var at := SupplyAll(h, fetch, start, urls[..k]).at;
    SupplyFetches(h, fetch, start, urls[..k]);
    PinnedAsTold(start, Fetches(start.declared, urls[..k]), at, urls[k]);
    OneSupplied(h, fetch, at, urls[k]);
  }

  lemma {:induction false} SuppliesUpTo(h: Host, fetch: Fetcher, start: Supply, urls: seq<Utf8>, n: nat)
    requires InOrder(start.declared) && n <= |urls|
    ensures SupplyAll(h, fetch, start, urls[..n]).ok <==> forall k | 0 <= k < n :: Answered(fetch, start, urls, k)
  {
    if n > 0 {
      hide *;
      SuppliesUpTo(h, fetch, start, urls, n - 1);
      SupplyStep(h, fetch, start, urls, n);
      if SupplyAll(h, fetch, start, urls[..n - 1]).ok {
        SuppliesNext(h, fetch, start, urls, n - 1);
      }
    }
  }

  /** The urls asked for are supplied exactly when each is pinned still or fetched, in turn. */
  lemma SuppliesExactly(h: Host, fetch: Fetcher, start: Supply, urls: seq<Utf8>)
    requires InOrder(start.declared)
    ensures SupplyAll(h, fetch, start, urls).ok <==> forall k | 0 <= k < |urls| :: Answered(fetch, start, urls, k)
  {
    SuppliesUpTo(h, fetch, start, urls, |urls|);
    assert urls[..|urls|] == urls;
  }

  // ----- the rounds -----

  /** Given the bytes of every input, the runner replies so. */
  ghost predicate Replies(h: Host, module_: Module, args: Option<seq<Byte>>, t: Turn, reply: Reply) {
    h.run.Some? && exists given | GivenSo(t.store, Inputs(h.names, t.current), given) ::
      h.run.value(t.rounds + 1, module_, Request(args, given)) == Some(reply)
  }

  /** The runner asks for urls, all are supplied, and the record that pins them can be written. */
  ghost predicate GoesOn(h: Host, module_: Module, args: Option<seq<Byte>>, t: Turn, urls: seq<Utf8>, next: Turn) {
    && Replies(h, module_, args, t, NeedInputs(urls)) && h.fetch.Some?
    && var start := Supply(Inputs(h.names, t.current), t.store, t.fetched);
    && (forall k | 0 <= k < |urls| :: Answered(h.fetch.value, start, urls, k))
    && var at := SupplyAll(h, h.fetch.value, start, urls).at;
    && next.current == WithFields(h.names, t.current, at.declared, []) && TdrBytes(next.current).Some?
    && next.td == h.address(TdrBytes(next.current).value) && next.fetched == at.fetched
    && next.store == PutBytes(h, at.store, TdrBytes(next.current).value) && next.rounds == t.rounds + 1
  }

  /** The rounds from here, of at most 16, end on an output whose blob this is. */
  ghost predicate EndsOn(h: Host, module_: Module, args: Option<seq<Byte>>, t: Turn, blob: Hash)
    decreases 16 - t.rounds
  {
    if t.rounds >= 16 then false
    else
      || (exists out :: Replies(h, module_, args, t, Output(out)) && blob == h.address(out))
      || (exists urls, next :: GoesOn(h, module_, args, t, urls, next) && EndsOn(h, module_, args, next, blob))
  }

  lemma RepliesOnce(h: Host, module_: Module, args: Option<seq<Byte>>, t: Turn, a: Reply, b: Reply)
    requires Replies(h, module_, args, t, a) && Replies(h, module_, args, t, b)
    ensures a == b
  {
    var declared := Inputs(h.names, t.current);
    var given :| GivenSo(t.store, declared, given)
      && h.run.value(t.rounds + 1, module_, Request(args, given)) == Some(a);
    var other :| GivenSo(t.store, declared, other)
      && h.run.value(t.rounds + 1, module_, Request(args, other)) == Some(b);
    hide Inputs, GivenSo;
    GivenOnce(t.store, declared, given, other);
  }

  /** What the round makes of its inputs, when all are held. */
  lemma RoundReplies(h: Host, module_: Module, args: Option<seq<Byte>>, t: Turn, reply: Reply)
    requires h.run.Some?
    ensures var given := GivenTo(t.store, Inputs(h.names, t.current));
      Replies(h, module_, args, t, reply) <==>
        given.Some? && h.run.value(t.rounds + 1, module_, Request(args, given.value)) == Some(reply)
  {
    var declared := Inputs(h.names, t.current);
    hide Inputs;
    GivenWhenHeld(t.store, declared);
    if GivenTo(t.store, declared).Some? {
      GivenExactly(t.store, declared);
    }
    if Replies(h, module_, args, t, reply) {
      var given :| GivenSo(t.store, declared, given)
        && h.run.value(t.rounds + 1, module_, Request(args, given)) == Some(reply);
      SoIsHeld(t.store, declared, given);
      hide GivenSo, GivenTo, AllHeld;
      GivenOnce(t.store, declared, given, GivenTo(t.store, declared).value);
    }
  }

  lemma SoIsHeld(store: Contents, declared: seq<Named>, given: seq<Given>)
    requires GivenSo(store, declared, given)
    ensures AllHeld(store, declared)
  {
  }

  lemma DoneReplies(h: Host, module_: Module, args: Option<seq<Byte>>, t: Turn) returns (out: seq<Byte>)
    requires h.run.Some? && TurnOnce(h, module_, args, t).Done?
    ensures t.rounds < 16 && Replies(h, module_, args, t, Output(out))
    ensures TurnOnce(h, module_, args, t).blob == h.address(out)
  {
    hide Inputs, GivenTo, Replies, SupplyAll, WithFields, TdrBytes, PutBytes;
    var given := GivenTo(t.store, Inputs(h.names, t.current));
    out := h.run.value(t.rounds + 1, module_, Request(args, given.value)).value.bytes;
    RoundReplies(h, module_, args, t, Output(out));
  }

  lemma RepliesDone(h: Host, module_: Module, args: Option<seq<Byte>>, t: Turn, out: seq<Byte>)
    requires h.run.Some? && t.rounds < 16 && Replies(h, module_, args, t, Output(out))
    ensures TurnOnce(h, module_, args, t).Done? && TurnOnce(h, module_, args, t).blob == h.address(out)
  {
    RoundReplies(h, module_, args, t, Output(out));
    hide Inputs, GivenTo, Replies, SupplyAll, WithFields, TdrBytes, PutBytes;
  }

  lemma AgainGoesOn(h: Host, module_: Module, args: Option<seq<Byte>>, t: Turn) returns (urls: seq<Utf8>)
    requires h.run.Some? && TurnOnce(h, module_, args, t).Again?
    ensures t.rounds < 16 && GoesOn(h, module_, args, t, urls, TurnOnce(h, module_, args, t).next)
  {
    hide Inputs, GivenTo, Replies, SupplyAll, WithFields, TdrBytes, PutBytes, Answered, InOrder;
    var given := GivenTo(t.store, Inputs(h.names, t.current));
    urls := h.run.value(t.rounds + 1, module_, Request(args, given.value)).value.urls;
    RoundReplies(h, module_, args, t, NeedInputs(urls));
    InputsInOrder(h.names, t.current);
    SuppliesExactly(h, h.fetch.value, Supply(Inputs(h.names, t.current), t.store, t.fetched), urls);
  }

  lemma Asked(h: Host, module_: Module, args: Option<seq<Byte>>, t: Turn, given: seq<Given>, urls: seq<Utf8>,
              next: Turn)
    requires h.run.Some? && t.rounds < 16 && h.fetch.Some?
    requires GivenTo(t.store, Inputs(h.names, t.current)) == Some(given)
    requires h.run.value(t.rounds + 1, module_, Request(args, given)) == Some(NeedInputs(urls))
    requires var got := SupplyAll(h, h.fetch.value, Supply(Inputs(h.names, t.current), t.store, t.fetched), urls);
      var current := WithFields(h.names, t.current, got.at.declared, []);
      && got.ok && TdrBytes(current).Some?
      && next == Turn(current, h.address(TdrBytes(current).value), PutBytes(h, got.at.store, TdrBytes(current).value),
                      got.at.fetched, t.rounds + 1)
    ensures TurnOnce(h, module_, args, t) == Again(next)
  {
    hide Inputs, GivenTo, SupplyAll, WithFields, TdrBytes, PutBytes;
  }

  lemma GoesOnAgain(h: Host, module_: Module, args: Option<seq<Byte>>, t: Turn, urls: seq<Utf8>, next: Turn)
    requires h.run.Some? && t.rounds < 16 && GoesOn(h, module_, args, t, urls, next)
    ensures TurnOnce(h, module_, args, t) == Again(next)
  {
    hide Inputs, GivenTo, Replies, SupplyAll, WithFields, TdrBytes, PutBytes, Answered, InOrder, TurnOnce;
    InputsInOrder(h.names, t.current);
    RoundReplies(h, module_, args, t, NeedInputs(urls));
    SuppliesExactly(h, h.fetch.value, Supply(Inputs(h.names, t.current), t.store, t.fetched), urls);
    Asked(h, module_, args, t, GivenTo(t.store, Inputs(h.names, t.current)).value, urls, next);
  }

  /** The loop ends with a blob on which the rounds end. */
  lemma {:induction false} LoopEndsSo(h: Host, module_: Module, args: Option<seq<Byte>>, t: Turn)
    requires h.run.Some? && t.rounds <= 16 && LoopFrom(h, module_, args, t).done.Some?
    ensures EndsOn(h, module_, args, t, LoopFrom(h, module_, args, t).done.value.0)
    decreases 17 - t.rounds
  {
    hide TurnOnce, GoesOn, Replies;
    LoopUnfolds(h, module_, args, t);
    match TurnOnce(h, module_, args, t) {
      case Done(_, _) => var out := DoneReplies(h, module_, args, t);
      case Again(next) =>
        var urls := AgainGoesOn(h, module_, args, t);
        LoopEndsSo(h, module_, args, next);
      case Stop(_) =>
    }
  }

  /** Where the rounds end on a blob, the loop ends with it. */
  lemma {:induction false} EndsSoLoops(h: Host, module_: Module, args: Option<seq<Byte>>, t: Turn, blob: Hash)
    requires h.run.Some? && t.rounds <= 16 && EndsOn(h, module_, args, t, blob)
    ensures LoopFrom(h, module_, args, t).done.Some? && LoopFrom(h, module_, args, t).done.value.0 == blob
    decreases 17 - t.rounds
  {
    hide TurnOnce, GoesOn, Replies;
    LoopUnfolds(h, module_, args, t);
    if out :| Replies(h, module_, args, t, Output(out)) && blob == h.address(out) {
      RepliesDone(h, module_, args, t, out);
    } else {
      var urls, next :| GoesOn(h, module_, args, t, urls, next) && EndsOn(h, module_, args, next, blob);
      GoesOnAgain(h, module_, args, t, urls, next);
      EndsSoLoops(h, module_, args, next, blob);
    }
  }

  // ----- the run -----

  /** The module the record names is held, and its arguments if it names any. */
  ghost predicate LoadsAs(h: Host, store: Contents, tdr: Tdr, module_: Module, args: Option<seq<Byte>>) {
    && (exists code :: BlobIn(h.names, tdr, Ascii("module")) == Some(code) && code in store && module_ == store[code])
    && (match BlobIn(h.names, tdr, Ascii("args"))
        case None => args.None?
        case Some(given) => given in store && args == Some(store[given]))
  }

  /** The url an http-get gets: the one it names as text, or else the one its input of that name
      is pinned from. */
  ghost predicate Gets(n: Names, tdr: Tdr, url: Utf8) {
    || TextField(tdr, Ascii("url")) == Some(url)
    || (TextField(tdr, Ascii("url")).None?
        && exists e :: e in Inputs(n, tdr) && e.name == Ascii("url") && Holds(e, url))
  }

  lemma {:induction false} LookupIn(m: seq<Named>, name: Utf8, input: Input)
    requires InOrder(m)
    ensures Lookup(m, name) == Some(input) <==> Named(name, input) in m
  {
    if m != [] {
      LookupIn(m[1..], name, input);
      forall i | 0 < i < |m| ensures m[i].name != m[0].name { LessTotal(m[0].name, m[i].name); }
      assert m == [m[0]] + m[1..];
      hide Less;
    }
  }

  lemma GetsExactly(n: Names, tdr: Tdr, url: Utf8)
    ensures UrlOf(n, tdr) == Some(url) <==> Gets(n, tdr, url)
  {
    var declared := Inputs(n, tdr);
    InputsInOrder(n, tdr);
    hide Inputs, TextField, InOrder, Ascii;
    var held := Lookup(declared, Ascii("url"));
    if held.Some? {
      LookupIn(declared, Ascii("url"), held.value);
    }
    forall e | e in declared && e.name == Ascii("url") ensures held == Some(e.input) {
      LookupIn(declared, Ascii("url"), e.input);
    }
    hide Lookup;
  }

  /** The blob the transform comes to. */
  ghost predicate ComesTo(h: Host, store: Contents, td: Hash, tdr: Tdr, blob: Hash) {
    || (tdr.kind == Ascii("http-get") && GetsBlob(h, tdr, blob))
    || (tdr.kind == Ascii("wasm-transform") && RunsTo(h, store, td, tdr, blob))
  }

  ghost predicate GetsBlob(h: Host, tdr: Tdr, blob: Hash) {
    h.fetch.Some? && exists url | Gets(h.names, tdr, url) ::
      h.fetch.value(0, url).Some? && blob == h.address(h.fetch.value(0, url).value)
  }

  ghost predicate RunsTo(h: Host, store: Contents, td: Hash, tdr: Tdr, blob: Hash) {
    h.run.Some? && exists module_, args | LoadsAs(h, store, tdr, module_, args) ::
      EndsOn(h, module_, args, Turn(tdr, td, store, 0, 0), blob)
  }

  predicate GivesBlob(end: RunEnd, blob: Hash) {
    end.result.Some? && end.result.value.blob == blob
  }

  lemma HttpComesTo(h: Host, store: Contents, tdr: Tdr, td: Hash, output: Hash, blob: Hash)
    ensures GivesBlob(HttpOutcome(h, store, tdr, td, output), blob) <==> GetsBlob(h, tdr, blob)
  {
    forall url { GetsExactly(h.names, tdr, url); }
    hide UrlOf, Gets, PutBytes;
  }

  lemma WasmComesTo(h: Host, store: Contents, tdr: Tdr, td: Hash, output: Hash, blob: Hash)
    ensures GivesBlob(WasmOutcome(h, store, tdr, td, output), blob) <==> RunsTo(h, store, td, tdr, blob)
  {
    var hash, args := BlobIn(h.names, tdr, Ascii("module")), BlobIn(h.names, tdr, Ascii("args"));
    hide BlobIn, Ascii, LoopFrom, EndsOn, PutBytes;
    if h.run.Some? && hash.Some? && hash.value in store && (args.Some? ==> args.value in store) {
      var given := if args.Some? then Some(store[args.value]) else None;
      assert LoadsAs(h, store, tdr, store[hash.value], given);
      var start := Turn(tdr, td, store, 0, 0);
      if LoopFrom(h, store[hash.value], given, start).done.Some? {
        LoopEndsSo(h, store[hash.value], given, start);
      }
      if EndsOn(h, store[hash.value], given, start, blob) {
        EndsSoLoops(h, store[hash.value], given, start, blob);
      }
    }
  }

  /** A run gives a blob exactly when the record is held, readable and locked, the output's record
      is held, and the transform comes to that blob: an http-get by its url's bytes, a wasm
      transform by at most 16 rounds of its module. No other kind runs. */
  lemma RunsExactly(h: Host, store: Contents, td: Hash, output: Hash, blob: Hash)
    ensures GivesBlob(RunOutcome(h, store, td, output), blob) <==>
      && td in store && output in store && TdrOf(h.limit, store[td]).Some?
      && IsLocked(h.names, TdrOf(h.limit, store[td]).value)
      && ComesTo(h, store, td, TdrOf(h.limit, store[td]).value, blob)
  {
    KindsDiffer();
    if td in store && TdrOf(h.limit, store[td]).Some? {
      var tdr := TdrOf(h.limit, store[td]).value;
      HttpComesTo(h, store, tdr, td, output, blob);
      WasmComesTo(h, store, tdr, td, output, blob);
    }
    hide TdrOf, IsLocked, HttpOutcome, WasmOutcome, GetsBlob, RunsTo, Ascii;
  }
}
