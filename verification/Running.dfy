/** Running a locked transform: rounds of running and fetching what it asks for, and the
    attestation that names the record it ended on. */
module Running {
  import opened Options
  import opened Records
  import opened Cbor
  import opened Canonical
  import ReadBack
  import opened Descriptors
  import opened Transform

  datatype Ran = Ran(td: Hash, blob: Hash, att: Hash, rounds: nat)

  datatype RunEnd = RunEnd(result: Option<Ran>, store: Contents)

  // ----- one round -----

  /** The bytes of every input, in name order; None when one is unpinned or not held. */
  function GivenTo(store: Contents, declared: seq<Named>): Option<seq<Given>> {
    if declared == [] then Some([])
    else
      var before := GivenTo(store, declared[..|declared| - 1]);
      var last := declared[|declared| - 1];
      if before.Some? && last.input.Pinned? && last.input.blob in store then
        Some(before.value + [Given(last.name, store[last.input.blob])])
      else None
  }

  predicate Holds(e: Named, url: Utf8) {
    e.input.Pinned? && e.input.source == Some(url)
  }

  predicate HasUrl(declared: seq<Named>, url: Utf8) {
    exists e :: e in declared && Holds(e, url)
  }

  datatype Supply = Supply(declared: seq<Named>, store: Contents, fetched: nat)

  /** One url the transform asks for: skipped when already pinned, else fetched, stored and
      declared under its own name. */
  function SupplyOne(h: Host, fetch: Fetcher, at: Supply, url: Utf8): Option<Supply> {
    if HasUrl(at.declared, url) then Some(at)
    else match fetch(at.fetched, url)
      case None => None
      case Some(bytes) =>
        Some(Supply(With(at.declared, url, Pinned(None, Some(url), h.address(bytes))), PutBytes(h, at.store, bytes),
          at.fetched + 1))
  }

  datatype Supplied = Supplied(at: Supply, ok: bool)

  function SupplyAll(h: Host, fetch: Fetcher, start: Supply, urls: seq<Utf8>): Supplied {
    if urls == [] then Supplied(start, true)
    else
      var before := SupplyAll(h, fetch, start, urls[..|urls| - 1]);
      if !before.ok then before
      else match SupplyOne(h, fetch, before.at, urls[|urls| - 1])
        case None => Supplied(before.at, false)
        case Some(at) => Supplied(at, true)
  }

  // ----- the loop -----

  /** The variables of the loop. */
  datatype Turn = Turn(current: Tdr, td: Hash, store: Contents, fetched: nat, rounds: nat)

  /** What one turn comes to. */
  datatype Step = Stop(store: Contents) | Done(blob: Hash, store: Contents) | Again(next: Turn)

  type Module = seq<Byte>

  function TurnOnce(h: Host, module_: Module, args: Option<seq<Byte>>, t: Turn): Step
    requires h.run.Some?
  {
    var rounds := t.rounds + 1;
    if rounds > MAX_ROUNDS then Stop(t.store)
    else
      var declared := Inputs(h.names, t.current);
      var given := GivenTo(t.store, declared);
      var reply := if given.Some? then h.run.value(rounds, module_, Request(args, given.value)) else None;
      match reply
      case None => Stop(t.store)
      case Some(Output(out)) => Done(h.address(out), PutBytes(h, t.store, out))
      case Some(NeedInputs(urls)) =>
        if h.fetch.None? then Stop(t.store)
        else
          var got := SupplyAll(h, h.fetch.value, Supply(declared, t.store, t.fetched), urls);
          if !got.ok then Stop(got.at.store)
          else
            var current := WithFields(h.names, t.current, got.at.declared, []);
            match TdrBytes(current)
            case None => Stop(got.at.store)
            case Some(bytes) =>
              Again(Turn(current, h.address(bytes), PutBytes(h, got.at.store, bytes), got.at.fetched, rounds))
  }

  /** The loop's outcome: the blob and the turn that produced it, or None. */
  datatype LoopEnd = LoopEnd(done: Option<(Hash, Turn)>, store: Contents)

  function LoopFrom(h: Host, module_: Module, args: Option<seq<Byte>>, t: Turn): LoopEnd
    requires h.run.Some? && t.rounds <= MAX_ROUNDS
    decreases MAX_ROUNDS + 1 - t.rounds
  {
    match TurnOnce(h, module_, args, t)
    case Stop(store) => LoopEnd(None, store)
    case Done(blob, store) => LoopEnd(Some((blob, t)), store)
    case Again(next) => LoopFrom(h, module_, args, next)
  }

  /** A blob hash in a text field, with or without its prefix. */
  function BlobIn(n: Names, tdr: Tdr, name: Utf8): Option<Hash> {
    var text := TextField(tdr, name);
    if text.None? then None else n.parseBlob(StripBlob(text.value))
  }

  function UrlOf(n: Names, tdr: Tdr): Option<Utf8> {
    var text := TextField(tdr, Ascii("url"));
    if text.Some? then text
    else match Lookup(Inputs(n, tdr), Ascii("url"))
      case Some(Pinned(_, url, _)) => url
      case _ => None
  }

  function Attested(h: Host, store: Contents, output: Hash, td: Hash, blob: Hash, rounds: nat): RunEnd {
    var claim := h.attest(output, td, blob);
    RunEnd(Some(Ran(td, blob, h.address(claim), rounds)), PutBytes(h, store, claim))
  }

  function WasmOutcome(h: Host, store: Contents, tdr: Tdr, td: Hash, output: Hash): RunEnd {
    var hash := BlobIn(h.names, tdr, Ascii("module"));
    var args := BlobIn(h.names, tdr, Ascii("args"));
    if h.run.None? || hash.None? || hash.value !in store || (args.Some? && args.value !in store) then
      RunEnd(None, store)
    else
      var end := LoopFrom(h, store[hash.value], if args.Some? then Some(store[args.value]) else None,
                          Turn(tdr, td, store, 0, 0));
      match end.done
      case None => RunEnd(None, end.store)
      case Some((blob, turn)) => Attested(h, end.store, output, turn.td, blob, turn.rounds + 1)
  }

  function HttpOutcome(h: Host, store: Contents, tdr: Tdr, td: Hash, output: Hash): RunEnd {
    var url := UrlOf(h.names, tdr);
    if url.None? || h.fetch.None? then RunEnd(None, store)
    else match h.fetch.value(0, url.value)
      case None => RunEnd(None, store)
      case Some(bytes) => Attested(h, PutBytes(h, store, bytes), output, td, h.address(bytes), 1)
  }

  /** `run`. */
  function RunOutcome(h: Host, store: Contents, td: Hash, output: Hash): RunEnd {
    var tdr := if td in store then TdrOf(h.limit, store[td]) else None;
    if tdr.None? || !IsLocked(h.names, tdr.value) || output !in store then RunEnd(None, store)
    else if tdr.value.kind == HTTP_GET then HttpOutcome(h, store, tdr.value, td, output)
    else if tdr.value.kind == WASM_TRANSFORM then WasmOutcome(h, store, tdr.value, td, output)
    else RunEnd(None, store)
  }

  // ----- the loops of the source -----

  method GatherInputs(store: ContentStore, declared: seq<Named>) returns (given: Option<seq<Given>>)
    ensures given == GivenTo(store.contents, declared)
  {
    var bytes := [];
    for i := 0 to |declared|
      invariant GivenTo(store.contents, declared[..i]) == Some(bytes)
    {
      assert declared[..i + 1][..i] == declared[..i];
      if !(declared[i].input.Pinned? && declared[i].input.blob in store.contents) {
        GivenStops(store.contents, declared, i);
        return None;
      }
      bytes := bytes + [Given(declared[i].name, store.contents[declared[i].input.blob])];
    }
    assert declared[..|declared|] == declared;
    given := Some(bytes);
  }

  lemma {:induction false} GivenStops(store: Contents, declared: seq<Named>, i: nat)
    requires i < |declared| && !(declared[i].input.Pinned? && declared[i].input.blob in store)
    ensures GivenTo(store, declared).None?
  {
    if i < |declared| - 1 {
      GivenStops(store, declared[..|declared| - 1], i);
    }
  }

  method FetchInputs(store: ContentStore, fetch: Fetcher, declared: seq<Named>, fetched: nat, urls: seq<Utf8>)
      returns (ok: bool, now: seq<Named>, count: nat)
    modifies store
    ensures var got := SupplyAll(store.host, fetch, Supply(declared, old(store.contents), fetched), urls);
      ok == got.ok && store.contents == got.at.store && (ok ==> got.at == Supply(now, store.contents, count))
  {
    ghost var start := Supply(declared, store.contents, fetched);
    ok, now, count := true, declared, fetched;
    hide HasUrl;
    for i := 0 to |urls|
      invariant SupplyAll(store.host, fetch, start, urls[..i]) == Supplied(Supply(now, store.contents, count), true)
    {
      assert urls[..i + 1][..i] == urls[..i];
      if HasUrl(now, urls[i]) {
        continue;
      }
      var bytes := fetch(count, urls[i]);
      if bytes.None? {
        SupplyStops(store.host, fetch, start, urls, i);
        return false, now, count;
      }
      var blob := store.Put(bytes.value);
      now, count := With(now, urls[i], Pinned(None, Some(urls[i]), blob)), count + 1;
    }
    assert urls[..|urls|] == urls;
  }

  lemma {:induction false} SupplyStops(h: Host, fetch: Fetcher, start: Supply, urls: seq<Utf8>, i: nat)
    requires i < |urls| && SupplyAll(h, fetch, start, urls[..i]).ok
    requires SupplyOne(h, fetch, SupplyAll(h, fetch, start, urls[..i]).at, urls[i]).None?
    ensures SupplyAll(h, fetch, start, urls) == Supplied(SupplyAll(h, fetch, start, urls[..i]).at, false)
  {
    hide SupplyOne;
    if i < |urls| - 1 {
      var front := urls[..|urls| - 1];
      assert front[..i] == urls[..i];
      SupplyStops(h, fetch, start, front, i);
    }
  }

  /** The body of the round loop: what it leaves in the loop's variables, or how it ends. */
  method TakeTurn(store: ContentStore, module_: Module, args: Option<seq<Byte>>, t: Turn) returns (step: Step)
    requires store.host.run.Some? && t.store == store.contents
    modifies store
    ensures step == TurnOnce(store.host, module_, args, t)
    ensures store.contents == match step
      case Stop(now) => now
      case Done(_, now) => now
      case Again(next) => next.store
  {
    var h := store.host;
    hide Inputs, GivenTo, SupplyAll, WithFields, TdrBytes, PutBytes;
    var rounds := t.rounds + 1;
    if rounds > MAX_ROUNDS {
      return Stop(store.contents);
    }
    var declared := Inputs(h.names, t.current);
    var given := GatherInputs(store, declared);
    if given.None? {
      return Stop(store.contents);
    }
    var reply := h.run.value(rounds, module_, Request(args, given.value));
    if reply.None? {
      return Stop(store.contents);
    }
    match reply.value {
      case Output(out) =>
        var blob := store.Put(out);
        step := Done(blob, store.contents);
      case NeedInputs(urls) =>
        if h.fetch.None? {
          return Stop(store.contents);
        }
        var ok, now, count := FetchInputs(store, h.fetch.value, declared, t.fetched, urls);
        if !ok {
          return Stop(store.contents);
        }
        var current := PutFields(h.names, t.current, now, []);
        var bytes := TdrBytes(current);
        if bytes.None? {
          return Stop(store.contents);
        }
        var td := store.Put(bytes.value);
        step := Again(Turn(current, td, store.contents, count, rounds));
    }
  }

  /** The round loop of `run`. */
  method RunRounds(store: ContentStore, module_: Module, args: Option<seq<Byte>>, tdr: Tdr, td: Hash)
      returns (done: Option<(Hash, Turn)>)
    requires store.host.run.Some?
    modifies store
    ensures LoopEnd(done, store.contents)
      == LoopFrom(store.host, module_, args, Turn(tdr, td, old(store.contents), 0, 0))
  {
    var h := store.host;
    ghost var goal := LoopFrom(h, module_, args, Turn(tdr, td, store.contents, 0, 0));
    hide TurnOnce, LoopFrom;
    var turn := Turn(tdr, td, store.contents, 0, 0);
    while true
      invariant turn.rounds <= MAX_ROUNDS && turn.store == store.contents && store.host == h
      invariant goal == LoopFrom(h, module_, args, turn)
      decreases MAX_ROUNDS + 1 - turn.rounds
    {
      LoopUnfolds(h, module_, args, turn);
      var step := TakeTurn(store, module_, args, turn);
      match step {
        case Stop(_) => return None;
        case Done(blob, _) => return Some((blob, turn));
        case Again(next) => turn := next;
      }
    }
  }

  lemma LoopUnfolds(h: Host, module_: Module, args: Option<seq<Byte>>, t: Turn)
    requires h.run.Some? && t.rounds <= MAX_ROUNDS
    ensures var step := TurnOnce(h, module_, args, t);
      && (step.Stop? ==> LoopFrom(h, module_, args, t) == LoopEnd(None, step.store))
      && (step.Done? ==> LoopFrom(h, module_, args, t) == LoopEnd(Some((step.blob, t)), step.store))
      && (step.Again? ==>
            t.rounds < step.next.rounds <= MAX_ROUNDS
              && LoopFrom(h, module_, args, t) == LoopFrom(h, module_, args, step.next))
  {
    hide TurnOnce;
    if TurnOnce(h, module_, args, t).Again? {
      AgainCounts(h, module_, args, t);
    }
  }

  lemma AgainCounts(h: Host, module_: Module, args: Option<seq<Byte>>, t: Turn)
    requires h.run.Some? && TurnOnce(h, module_, args, t).Again?
    ensures TurnOnce(h, module_, args, t).next.rounds == t.rounds + 1 <= MAX_ROUNDS
  {
    hide Inputs, GivenTo, SupplyAll, WithFields, TdrBytes, PutBytes;
  }

  /** `run` over the store. */
  method Run(store: ContentStore, td: Hash, output: Hash) returns (r: Option<Ran>)
    modifies store
    ensures RunEnd(r, store.contents) == RunOutcome(store.host, old(store.contents), td, output)
  {
    hide TdrOf, IsLocked, LoopFrom, Inputs, TextField, BlobIn, UrlOf, PutBytes;
    var h := store.host;
    if td !in store.contents {
      return None;
    }
    var read := TdrOf(h.limit, store.contents[td]);
    if read.None? {
      return None;
    }
    var tdr := read.value;
    if !IsLocked(h.names, tdr) {
      return None;
    }
    if output !in store.contents {
      return None;
    }
    var blob, endTd, rounds := 0, td, 1;
    if tdr.kind == HTTP_GET {
      var url := UrlOf(h.names, tdr);
      if url.None? || h.fetch.None? {
        return None;
      }
      var bytes := h.fetch.value(0, url.value);
      if bytes.None? {
        return None;
      }
      blob := store.Put(bytes.value);
    } else if tdr.kind == WASM_TRANSFORM {
      if h.run.None? {
        return None;
      }
      var hash := BlobIn(h.names, tdr, Ascii("module"));
      if hash.None? || hash.value !in store.contents {
        return None;
      }
      var args := BlobIn(h.names, tdr, Ascii("args"));
      if args.Some? && args.value !in store.contents {
        return None;
      }
      var done := RunRounds(store, store.contents[hash.value],
                            if args.Some? then Some(store.contents[args.value]) else None, tdr, td);
      if done.None? {
        return None;
      }
      blob, endTd, rounds := done.value.0, done.value.1.td, done.value.1.rounds + 1;
    } else {
      return None;
    }
    var claim := h.attest(output, endTd, blob);
    var att := store.Put(claim);
    r := Some(Ran(endTd, blob, att, rounds));
  }

  // ----- where an output comes from -----

  /** `td` is in the store and is this record's: it reads back as the record, or is the hash of
      the record's bytes. */
  ghost predicate NamedBy(h: Host, store: Contents, td: Hash, tdr: Tdr) {
    td in store
    && (TdrOf(h.limit, store[td]) == Some(tdr) || (TdrBytes(tdr).Some? && td == h.address(TdrBytes(tdr).value)))
  }

  /** What holds at the top of the loop. */
  ghost predicate Standing(h: Host, t: Turn) {
    Sound(h, t.store) && NamedBy(h, t.store, t.td, t.current) && IsLocked(h.names, t.current)
      && t.current.kind == WASM_TRANSFORM
    && t.current.record == TDR
  }

  /** The module and the arguments are the bytes of the blobs the record names for them. */
  ghost predicate Loaded(h: Host, store: Contents, tdr: Tdr, module_: Module, args: Option<seq<Byte>>) {
    var code, given := BlobIn(h.names, tdr, Ascii("module")), BlobIn(h.names, tdr, Ascii("args"));
    && code.Some? && code.value in store && module_ == store[code.value]
    && (given.Some? ==> given.value in store && args == Some(store[given.value]))
    && (given.None? ==> args.None?)
  }

  lemma LoadedStill(h: Host, small: Contents, large: Contents, tdr: Tdr, m: seq<Named>, module_: Module,
                    args: Option<seq<Byte>>)
    requires Loaded(h, small, tdr, module_, args) && Grows(small, large)
    ensures Loaded(h, large, tdr, module_, args) && Loaded(h, large, WithFields(h.names, tdr, m, []), module_, args)
  {
    assert |Ascii("module")| == |Ascii("inputs")| && Ascii("module")[0] != Ascii("inputs")[0];
    assert |Ascii("args")| != |Ascii("inputs")|;
    OtherTextStays(h.names, tdr, m, [], Ascii("module"));
    OtherTextStays(h.names, tdr, m, [], Ascii("args"));
    hide TextField, WithFields;
  }

  lemma SupplyOneKeeps(h: Host, fetch: Fetcher, at: Supply, url: Utf8)
    requires Sound(h, at.store) && InOrder(at.declared) && AllPinned(at.declared) && SupplyOne(h, fetch, at, url).Some?
    ensures var next := SupplyOne(h, fetch, at, url).value;
      Sound(h, next.store) && Grows(at.store, next.store) && InOrder(next.declared) && AllPinned(next.declared)
  {
    hide HasUrl, With, InOrder;
    if !HasUrl(at.declared, url) {
      var bytes := fetch(at.fetched, url).value;
      PutKeeps(h, at.store, bytes);
      WithNames(at.declared, url, Pinned(None, Some(url), h.address(bytes)));
    }
  }

  lemma {:induction false} SupplyAllKeeps(h: Host, fetch: Fetcher, start: Supply, urls: seq<Utf8>)
    requires Sound(h, start.store) && InOrder(start.declared) && AllPinned(start.declared)
    ensures var at := SupplyAll(h, fetch, start, urls).at;
      Sound(h, at.store) && Grows(start.store, at.store) && InOrder(at.declared) && AllPinned(at.declared)
  {
    if urls != [] {
      hide SupplyOne, InOrder, AllPinned;
      var before := SupplyAll(h, fetch, start, urls[..|urls| - 1]);
      SupplyAllKeeps(h, fetch, start, urls[..|urls| - 1]);
      if before.ok && SupplyOne(h, fetch, before.at, urls[|urls| - 1]).Some? {
        SupplyOneKeeps(h, fetch, before.at, urls[|urls| - 1]);
      }
    }
  }

  lemma KindsDiffer()
    ensures HTTP_GET != WASM_TRANSFORM
  {
    assert |HTTP_GET| != |WASM_TRANSFORM|;
  }

  /** How a turn that goes round again came to. */
  lemma AgainShape(h: Host, module_: Module, args: Option<seq<Byte>>, t: Turn) returns (got: Supplied, urls: seq<Utf8>)
    requires h.run.Some? && TurnOnce(h, module_, args, t).Again?
    ensures h.fetch.Some? && got.ok
    ensures got == SupplyAll(h, h.fetch.value, Supply(Inputs(h.names, t.current), t.store, t.fetched), urls)
    ensures var current := WithFields(h.names, t.current, got.at.declared, []);
      && TdrBytes(current).Some?
      && TurnOnce(h, module_, args, t).next ==
           Turn(current, h.address(TdrBytes(current).value), PutBytes(h, got.at.store, TdrBytes(current).value),
                got.at.fetched, t.rounds + 1)
  {
    hide Inputs, GivenTo, SupplyAll, WithFields, TdrBytes, PutBytes;
    var declared := Inputs(h.names, t.current);
    urls := h.run.value(t.rounds + 1, module_, Request(args, GivenTo(t.store, declared).value)).value.urls;
    got := SupplyAll(h, h.fetch.value, Supply(declared, t.store, t.fetched), urls);
  }

  /** A turn that goes round again leaves a record that is stored and locked. */
  lemma TurnKeepsStanding(h: Host, module_: Module, args: Option<seq<Byte>>, t: Turn)
    requires Readable(h.names) && h.run.Some? && Standing(h, t) && Loaded(h, t.store, t.current, module_, args)
    requires TurnOnce(h, module_, args, t).Again?
    ensures var next := TurnOnce(h, module_, args, t).next;
      && Standing(h, next) && Loaded(h, next.store, next.current, module_, args)
      && Grows(t.store, next.store) && next.rounds == t.rounds + 1 <= MAX_ROUNDS
  {
    AgainCounts(h, module_, args, t);
    var got, urls := AgainShape(h, module_, args, t);
    hide TurnOnce, Inputs, SupplyAll, TdrBytes, WithFields, InOrder, Readable, PutBytes, TdrOf, Lookup, Loaded;
    InputsInOrder(h.names, t.current);
    SupplyAllKeeps(h, h.fetch.value, Supply(Inputs(h.names, t.current), t.store, t.fetched), urls);
    var current := WithFields(h.names, t.current, got.at.declared, []);
    InputsReadBack(h.names, t.current, got.at.declared, []);
    KindStays(h.names, t.current, got.at.declared);
    PutKeeps(h, got.at.store, TdrBytes(current).value);
    KindsDiffer();
    LoadedStill(h, t.store, PutBytes(h, got.at.store, TdrBytes(current).value), t.current, got.at.declared, module_,
      args);
  }

  lemma KindStays(n: Names, tdr: Tdr, m: seq<Named>)
    ensures WithFields(n, tdr, m, []).kind == tdr.kind && WithFields(n, tdr, m, []).record == tdr.record
  {
  }

  /** The runner, in this round, given the bytes of exactly these inputs, made the blob. */
  ghost predicate Made(h: Host, store: Contents, module_: Module, args: Option<seq<Byte>>, tdr: Tdr, rounds: nat,
                       blob: Hash) {
    && h.run.Some? && GivenTo(store, Inputs(h.names, tdr)).Some?
    && match h.run.value(rounds, module_, Request(args, GivenTo(store, Inputs(h.names, tdr)).value))
       case Some(Output(out)) => blob == h.address(out)
       case _ => false
  }

  lemma {:induction false} LoopProvenance(h: Host, module_: Module, args: Option<seq<Byte>>, t: Turn)
    requires Readable(h.names) && h.run.Some? && Standing(h, t) && t.rounds <= MAX_ROUNDS
    requires Loaded(h, t.store, t.current, module_, args)
    ensures var end := LoopFrom(h, module_, args, t);
      end.done.Some? ==>
        var (blob, turn) := end.done.value;
        && Standing(h, turn) && Loaded(h, turn.store, turn.current, module_, args) && turn.rounds < MAX_ROUNDS
          && Made(h, turn.store, module_, args, turn.current, turn.rounds + 1, blob)
        && Sound(h, end.store) && Grows(t.store, end.store) && Grows(turn.store, end.store) && blob in end.store
    decreases MAX_ROUNDS + 1 - t.rounds
  {
    hide TurnOnce, Standing, Made, Readable, Sound, Loaded;
    match TurnOnce(h, module_, args, t) {
      case Stop(_) =>
      case Done(blob, store) =>
        DoneMade(h, module_, args, t);
        StandingSound(h, t);
      case Again(next) =>
        TurnKeepsStanding(h, module_, args, t);
        LoopProvenance(h, module_, args, next);
    }
  }

  lemma StandingSound(h: Host, t: Turn)
    requires Standing(h, t)
    ensures Sound(h, t.store)
  {
    hide NamedBy, IsLocked, Sound;
  }

  lemma DoneMade(h: Host, module_: Module, args: Option<seq<Byte>>, t: Turn)
    requires h.run.Some? && Standing(h, t) && TurnOnce(h, module_, args, t).Done?
    ensures var step := TurnOnce(h, module_, args, t);
      && t.rounds < MAX_ROUNDS && Made(h, t.store, module_, args, t.current, t.rounds + 1, step.blob)
      && Sound(h, step.store) && Grows(t.store, step.store) && step.blob in step.store
  {
    hide Inputs, GivenTo, PutBytes, SupplyAll, WithFields, TdrBytes, TdrOf;
    var reply := h.run.value(t.rounds + 1, module_, Request(args, GivenTo(t.store, Inputs(h.names, t.current)).value));
    PutKeeps(h, t.store, reply.value.bytes);
  }

  lemma {:induction false} GivenGrows(small: Contents, large: Contents, declared: seq<Named>)
    requires Grows(small, large) && GivenTo(small, declared).Some?
    ensures GivenTo(large, declared) == GivenTo(small, declared)
  {
    if declared != [] {
      GivenGrows(small, large, declared[..|declared| - 1]);
    }
  }

  /** What the runner was given is, name by name, what the store holds under the pins. */
  lemma {:induction false} GivenExactly(store: Contents, declared: seq<Named>)
    requires GivenTo(store, declared).Some?
    ensures GivenSo(store, declared, GivenTo(store, declared).value)
  {
    if declared != [] {
      GivenExactly(store, declared[..|declared| - 1]);
    }
  }

  /** The record `td` names: locked, its module and arguments those that ran, and the blob what
      the runner made of exactly the bytes its inputs name, all as the store has them. */
  ghost predicate MadeFrom(h: Host, end: RunEnd, ran: Ran, module_: Module, args: Option<seq<Byte>>, tdr: Tdr) {
    && NamedBy(h, end.store, ran.td, tdr) && IsLocked(h.names, tdr) && tdr.record == TDR
    && Loaded(h, end.store, tdr, module_, args)
    && Made(h, end.store, module_, args, tdr, ran.rounds, ran.blob)
    && GivenSo(end.store, Inputs(h.names, tdr), GivenTo(end.store, Inputs(h.names, tdr)).value)
  }

  /** Name by name, the bytes under the pins. */
  ghost predicate GivenSo(store: Contents, declared: seq<Named>, given: seq<Given>) {
    |given| == |declared|
    && forall i :: 0 <= i < |given| ==>
         declared[i].input.Pinned? && declared[i].input.blob in store
         && given[i] == Given(declared[i].name, store[declared[i].input.blob])
  }

  lemma WasmProvenance(h: Host, store: Contents, tdr: Tdr, td: Hash, output: Hash)
    requires Readable(h.names) && Standing(h, Turn(tdr, td, store, 0, 0))
    requires WasmOutcome(h, store, tdr, td, output).result.Some?
    ensures var end := WasmOutcome(h, store, tdr, td, output); var ran := end.result.value;
      && 1 <= ran.rounds <= MAX_ROUNDS && Sound(h, end.store) && Grows(store, end.store)
      && ran.blob in end.store && ran.att in end.store && ran.att == h.address(h.attest(output, ran.td, ran.blob))
      && exists module_, args, tdr :: MadeFrom(h, end, ran, module_, args, tdr)
  {
    hide Readable, LoopFrom, Standing, BlobIn, PutBytes, Made, Sound;
    var hash := BlobIn(h.names, tdr, Ascii("module"));
    var argHash := BlobIn(h.names, tdr, Ascii("args"));
    var args := if argHash.Some? then Some(store[argHash.value]) else None;
    var start := Turn(tdr, td, store, 0, 0);
    assert Loaded(h, store, tdr, store[hash.value], args);
    hide Loaded;
    LoopProvenance(h, store[hash.value], args, start);
    var loop := LoopFrom(h, store[hash.value], args, start);
    var (blob, turn) := loop.done.value;
    PutKeeps(h, loop.store, h.attest(output, turn.td, blob));
    var end := WasmOutcome(h, store, tdr, td, output);
    StandingNames(h, turn, end.store);
    MadeStill(h, turn.store, end.store, store[hash.value], args, turn.current, turn.rounds + 1, blob);
    LoadedStill(h, turn.store, end.store, turn.current, [], store[hash.value], args);
    hide NamedBy, IsLocked, GivenSo;
    assert MadeFrom(h, end, end.result.value, store[hash.value], args, turn.current);
  }

  /** A successful run of a wasm transform takes at most 16 rounds, and the record it attests is
      stored, locked, and names exactly the blobs whose bytes the runner was given in the round
      that made the output. */
  lemma RunProvenance(h: Host, store: Contents, td: Hash, output: Hash)
    requires Readable(h.names) && Sound(h, store) && RunOutcome(h, store, td, output).result.Some?
    requires TdrOf(h.limit, store[td]).value.kind == WASM_TRANSFORM
    ensures var end := RunOutcome(h, store, td, output); var ran := end.result.value;
      && 1 <= ran.rounds <= MAX_ROUNDS && Sound(h, end.store) && Grows(store, end.store)
      && ran.blob in end.store && ran.att in end.store && ran.att == h.address(h.attest(output, ran.td, ran.blob))
      && exists module_, args, tdr :: MadeFrom(h, end, ran, module_, args, tdr)
  {
    hide Readable, IsLocked, Sound, MadeFrom, WasmOutcome, HttpOutcome;
    var tdr := TdrOf(h.limit, store[td]).value;
    TdrOfRecord(h.limit, store[td]);
    hide TdrOf;
    KindsDiffer();
    WasmProvenance(h, store, tdr, td, output);
  }

  lemma TdrOfRecord(limit: nat, bytes: seq<Byte>)
    ensures TdrOf(limit, bytes).Some? ==> TdrOf(limit, bytes).value.record == TDR
  {
    hide Decode, Field;
  }

  lemma StandingNames(h: Host, t: Turn, store: Contents)
    requires Standing(h, t) && Grows(t.store, store)
    ensures NamedBy(h, store, t.td, t.current) && IsLocked(h.names, t.current) && t.current.record == TDR
  {
    hide TdrOf, TdrBytes, IsLocked;
  }

  lemma MadeStill(h: Host, small: Contents, large: Contents, module_: Module, args: Option<seq<Byte>>, tdr: Tdr,
                  rounds: nat,
                  blob: Hash)
    requires Made(h, small, module_, args, tdr, rounds, blob) && Grows(small, large)
    ensures Made(h, large, module_, args, tdr, rounds, blob)
    ensures GivenSo(large, Inputs(h.names, tdr), GivenTo(large, Inputs(h.names, tdr)).value)
  {
    hide GivenTo, Inputs, GivenSo;
    GivenGrows(small, large, Inputs(h.names, tdr));
    GivenExactly(large, Inputs(h.names, tdr));
  }

  /** An http-get runs once: the blob is what its url gave, attested to the record itself. */
  lemma HttpProvenance(h: Host, store: Contents, td: Hash, output: Hash)
    requires Sound(h, store) && RunOutcome(h, store, td, output).result.Some?
    requires TdrOf(h.limit, store[td]).value.kind == HTTP_GET
    ensures var end := RunOutcome(h, store, td, output); var ran := end.result.value;
      && ran.td == td && ran.rounds == 1 && Sound(h, end.store) && Grows(store, end.store) && ran.blob in end.store
      && IsLocked(h.names, TdrOf(h.limit, store[td]).value)
      && h.fetch.Some? && var url := UrlOf(h.names, TdrOf(h.limit, store[td]).value);
      && url.Some? && h.fetch.value(0, url.value).Some? && ran.blob == h.address(h.fetch.value(0, url.value).value)
  {
    KindsDiffer();
    hide TdrOf, IsLocked, UrlOf, PutBytes, WasmOutcome;
    var tdr := TdrOf(h.limit, store[td]).value;
    var bytes := h.fetch.value(0, UrlOf(h.names, tdr).value).value;
    PutKeeps(h, store, bytes);
    PutKeeps(h, PutBytes(h, store, bytes), h.attest(output, td, h.address(bytes)));
  }

  // ----- reading the record back -----

  lemma TdrFields(tdr: Tdr)
    ensures var es := TdrValue(tdr).entries;
      && Field(es, Ascii("record")) == Some(Text(tdr.record))
      && Field(es, Ascii("kind")) == Some(Text(tdr.kind))
      && Field(es, Ascii("body")) == Some(tdr.body)
  {
    var es := TdrValue(tdr).entries;
    assert es == [es[0]] + [es[1]] + [es[2]];
    assert Ascii("kind")[0] != Ascii("body")[0];
    ThreeFields(es[0], [es[1]], [es[2]], Ascii("record"));
    ThreeFields(es[0], [es[1]], [es[2]], Ascii("kind"));
    ThreeFields(es[0], [es[1]], [es[2]], Ascii("body"));
  }

  /** A record's bytes read back as the record with its body in canonical form. */
  lemma TdrReadsBack(limit: nat, tdr: Tdr)
    requires TdrBytes(tdr).Some? && tdr.record == TDR
    requires Fits(TdrValue(tdr)) && Depth(TdrValue(tdr)) <= limit
    ensures TdrOf(limit, TdrBytes(tdr).value) == Some(tdr.(body := Shape(tdr.body)))
  {
    var es := TdrValue(tdr).entries;
    assert FloatFree(TdrValue(tdr));
    assert TdrBytes(tdr).value + [] == TdrBytes(tdr).value;
    ReadBack.CanonicalReadsBack(TdrValue(tdr), limit, []);
    TdrFields(tdr);
    ShapedMap(TdrValue(tdr));
    hide Decode, Encode, Fits, FloatFree, Depth, Shape, Field, SortedByKey, ShapeEntries;
    ShapeFields(es, Ascii("body"));
    ShapeText(es, Ascii("record"));
    ShapeText(es, Ascii("kind"));
  }

  /** Provided no two of the byte strings involved share a hash, the stored bytes are the
      record: it reads back with the same inputs, and locked. */
  lemma NamedRecordReads(h: Host, store: Contents, td: Hash, tdr: Tdr, inPlay: iset<seq<Byte>>)
    requires Sound(h, store) && NamedBy(h, store, td, tdr) && IsLocked(h.names, tdr) && tdr.record == TDR
    requires forall a, b :: a in inPlay && b in inPlay && h.address(a) == h.address(b) ==> a == b
    requires store[td] in inPlay && (TdrBytes(tdr).Some? ==> TdrBytes(tdr).value in inPlay)
    requires Fits(TdrValue(tdr)) && Depth(TdrValue(tdr)) <= h.limit
    ensures TdrOf(h.limit, store[td]).Some?
    ensures var read := TdrOf(h.limit, store[td]).value;
      Inputs(h.names, read) == Inputs(h.names, tdr) && read.kind == tdr.kind && IsLocked(h.names, read)
  {
    hide TdrOf, Fits, Depth, BodyInputs;
    if TdrOf(h.limit, store[td]) != Some(tdr) {
      TdrReadsBack(h.limit, tdr);
      ShapedInputs(h.names, tdr.body);
    }
  }

  // ----- what the next round is given -----

  /** A url is pinned once the names in `fetched` have been overwritten. */
  predicate StillPinned(declared: seq<Named>, fetched: set<Utf8>, url: Utf8) {
    url in fetched || exists e :: e in declared && Holds(e, url) && e.name !in fetched
  }

  /** The urls a round will fetch, told from the declared inputs and the urls alone: an asked
      url that is not pinned by then. Each is then declared under its own name, in place of
      whatever bore it. */
  function Fetches(declared: seq<Named>, urls: seq<Utf8>): set<Utf8> {
    if urls == [] then {}
    else
      var before := Fetches(declared, urls[..|urls| - 1]);
      if StillPinned(declared, before, urls[|urls| - 1]) then before else before + {urls[|urls| - 1]}
  }

  lemma {:induction false} FetchesGrow(declared: seq<Named>, urls: seq<Utf8>, k: nat)
    requires k <= |urls|
    ensures Fetches(declared, urls[..k]) <= Fetches(declared, urls)
    ensures forall u :: u in Fetches(declared, urls) ==> u in Fetches(declared, urls[..k]) || u in urls[k..]
  {
    hide StillPinned;
    if k == |urls| {
      assert urls[..k] == urls;
    } else {
      var front := urls[..|urls| - 1];
      assert front[..k] == urls[..k] && urls[k..] == front[k..] + [urls[|urls| - 1]];
      FetchesGrow(declared, front, k);
    }
  }

  /** Between one asked url and the next: pinned in the new state is pinned as told. */
  lemma FetchedAt(declared: seq<Named>, urls: seq<Utf8>, k: nat)
    requires k < |urls|
    ensures Fetches(declared, urls[..k + 1]) ==
      Fetches(declared, urls[..k]) + if StillPinned(declared, Fetches(declared, urls[..k]), urls[k]) then {}
        else {urls[k]}
  {
    assert urls[..k + 1][..k] == urls[..k];
  }

  /** `now` is `declared` but for a pin of each fetched url under its own name. */
  ghost predicate Replaces(declared: seq<Named>, fetched: set<Utf8>, now: seq<Named>) {
    && (forall e :: e in declared && e.name !in fetched ==> e in now)
    && (forall e :: e in now ==> if e.name in fetched then Holds(e, e.name) else e in declared)
    && (forall u :: u in fetched ==> exists e :: e in now && e.name == u)
  }

  /** What supplying leaves, with one fetch for each fetched url. */
  ghost predicate SuppliedSo(start: Supply, fetched: set<Utf8>, at: Supply) {
    InOrder(at.declared) && at.fetched == start.fetched + |fetched| && Replaces(start.declared, fetched, at.declared)
  }

  lemma ReplacesOneMore(declared: seq<Named>, fetched: set<Utf8>, now: seq<Named>, url: Utf8, pin: Input)
    requires Replaces(declared, fetched, now) && InOrder(now) && Holds(Named(url, pin), url)
    ensures Replaces(declared, fetched + {url}, With(now, url, pin)) && InOrder(With(now, url, pin))
  {
    hide Holds, With, InOrder;
    WithNames(now, url, pin);
    var after := With(now, url, pin);
    assert Named(url, pin) in after;
    forall u | u in fetched && u != url ensures exists e :: e in after && e.name == u {
      var e :| e in now && e.name == u;
      assert e in after;
    }
  }

  lemma PinnedAsTold(start: Supply, fetched: set<Utf8>, at: Supply, url: Utf8)
    requires SuppliedSo(start, fetched, at)
    ensures HasUrl(at.declared, url) <==> StillPinned(start.declared, fetched, url)
  {
    if HasUrl(at.declared, url) {
      var e :| e in at.declared && Holds(e, url);
    }
    if url in fetched {
      var e :| e in at.declared && e.name == url;
      assert Holds(e, url);
    } else if e :| e in start.declared && Holds(e, url) && e.name !in fetched {
      assert e in at.declared;
    }
  }

  lemma SupplyOneSo(h: Host, fetch: Fetcher, start: Supply, fetched: set<Utf8>, at: Supply, url: Utf8)
    requires SuppliedSo(start, fetched, at) && SupplyOne(h, fetch, at, url).Some?
    ensures SuppliedSo(start, if StillPinned(start.declared, fetched, url) then fetched else fetched + {url},
                       SupplyOne(h, fetch, at, url).value)
  {
    PinnedAsTold(start, fetched, at, url);
    hide HasUrl, With, InOrder;
    if !StillPinned(start.declared, fetched, url) {
      var pin := Pinned(None, Some(url), h.address(fetch(at.fetched, url).value));
      assert url !in fetched;
      hide Replaces, StillPinned;
      ReplacesOneMore(start.declared, fetched, at.declared, url, pin);
    }
  }

  lemma {:induction false} SupplyFetches(h: Host, fetch: Fetcher, start: Supply, urls: seq<Utf8>)
    requires InOrder(start.declared) && SupplyAll(h, fetch, start, urls).ok
    ensures SuppliedSo(start, Fetches(start.declared, urls), SupplyAll(h, fetch, start, urls).at)
  {
    if urls != [] {
      hide SuppliedSo, SupplyOne, StillPinned, InOrder;
      var front := urls[..|urls| - 1];
      SupplyFetches(h, fetch, start, front);
      SupplyOneSo(h, fetch, start, Fetches(start.declared, front), SupplyAll(h, fetch, start, front).at,
        urls[|urls| - 1]);
    }
  }

  /** A url not pinned at the start is fetched when asked for. */
  lemma {:induction false} UnpinnedIsFetched(declared: seq<Named>, urls: seq<Utf8>, url: Utf8)
    requires url in urls && forall e :: e in declared ==> !Holds(e, url)
    ensures url in Fetches(declared, urls)
  {
    var front, last := urls[..|urls| - 1], urls[|urls| - 1];
    assert urls == front + [last];
    if url in front {
      UnpinnedIsFetched(declared, front, url);
    }
  }

  /** No input's name is fetched when every input named like an asked url finds it pinned. */
  lemma {:induction false} NoNameFetched(declared: seq<Named>, urls: seq<Utf8>)
    requires forall e :: e in declared && e.name in urls ==> HasUrl(declared, e.name)
    ensures forall e :: e in declared ==> e.name !in Fetches(declared, urls)
    ensures forall u :: u in urls ==> StillPinned(declared, Fetches(declared, urls), u)
  {
    if urls != [] {
      var front, last := urls[..|urls| - 1], urls[|urls| - 1];
      assert urls == front + [last];
      NoNameFetched(declared, front);
      var before := Fetches(declared, front);
      forall e | e in declared && e.name == last ensures StillPinned(declared, before, last) {
        assert HasUrl(declared, e.name);
      }
    }
  }

  /** An input that holds its own name is never fetched over. */
  lemma {:induction false} OwnNameStays(declared: seq<Named>, urls: seq<Utf8>, e: Named)
    requires e in declared && Holds(e, e.name)
    ensures e.name !in Fetches(declared, urls)
  {
    if urls != [] {
      OwnNameStays(declared, urls[..|urls| - 1], e);
    }
  }

  /** The next round keeps every input exactly when every input named like an asked url finds
      that url pinned already; then every asked url is pinned in it too. */
  lemma InputsKeptExactly(h: Host, fetch: Fetcher, start: Supply, urls: seq<Utf8>)
    requires InOrder(start.declared) && SupplyAll(h, fetch, start, urls).ok
    ensures var now := SupplyAll(h, fetch, start, urls).at.declared;
      && ((forall e :: e in start.declared ==> e in now)
          <==> forall e :: e in start.declared && e.name in urls ==> HasUrl(start.declared, e.name))
      && ((forall e :: e in start.declared ==> e in now) ==> forall u :: u in urls ==> HasUrl(now, u))
  {
    var at := SupplyAll(h, fetch, start, urls).at;
    var fetched := Fetches(start.declared, urls);
    SupplyFetches(h, fetch, start, urls);
    hide SupplyAll, Fetches;
    if forall e :: e in start.declared && e.name in urls ==> HasUrl(start.declared, e.name) {
      NoNameFetched(start.declared, urls);
      forall u | u in urls ensures HasUrl(at.declared, u) { PinnedAsTold(start, fetched, at, u); }
    } else {
      var e :| e in start.declared && e.name in urls && !HasUrl(start.declared, e.name);
      assert forall x :: x in start.declared ==> !Holds(x, e.name);
      UnpinnedIsFetched(start.declared, urls, e.name);
      assert e !in at.declared;
    }
  }

  /** An asked url is lost exactly when every input holding it is fetched over, one of them only
      after the url was last asked for. */
  lemma UrlLostExactly(h: Host, fetch: Fetcher, start: Supply, urls: seq<Utf8>, k: nat)
    requires InOrder(start.declared) && SupplyAll(h, fetch, start, urls).ok
    requires k < |urls| && urls[k] !in urls[k + 1..]
    ensures !HasUrl(SupplyAll(h, fetch, start, urls).at.declared, urls[k]) <==>
      && (forall e :: e in start.declared && Holds(e, urls[k]) ==> e.name in Fetches(start.declared, urls))
      && (exists e :: e in start.declared && Holds(e, urls[k]) && e.name !in Fetches(start.declared, urls[..k]))
  {
    var declared, url := start.declared, urls[k];
    SupplyFetches(h, fetch, start, urls);
    PinnedAsTold(start, Fetches(declared, urls), SupplyAll(h, fetch, start, urls).at, url);
    hide SupplyAll, SuppliedSo, HasUrl;
    FetchedAt(declared, urls, k);
    FetchesGrow(declared, urls, k);
    FetchesGrow(declared, urls, k + 1);
    hide Fetches, Holds;
    if e :| e in declared && Holds(e, url) && e.name !in Fetches(declared, urls[..k]) {
      NeverFetched(declared, urls[..k], e, url);
      assert StillPinned(declared, Fetches(declared, urls[..k]), url);
    }
  }

  /** A url with a holder left was not fetched. */
  lemma {:induction false} NeverFetched(declared: seq<Named>, urls: seq<Utf8>, e: Named, url: Utf8)
    requires e in declared && Holds(e, url) && e.name !in Fetches(declared, urls)
    ensures url !in Fetches(declared, urls)
  {
    if urls != [] {
      NeverFetched(declared, urls[..|urls| - 1], e, url);
    }
  }

  /** An asked url can be lost: it is pinned under another asked url's name, skipped for being
      pinned, and then overwritten. */
  lemma ClashingNameDropsUrl(h: Host, fetch: Fetcher, a: Utf8, b: Utf8, blob: Hash, store: Contents)
    requires a != b && fetch(0, b).Some?
    ensures var start := Supply([Named(b, Pinned(None, Some(a), blob))], store, 0);
      var got := SupplyAll(h, fetch, start, [a, b]);
      got.ok && HasUrl(start.declared, a) && !HasUrl(got.at.declared, a)
  {
    var start := Supply([Named(b, Pinned(None, Some(a), blob))], store, 0);
    assert start.declared[0] in start.declared;
    assert [a, b][..1] == [a] && [a][..0] == [];
    assert HasUrl(start.declared, a) && !HasUrl(start.declared, b);
    assert SupplyAll(h, fetch, start, [a]) == Supplied(start, true);
    LessTotal(b, b);
    var pin := Pinned(None, Some(b), h.address(fetch(0, b).value));
    assert With(start.declared, b, pin) == [Named(b, pin)];
  }

  /** Losses cascade: the name that is fetched over may itself have been pinned at the start,
      until its own holder went. */
  lemma LossCascades(a: Utf8, b: Utf8, c: Utf8, blob: Hash)
    requires a != b && b != c && a != c
    ensures var declared := [Named(b, Pinned(None, Some(a), blob)), Named(c, Pinned(None, Some(b), blob))];
      && HasUrl(declared, a) && HasUrl(declared, b)
      && Fetches(declared, [a, c, b]) == {b, c} && !StillPinned(declared, Fetches(declared, [a, c, b]), a)
  {
    var declared := [Named(b, Pinned(None, Some(a), blob)), Named(c, Pinned(None, Some(b), blob))];
    assert declared[0] in declared && declared[1] in declared;
    assert forall e :: e in declared ==> e == declared[0] || e == declared[1];
    assert Holds(declared[0], a) && Holds(declared[1], b);
    assert HasUrl(declared, a) && HasUrl(declared, b);
    assert [a, c, b][..2] == [a, c] && [a, c][..1] == [a] && [a][..0] == [];
    assert Fetches(declared, [a]) == {};
    assert Fetches(declared, [a, c]) == {c};
  }
}
