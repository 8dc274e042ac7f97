/** Reconciling the head a ref names with one pulled from a peer. */
module Merge {
  import opened Options
  import opened Records
  import opened Store
  import opened Builder

  datatype Merged = Unchanged | Adopted(head: Hash) | Union(head: Hash) | Replaced(head: Hash)

  /** What a merge returns and leaves in the store. */
  datatype Outcome = Outcome(result: Result<Merged, string>, blobs: Blobs, refs: map<string, Hash>)

  /** Mine in order, then theirs that I lack. */
  function UnionOf(mine: seq<Hash>, theirs: seq<Hash>): (r: seq<Hash>)
    ensures forall h :: h in r <==> h in mine || h in theirs
  {
    if theirs == [] then mine
    else
      var front, last := theirs[..|theirs| - 1], theirs[|theirs| - 1];
      assert theirs == front + [last];
      var before := UnionOf(mine, front);
      if last in before then before else before + [last]
  }

  function MergedHead(local: Collection, incoming: Collection): Collection {
    NewHead(incoming.kind, local.name, local.owner,
            if local.forkedFrom.Some? then local.forkedFrom else incoming.forkedFrom,
            UnionOf(local.ops, incoming.ops), UnionOf(local.records, incoming.records),
            UnionOf(local.attestations, incoming.attestations))
  }

  function Pointed(usable: string -> bool, blobs: Blobs, refs: map<string, Hash>,
                   name: string, merged: Merged, head: Hash): Outcome {
    if usable(name) then Outcome(Ok(merged), blobs, refs[name := head])
    else Outcome(Err("not a usable ref name"), blobs, refs)
  }

  /** `collection::merge`. A union is published under the local head's own name. */
  function MergeOutcome(c: Crypto, usable: string -> bool, blobs: Blobs, refs: map<string, Hash>,
                        name: string, incoming: Hash): Outcome {
    if incoming !in blobs then Outcome(Err("incoming head missing"), blobs, refs)
    else
      var replaced := Pointed(usable, blobs, refs, name, Replaced(incoming), incoming);
      var theirs := HeadAt(blobs, Some(incoming));
      var at := if usable(name) && name in refs then Some(refs[name]) else None;
      var mine := HeadAt(blobs, at);
      if theirs.None? || at.None? then replaced
      else if at.value == incoming then Outcome(Ok(Unchanged), blobs, refs)
      else if mine.None? || mine.value.owner != theirs.value.owner || mine.value.name != theirs.value.name then replaced
      else if theirs.value.refs <= mine.value.refs then Outcome(Ok(Unchanged), blobs, refs)
      else if mine.value.refs <= theirs.value.refs then
        Pointed(usable, blobs, refs, name, Adopted(incoming), incoming)
      else
        var head := MergedHead(mine.value, theirs.value);
        var hash := c.address(HeadBlob(head));
        Pointed(usable, Put(c, blobs, HeadBlob(head)), refs, mine.value.name, Union(hash), hash)
  }

  method UnionInPlace(mine: seq<Hash>, theirs: seq<Hash>) returns (out: seq<Hash>)
    ensures out == UnionOf(mine, theirs)
  {
    out := mine;
    for i := 0 to |theirs|
      invariant out == UnionOf(mine, theirs[..i])
    {
      assert theirs[..i + 1][..i] == theirs[..i];
      if theirs[i] !in out {
        out := out + [theirs[i]];
      }
    }
    assert theirs[..|theirs|] == theirs;
  }

  method PointAt(store: BlobStore, name: string, merged: Merged, head: Hash) returns (r: Result<Merged, string>)
    modifies store`refs
    ensures Outcome(r, store.blobs, store.refs)
      == Pointed(store.usable, store.blobs, old(store.refs), name, merged, head)
  {
    var ok := store.WriteRef(name, head);
    r := if ok then Ok(merged) else Err("not a usable ref name");
  }

  /** `collection::merge` over the store. */
  method MergeHead(store: BlobStore, name: string, incoming: Hash) returns (r: Result<Merged, string>)
    modifies store
    ensures Outcome(r, store.blobs, store.refs)
      == MergeOutcome(store.crypto, store.usable, old(store.blobs), old(store.refs), name, incoming)
  {
    if incoming !in store.blobs {
      return Err("incoming head missing");
    }
    var theirs := HeadAt(store.blobs, Some(incoming));
    var at := store.ReadRef(name);
    if theirs.None? || at.None? {
      r := PointAt(store, name, Replaced(incoming), incoming);
      return;
    }
    if at.value == incoming {
      return Ok(Unchanged);
    }
    var mine := HeadAt(store.blobs, at);
    if mine.None? || mine.value.owner != theirs.value.owner || mine.value.name != theirs.value.name {
      r := PointAt(store, name, Replaced(incoming), incoming);
      return;
    }
    if theirs.value.refs <= mine.value.refs {
      return Ok(Unchanged);
    }
    if mine.value.refs <= theirs.value.refs {
      r := PointAt(store, name, Adopted(incoming), incoming);
      return;
    }
    var ops := UnionInPlace(mine.value.ops, theirs.value.ops);
    var records := UnionInPlace(mine.value.records, theirs.value.records);
    var attestations := UnionInPlace(mine.value.attestations, theirs.value.attestations);
    var forkedFrom := if mine.value.forkedFrom.Some? then mine.value.forkedFrom else theirs.value.forkedFrom;
    var head := NewHead(theirs.value.kind, mine.value.name, mine.value.owner, forkedFrom, ops, records, attestations);
    var hash := store.PutBlob(HeadBlob(head));
    r := PointAt(store, mine.value.name, Union(hash), hash);
  }

  lemma UnionRefs(mine: Collection, theirs: Collection)
    requires Indexed(mine) && Indexed(theirs)
    ensures MergedHead(mine, theirs).refs == mine.refs + theirs.refs
    ensures Indexed(MergedHead(mine, theirs))
  {
  }

  /** `refs` names a head of the given owner and name, and so does `incoming`. */
  ghost predicate Mergeable(c: Crypto, inPlay: iset<Blob>, usable: string -> bool, blobs: Blobs,
                            refs: map<string, Hash>, name: string, incoming: Hash) {
    && Intact(c, inPlay, blobs) && usable(name) && name in refs
    && HeadAt(blobs, Some(refs[name])).Some? && HeadAt(blobs, Some(incoming)).Some?
    && var mine, theirs := HeadAt(blobs, Some(refs[name])).value, HeadAt(blobs, Some(incoming)).value;
    && mine.owner == theirs.owner && mine.name == theirs.name == name && Indexed(mine) && Indexed(theirs)
    && HeadBlob(MergedHead(mine, theirs)) in inPlay
  }

  /** What a merge of two heads of one owner and name leaves. */
  ghost predicate Joined(c: Crypto, inPlay: iset<Blob>, mine: Collection, theirs: Collection,
                         blobs: Blobs, refs: map<string, Hash>, name: string, incoming: Hash, out: Outcome) {
    && Intact(c, inPlay, out.blobs) && Extends(out.blobs, blobs)
    && name in out.refs && out.refs == refs[name := out.refs[name]]
    && HeadAt(out.blobs, Some(out.refs[name])).Some?
    && HeadAt(out.blobs, Some(out.refs[name])).value.refs == mine.refs + theirs.refs
    && out.result.Ok?
    && (out.result.value == Unchanged ==> out.refs == refs && out.blobs == blobs)
    && (out.result.value.Adopted? ==> out.blobs == blobs && out.refs[name] == incoming == out.result.value.head)
    && (out.result.value.Union? ==> HeadAt(out.blobs, Some(out.refs[name])).value == MergedHead(mine, theirs))
    && (out.result.value.Union? ==>
          out.blobs.Keys == blobs.Keys + {out.refs[name]} && out.refs[name] == out.result.value.head)
    && !out.result.value.Replaced?
  }

  lemma MergeCases(c: Crypto, inPlay: iset<Blob>, usable: string -> bool, blobs: Blobs, refs: map<string, Hash>,
                   name: string, incoming: Hash)
    requires Mergeable(c, inPlay, usable, blobs, refs, name, incoming)
    ensures var mine, theirs := HeadAt(blobs, Some(refs[name])).value, HeadAt(blobs, Some(incoming)).value;
      var hash := c.address(HeadBlob(MergedHead(mine, theirs)));
      MergeOutcome(c, usable, blobs, refs, name, incoming) ==
        if theirs.refs <= mine.refs then Outcome(Ok(Unchanged), blobs, refs)
        else if mine.refs <= theirs.refs then Outcome(Ok(Adopted(incoming)), blobs, refs[name := incoming])
        else Outcome(Ok(Union(hash)), Put(c, blobs, HeadBlob(MergedHead(mine, theirs))), refs[name := hash])
  {
    hide MergedHead, Put, Intact, Indexed;
  }

  /** A merge of two heads of one owner and name ends on a head holding both ref sets; it says
      `Unchanged` exactly when the local head already held the incoming one, and adopts the
      incoming head verbatim exactly when that one holds more and all of the local. */
  lemma MergeJoins(c: Crypto, inPlay: iset<Blob>, usable: string -> bool, blobs: Blobs, refs: map<string, Hash>,
                   name: string, incoming: Hash)
    requires CollisionFree(c, inPlay) && Mergeable(c, inPlay, usable, blobs, refs, name, incoming)
    ensures var mine, theirs := HeadAt(blobs, Some(refs[name])).value, HeadAt(blobs, Some(incoming)).value;
      var out := MergeOutcome(c, usable, blobs, refs, name, incoming);
      && Joined(c, inPlay, mine, theirs, blobs, refs, name, incoming, out)
      && (out.result == Ok(Unchanged) <==> theirs.refs <= mine.refs)
      && (out.result == Ok(Adopted(incoming)) <==> mine.refs < theirs.refs)
  {
    var mine, theirs := HeadAt(blobs, Some(refs[name])).value, HeadAt(blobs, Some(incoming)).value;
    MergeCases(c, inPlay, usable, blobs, refs, name, incoming);
    hide MergeOutcome, MergedHead, CollisionFree, Put, Indexed;
    if !(theirs.refs <= mine.refs) && !(mine.refs <= theirs.refs) {
      UnionJoined(c, inPlay, mine, theirs, blobs, refs, name, incoming);
    }
  }

  lemma UnionJoined(c: Crypto, inPlay: iset<Blob>, mine: Collection, theirs: Collection, blobs: Blobs,
                    refs: map<string, Hash>, name: string, incoming: Hash)
    requires CollisionFree(c, inPlay) && Intact(c, inPlay, blobs) && HeadBlob(MergedHead(mine, theirs)) in inPlay
    requires Indexed(mine) && Indexed(theirs)
    ensures var hash := c.address(HeadBlob(MergedHead(mine, theirs)));
      Joined(c, inPlay, mine, theirs, blobs, refs, name, incoming,
             Outcome(Ok(Union(hash)), Put(c, blobs, HeadBlob(MergedHead(mine, theirs))), refs[name := hash]))
  {
    UnionRefs(mine, theirs);
    PutGet(c, inPlay, blobs, HeadBlob(MergedHead(mine, theirs)));
    hide MergedHead, CollisionFree, Put, Indexed;
  }

  /** Two heads of one owner and one name, whatever the ref is called. */
  ghost predicate Related(c: Crypto, inPlay: iset<Blob>, usable: string -> bool, blobs: Blobs,
                          refs: map<string, Hash>, name: string, incoming: Hash) {
    && Intact(c, inPlay, blobs) && usable(name) && name in refs
    && HeadAt(blobs, Some(refs[name])).Some? && HeadAt(blobs, Some(incoming)).Some?
    && var mine, theirs := HeadAt(blobs, Some(refs[name])).value, HeadAt(blobs, Some(incoming)).value;
    && mine.owner == theirs.owner && mine.name == theirs.name && Indexed(mine) && Indexed(theirs)
    && HeadBlob(MergedHead(mine, theirs)) in inPlay
  }

  /** A merge leaves the ref with both ref sets exactly when one head holds all of the other, or
      the local head is named for the ref: a union is published under the head's own name. */
  lemma MergeJoinsExactly(c: Crypto, inPlay: iset<Blob>, usable: string -> bool, blobs: Blobs, refs: map<string, Hash>,
                          name: string, incoming: Hash)
    requires CollisionFree(c, inPlay) && Related(c, inPlay, usable, blobs, refs, name, incoming)
    ensures var mine, theirs := HeadAt(blobs, Some(refs[name])).value, HeadAt(blobs, Some(incoming)).value;
      var out := MergeOutcome(c, usable, blobs, refs, name, incoming);
      && name in out.refs && HeadAt(out.blobs, Some(out.refs[name])).Some?
      && (HeadAt(out.blobs, Some(out.refs[name])).value.refs == mine.refs + theirs.refs
          <==> theirs.refs <= mine.refs || mine.refs <= theirs.refs || mine.name == name)
  {
    var mine, theirs := HeadAt(blobs, Some(refs[name])).value, HeadAt(blobs, Some(incoming)).value;
    PutGet(c, inPlay, blobs, HeadBlob(MergedHead(mine, theirs)));
    UnionRefs(mine, theirs);
    hide MergedHead, Put, CollisionFree, Intact, Indexed;
  }

  // ----- the head of a union -----

  /** Where a hash first stands. */
  function FirstAt(hashes: seq<Hash>, hash: Hash): nat {
    if hashes == [] || hashes[0] == hash then 0 else 1 + FirstAt(hashes[1..], hash)
  }

  /** Mine as they stand, and behind them those of theirs I lacked, each once, as they first stand
      there. */
  ghost predicate Follows(mine: seq<Hash>, theirs: seq<Hash>, both: seq<Hash>) {
    && mine <= both
    && (forall h :: h in both[|mine|..] <==> h in theirs && h !in mine)
    && forall i, j :: |mine| <= i < j < |both| ==> FirstAt(theirs, both[i]) < FirstAt(theirs, both[j])
  }

  lemma {:induction false} FirstAtFront(front: seq<Hash>, last: Hash, hash: Hash)
    ensures hash in front ==> FirstAt(front + [last], hash) == FirstAt(front, hash) < |front|
    ensures hash !in front && hash == last ==> FirstAt(front + [last], hash) == |front|
  {
    if front == [] {
      assert [] + [last] == [last];
    } else {
      assert (front + [last])[1..] == front[1..] + [last];
      FirstAtFront(front[1..], last, hash);
    }
  }

  lemma FollowsOneMore(mine: seq<Hash>, front: seq<Hash>, last: Hash, both: seq<Hash>)
    requires Follows(mine, front, both)
    ensures Follows(mine, front + [last], if last in both then both else both + [last])
  {
    var theirs, after := front + [last], if last in both then both else both + [last];
    assert last !in both ==> after[|mine|..] == both[|mine|..] + [last];
    assert forall h :: h in both <==> h in mine || h in both[|mine|..] by {
      assert both == mine + both[|mine|..];
    }
    forall i, j | |mine| <= i < j < |after| ensures FirstAt(theirs, after[i]) < FirstAt(theirs, after[j]) {
      FirstAtFront(front, last, after[i]);
      FirstAtFront(front, last, after[j]);
      assert after[i] in both[|mine|..] by { assert after[i] == both[|mine|..][i - |mine|]; }
      if j < |both| {
        assert after[j] == both[|mine|..][j - |mine|];
      }
    }
  }

  lemma {:induction false} UnionFollows(mine: seq<Hash>, theirs: seq<Hash>)
    ensures Follows(mine, theirs, UnionOf(mine, theirs))
  {
    if theirs == [] {
      assert mine[|mine|..] == [];
    } else {
      var front, last := theirs[..|theirs| - 1], theirs[|theirs| - 1];
      assert theirs == front + [last];
      hide Follows;
      UnionFollows(mine, front);
      FollowsOneMore(mine, front, last, UnionOf(mine, front));
    }
  }

  /** The head names its parents' name, owner and kind, and lists what both list. */
  ghost predicate UnionHead(mine: Collection, theirs: Collection, head: Collection) {
    && head.kind == theirs.kind && head.name == mine.name && head.owner == mine.owner
    && head.forkedFrom == (match mine.forkedFrom case Some(dgid) => Some(dgid) case None => theirs.forkedFrom)
    && Follows(mine.ops, theirs.ops, head.ops) && Follows(mine.records, theirs.records, head.records)
    && Follows(mine.attestations, theirs.attestations, head.attestations)
    && head.refs == Elements(head.ops) + Elements(head.records) + Elements(head.attestations)
  }

  lemma MergedTells(mine: Collection, theirs: Collection)
    ensures UnionHead(mine, theirs, MergedHead(mine, theirs))
  {
    UnionFollows(mine.ops, theirs.ops);
    UnionFollows(mine.records, theirs.records);
    UnionFollows(mine.attestations, theirs.attestations);
    hide UnionOf, Follows;
  }

  lemma UnionOutcome(c: Crypto, usable: string -> bool, blobs: Blobs, refs: map<string, Hash>, name: string,
                     incoming: Hash)
    requires var out := MergeOutcome(c, usable, blobs, refs, name, incoming); out.result.Ok? && out.result.value.Union?
    ensures usable(name) && name in refs
    ensures HeadAt(blobs, Some(refs[name])).Some? && HeadAt(blobs, Some(incoming)).Some?
    ensures var mine, theirs := HeadAt(blobs, Some(refs[name])).value, HeadAt(blobs, Some(incoming)).value;
      var head := HeadBlob(MergedHead(mine, theirs));
      && mine.owner == theirs.owner && mine.name == theirs.name
      && MergeOutcome(c, usable, blobs, refs, name, incoming)
         == Outcome(Ok(Union(c.address(head))), Put(c, blobs, head), refs[mine.name := c.address(head)])
  {
    hide MergedHead, Put;
  }

  /** A union publishes a head of my name and owner and their kind, forked from where mine was, or
      else theirs; each of its lists is mine and behind it what theirs had more. */
  lemma UnionTells(c: Crypto, inPlay: iset<Blob>, usable: string -> bool, blobs: Blobs, refs: map<string, Hash>,
                   name: string, incoming: Hash)
    requires CollisionFree(c, inPlay) && Related(c, inPlay, usable, blobs, refs, name, incoming)
    requires var out := MergeOutcome(c, usable, blobs, refs, name, incoming); out.result.Ok? && out.result.value.Union?
    ensures var out := MergeOutcome(c, usable, blobs, refs, name, incoming);
      var mine, theirs := HeadAt(blobs, Some(refs[name])).value, HeadAt(blobs, Some(incoming)).value;
      var at := out.result.value.head;
      && out.refs == refs[mine.name := at] && Intact(c, inPlay, out.blobs) && Extends(out.blobs, blobs)
      && at in out.blobs && out.blobs[at].HeadBlob? && UnionHead(mine, theirs, out.blobs[at].head)
  {
    var mine, theirs := HeadAt(blobs, Some(refs[name])).value, HeadAt(blobs, Some(incoming)).value;
    PutGet(c, inPlay, blobs, HeadBlob(MergedHead(mine, theirs)));
    MergedTells(mine, theirs);
    UnionOutcome(c, usable, blobs, refs, name, incoming);
    hide MergedHead, MergeOutcome, UnionHead, Put, CollisionFree;
  }
}
