/** The blob store and its refs, and reading a collection out of them. */
module Store {
  import opened Options
  import opened Records

  /** `collection::load`, without the operations: the head a ref names, when it decodes. */
  function HeadAt(blobs: Blobs, hash: Option<Hash>): Option<Collection> {
    if hash.Some? && hash.value in blobs && blobs[hash.value].HeadBlob?
    then Some(blobs[hash.value].head) else None
  }

  /** The operations among `hashes` that are held and decode, in list order. */
  function LoadOps(blobs: Blobs, hashes: seq<Hash>): (ops: seq<Op>)
    ensures forall op :: op in ops <==> exists h :: h in hashes && h in blobs && blobs[h] == OpBlob(op)
  {
    if hashes == [] then []
    else
      var rest := LoadOps(blobs, hashes[1..]);
      assert hashes == [hashes[0]] + hashes[1..];
      if hashes[0] in blobs && blobs[hashes[0]].OpBlob? then [blobs[hashes[0]].op] + rest else rest
  }

  /** The operations come in the order their hashes are listed. */
  lemma {:induction false} LoadedInOrder(blobs: Blobs, front: seq<Hash>, rest: seq<Hash>)
    ensures LoadOps(blobs, front + rest) == LoadOps(blobs, front) + LoadOps(blobs, rest)
  {
    if front == [] {
      assert front + rest == rest;
    } else {
      assert (front + rest)[1..] == front[1..] + rest;
      LoadedInOrder(blobs, front[1..], rest);
    }
  }

  lemma LoadedOne(blobs: Blobs, h: Hash)
    ensures LoadOps(blobs, [h]) == if h in blobs && blobs[h].OpBlob? then [blobs[h].op] else []
  {
    assert [h][1..] == [];
  }

  /** Every listed hash is held and is an operation. */
  ghost predicate HoldsOps(blobs: Blobs, hashes: seq<Hash>) {
    forall h :: h in hashes ==> h in blobs && blobs[h].OpBlob?
  }

  /** `refs` is what `reindex` computes. */
  ghost predicate Indexed(head: Collection) {
    head.refs == Elements(head.ops) + Elements(head.attestations) + Elements(head.records)
  }

  /** `BlobStore` and the refs directory. `usable` is the check on ref names. */
  class BlobStore {
    const crypto: Crypto
    const usable: string -> bool
    var blobs: Blobs
    var refs: map<string, Hash>

    constructor (crypto: Crypto, usable: string -> bool)
      ensures this.crypto == crypto && this.usable == usable && blobs == map[] && refs == map[]
    {
      this.crypto, this.usable := crypto, usable;
      blobs, refs := map[], map[];
    }

    /** `refs::read`. */
    function ReadRef(name: string): Option<Hash>
      reads this`refs
    {
      if usable(name) && name in refs then Some(refs[name]) else None
    }

    method PutBlob(blob: Blob) returns (hash: Hash)
      modifies this`blobs
      ensures hash == crypto.address(blob) && blobs == Put(crypto, old(blobs), blob)
    {
      hash := crypto.address(blob);
      if hash !in blobs {
        blobs := blobs[hash := blob];
      }
    }

    /** `refs::write`. */
    method WriteRef(name: string, hash: Hash) returns (ok: bool)
      modifies this`refs
      ensures ok == usable(name)
      ensures refs == if usable(name) then old(refs)[name := hash] else old(refs)
    {
      ok := usable(name);
      if ok {
        refs := refs[name := hash];
      }
    }
  }
}
