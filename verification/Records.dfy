/** The records a store holds: signed collection operations, collection heads, device
    records and other content, together with the hash and signature primitives. */
module Records {
  import opened Options
  import opened Keys

  /** A 32-byte BLAKE3 hash read as a big-endian number, so `<` is the byte order. */
  type Hash = nat
  type Dgid = nat
  type Signature = nat

  /** Trust in an identity: unknown, contact, cache, mesh, in rising order. */
  type Level = nat
  const UNKNOWN: Level := 0
  const CACHE: Level := 2

  datatype Item = Item(ci: Hash, caption: Option<string>, defaultTd: Option<Hash>)

  datatype OpKind = Add | Remove | Reorder

  datatype OpClaim = OpClaim(
    kind: OpKind,
    collection: string,
    owner: Dgid,
    seqNo: nat,
    item: Option<Item>,
    target: Option<Hash>,
    order: Option<seq<Hash>>)

  datatype Proof = Proof(dgid: Dgid, sig: Signature)

  datatype Op = Op(claim: OpClaim, proof: Option<Proof>)

  /** A collection head. `refs` is a sorted list without repeats, kept here as its set. */
  datatype Collection = Collection(
    kind: string,
    name: string,
    owner: Dgid,
    forkedFrom: Option<Dgid>,
    ops: seq<Hash>,
    attestations: seq<Hash>,
    records: seq<Hash>,
    refs: set<Hash>)

  datatype Settings = Settings(dgid: Dgid, expires: Option<string>, role: Option<string>, tags: seq<string>)

  datatype Device = Device(sig: Signature, pubkey: string, settings: Settings)

  /** What the bytes under a hash decode to. */
  datatype Blob =
    | OpBlob(op: Op)
    | HeadBlob(head: Collection)
    | DeviceBlob(device: Device)
    | EnvelopeBlob(links: seq<Hash>)
    | RawBlob(bytes: seq<nat>)

  /** Content hashing and signatures, left abstract. */
  datatype Crypto = Crypto(
    address: Blob -> Hash,
    verify: (Dgid, OpClaim, Signature) -> bool,
    sign: (Dgid, OpClaim) -> Signature,
    verifyNode: (Key, Settings, Signature) -> bool)

  /** No two of the records in play share a hash. */
  ghost predicate CollisionFree(c: Crypto, inPlay: iset<Blob>) {
    forall a, b :: a in inPlay && b in inPlay && c.address(a) == c.address(b) ==> a == b
  }

  /** A signer's own signature verifies. */
  ghost predicate Honest(c: Crypto) {
    forall dgid, claim :: c.verify(dgid, claim, c.sign(dgid, claim))
  }

  type Blobs = map<Hash, Blob>

  /** Every blob sits under its own hash: a read of anything else is an error. */
  ghost predicate Intact(c: Crypto, inPlay: iset<Blob>, blobs: Blobs) {
    forall h :: h in blobs ==> blobs[h] in inPlay && c.address(blobs[h]) == h
  }

  /** Storing keeps whatever already sits under the hash. */
  function Put(c: Crypto, blobs: Blobs, blob: Blob): Blobs {
    if c.address(blob) in blobs then blobs else blobs[c.address(blob) := blob]
  }

  /** A stored record is read back, and nothing stored before moves. */
  lemma PutGet(c: Crypto, inPlay: iset<Blob>, blobs: Blobs, blob: Blob)
    requires CollisionFree(c, inPlay) && Intact(c, inPlay, blobs) && blob in inPlay
    ensures Intact(c, inPlay, Put(c, blobs, blob))
    ensures c.address(blob) in Put(c, blobs, blob) && Put(c, blobs, blob)[c.address(blob)] == blob
    ensures forall h :: h in blobs ==> h in Put(c, blobs, blob) && Put(c, blobs, blob)[h] == blobs[h]
    ensures Put(c, blobs, blob).Keys == blobs.Keys + {c.address(blob)}
  {
  }

  /** Every blob of `small` is in `large`, unmoved. */
  ghost predicate Extends(large: Blobs, small: Blobs) {
    forall h :: h in small ==> h in large && large[h] == small[h]
  }

  function Elements<T>(s: seq<T>): set<T> {
    set x | x in s
  }

  lemma Smaller<T>(small: set<T>, large: set<T>)
    requires small <= large
    ensures |small| <= |large|
    ensures small < large ==> |small| < |large|
  {
    if small == large {
    } else {
      var rest := large - small;
      assert large == small + rest && small !! rest;
      assert |large| == |small| + |rest|;
      if |rest| == 0 {
        assert rest == {};
      }
    }
  }
}
