/** Ranked resolution: which blob an identity resolves to under a trust policy. */
module Resolver {
  import opened Options
  import opened Records
  import Clock
  import Text

  datatype Policy = Policy(minimum: Level, preferHeld: bool, preferTd: Option<Hash>)

  datatype ClaimKind = Content | SameAs | SupersededBy | PreviousVersion

  /** `signer` is the identity whose signature verifies, if one does. */
  datatype Attestation = Attestation(
    kind: ClaimKind,
    blob: Option<Hash>,
    td: Option<Hash>,
    expires: Option<string>,
    signer: Option<Dgid>)

  datatype Described = Described(kind: string, variant: Option<string>, snapshot: Option<string>)

  /** What the node knows: trust, the blobs it holds, and the transform records among them. */
  datatype Shelf = Shelf(trust: Dgid -> Level, holds: Hash -> bool, tdr: Hash -> Option<Described>)

  datatype Candidate = Candidate(
    blob: Hash,
    td: Option<Hash>,
    tdKind: Option<string>,
    variant: Option<string>,
    snapshot: Option<string>,
    signer: Option<Dgid>,
    level: Level,
    held: bool,
    expires: Option<string>,
    expired: bool,
    eligible: bool)

  datatype Resolution = Resolution(blob: Hash, signer: Dgid, td: Option<Hash>, held: bool)

  /** `candidate`. */
  function CandidateOf(shelf: Shelf, policy: Policy, now: string, a: Attestation): Option<Candidate> {
    if a.kind != Content || a.blob.None? then None
    else
      var level := if a.signer.Some? then shelf.trust(a.signer.value) else UNKNOWN;
      var tdr := if a.td.Some? then shelf.tdr(a.td.value) else None;
      var expired := Clock.Expired(a.expires, now);
      Some(Candidate(
             a.blob.value, a.td,
             if tdr.Some? then Some(tdr.value.kind) else None,
             if tdr.Some? then tdr.value.variant else None,
             if tdr.Some? then tdr.value.snapshot else None,
             a.signer, level, shelf.holds(a.blob.value), a.expires, expired,
             a.signer.Some? && level >= policy.minimum && !expired))
  }

  function CandidatesOf(shelf: Shelf, policy: Policy, now: string, found: seq<Attestation>): seq<Candidate> {
    if found == [] then []
    else
      var front := CandidatesOf(shelf, policy, now, found[..|found| - 1]);
      match CandidateOf(shelf, policy, now, found[|found| - 1])
      case None => front
      case Some(c) => front + [c]
  }

  // ----- rank -----

  predicate Wanted(policy: Policy, c: Candidate) {
    policy.preferTd.Some? && policy.preferTd == c.td
  }

  function Snapshot(c: Candidate): string {
    if c.snapshot.Some? then c.snapshot.value else ""
  }

  /** Eligible first, then the preferred transform, held blobs if preferred, trust, the later
      snapshot, and last the blob's own hash. */
  predicate Outranks(policy: Policy, a: Candidate, b: Candidate) {
    var aHeld, bHeld := policy.preferHeld && a.held, policy.preferHeld && b.held;
    if a.eligible != b.eligible then a.eligible
    else if Wanted(policy, a) != Wanted(policy, b) then Wanted(policy, a)
    else if aHeld != bHeld then aHeld
    else if a.level != b.level then a.level > b.level
    else if Snapshot(a) != Snapshot(b) then Text.Less(Snapshot(b), Snapshot(a))
    else a.blob > b.blob
  }

  lemma OutranksIsOrder(policy: Policy, a: Candidate, b: Candidate, c: Candidate)
    ensures !(Outranks(policy, a, b) && Outranks(policy, b, a))
    ensures !Outranks(policy, a, b) && !Outranks(policy, b, c) ==> !Outranks(policy, a, c)
    ensures !Outranks(policy, a, b) && !Outranks(policy, b, a) ==>
      a.blob == b.blob && a.eligible == b.eligible && a.level == b.level
  {
    hide Text.Less;
    TextOrder(Snapshot(a), Snapshot(b), Snapshot(c));
    TextOrder(Snapshot(b), Snapshot(a), Snapshot(c));
  }

  lemma TextOrder(a: string, b: string, c: string)
    ensures !(Text.Less(a, b) && Text.Less(b, a))
    ensures a != b ==> Text.Less(a, b) || Text.Less(b, a)
    ensures !Text.Less(a, b) && !Text.Less(b, c) ==> !Text.Less(a, c)
    ensures !Text.Less(b, a) && !Text.Less(c, b) ==> !Text.Less(c, a)
  {
    Text.LessTotal(a, b);
    Text.LessTotal(b, c);
    Text.LessTotal(a, c);
    if Text.Less(b, a) && Text.Less(c, b) { Text.LessTransitive(c, b, a); }
    if Text.Less(a, b) && Text.Less(b, c) { Text.LessTransitive(a, b, c); }
  }

  /** Behind every candidate it does not outrank. */
  function Placed(policy: Policy, c: Candidate, ranked: seq<Candidate>): seq<Candidate> {
    if ranked == [] then [c]
    else if Outranks(policy, c, ranked[|ranked| - 1]) then
      Placed(policy, c, ranked[..|ranked| - 1]) + [ranked[|ranked| - 1]]
    else ranked + [c]
  }

  function Ranked(policy: Policy, found: seq<Candidate>): seq<Candidate> {
    if found == [] then [] else Placed(policy, found[|found| - 1], Ranked(policy, found[..|found| - 1]))
  }

  /** `artifacts`: the candidates, best first, equals in the order found. */
  function ArtifactsOf(shelf: Shelf, policy: Policy, now: string, found: seq<Attestation>): seq<Candidate> {
    Ranked(policy, CandidatesOf(shelf, policy, now, found))
  }

  function FirstEligible(ranked: seq<Candidate>): Option<Candidate> {
    if ranked == [] then None
    else if ranked[0].eligible then Some(ranked[0])
    else FirstEligible(ranked[1..])
  }

  /** `Candidate::resolution`. */
  function ResolutionOf(c: Candidate): Option<Resolution> {
    if c.signer.None? then None else Some(Resolution(c.blob, c.signer.value, c.td, c.held))
  }

  /** The candidate `resolve` settles on. */
  function Pick(shelf: Shelf, policy: Policy, now: string, found: seq<Attestation>): Option<Candidate> {
    FirstEligible(ArtifactsOf(shelf, policy, now, found))
  }

  /** `resolve`. */
  function Resolved(shelf: Shelf, policy: Policy, now: string, found: seq<Attestation>): Option<Resolution> {
    var pick := Pick(shelf, policy, now, found);
    if pick.Some? then ResolutionOf(pick.value) else None
  }

  // ----- the loops of the source -----

  /** `sort_by_key` on the rank, best first and stable. */
  method Place(policy: Policy, c: Candidate, ranked: seq<Candidate>) returns (r: seq<Candidate>)
    ensures r == Placed(policy, c, ranked)
  {
    hide Outranks;
    var p := |ranked|;
    assert ranked[..|ranked|] == ranked && ranked[|ranked|..] == [];
    while p > 0 && Outranks(policy, c, ranked[p - 1])
      invariant 0 <= p <= |ranked|
      invariant Placed(policy, c, ranked) == Placed(policy, c, ranked[..p]) + ranked[p..]
    {
      assert ranked[..p][..p - 1] == ranked[..p - 1] && ranked[..p][p - 1] == ranked[p - 1];
      assert ranked[p - 1..] == [ranked[p - 1]] + ranked[p..];
      p := p - 1;
    }
    r := ranked[..p] + [c] + ranked[p..];
    assert p > 0 ==> ranked[..p][p - 1] == ranked[p - 1];
  }

  method Artifacts(shelf: Shelf, policy: Policy, now: string, found: seq<Attestation>) returns (ranked: seq<Candidate>)
    ensures ranked == ArtifactsOf(shelf, policy, now, found)
  {
    var candidates := [];
    for i := 0 to |found|
      invariant candidates == CandidatesOf(shelf, policy, now, found[..i])
    {
      assert found[..i + 1][..i] == found[..i];
      var c := CandidateOf(shelf, policy, now, found[i]);
      if c.Some? {
        candidates := candidates + [c.value];
      }
    }
    assert found[..|found|] == found;
    ranked := [];
    for i := 0 to |candidates|
      invariant ranked == Ranked(policy, candidates[..i])
    {
      assert candidates[..i + 1][..i] == candidates[..i];
      ranked := Place(policy, candidates[i], ranked);
    }
    assert candidates[..|candidates|] == candidates;
  }

  /** `resolve` over the attestations found for an identity. */
  method Resolve(shelf: Shelf, policy: Policy, now: string, found: seq<Attestation>) returns (r: Option<Resolution>)
    ensures r == Resolved(shelf, policy, now, found)
  {
    var ranked := Artifacts(shelf, policy, now, found);
    assert ranked[0..] == ranked;
    for i := 0 to |ranked|
      invariant FirstEligible(ranked) == FirstEligible(ranked[i..])
    {
      assert ranked[i..][1..] == ranked[i + 1..];
      if ranked[i].eligible {
        return ResolutionOf(ranked[i]);
      }
    }
    assert ranked[|ranked|..] == [];
    r := None;
  }

  // ----- the best candidate -----

  /** `c` comes from the attestations, is eligible, and no other candidate outranks it. */
  ghost predicate Best(shelf: Shelf, policy: Policy, now: string, found: seq<Attestation>, c: Candidate) {
    && c in CandidatesOf(shelf, policy, now, found) && c.eligible
    && forall d :: d in CandidatesOf(shelf, policy, now, found) ==> !Outranks(policy, d, c)
  }

  lemma {:induction false} CandidatesFrom(shelf: Shelf, policy: Policy, now: string, found: seq<Attestation>)
    ensures forall c :: c in CandidatesOf(shelf, policy, now, found) <==>
      exists a :: a in found && CandidateOf(shelf, policy, now, a) == Some(c)
  {
    if found != [] {
      hide CandidateOf;
      assert found == found[..|found| - 1] + [found[|found| - 1]];
      CandidatesFrom(shelf, policy, now, found[..|found| - 1]);
    }
  }

  ghost predicate Descends(policy: Policy, ranked: seq<Candidate>) {
    forall i, j :: 0 <= i < j < |ranked| ==> !Outranks(policy, ranked[j], ranked[i])
  }

  lemma {:induction false} PlacedIn(policy: Policy, c: Candidate, ranked: seq<Candidate>)
    ensures forall x :: x in Placed(policy, c, ranked) <==> x == c || x in ranked
  {
    if ranked != [] {
      hide Outranks;
      assert ranked == ranked[..|ranked| - 1] + [ranked[|ranked| - 1]];
      PlacedIn(policy, c, ranked[..|ranked| - 1]);
    }
  }

  lemma {:induction false} PlacedDescends(policy: Policy, c: Candidate, ranked: seq<Candidate>)
    requires Descends(policy, ranked)
    ensures Descends(policy, Placed(policy, c, ranked))
  {
    if ranked != [] {
      hide Outranks;
      var front, last := ranked[..|ranked| - 1], ranked[|ranked| - 1];
      OutranksIsOrder(policy, c, last, last);
      if Outranks(policy, c, last) {
        PlacedDescends(policy, c, front);
        PlacedIn(policy, c, front);
        forall i | 0 <= i < |Placed(policy, c, front)| ensures !Outranks(policy, last, Placed(policy, c, front)[i]) {
          assert Placed(policy, c, front)[i] in Placed(policy, c, front);
        }
      } else {
        forall i | 0 <= i < |ranked| ensures !Outranks(policy, c, ranked[i]) {
          OutranksIsOrder(policy, c, last, ranked[i]);
        }
      }
    }
  }

  lemma {:induction false} RankedDescends(policy: Policy, found: seq<Candidate>)
    ensures Descends(policy, Ranked(policy, found))
    ensures forall c :: c in Ranked(policy, found) <==> c in found
  {
    if found != [] {
      hide Descends;
      var front, last := found[..|found| - 1], found[|found| - 1];
      assert found == front + [last];
      RankedDescends(policy, front);
      PlacedDescends(policy, last, Ranked(policy, front));
      PlacedIn(policy, last, Ranked(policy, front));
    } else {
      assert Descends(policy, []);
    }
  }

  /** The candidate stands there, eligible, and none before it is. */
  ghost predicate FirstAt(ranked: seq<Candidate>, i: nat, c: Candidate)
    requires i < |ranked|
  {
    ranked[i] == c && c.eligible && forall k :: 0 <= k < i ==> !ranked[k].eligible
  }

  lemma {:induction false} FirstEligibleIn(ranked: seq<Candidate>) returns (i: nat)
    ensures match FirstEligible(ranked)
      case Some(c) => i < |ranked| && FirstAt(ranked, i, c)
      case None => forall c :: c in ranked ==> !c.eligible
  {
    i := 0;
    if ranked != [] && !ranked[0].eligible {
      assert ranked == [ranked[0]] + ranked[1..];
      var j := FirstEligibleIn(ranked[1..]);
      i := j + 1;
      assert FirstEligible(ranked).Some? ==> forall k :: 0 < k < i ==> ranked[k] == ranked[1..][k - 1];
    }
  }

  /** The pick is a best candidate; there is none exactly when nothing is eligible. */
  lemma PickIsBest(shelf: Shelf, policy: Policy, now: string, found: seq<Attestation>)
    ensures match Pick(shelf, policy, now, found)
      case Some(c) => Best(shelf, policy, now, found, c) && Resolved(shelf, policy, now, found).Some?
      case None => forall c :: c in CandidatesOf(shelf, policy, now, found) ==> !c.eligible
  {
    var candidates := CandidatesOf(shelf, policy, now, found);
    var ranked := Ranked(policy, candidates);
    RankedDescends(policy, candidates);
    var i := FirstEligibleIn(ranked);
    CandidatesFrom(shelf, policy, now, found);
    if Pick(shelf, policy, now, found).Some? {
      var c := Pick(shelf, policy, now, found).value;
      assert c in ranked;
      forall d | d in candidates ensures !Outranks(policy, d, c) {
        assert d in ranked;
        var j :| 0 <= j < |ranked| && ranked[j] == d;
        OutranksIsOrder(policy, d, c, c);
        assert j < i ==> !d.eligible && !Outranks(policy, c, d);
      }
      hide CandidatesOf, Ranked;
      SignedWhenEligible(shelf, policy, now, found, c);
    }
  }

  lemma SignedWhenEligible(shelf: Shelf, policy: Policy, now: string, found: seq<Attestation>, c: Candidate)
    requires c in CandidatesOf(shelf, policy, now, found)
    ensures c.eligible <==> c.signer.Some? && c.level >= policy.minimum && !c.expired
  {
    CandidatesFrom(shelf, policy, now, found);
  }

  /** Best candidates of one set of attestations have the same blob. */
  lemma BestBlob(shelf: Shelf, policy: Policy, now: string, first: seq<Attestation>, second: seq<Attestation>,
                 c: Candidate,
                 d: Candidate)
    requires forall a :: a in first <==> a in second
    requires Best(shelf, policy, now, first, c) && Best(shelf, policy, now, second, d)
    ensures c.blob == d.blob && c.level == d.level
  {
    hide CandidateOf, Outranks;
    CandidatesFrom(shelf, policy, now, first);
    CandidatesFrom(shelf, policy, now, second);
    OutranksIsOrder(policy, c, d, d);
  }

  /** The blob depends only on which attestations there are, not on their order or number. */
  lemma ResolveIsOrderFree(shelf: Shelf, policy: Policy, now: string, first: seq<Attestation>, second: seq<Attestation>)
    requires forall a :: a in first <==> a in second
    ensures match (Resolved(shelf, policy, now, first), Resolved(shelf, policy, now, second))
      case (Some(a), Some(b)) => a.blob == b.blob
      case (None, None) => true
      case _ => false
  {
    PickIsBest(shelf, policy, now, first);
    PickIsBest(shelf, policy, now, second);
    CandidatesFrom(shelf, policy, now, first);
    CandidatesFrom(shelf, policy, now, second);
    hide CandidateOf, CandidatesOf, Pick;
    var a, b := Pick(shelf, policy, now, first), Pick(shelf, policy, now, second);
    if a.Some? && b.Some? {
      BestBlob(shelf, policy, now, first, second, a.value, b.value);
    }
    hide Outranks;
  }

  // ----- the resolution, told of the attestations -----

  /** A content attestation by a signer trusted enough, and in date. */
  predicate Usable(shelf: Shelf, policy: Policy, now: string, a: Attestation) {
    && a.kind == Content && a.blob.Some? && a.signer.Some? && shelf.trust(a.signer.value) >= policy.minimum
    && !Clock.Expired(a.expires, now)
  }

  /** Its transform record is held and is this one. */
  ghost predicate MadeBy(shelf: Shelf, a: Attestation, made: Described) {
    exists td :: a.td == Some(td) && shelf.tdr(td) == Some(made)
  }

  /** The day its transform record says the content is of, empty when it says none. */
  ghost predicate Dated(shelf: Shelf, a: Attestation, date: string) {
    || (exists made :: MadeBy(shelf, a, made) && made.snapshot == Some(date))
    || (date == "" && forall made :: MadeBy(shelf, a, made) ==> made.snapshot.None?)
  }

  ghost predicate Preferred(policy: Policy, a: Attestation) {
    exists td :: policy.preferTd == Some(td) && a.td == Some(td)
  }

  /** `b` is not above `a`: not by the preferred transform; then not by a held blob, where those
      are preferred; then not by the trust in its signer; then not by a later date; then not by
      the blob's hash. */
  ghost predicate NotAbove(shelf: Shelf, policy: Policy, b: Attestation, a: Attestation)
  {
    && a.blob.Some? && a.signer.Some? && b.blob.Some? && b.signer.Some?
    && (Preferred(policy, b) ==> Preferred(policy, a))
    && ((Preferred(policy, a) ==> Preferred(policy, b)) ==>
          var heldA, heldB := shelf.holds(a.blob.value), shelf.holds(b.blob.value);
          && (policy.preferHeld && heldB ==> heldA)
          && (!policy.preferHeld || (heldA ==> heldB) ==>
                var trustA, trustB := shelf.trust(a.signer.value), shelf.trust(b.signer.value);
                && trustB <= trustA
                && (trustB == trustA ==> forall x, y | Dated(shelf, a, x) && Dated(shelf, b, y) ::
                      !Text.Less(x, y) && (x == y ==> b.blob.value <= a.blob.value))))
  }

  /** What the resolution says is what the attestation says. */
  ghost predicate Gives(shelf: Shelf, a: Attestation, r: Resolution) {
    a.blob == Some(r.blob) && a.signer == Some(r.signer) && a.td == r.td && r.held == shelf.holds(r.blob)
  }

  lemma UsableIsEligible(shelf: Shelf, policy: Policy, now: string, a: Attestation)
    ensures Usable(shelf, policy, now, a) <==>
      CandidateOf(shelf, policy, now, a).Some? && CandidateOf(shelf, policy, now, a).value.eligible
    ensures Usable(shelf, policy, now, a) ==> var c := CandidateOf(shelf, policy, now, a).value;
      && ResolutionOf(c).Some? && Gives(shelf, a, ResolutionOf(c).value)
      && (Wanted(policy, c) <==> Preferred(policy, a)) && c.held == shelf.holds(a.blob.value) && a.blob == Some(c.blob)
      && c.level == shelf.trust(a.signer.value)
    ensures forall date :: Usable(shelf, policy, now, a) && Dated(shelf, a, date) ==>
      Snapshot(CandidateOf(shelf, policy, now, a).value) == date
  {
    if a.td.Some? && shelf.tdr(a.td.value).Some? {
      assert MadeBy(shelf, a, shelf.tdr(a.td.value).value);
    }
  }

  lemma OutrankedByNone(shelf: Shelf, policy: Policy, now: string, a: Attestation, b: Attestation)
    requires Usable(shelf, policy, now, a) && Usable(shelf, policy, now, b)
    requires !Outranks(policy, CandidateOf(shelf, policy, now, b).value, CandidateOf(shelf, policy, now, a).value)
    ensures NotAbove(shelf, policy, b, a)
  {
    UsableIsEligible(shelf, policy, now, a);
    UsableIsEligible(shelf, policy, now, b);
    var c, d := CandidateOf(shelf, policy, now, a).value, CandidateOf(shelf, policy, now, b).value;
    Text.LessTotal(Snapshot(c), Snapshot(d));
    hide Usable, CandidateOf, Text.Less, Dated, Preferred, Wanted, Snapshot;
  }

  /** An identity resolves exactly when some attestation is usable, and then to what one of them
      says that no usable one is above. */
  lemma ResolvesToGreatest(shelf: Shelf, policy: Policy, now: string, found: seq<Attestation>)
    ensures Resolved(shelf, policy, now, found).None? <==> forall a :: a in found ==> !Usable(shelf, policy, now, a)
    ensures Resolved(shelf, policy, now, found).Some? ==> exists a | a in found && Usable(shelf, policy, now, a) ::
      && Gives(shelf, a, Resolved(shelf, policy, now, found).value)
      && forall b | b in found && Usable(shelf, policy, now, b) :: NotAbove(shelf, policy, b, a)
  {
    PickIsBest(shelf, policy, now, found);
    CandidatesFrom(shelf, policy, now, found);
    forall a { UsableIsEligible(shelf, policy, now, a); }
    hide Usable, CandidateOf, CandidatesOf, Pick, Gives, NotAbove, Outranks, ResolutionOf;
    if Pick(shelf, policy, now, found).Some? {
      var c := Pick(shelf, policy, now, found).value;
      var a :| a in found && CandidateOf(shelf, policy, now, a) == Some(c);
      forall b | b in found && Usable(shelf, policy, now, b) ensures NotAbove(shelf, policy, b, a) {
        OutrankedByNone(shelf, policy, now, a, b);
      }
    }
  }

  /** Where no transform is preferred, nor held blobs, nobody usable is trusted more. */
  lemma MostTrustedWins(shelf: Shelf, policy: Policy, now: string, found: seq<Attestation>, b: Attestation)
    requires policy.preferTd.None? && !policy.preferHeld && b in found && Usable(shelf, policy, now, b)
    ensures Resolved(shelf, policy, now, found).Some?
    ensures shelf.trust(b.signer.value) <= shelf.trust(Resolved(shelf, policy, now, found).value.signer)
  {
    ResolvesToGreatest(shelf, policy, now, found);
    var a :| a in found && Usable(shelf, policy, now, a) && Gives(shelf, a, Resolved(shelf, policy, now, found).value)
      && forall b | b in found && Usable(shelf, policy, now, b) :: NotAbove(shelf, policy, b, a);
    assert NotAbove(shelf, policy, b, a);
  }

  /** What an artifact says is what its attestation and its transform record say. */
  ghost predicate Tells(shelf: Shelf, policy: Policy, now: string, a: Attestation, c: Candidate) {
    && a.kind == Content && a.blob == Some(c.blob) && c.td == a.td && c.signer == a.signer && c.expires == a.expires
    && c.held == shelf.holds(c.blob) && c.expired == Clock.Expired(a.expires, now)
    && (c.eligible <==> Usable(shelf, policy, now, a))
    && c.level == (match a.signer case Some(signer) => shelf.trust(signer) case None => UNKNOWN)
    && (forall made :: MadeBy(shelf, a, made) ==>
          c.tdKind == Some(made.kind) && c.variant == made.variant && c.snapshot == made.snapshot)
    && ((forall made :: !MadeBy(shelf, a, made)) ==> c.tdKind.None? && c.variant.None? && c.snapshot.None?)
  }

  lemma CandidateTells(shelf: Shelf, policy: Policy, now: string, a: Attestation)
    ensures CandidateOf(shelf, policy, now, a).Some? <==> a.kind == Content && a.blob.Some?
    ensures forall c :: CandidateOf(shelf, policy, now, a) == Some(c) ==> Tells(shelf, policy, now, a, c)
  {
    UsableIsEligible(shelf, policy, now, a);
    if a.td.Some? && shelf.tdr(a.td.value).Some? {
      assert MadeBy(shelf, a, shelf.tdr(a.td.value).value);
    }
  }

  /** Every content attestation that names a blob is listed, and every artifact listed tells of
      one. */
  lemma ArtifactsTell(shelf: Shelf, policy: Policy, now: string, found: seq<Attestation>)
    ensures forall c :: c in ArtifactsOf(shelf, policy, now, found) ==>
      exists a :: a in found && Tells(shelf, policy, now, a, c)
    ensures forall a :: a in found && a.kind == Content && a.blob.Some? ==>
      exists c :: c in ArtifactsOf(shelf, policy, now, found) && Tells(shelf, policy, now, a, c)
  {
    CandidatesFrom(shelf, policy, now, found);
    RankedDescends(policy, CandidatesOf(shelf, policy, now, found));
    forall a { CandidateTells(shelf, policy, now, a); }
    hide CandidateOf, CandidatesOf, Ranked, Tells, Descends;
  }

  // ----- when the whole resolution is free of the order -----

  ghost predicate SameAttestations(found: seq<Attestation>, other: seq<Attestation>) {
    forall a :: a in found <==> a in other
  }

  lemma BestOfEither(shelf: Shelf, policy: Policy, now: string, found: seq<Attestation>, other: seq<Attestation>,
                     c: Candidate)
    requires SameAttestations(found, other)
    ensures c in CandidatesOf(shelf, policy, now, found) <==> c in CandidatesOf(shelf, policy, now, other)
    ensures Best(shelf, policy, now, found, c) ==> Best(shelf, policy, now, other, c)
  {
    CandidatesFrom(shelf, policy, now, found);
    CandidatesFrom(shelf, policy, now, other);
    hide CandidateOf, CandidatesOf, Outranks;
  }

  /** One more candidate does not displace a first one that it does not outrank. */
  lemma {:induction false} PlacedBehind(policy: Policy, c: Candidate, ranked: seq<Candidate>)
    requires ranked != [] && !Outranks(policy, c, ranked[0])
    ensures Placed(policy, c, ranked)[..1] == [ranked[0]]
  {
    hide Outranks;
    if |ranked| > 1 && Outranks(policy, c, ranked[|ranked| - 1]) {
      PlacedBehind(policy, c, ranked[..|ranked| - 1]);
    }
  }

  /** The sort is stable: of the candidates none outranks, the first found is first. */
  lemma {:induction false} FirstStaysFirst(policy: Policy, c: Candidate, rest: seq<Candidate>)
    requires forall d :: d in rest ==> !Outranks(policy, d, c)
    ensures Ranked(policy, [c] + rest)[..1] == [c]
  {
    if rest == [] {
      assert [c] + rest == [c] && [c][..0] == [];
    } else {
      hide Outranks;
      var front, last := rest[..|rest| - 1], rest[|rest| - 1];
      FirstStaysFirst(policy, c, front);
      assert ([c] + rest)[..|rest|] == [c] + front;
      var ranked := Ranked(policy, [c] + front);
      assert ranked[..1][0] == ranked[0];
      PlacedBehind(policy, last, ranked);
    }
  }

  lemma {:induction false} CandidatesBehind(shelf: Shelf, policy: Policy, now: string, a: Attestation,
                                            found: seq<Attestation>)
    requires CandidateOf(shelf, policy, now, a).Some?
    ensures CandidatesOf(shelf, policy, now, [a] + found)
      == [CandidateOf(shelf, policy, now, a).value] + CandidatesOf(shelf, policy, now, found)
  {
    hide CandidateOf;
    if found == [] {
      assert [a] + found == [a] && [a][..0] == [];
    } else {
      CandidatesBehind(shelf, policy, now, a, found[..|found| - 1]);
      assert ([a] + found)[..|found|] == [a] + found[..|found| - 1];
    }
  }

  /** Any best candidate is the pick of some order of the same attestations. */
  lemma CanBePicked(shelf: Shelf, policy: Policy, now: string, found: seq<Attestation>, c: Candidate)
      returns (other: seq<Attestation>)
    requires Best(shelf, policy, now, found, c)
    ensures SameAttestations(found, other) && Pick(shelf, policy, now, other) == Some(c)
  {
    CandidatesFrom(shelf, policy, now, found);
    var a :| a in found && CandidateOf(shelf, policy, now, a) == Some(c);
    other := [a] + found;
    CandidatesBehind(shelf, policy, now, a, found);
    hide CandidateOf, CandidatesOf, Outranks, Ranked;
    FirstStaysFirst(policy, c, CandidatesOf(shelf, policy, now, found));
    var ranked := ArtifactsOf(shelf, policy, now, other);
    assert ranked[..1][0] == ranked[0];
  }

  /** The resolution, its signer, transform and held mark included, is the same for every order
      and number of the attestations exactly when all best candidates give one resolution. */
  lemma OrderFreeExactly(shelf: Shelf, policy: Policy, now: string, found: seq<Attestation>)
    ensures
      (forall other | SameAttestations(found, other) ::
        Resolved(shelf, policy, now, other) == Resolved(shelf, policy, now, found))
      <==> (forall c, d | Best(shelf, policy, now, found, c) && Best(shelf, policy, now, found, d) ::
        ResolutionOf(c) == ResolutionOf(d))
  {
    hide CandidatesOf, Outranks, Best, Pick, SameAttestations, ResolutionOf;
    if forall other | SameAttestations(found, other) ::
      Resolved(shelf, policy, now, other) == Resolved(shelf, policy, now, found)
    {
      forall c, d | Best(shelf, policy, now, found, c) && Best(shelf, policy, now, found, d)
        ensures ResolutionOf(c) == ResolutionOf(d)
      {
        var first := CanBePicked(shelf, policy, now, found, c);
        var second := CanBePicked(shelf, policy, now, found, d);
      }
    }
    if forall c, d | Best(shelf, policy, now, found, c) && Best(shelf, policy, now, found, d) ::
      ResolutionOf(c) == ResolutionOf(d)
    {
      forall other | SameAttestations(found, other)
        ensures Resolved(shelf, policy, now, other) == Resolved(shelf, policy, now, found)
      {
        EitherOrder(shelf, policy, now, found, other);
      }
    }
  }

  lemma EitherOrder(shelf: Shelf, policy: Policy, now: string, found: seq<Attestation>, other: seq<Attestation>)
    requires SameAttestations(found, other)
    requires forall c, d | Best(shelf, policy, now, found, c) && Best(shelf, policy, now, found, d) ::
      ResolutionOf(c) == ResolutionOf(d)
    ensures Resolved(shelf, policy, now, other) == Resolved(shelf, policy, now, found)
  {
    var c, d := Pick(shelf, policy, now, found), Pick(shelf, policy, now, other);
    PickIsBest(shelf, policy, now, found);
    PickIsBest(shelf, policy, now, other);
    assert SameAttestations(other, found);
    if c.Some? { BestOfEither(shelf, policy, now, found, other, c.value); }
    if d.Some? { BestOfEither(shelf, policy, now, other, found, d.value); }
    assert c.Some? ==> c.value.eligible && c.value in CandidatesOf(shelf, policy, now, found);
    assert d.Some? ==> d.value.eligible && d.value in CandidatesOf(shelf, policy, now, other);
  }

  /** The signer named may depend on the order: of two attestations that rank the same, the
      first found is named. */
  lemma SignerFollowsOrder(shelf: Shelf, policy: Policy, now: string, blob: Hash, a: Dgid, b: Dgid)
    requires a != b && shelf.trust(a) == shelf.trust(b) >= policy.minimum
    ensures var one := Attestation(Content, Some(blob), None, None, Some(a)); var two := one.(signer := Some(b));
      && Resolved(shelf, policy, now, [one, two]) == Some(Resolution(blob, a, None, shelf.holds(blob)))
      && Resolved(shelf, policy, now, [two, one]) == Some(Resolution(blob, b, None, shelf.holds(blob)))
  {
    var one := Attestation(Content, Some(blob), None, None, Some(a));
    var two := one.(signer := Some(b));
    FirstOfTwo(shelf, policy, now, one, two);
    FirstOfTwo(shelf, policy, now, two, one);
  }

  lemma FirstOfTwo(shelf: Shelf, policy: Policy, now: string, x: Attestation, y: Attestation)
    requires CandidateOf(shelf, policy, now, x).Some? && CandidateOf(shelf, policy, now, y).Some?
    requires var c, d := CandidateOf(shelf, policy, now, x).value, CandidateOf(shelf, policy, now, y).value;
      c.eligible && !Outranks(policy, d, c)
    ensures Resolved(shelf, policy, now, [x, y]) == ResolutionOf(CandidateOf(shelf, policy, now, x).value)
  {
    var c, d := CandidateOf(shelf, policy, now, x).value, CandidateOf(shelf, policy, now, y).value;
    hide CandidateOf, Outranks;
    assert [x, y][..1] == [x] && [x][..0] == [];
    assert CandidatesOf(shelf, policy, now, [x]) == [c];
    assert CandidatesOf(shelf, policy, now, [x, y]) == [c] + [d];
    assert ([c] + [d])[..1] == [c] && [c][..0] == [];
    assert Ranked(policy, [c]) == [c];
    assert Ranked(policy, [c] + [d]) == [c, d];
  }

  /** A stricter policy: the same but for a higher minimum. */
  function Stricter(policy: Policy, minimum: Level): Policy {
    policy.(minimum := minimum)
  }

  lemma SameButEligible(shelf: Shelf, policy: Policy, now: string, minimum: Level, a: Attestation)
    requires minimum >= policy.minimum
    ensures match CandidateOf(shelf, policy, now, a)
      case None => CandidateOf(shelf, Stricter(policy, minimum), now, a).None?
      case Some(c) =>
        CandidateOf(shelf, Stricter(policy, minimum), now, a) == Some(c.(eligible := c.eligible && c.level >= minimum))
  {
  }

  lemma StricterRank(policy: Policy, minimum: Level, c: Candidate, d: Candidate)
    requires c.eligible && c.level >= minimum
    requires Outranks(Stricter(policy, minimum), d.(eligible := d.eligible && d.level >= minimum), c)
    ensures Outranks(policy, d, c)
  {
  }

  /** Raising the minimum keeps the blob whenever the old pick is still trusted enough. */
  lemma RaisingKeepsBlob(shelf: Shelf, policy: Policy, now: string, minimum: Level, found: seq<Attestation>)
    requires minimum >= policy.minimum && Pick(shelf, policy, now, found).Some?
    requires Pick(shelf, policy, now, found).value.level >= minimum
    ensures Resolved(shelf, policy, now, found).Some? && Resolved(shelf, Stricter(policy, minimum), now, found).Some?
    ensures Resolved(shelf, Stricter(policy, minimum), now, found).value.blob
      == Resolved(shelf, policy, now, found).value.blob
  {
    var strict := Stricter(policy, minimum);
    var c := Pick(shelf, policy, now, found).value;
    PickIsBest(shelf, policy, now, found);
    PickIsBest(shelf, strict, now, found);
    StillBest(shelf, policy, now, minimum, found, c);
    BestBlob(shelf, strict, now, found, found, c, Pick(shelf, strict, now, found).value);
  }

  lemma StillBest(shelf: Shelf, policy: Policy, now: string, minimum: Level, found: seq<Attestation>, c: Candidate)
    requires minimum >= policy.minimum && Best(shelf, policy, now, found, c) && c.level >= minimum
    ensures Best(shelf, Stricter(policy, minimum), now, found, c)
  {
    var strict := Stricter(policy, minimum);
    CandidatesFrom(shelf, policy, now, found);
    CandidatesFrom(shelf, strict, now, found);
    forall a { SameButEligible(shelf, policy, now, minimum, a); }
    var a :| a in found && CandidateOf(shelf, policy, now, a) == Some(c);
    assert CandidateOf(shelf, strict, now, a) == Some(c);
    hide CandidateOf, Outranks, CandidatesOf;
    forall d | d in CandidatesOf(shelf, strict, now, found) ensures !Outranks(strict, d, c) {
      var b :| b in found && CandidateOf(shelf, strict, now, b) == Some(d);
      var was := CandidateOf(shelf, policy, now, b).value;
      assert was in CandidatesOf(shelf, policy, now, found);
      if Outranks(strict, d, c) {
        StricterRank(policy, minimum, c, was);
      }
    }
  }
}
