/** Records of one device. A record is filed by the text of its key, and one key can be written
    in many ways. */
module Devices {
  import opened Options
  import opened Records
  import opened Keys
  import opened Membership

  /** Both records name one key. */
  predicate OneDevice(a: Device, b: Device) {
    NodeOf(a).Some? && NodeOf(a) == NodeOf(b)
  }

  /** No two listed records are of one device. */
  ghost predicate OnePerDevice(c: Crypto, g: Group) {
    forall x, y | Listing(c, g, x).Some? && Listing(c, g, y).Some? ::
      OneDevice(Listing(c, g, x).value, Listing(c, g, y).value) ==> x == y
  }

  /** Two records listed together are of one device exactly when their keys are written
      differently and yet come to the same digits: in another case, with a prefix, with blanks
      around them, or with a `+` for a zero. */
  lemma OneDeviceExactly(c: Crypto, inPlay: iset<Blob>, me: Dgid, g: Group, x: Hash, y: Hash)
    requires GroupInv(c, inPlay, me, g) && x != y && Listing(c, g, x).Some? && Listing(c, g, y).Some?
    requires NodeOf(Listing(c, g, x).value).Some?
    ensures var a, b := Listing(c, g, x).value, Listing(c, g, y).value;
      OneDevice(a, b) <==> a.pubkey != b.pubkey && Plain(DigitsOf(NodeHex(a))) == Plain(DigitsOf(NodeHex(b)))
  {
    var a, b := Listing(c, g, x).value, Listing(c, g, y).value;
    hide Listing, ParseKey, DigitsOf, Plain;
    SameKeyExactly(NodeHex(a), NodeHex(b));
  }

  /** The same record with its key written otherwise verifies as well. */
  lemma RespelledVerifies(c: Crypto, me: Dgid, device: Device, text: string)
    ensures var other := device.(pubkey := text);
      Admissible(c, me, device) && OneDevice(device, other) ==> Admissible(c, me, other)
  {
  }

  // ----- one record per device, exactly -----

  /** The group lists a record of the device under another text. */
  ghost predicate Respelled(c: Crypto, g: Group, device: Device) {
    exists x :: Listing(c, g, x).Some? && OtherText(Listing(c, g, x).value, device)
  }

  ghost predicate OtherText(listed: Device, device: Device) {
    OneDevice(listed, device) && listed.pubkey != device.pubkey
  }

  /** The listings an admit leaves. */
  ghost predicate AdmitLeaves(c: Crypto, me: Dgid, g: Group, device: Device, at: string, after: Group) {
    && Listing(c, after, c.address(DeviceBlob(device))) == Some(device)
    && (Listing(c, g, c.address(DeviceBlob(device))).Some? ==>
      Listing(c, g, c.address(DeviceBlob(device))).value == device)
    && forall x :: Listing(c, after, x) == Relisted(c, me, g, Admits(device, at), x)
  }

  lemma RespelledStays(c: Crypto, me: Dgid, g: Group, device: Device, at: string, after: Group, x: Hash)
    requires AdmitLeaves(c, me, g, device, at, after)
    requires Listing(c, g, x).Some? && OtherText(Listing(c, g, x).value, device)
    ensures !OnePerDevice(c, after)
  {
    hide Listing, Already, Admissible, NodeOf;
    assert x != c.address(DeviceBlob(device));
    assert Listing(c, after, x) == Listing(c, g, x);
  }

  lemma NewOrOld(c: Crypto, me: Dgid, g: Group, device: Device, at: string, after: Group, x: Hash)
    requires AdmitLeaves(c, me, g, device, at, after) && OnePerDevice(c, g) && NodeOf(device).Some?
    requires Listing(c, after, x).Some? && OneDevice(Listing(c, after, x).value, device) && !Respelled(c, g, device)
    ensures x == c.address(DeviceBlob(device))
  {
    hide Listing, Already, Admissible, NodeOf;
    assert x == c.address(DeviceBlob(device)) || Listing(c, after, x) == Listing(c, g, x);
    assert Listing(c, g, x).Some? ==> !OtherText(Listing(c, g, x).value, device);
  }

  lemma UnrespelledKeepsOne(c: Crypto, me: Dgid, g: Group, device: Device, at: string, after: Group)
    requires AdmitLeaves(c, me, g, device, at, after) && OnePerDevice(c, g) && NodeOf(device).Some?
    requires !Respelled(c, g, device)
    ensures OnePerDevice(c, after)
  {
    var ci := c.address(DeviceBlob(device));
    forall x, y | Listing(c, after, x).Some? && Listing(c, after, y).Some?
      && OneDevice(Listing(c, after, x).value, Listing(c, after, y).value)
      ensures x == y
    {
      hide Listing, Already, Admissible, NodeOf, Respelled;
      if OneDevice(Listing(c, after, x).value, device) {
        NewOrOld(c, me, g, device, at, after, x);
        NewOrOld(c, me, g, device, at, after, y);
      } else {
        assert x != ci && y != ci;
        assert Listing(c, after, x) == Listing(c, g, x) && Listing(c, after, y) == Listing(c, g, y);
      }
    }
  }

  /** An admit leaves one record per device exactly when none is listed under another text. */
  lemma AdmitKeepsOneExactly(c: Crypto, inPlay: iset<Blob>, me: Dgid, g: Group, device: Device, at: string)
    requires CollisionFree(c, inPlay) && Honest(c) && GroupInv(c, inPlay, me, g) && OnePerDevice(c, g)
    requires AdmitInPlay(c, inPlay, g, me, device, at) && Admissible(c, me, device)
    ensures OnePerDevice(c, Admitted(c, g, me, device, at)) <==> !Respelled(c, g, device)
  {
    var after := Admitted(c, g, me, device, at);
    assert DeviceBlob(device) in inPlay;
    hide Listing, Already, Relisted, Admitted, NodeOf, OnePerDevice, CollisionFree, AdmitInPlay, Owned, AllHeld,
      OnePerKey;
    assert ActInPlay(c, inPlay, me, g, Admits(device, at));
    AdmittedIsListed(c, inPlay, me, g, device, at);
    ActRelists(c, inPlay, me, g, Admits(device, at));
    ListedUnderIts(c, inPlay, me, g, device);
    if Respelled(c, g, device) {
      var x :| Listing(c, g, x).Some? && OtherText(Listing(c, g, x).value, device);
      RespelledStays(c, me, g, device, at, after, x);
    } else {
      UnrespelledKeepsOne(c, me, g, device, at, after);
    }
  }

  /** What is listed under a device's own ci is that device. */
  lemma ListedUnderIts(c: Crypto, inPlay: iset<Blob>, me: Dgid, g: Group, device: Device)
    requires CollisionFree(c, inPlay) && GroupInv(c, inPlay, me, g) && DeviceBlob(device) in inPlay
    ensures var was := Listing(c, g, c.address(DeviceBlob(device))); was.Some? ==> was.value == device
  {
  }

  lemma RevokeKeepsOne(c: Crypto, inPlay: iset<Blob>, me: Dgid, g: Group, node: string, at: string)
    requires CollisionFree(c, inPlay) && Honest(c) && GroupInv(c, inPlay, me, g) && OnePerDevice(c, g)
    requires RevokeInPlay(c, inPlay, g, me, node, at)
    ensures OnePerDevice(c, Revoked(c, g, me, node, at))
  {
    assert ActInPlay(c, inPlay, me, g, Revokes(node, at));
    ActRelists(c, inPlay, me, g, Revokes(node, at));
    hide Listing, Revoked, NodeHex, GroupInv, RevokeInPlay, CollisionFree;
  }

  /** The act admits no device that is listed under another text. */
  ghost predicate Tidy(c: Crypto, me: Dgid, g: Group, act: Act) {
    act.Admits? && Admissible(c, me, act.device) ==> !Respelled(c, g, act.device)
  }

  ghost predicate TidyThroughout(c: Crypto, me: Dgid, g: Group, acts: seq<Act>)
    decreases |acts|
  {
    acts != [] ==> Tidy(c, me, g, acts[0]) && TidyThroughout(c, me, After(c, me, g, acts[0]), acts[1..])
  }

  ghost predicate OneThroughout(c: Crypto, me: Dgid, g: Group, acts: seq<Act>)
    decreases |acts|
  {
    OnePerDevice(c, g) && (acts != [] ==> OneThroughout(c, me, After(c, me, g, acts[0]), acts[1..]))
  }

  lemma ActKeepsOneExactly(c: Crypto, inPlay: iset<Blob>, me: Dgid, g: Group, act: Act)
    requires CollisionFree(c, inPlay) && Honest(c) && GroupInv(c, inPlay, me, g) && OnePerDevice(c, g)
    requires ActInPlay(c, inPlay, me, g, act)
    ensures OnePerDevice(c, After(c, me, g, act)) <==> Tidy(c, me, g, act)
  {
    match act {
      case Admits(device, at) =>
        if Admissible(c, me, device) {
          AdmitKeepsOneExactly(c, inPlay, me, g, device, at);
        }
        hide Respelled, OnePerDevice, Already, Republished;
      case Revokes(node, at) =>
        RevokeKeepsOne(c, inPlay, me, g, node, at);
        hide OnePerDevice, Revoked;
    }
  }

  /** A run keeps one record per device throughout exactly when each device it admits is, at
      that time, listed under no other text. */
  lemma {:induction false} RunKeepsOneExactly(c: Crypto, inPlay: iset<Blob>, me: Dgid, start: Group, acts: seq<Act>,
                                              end: Group)
    requires CollisionFree(c, inPlay) && Honest(c) && GroupInv(c, inPlay, me, start) && OnePerDevice(c, start)
    requires Acts(c, inPlay, me, start, acts, end)
    ensures OneThroughout(c, me, start, acts) <==> TidyThroughout(c, me, start, acts)
    decreases |acts|
  {
    hide GroupInv, ActInPlay, After, OnePerDevice, Tidy, CollisionFree;
    if acts != [] {
      var next := After(c, me, start, acts[0]);
      ActKeepsInv(c, inPlay, me, start, acts[0]);
      ActKeepsOneExactly(c, inPlay, me, start, acts[0]);
      if OnePerDevice(c, next) {
        RunKeepsOneExactly(c, inPlay, me, next, acts[1..], end);
      }
    }
  }

  // ----- records as devices write them -----

  /** The key is written as `Device::sign` writes it. */
  predicate AsSigned(device: Device) {
    NodeOf(device).Some? && device.pubkey == NODE_PREFIX + Hex(NodeOf(device).value)
  }

  /** Every key has such a text. */
  lemma SignedText(device: Device, key: Key)
    requires |key| == 32
    ensures device.pubkey == NODE_PREFIX + Hex(key) ==> NodeOf(device) == Some(key) && AsSigned(device)
  {
    Respellings(key);
    assert (NODE_PREFIX + Hex(key))[|NODE_PREFIX|..] == Hex(key);
    hide ParseKey, Hex;
  }

  ghost predicate AllAsSigned(c: Crypto, g: Group) {
    forall x :: Listing(c, g, x).Some? ==> AsSigned(Listing(c, g, x).value)
  }

  /** Where every record is as its device signed it, one per text is one per device, over every
      run. */
  lemma {:induction false} SignedRunsKeepOne(c: Crypto, inPlay: iset<Blob>, me: Dgid, start: Group, acts: seq<Act>,
                                             end: Group)
    requires CollisionFree(c, inPlay) && Honest(c) && GroupInv(c, inPlay, me, start) && AllAsSigned(c, start)
    requires Acts(c, inPlay, me, start, acts, end)
    requires forall act :: act in acts && act.Admits? ==> AsSigned(act.device)
    ensures AllAsSigned(c, end) && OnePerDevice(c, end)
    decreases |acts|
  {
    if acts == [] {
      hide Listing, NodeOf, Hex;
    } else {
      hide GroupInv, ActInPlay, After, Listing, AsSigned, CollisionFree, Already, Admissible, OnePerDevice;
      var next := After(c, me, start, acts[0]);
      ActKeepsInv(c, inPlay, me, start, acts[0]);
      assert AllAsSigned(c, next) by { ActKeepsSigned(c, inPlay, me, start, acts[0]); }
      SignedRunsKeepOne(c, inPlay, me, next, acts[1..], end);
    }
  }

  lemma ActKeepsSigned(c: Crypto, inPlay: iset<Blob>, me: Dgid, g: Group, act: Act)
    requires CollisionFree(c, inPlay) && Honest(c) && GroupInv(c, inPlay, me, g) && ActInPlay(c, inPlay, me, g, act)
    requires AllAsSigned(c, g) && (act.Admits? ==> AsSigned(act.device))
    ensures AllAsSigned(c, After(c, me, g, act))
  {
    ActRelists(c, inPlay, me, g, act);
    hide GroupInv, ActInPlay, After, Listing, AsSigned, CollisionFree, Already, Admissible, NodeHex;
  }

  // ----- several texts for one device -----

  /** A device admitted under one text and then, its record copied, under another stays listed
      under both. */
  lemma BothSpellingsStay(c: Crypto, inPlay: iset<Blob>, me: Dgid, g: Group, one: Device, text: string, at: string)
    requires CollisionFree(c, inPlay) && Honest(c) && GroupInv(c, inPlay, me, g) && Admissible(c, me, one)
    requires one.pubkey != text && OneDevice(one, one.(pubkey := text))
    requires AdmitInPlay(c, inPlay, g, me, one, at)
    requires AdmitInPlay(c, inPlay, Admitted(c, g, me, one, at), me, one.(pubkey := text), at)
    ensures var two := one.(pubkey := text); var after := Admitted(c, Admitted(c, g, me, one, at), me, two, at);
      && Listing(c, after, c.address(DeviceBlob(one))) == Some(one)
      && Listing(c, after, c.address(DeviceBlob(two))) == Some(two)
      && !OnePerDevice(c, after)
  {
    var mid, two := Admitted(c, g, me, one, at), one.(pubkey := text);
    var after := Admitted(c, mid, me, two, at);
    RespelledVerifies(c, me, one, text);
    assert DeviceBlob(one) in inPlay && DeviceBlob(two) in inPlay;
    assert c.address(DeviceBlob(one)) != c.address(DeviceBlob(two));
    hide Admissible, Listing, AdmitInPlay, GroupInv, Admitted, NodeOf;
    AdmittedIsListed(c, inPlay, me, g, one, at);
    assert ActInPlay(c, inPlay, me, g, Admits(one, at)) && ActInPlay(c, inPlay, me, mid, Admits(two, at));
    ActKeepsInv(c, inPlay, me, g, Admits(one, at));
    AdmittedIsListed(c, inPlay, me, mid, two, at);
    assert !Disturbs(Admits(two, at), one);
    ListedStays(c, inPlay, me, mid, Admits(two, at), c.address(DeviceBlob(one)), one);
  }

  lemma ReadAlike(device: Device, text: string, key: Key)
    requires NodeOf(device) == Some(key) && ParseKey(Unprefixed(NODE_PREFIX, text)) == Some(key)
    ensures OneDevice(device, device.(pubkey := text))
  {
  }

  /** Four other texts of a key as signed: bare, with a blank in front, with the identity prefix,
      and in capitals. */
  lemma FourOtherTexts(device: Device, key: Key)
    requires |key| == 32 && device.pubkey == NODE_PREFIX + Hex(key)
    ensures OneDevice(device, device.(pubkey := Hex(key)))
    ensures OneDevice(device, device.(pubkey := NODE_PREFIX + (" " + Hex(key))))
    ensures OneDevice(device, device.(pubkey := NODE_PREFIX + (DGID_PREFIX + Hex(key))))
    ensures OneDevice(device, device.(pubkey := NODE_PREFIX + Capitals(Hex(key))))
  {
    var hex := Hex(key);
    Respellings(key);
    BareText(key);
    SignedText(device, key);
    PrefixOff(" " + hex);
    PrefixOff(DGID_PREFIX + hex);
    PrefixOff(Capitals(hex));
    hide ParseKey, Hex, Capitals, NodeOf, OneDevice, Unprefixed;
    ReadAlike(device, hex, key);
    ReadAlike(device, NODE_PREFIX + (" " + hex), key);
    ReadAlike(device, NODE_PREFIX + (DGID_PREFIX + hex), key);
    ReadAlike(device, NODE_PREFIX + Capitals(hex), key);
  }

  lemma BareText(key: Key)
    requires |key| > 0
    ensures Unprefixed(NODE_PREFIX, Hex(key)) == Hex(key)
  {
    HexIsPlain(key);
    assert DigitOf(Hex(key)[0]).Some?;
  }

  lemma PrefixOff(text: string)
    ensures Unprefixed(NODE_PREFIX, NODE_PREFIX + text) == text
  {
  }

  // ----- revoking a device -----

  /** No listed record is of the device with this key. */
  ghost predicate Gone(c: Crypto, g: Group, key: Key) {
    forall x :: Listing(c, g, x).Some? ==> NodeOf(Listing(c, g, x).value) != Some(key)
  }

  /** Every listed record of the device writes its key as this node text. */
  ghost predicate OnlyUnder(c: Crypto, g: Group, key: Key, node: string) {
    forall x :: Listing(c, g, x).Some? && NodeOf(Listing(c, g, x).value) == Some(key) ==>
      NodeHex(Listing(c, g, x).value) == node
  }

  /** Revoking a node text ends a device exactly when the device is listed under no other; what
      is listed under another stays. */
  lemma RevokeEndsDeviceExactly(c: Crypto, inPlay: iset<Blob>, me: Dgid, g: Group, node: string, at: string, key: Key)
    requires CollisionFree(c, inPlay) && Honest(c) && GroupInv(c, inPlay, me, g)
    requires RevokeInPlay(c, inPlay, g, me, node, at)
    ensures Gone(c, Revoked(c, g, me, node, at), key) <==> OnlyUnder(c, g, key, node)
    ensures forall x :: Listing(c, g, x).Some? && NodeHex(Listing(c, g, x).value) != node ==>
      Listing(c, Revoked(c, g, me, node, at), x) == Listing(c, g, x)
  {
    var after := Revoked(c, g, me, node, at);
    assert ActInPlay(c, inPlay, me, g, Revokes(node, at));
    ActRelists(c, inPlay, me, g, Revokes(node, at));
    hide Listing, Revoked, NodeHex, NodeOf, GroupInv, RevokeInPlay, CollisionFree;
    if !OnlyUnder(c, g, key, node) {
      var x :| Listing(c, g, x).Some? && NodeOf(Listing(c, g, x).value) == Some(key)
        && NodeHex(Listing(c, g, x).value) != node;
      assert Listing(c, after, x) == Listing(c, g, x);
    }
  }

  /** The act admits the device, under whatever text. */
  ghost predicate AdmitsKey(c: Crypto, me: Dgid, act: Act, key: Key) {
    act.Admits? && NodeOf(act.device) == Some(key) && Admissible(c, me, act.device)
  }

  lemma ActKeepsGone(c: Crypto, inPlay: iset<Blob>, me: Dgid, g: Group, act: Act, key: Key)
    requires CollisionFree(c, inPlay) && Honest(c) && GroupInv(c, inPlay, me, g) && ActInPlay(c, inPlay, me, g, act)
    requires Gone(c, g, key) && !AdmitsKey(c, me, act, key)
    ensures Gone(c, After(c, me, g, act), key)
  {
    hide Already, Admissible, CollisionFree, Owned, AllHeld, Listing, ActInPlay, After, NodeHex, NodeOf;
    ActRelists(c, inPlay, me, g, act);
  }

  lemma {:induction false} StaysGone(c: Crypto, inPlay: iset<Blob>, me: Dgid, start: Group, acts: seq<Act>,
                                     end: Group, key: Key)
    requires CollisionFree(c, inPlay) && Honest(c) && GroupInv(c, inPlay, me, start) && Gone(c, start, key)
    requires Acts(c, inPlay, me, start, acts, end) && forall act :: act in acts ==> !AdmitsKey(c, me, act, key)
    ensures GroupInv(c, inPlay, me, end) && Gone(c, end, key)
    decreases |acts|
  {
    hide GroupInv, ActInPlay, After, Gone, AdmitsKey;
    if acts != [] {
      ActKeepsInv(c, inPlay, me, start, acts[0]);
      ActKeepsGone(c, inPlay, me, start, acts[0], key);
      StaysGone(c, inPlay, me, After(c, me, start, acts[0]), acts[1..], end, key);
    }
  }

  /** A member's node text names the device with this key. */
  ghost predicate IsMember(c: Crypto, g: Group, me: Dgid, now: string, key: Key) {
    exists node :: node in MemberIds(c, g, me, now) && ParseKey(node) == Some(key)
  }

  /** A device revoked under the one text it is listed by is no member, under any text and at any
      time, until it is admitted again. */
  lemma GoneUntilReadmitted(c: Crypto, inPlay: iset<Blob>, me: Dgid, start: Group, acts: seq<Act>, end: Group,
                            node: string, key: Key, at: string, now: string)
    requires CollisionFree(c, inPlay) && Honest(c) && GroupInv(c, inPlay, me, start)
    requires RevokeInPlay(c, inPlay, start, me, node, at) && OnlyUnder(c, start, key, node)
    requires Acts(c, inPlay, me, Revoked(c, start, me, node, at), acts, end)
    requires forall act :: act in acts ==> !AdmitsKey(c, me, act, key)
    ensures !IsMember(c, end, me, now, key)
  {
    hide FoldItems, Acts, MemberIds, Listing, RevokeInPlay, NodeHex, CollisionFree, Owned, AdmitsKey, ParseKey,
      OnlyUnder;
    assert ActInPlay(c, inPlay, me, start, Revokes(node, at));
    ActKeepsInv(c, inPlay, me, start, Revokes(node, at));
    RevokeEndsDeviceExactly(c, inPlay, me, start, node, at, key);
    hide Revoked;
    StaysGone(c, inPlay, me, Revoked(c, start, me, node, at), acts, end, key);
    forall text | text in MemberIds(c, end, me, now) ensures ParseKey(text) != Some(key) {
      MemberIdsListed(c, inPlay, end, me, now, text);
      var x :| InForce(c, end, me, now, text, x);
    }
  }

  /** Right after a revoke, a device that is listed in date under another text is a member. */
  lemma RevokedStillMember(c: Crypto, inPlay: iset<Blob>, me: Dgid, g: Group, node: string, at: string, now: string,
                           x: Hash, key: Key, other: string)
    requires CollisionFree(c, inPlay) && Honest(c) && GroupInv(c, inPlay, me, g)
    requires RevokeInPlay(c, inPlay, g, me, node, at)
    requires InForce(c, g, me, now, other, x) && other != node && ParseKey(other) == Some(key)
    ensures IsMember(c, Revoked(c, g, me, node, at), me, now, key)
  {
    var after := Revoked(c, g, me, node, at);
    hide FoldItems, MemberIds, Listing, RevokeInPlay, NodeHex, CollisionFree, Owned, ParseKey, Revoked;
    assert ActInPlay(c, inPlay, me, g, Revokes(node, at));
    ActKeepsInv(c, inPlay, me, g, Revokes(node, at));
    RevokeEndsDeviceExactly(c, inPlay, me, g, node, at, key);
    assert InForce(c, after, me, now, other, x);
    MemberIdsListed(c, inPlay, after, me, now, other);
  }
}
