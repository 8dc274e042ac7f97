# Spirit in Dafny

Models of the parts of Spirit whose correctness rests on ordering, merging, expiry and
encoding, with proofs over every input, every run or every reachable state.

| files | what they model |
|---|---|
| `Records`, `Store` | ops, heads, device records, the blob store and its refs |
| `Fold`, `FoldLaws`, `Builder`, `PublishLaws`, `Merge` | a collection's fold, its editor, what each says of the operations and heads themselves, and the merge of two heads |
| `Replicas`, `Convergence`, `Settling` | any number of replicas publishing edits and merging any head ever published, and how they come to one list |
| `Keys`, `Membership`, `Devices` | key texts, the device group built on the editor and the fold, and records of one device |
| `Presence`, `Gossip`, `Remerging`, `Crossings`, `Hearsay`, `Heartbeat` | the presence book, merging a view once and again, two nodes reading each other, nodes gossiping under one clock, and when that comes to rest |
| `Replication`, `Keeping`, `Syncing` | choosing a provider, pulling, why that goes quiet, when it keeps the node's collection, and how many nodes doing so converge |
| `Cbor`, `Utf8`, `Values`, `Canonical`, `KeyOrder`, `ReadBack`, `Sameness`, `CanonicalLaws` | values, their bytes, the canonical form and its laws |
| `Descriptors`, `Transform`, `Running`, `RunLaws` | transform records, locking them, running them, and exactly when a run comes to which blob |
| `Text`, `Clock`, `TimeText`, `Resolver`, `Peers` | text order, calendar, the text of a time, ranked resolution, byte accounting |

The classes keep the source's fields and are proved, method by method, against functions on
their state; the properties are lemmas about those functions, so they hold of the methods.

## How the pieces are stated

- Hashes, signatures and shown hashes are abstract functions. Collision freedom is asked of the
  records in play, a set the reader picks, never of all records; a signer's own signature
  verifies; a hash shown as text is read back. A blob that does not match its hash cannot be
  read, so stores hold every blob under its own hash.
- A head's `refs` list is sorted and without repeats, so it is kept as its set. Ref contents,
  `ops`, `records` and `attestations` keep their order.
- A replica merges a head only when it holds everything the head refers to, as a pull arranges;
  records and attestations are never operations.
- Time is a parameter. In `Hearsay` one clock in nanoseconds drives all nodes, and the wall clock
  is its whole seconds.
- A runner and a fetcher are functions of how often they were called before, so they may answer
  differently each time.
- An error message of the source is `Err` with a short text, or `None` where only failure
  matters.

## Where the code does less than its documentation says

- A fork is described, in the wiki's section on collections, as a clean break carrying every item
  forward. It copies all ops, also those the forking owner once made, so an item removed in
  between comes back when its first owner forks back: `ForkBackResurrects`. `ReopenExact` gives
  the exact condition.
- A builder lists an item removed and added again last, but opened again it is back in its old place
  (`ReaddedReturns`), since the removal is dropped from the drafts. The items are the same
  (`BuilderRefinesFold`); the order is exactly when `ReopensAlikeExactly` says.
- A clean withdrawal leaves a tombstone only if the table was held or listed. Otherwise hearsay
  of the same second brings it up: `WithdrawalHolds` is the exact condition.
- "One record per device" in the wiki's section on the device group is one per public key text
  (`OneRecordPerKey`). One key has many texts: with or without either prefix, in either case, with
  blanks around it, with a `+` for a leading zero; all verify, since a signature does not cover the
  text (`OneDeviceExactly`, `FourOtherTexts`). Two such records stand together
  (`BothSpellingsStay`), and revoking one text leaves the other. An admit keeps one record per
  device exactly when none is listed under another text (`AdmitKeepsOneExactly`, over runs
  `RunKeepsOneExactly`), a revoke ends a device exactly when it is listed under no other text
  (`RevokeEndsDeviceExactly`), and records as devices sign them never clash (`SignedRunsKeepOne`).
- A manifest that is no collection displaces a collection head when a peer holds more of it
  (`PlainManifestDisplaces`). A pull keeps the collection exactly when the advert picked is of a
  collection (`PullKeepsCollectionExactly`, over runs `RunKeepsCollectionExactly`).
- The union of two heads is published under the local head's own name, not the name merged
  (`core/src/collection.rs:510-519`). A merge joins exactly when one head holds the other or the
  local head is named for the ref (`MergeJoinsExactly`). Otherwise the ref never moves, and a
  provider with more is picked again for ever (`StuckForGood`); a first pull can lead there
  (`StuckAfterFirstPull`).
- An asked url can be lost when an input bears another asked url as its name
  (`ClashingNameDropsUrl`). Every input is kept exactly when each that is named like an asked url
  finds that url pinned already, and then no url is lost (`InputsKeptExactly`); which urls are
  lost depends on the order asked (`UrlLostExactly`), and losses cascade (`LossCascades`).
- A sample taken after a connection closed counts its bytes again, and one taken after its peer
  was pruned counts as new: `SampleBalances` is exact.
- The wiki's encoding profile has no tags, but the encoder passes them through; tags are left out
  here. Repeated keys keep the order they came in (`RepeatedKeysKeepOrder`): the bytes are free of
  that order exactly when entries under one key agree (`CanonicalLaws.OrderFreeExactly`).
- Peers are keyed by id, so hearing about one twice should be a no-op. Merging a view again changes
  nothing exactly when the view gives no id two different, non-empty sets of addresses
  (`MergeAgainExactly`), ids the node takes no addresses for aside. Otherwise every repetition
  bumps the version (`MergedOften`, `RepeatedPeerInforms`). What a sound node shows never does
  (`ShownAgrees`).
- A settled mesh should drop to a heartbeat. Where all views agree on addresses, adverts and
  tables, merges stop teaching addresses and adverts over any run in time (`LessonsAreBounded`),
  and versions stop rising among the views of one instant (`GossipRests`). A calm mesh stays calm
  while each table is renewed in time, by its host or by hearsay (`HeartbeatIsQuiet`). But the last
  address told wins. An exchange, in which the node called merges before it replies, leaves the
  two agreeing on every third (`ExchangeAgrees`). When both call at once and their readings cross,
  they go on teaching each other addresses exactly when they knew some third at different ones
  (`CrossingsTeachExactly`); they then swap them and are informed in every round
  (`CrossedForever`).
- The blob resolved does not depend on the order of the attestations; the signer, transform and
  held mark may (`SignerFollowsOrder`), and do not exactly when all best candidates give one
  resolution (`Resolver.OrderFreeExactly`).
- Rendered times order as text exactly up to the year 10000: `TextOrderEndsAtYear10000`.

## Model

| member | source | states |
|---|---|---|
| Store.LoadOps | core/src/collection.rs:433-438 | exactly the listed hashes that are held and decode as ops contribute |
| Store.LoadedInOrder | core/src/collection.rs:433-438 | they come in the order listed |
| Store.BlobStore.PutBlob | core/src/store.rs:130-140 | storing is under the content's hash and moves nothing stored before |
| Store.BlobStore.WriteRef | core/src/refs.rs:31-36 | a ref is written exactly when its name is usable |
| Records.PutGet | core/src/store.rs:130-159 | a stored record is read back, and what was stored before stays |
| Fold.FoldOps | core/src/collection.rs:522-564 | the loop computes the fold function |
| Fold.FoldOfSet | core/src/collection.rs:522-532 | the fold depends only on which ops there are, not on order or repeats |
| Fold.FoldDistinct | core/src/collection.rs:533-542 | the fold never yields an identity twice |
| Fold.LastWriterWins | core/src/collection.rs:523-551 | an identity is in the fold exactly when the last owner-signed add or remove touching it is an add, with that add's item |
| Fold.MovedItems | core/src/collection.rs:550-561 | a reorder permutes the items |
| Fold.ReorderPlaces | core/src/collection.rs:550-561 | a reorder puts listed items first, in first-listed order, and keeps the rest in order |
| FoldLaws.FoldStep | core/src/collection.rs:522-564 | of the operations the owner signed the one of greatest number, then greatest hash, comes last, and the fold is what it does to the fold of the others: an add replaces in place or appends, a remove drops, a reorder brings the listed to the front |
| FoldLaws.FoldNothing | core/src/collection.rs:522-532 | where the owner signed nothing the fold is empty |
| FoldLaws.GreatestDecides | core/src/collection.rs:523-551 | of the owner's operations about an identity the one of greatest number, and among equals greatest hash, decides its item |
| Builder.CollectionBuilder.Open | core/src/collection.rs:298-341 | opening computes the opened state, forking or not |
| Builder.CollectionBuilder.Add | core/src/collection.rs:348-356 | an add replaces in place or appends, and is the identity's one draft |
| Builder.CollectionBuilder.Remove | core/src/collection.rs:358-365 | a remove drafts only what the baseline holds |
| Builder.CollectionBuilder.Record | core/src/collection.rs:367-372 | a record is listed once |
| Builder.CollectionBuilder.Attest | core/src/collection.rs:374-378 | an attestation moves to the end of its list |
| Builder.CollectionBuilder.Publish | core/src/collection.rs:396-425 | the whole state, store and refs after a publish, and every refusal |
| Builder.OpenedCoherent | core/src/collection.rs:298-341 | an opened builder shows the fold with its drafts on top |
| Builder.EditedCoherent | core/src/collection.rs:348-378 | every edit keeps one draft per identity laid over the baseline equal to the items in memory |
| Builder.PublishedCoherent | core/src/collection.rs:396-425 | a publish keeps that invariant, so a builder may publish again |
| Builder.PublishedStore | core/src/collection.rs:403-424 | after a publish the loaded ops are the old ones and the minted ones |
| Builder.PublishedFind | core/src/collection.rs:403-416 | a publish writes each draft over the owner's fold and touches nothing else |
| Builder.ReopenExact | core/src/collection.rs:298-425 | reopening gives back the items in memory exactly when nothing of the publisher's own earlier ops is live outside baseline and items |
| Builder.BuilderRefinesFold | core/src/collection.rs:298-425 | for every sequence of edits, publish and reopen give the items in memory, for the owner and for a fork holding none of the publisher's ops |
| Builder.ForkBackResurrects | core/src/collection.rs:316-335 | after A, B, A an item B removed comes back from A's old ops |
| PublishLaws.EditMakes | core/src/collection.rs:343-378 | each edit changes its own list and no other: a record once and in its place, an attestation once and last, the kind as set |
| PublishLaws.PublishTells | core/src/collection.rs:298-425 | the head published after opening one and editing in any way: its name, owner, kind and fork, everything listed before in its place, exactly what was recorded and attested since, and all of it in its refs |
| PublishLaws.MintedTell | core/src/collection.rs:403-416 | one operation for each draft, in order, saying what the draft does, numbered on and signed |
| PublishLaws.NextNumber | core/src/collection.rs:316-316 | the next number is one above the greatest loaded, and one where there is none |
| PublishLaws.ReopenedInOrder | core/src/collection.rs:403-425 | the list opened again, order included, is what the publisher's own operations made with each draft applied in turn |
| PublishLaws.ReopensAlikeExactly | core/src/collection.rs:343-425 | it is the very list in memory exactly when the drafts lead there from that list |
| PublishLaws.ReaddedReturns | core/src/collection.rs:348-365 | an item removed and added again is last in memory and back in its old place when opened again |
| Merge.MergeHead | core/src/collection.rs:469-520 | the whole outcome, store and refs of a merge, every branch |
| Merge.MergeJoins | core/src/collection.rs:492-519 | a same-owner merge of heads named for the ref ends on both ref sets; unchanged exactly when nothing is new, adopted exactly when the incoming holds all of mine and more |
| Merge.MergeJoinsExactly | core/src/collection.rs:492-519 | for heads of one owner and name, the ref ends on both ref sets exactly when one holds the other or the local head is named for the ref |
| Merge.UnionTells | core/src/collection.rs:501-519 | a union publishes a head of my name and owner and their kind, forked from where mine was or else theirs, each of its three lists mine in order and behind it what theirs had more |
| Replicas.StepKeepsInv | core/src/collection.rs:440-520 | every step leaves each replica on a whole published head whose refs are all it has published or merged |
| Convergence.StrongConvergence | core/src/collection.rs:469-564 | in every run each replica's refs are the union of what it published or merged, and equal refs fold to equal lists even under different head hashes |
| Convergence.SameRefsSameFold | core/src/collection.rs:222-264 | two replicas with equal ref sets show the same list |
| Convergence.CausalOrder | core/src/collection.rs:316-316 | in every run the fold order extends happened-before |
| Convergence.RunKeepsCausal | core/src/collection.rs:403-416 | every minted op is numbered above every op its author had, and heads are closed under what authors had seen |
| Convergence.SeenEditsAreOverridden | core/src/collection.rs:403-416 | an add or remove held by a replica overrides every edit of that item its author had seen |
| Convergence.PullGrows | core/src/collection.rs:492-519 | a merge that is not unchanged strictly enlarges the refs, and an unchanged one changes nothing |
| Convergence.SuccessorIsAdopted | core/src/collection.rs:396-425 | a published head contains its predecessor, so a replica on the old head adopts it verbatim |
| Settling.IdleExactly | core/src/collection.rs:489-519 | a pull leaves the head exactly when there is one and it holds every ref of the other |
| Settling.SettledExactly | core/src/collection.rs:489-519 | no pull changes a head exactly when no replica has one, or all have one and hold the same refs |
| Settling.SettledConverged | core/src/collection.rs:489-564 | once no pull changes a head, all replicas show one list |
| Settling.UsefulRunsConverge | core/src/collection.rs:489-564 | pulls that change a head are at most the room to grow, however chosen, and when none is left all replicas show one list |
| Settling.ReplicasConverge | core/src/collection.rs:489-564 | from every reachable state such a run exists, so the replicas do converge |
| Convergence.FinitelyManyChanges | core/src/collection.rs:489-519 | without edits a run changes heads at most as often as there is room to grow |
| Membership.Admit | schema/src/device.rs:148-191 | admit's whole effect, and whether it refused or found the device already in |
| Membership.Revoke | schema/src/device.rs:193-212 | revoke's whole effect, and whether there was anything to revoke |
| Membership.MembersListed | schema/src/device.rs:108-132 | members are exactly the device records of the fold |
| Membership.MembersTell | schema/src/device.rs:108-132 | a member verifies exactly when the head is the group's own, the key named signed the settings and they offer the device to this group; it is expired by its own date |
| Membership.MembersInOrder | schema/src/device.rs:108-132 | members come in the order of the fold |
| Membership.AlreadyExactly | schema/src/device.rs:160-172 | a device is in already exactly when its very record is listed and in date |
| Membership.MemberIdsListed | schema/src/device.rs:134-140 | a node is a member exactly when a record of it verifies, is offered to the group and is in date |
| Membership.ActRelists | schema/src/device.rs:148-212 | an admit or revoke moves exactly the listings it is about and no other |
| Membership.OneRecordPerKey | schema/src/device.rs:175-186 | over every run the fold holds at most one record per public key text |
| Membership.RevokedUntilReadmitted | schema/src/device.rs:193-212 | a revoked node text is no member at any time until a device of that text is admitted again |
| Membership.AdmittedIsMember | schema/src/device.rs:148-191 | an admitted device is a member while in date, over every run that does not disturb it |
| Membership.AdmittedIsRecorded | schema/src/device.rs:174-190 | a fresh admit publishes a head of the group that records the device and refers to it, with all that was recorded before in its place |
| Keys.ParseHex | core/src/identity.rs:95-104 | the loop reads exactly 32 pairs of digits, each as `from_str_radix` does |
| Keys.ReadsExactly | core/src/identity.rs:20-24 | a text is read as a key exactly when, blanks and prefix off and its digits made plain, it is what is written for that key |
| Devices.OneDeviceExactly | schema/src/device.rs:54-60 | two listed records are of one device exactly when their texts differ and come to the same plain digits |
| Devices.FourOtherTexts | core/src/identity.rs:20-24 | bare, after a blank, with the identity prefix and in capitals, the signed text names the same device |
| Devices.AdmitKeepsOneExactly | schema/src/device.rs:148-191 | an admit keeps one record per device exactly when the device is listed under no other text |
| Devices.RunKeepsOneExactly | schema/src/device.rs:148-212 | over every run that is so throughout exactly when each device admitted is then listed under no other text |
| Devices.SignedRunsKeepOne | schema/src/device.rs:45-52 | with keys written as devices sign them, every run keeps one record per device |
| Devices.RevokeEndsDeviceExactly | schema/src/device.rs:193-212 | a revoke ends a device exactly when it is listed under no other text; what other texts list stays |
| Devices.GoneUntilReadmitted | schema/src/device.rs:193-212 | a device so ended is no member, under any text and at any time, until it is admitted again |
| Devices.RevokedStillMember | schema/src/device.rs:193-212 | a device in date under another text is still a member after the revoke |
| Devices.BothSpellingsStay | schema/src/device.rs:175-180 | a device admitted under two texts of its key stays listed under both |
| Presence.TableBook.Hear | node/src/tables.rs:35-64 | hear's whole effect, and whether what is visible changed |
| Presence.TableBook.Learn | node/src/tables.rs:66-114 | learn's whole effect, and whether what is visible changed |
| Presence.TableBook.Forget | node/src/tables.rs:116-122 | forget's whole effect |
| Presence.TableBook.Sweep | node/src/tables.rs:182-187 | stale hearsay and tombstones are collected, nothing else |
| Presence.ListsExactly | node/src/tables.rs:147-176 | a table is listed by its host's own word for 150 seconds, and by hearsay while that does not stand, for under 300 seconds from its stamp and from its arrival |
| Presence.AdmitsExactly | node/src/tables.rs:77-100 | which lines of hearsay are taken |
| Presence.LearnCommutes | node/src/tables.rs:66-114 | two batches at one instant leave the same book in either order |
| Presence.LearnIdempotent | node/src/tables.rs:66-114 | learning a batch again at one instant changes nothing |
| Presence.LearnedIsJoin | node/src/tables.rs:76-112 | the newest stamp offered wins for each table, and only hosts talked about lose an expired entry |
| Presence.WithdrawalHolds | node/src/tables.rs:57-91 | a withdrawal holds against hearsay up to its second for ever, although tombstones are collected, exactly when the table was held, listed or already buried |
| Presence.BuriedStaysHidden | node/src/tables.rs:75-91 | no run of learn, forget and table-less hearing shows a withdrawn host |
| Gossip.Mesh.RecordAddr | node/src/mesh.rs:688-716 | what an address changes, and whether it taught anything |
| Gossip.Mesh.Merge | node/src/mesh.rs:1020-1067 | the whole node after merging a view, its version included |
| Gossip.Mesh.LocalView | node/src/mesh.rs:999-1018 | a node's view names each known peer once and relays its entries with their stamps |
| Gossip.Mesh.ForgetPeers | node/src/mesh.rs:653-678 | seeded peers are spared, the others forgotten everywhere |
| Gossip.Mesh.ForgetTable | node/src/mesh.rs:642-651 | the version moves exactly when something visible went |
| Gossip.ViewsAreWellFormed | node/src/mesh.rs:999-1018 | a sound node's view names each id once |
| Gossip.MergeKeepsSound | node/src/mesh.rs:1020-1031 | merging any view files addresses under their own ids, never the node's |
| Gossip.NewsMovesVersion | node/src/mesh.rs:1055-1066 | a merge that changes an address, a table shown or the sender's adverts moves the version, by one |
| Gossip.ForgettingTells | node/src/mesh.rs:653-678 | a peer is kept exactly when it is seeded or not named, and of one forgotten nothing is left |
| Gossip.ForgottenTableTells | node/src/mesh.rs:642-651 | nothing stays listed of the host, nothing else goes, and the version moves exactly when something was |
| Remerging.MergeAgainExactly | node/src/mesh.rs:1020-1067 | merging any view again at one instant changes nothing, the version included, exactly when it gives no id that the node takes addresses for two different sets of them |
| Remerging.MergedOften | node/src/mesh.rs:1020-1067 | merged any number of times it costs one version at most where it agrees, and one each time where it does not |
| Remerging.ShownAgrees | node/src/mesh.rs:999-1018 | what a sound node shows agrees, whoever reads it |
| Remerging.RepeatedPeerInforms | node/src/mesh.rs:688-716 | a view that anywhere names a peer at two addresses informs every time |
| Hearsay.StepKeepsInv | node/src/mesh.rs:999-1067 | every step keeps every entry and view backed by a first-hand hearing |
| Hearsay.OfferedIsListed | node/src/mesh.rs:1020-1067 | a node that merges a host's view lists the table it offers and no other of that host |
| Hearsay.RelayedIsListed | node/src/tables.rs:66-114 | a line of hearsay that passes the checks is listed |
| Hearsay.HearsayDiesWithItsHost | node/src/tables.rs:30-188 | in every run each listed table was offered by its host, in the second it is stamped with and under 300 seconds ago |
| Hearsay.SilentHostIsGone | node/src/tables.rs:5-32 | 300 seconds after a host was last heard no node lists it, whatever the routes |
| Hearsay.WithdrawnStaysGone | node/src/tables.rs:57-91 | in every run a node that saw a table withdrawn which it listed, or held first-hand even if expired, never lists it again until its host advertises |
| Heartbeat.MergeLeavesLess | node/src/mesh.rs:1020-1067 | among true views a merge that bumps the version leaves less to learn at that instant, and none leaves more |
| Heartbeat.GossipRests | node/src/mesh.rs:1020-1067 | in every run at one instant, whatever the order and repetition of views, all versions together rise by no more than what was left to learn |
| Heartbeat.LessonsAreBounded | node/src/mesh.rs:688-716 | over every run, however long, at most as many merges teach an address or advert as there were ids to meet and adverts to read |
| Heartbeat.HeartbeatIsQuiet | node/src/tables.rs:35-114 | in a calm mesh no version ever moves while every node is reminded of every table, by its host within 150 seconds or by hearsay stamped within 300 |
| Crossings.ReadingTeachesExactly | node/src/mesh.rs:688-716 | reading a sound node teaches addresses exactly when its own are news, or it knows a third unknown or at other addresses |
| Crossings.ExchangeAgrees | node/src/gossip.rs:104-122 | after an exchange, whose reply is made after the merge, neither node can bring the other anything about a third |
| Crossings.CrossingsTeachExactly | node/src/mesh.rs:702-707 | from the second round on, crossing readings teach addresses exactly when the two nodes disagreed on a third at the start |
| Crossings.CrossedForever | node/src/mesh.rs:702-707 | two nodes with different addresses for a third whose readings keep crossing are informed in every round |
| Replication.BestProvider | node/src/mesh.rs:782-829 | the pick is eligible, outranked by none, and first of its equals; none exactly when nobody is eligible |
| Replication.PicksOne | node/src/mesh.rs:822-826 | the pick is determined |
| Replication.PickedRanks | node/src/mesh.rs:817-826 | the pick is the owner's own device if any is eligible, then the most trusted, then the one that holds most, and of those alike the first |
| Replication.EligibleExactly | node/src/mesh.rs:790-816 | a peer is eligible exactly when it can be reached, is trusted as a cache at least, and its first offer of the name that is no other owner's is of more than is held, or of a whole head of the own collection neither current nor merged |
| Replication.LocalTells | node/src/mesh.rs:200-237 | what a node says of its ref: the owner of a head and how many of its refs are held, the links held of another manifest, nothing of one it lacks |
| Replication.PullRef | node/src/mesh.rs:1121-1151 | manifest, references, merge; a provider lacking one leaves the refs alone |
| Replication.Replicator.Converge | node/src/mesh.rs:1301-1347 | one round for one name: whom it picks, what it leaves, what it notes |
| Replication.FetchedGot | node/src/mesh.rs:1135-1147 | a pull with everything on offer ends holding the manifest and all it refers to |
| Replication.PullGains | node/src/mesh.rs:1121-1151 | a successful pull never lowers the held count and ends holding what was offered |
| Replication.ConvergingIsBounded | node/src/mesh.rs:782-833 | over every run the held count never falls and pulls are at most the adverts left to spend |
| Replication.PulledOnce | node/src/mesh.rs:802-810 | a pulled advert is picked in no later round |
| Replication.GoesQuiet | node/src/mesh.rs:782-833 | after as many pulls as adverts no peer is eligible |
| Keeping.PullKeepsCollectionExactly | node/src/mesh.rs:782-829 | a pull leaves the ref on a head with all the old refs exactly when the advert picked is of a collection |
| Keeping.RunKeepsCollectionExactly | node/src/mesh.rs:782-833 | a run does so round by round exactly when it picks only adverts of the collection's owner |
| Keeping.QuietIsCaughtUp | node/src/mesh.rs:782-829 | after a run that kept its collection, a quiet node holds every ref of every complete head offered |
| Keeping.PlainManifestDisplaces | node/src/mesh.rs:802-810 | a peer whose offer is a manifest that is no collection, with more held, is eligible, and the pull displaces the collection |
| Keeping.StuckForGood | node/src/mesh.rs:1301-1347 | under a ref whose head has another name the same provider is picked after any number of pulls, the held count never moving |
| Keeping.StuckAfterFirstPull | node/src/mesh.rs:1121-1151 | a first pull of such a head, and a peer with more of one that goes with it, lead there |
| Syncing.TurnGains | node/src/mesh.rs:1301-1347 | a turn ends on a whole head with the refs of both; one that brings no ref leaves the head and notes a merge not noted before |
| Syncing.TurnsAreBounded | node/src/mesh.rs:1301-1347 | however nodes take turns, each picking from truthful adverts as they stand then, pulls are at most what was left to do |
| Syncing.WantsExactly | node/src/mesh.rs:790-810 | a node wants a head on offer exactly when it has refs, is not its own, and was not merged before |
| Syncing.NodesConverge | node/src/mesh.rs:782-833 | in every run, once no node finds a provider though each sees every other node's head on offer, all nodes show one list |
| Syncing.FreshNodesConverge | node/src/mesh.rs:782-833 | n nodes that have merged nothing, with r refs in all, make at most n((n + 1)r + n) pulls before that |
| Cbor.ReadHeadBack | core/src/canonical.rs:61-65 | a head is read back whatever follows |
| Cbor.HeadIsShortest | core/src/canonical.rs:137-142 | no head that reads the same is shorter |
| Cbor.DecodeEncode | core/src/canonical.rs:61-74 | reading what was written gives the value exactly when it nests no deeper than the reader allows |
| Cbor.EncodeInjective | core/src/canonical.rs:61-65 | different values have different bytes, and no bytes begin another's |
| Utf8.TextsExactly | core/src/canonical.rs:61-74 | a byte string is a text exactly when it is the encoding of scalar values |
| Values.FloatFreeExactly | core/src/canonical.rs:31-59 | a value has no float exactly when nothing inside it, at any depth, is one |
| Values.FitsExactly | core/src/canonical.rs:61-74 | a value fits exactly when everything inside it is within CBOR's ranges |
| Canonical.Canonicalize | core/src/canonical.rs:31-59 | fails exactly on a float anywhere, else gives the sorted form |
| Canonical.SortKeyed | core/src/canonical.rs:41-46 | entries are sorted by key bytes, stably |
| Canonical.LessAt | core/src/canonical.rs:46-46 | keys are compared at the first byte that differs, the smaller first, and a beginning before what it begins |
| CanonicalLaws.CanonicalIsSorted | core/src/canonical.rs:31-59 | a value is its own canonical form exactly when float-free with keys ascending at every depth; canonicalizing is idempotent |
| ReadBack.CanonicalReadsBack | core/src/canonical.rs:67-74 | canonical bytes read back as the canonical value |
| CanonicalLaws.BytesDecideEquality | core/src/canonical.rs:31-74 | when entries under one key agree in one of two values, equal bytes exactly when equal up to map order at every depth |
| CanonicalLaws.SameBytesAreSame | core/src/canonical.rs:67-79 | equal bytes mean equal values up to a rearrangement of map entries, repeats counted |
| CanonicalLaws.OrderFreeExactly | core/src/canonical.rs:31-74 | the bytes do not depend on the order of map entries exactly when entries under one key agree, at every depth |
| CanonicalLaws.RepeatedKeysKeepOrder | core/src/canonical.rs:46-46 | with a repeated key the bytes keep the order given |
| Descriptors.ToValue | routing/src/transform.rs:35-56 | the value an input is written as |
| Descriptors.InputReadsBack | routing/src/transform.rs:35-101 | an input is read back from its value |
| Descriptors.PutFields | routing/src/transform.rs:140-171 | what stays, the extra fields, then the inputs |
| Descriptors.InputsReadBack | routing/src/transform.rs:104-171 | reading the inputs of a built record gives exactly the map put in |
| Descriptors.ExtraReadsBack | routing/src/transform.rs:140-154 | every extra field replaces whatever bore its name |
| Descriptors.ShapedInputs | routing/src/transform.rs:104-121 | a record keeps its inputs through the canonical form |
| Transform.Lock | routing/src/transform.rs:218-291 | lock's whole outcome and store |
| Transform.LockPins | routing/src/transform.rs:236-290 | a lock pins every declared input and no other, keeps pinned ones, fetches once per url, and stores both records |
| Transform.LockSucceedsExactly | routing/src/transform.rs:218-291 | a lock succeeds exactly when the record holds no float and every declared input is pinned, resolves or is fetched |
| Transform.LockDates | routing/src/transform.rs:275-281 | a locked record tells the day it had, or the day of the lock |
| Transform.LockYieldsLocked | routing/src/transform.rs:133-291 | a successful lock yields a locked record exactly unless an http-get names no url |
| Transform.RelockIsStable | routing/src/transform.rs:218-291 | locking a locked record again, as returned or as read back, succeeds on any node, fetches nothing and keeps every pin |
| Running.GatherInputs | routing/src/transform.rs:355-363 | the runner gets every pinned input's bytes, or the round fails |
| Running.FetchInputs | routing/src/transform.rs:375-393 | which urls are fetched, stored and declared |
| Running.RunRounds | routing/src/transform.rs:347-401 | the loop computes the bounded loop function |
| Running.Run | routing/src/transform.rs:307-424 | run's whole outcome and store |
| Running.RunProvenance | routing/src/transform.rs:337-423 | a successful wasm run takes at most 16 rounds, and the attested record is stored, locked, names the module and arguments run, and names exactly the blobs whose bytes the runner was given in the round that made the output |
| RunLaws.RunsExactly | routing/src/transform.rs:307-424 | a run gives a blob exactly when the record is held, readable and locked, the output's record is held, and the transform comes to that blob: an http-get by its url's bytes, a wasm transform by at most 16 rounds |
| RunLaws.SuppliesExactly | routing/src/transform.rs:379-393 | what a round asks for is supplied exactly when each url is pinned still or fetched, in turn |
| Running.HttpProvenance | routing/src/transform.rs:324-336 | an http-get attests what the record's own url gave, to the record itself |
| Running.NamedRecordReads | routing/src/transform.rs:394-398 | the attested record reads back from the store with the same inputs, locked |
| Running.TdrReadsBack | core/src/record.rs:72-85 | a record's bytes read back as the record in canonical form |
| Running.SupplyFetches | routing/src/transform.rs:379-393 | what is fetched, replaced and left is told before the fetch by the names declared and the urls asked, one fetch per url |
| Running.InputsKeptExactly | routing/src/transform.rs:379-393 | the next round keeps every input exactly when each named like an asked url finds that url pinned; then every asked url is pinned |
| Running.UrlLostExactly | routing/src/transform.rs:379-393 | an asked url is lost exactly when every input holding it is fetched over, one of them only after it was last asked for |
| Running.LossCascades | routing/src/transform.rs:380-392 | a url pinned at the start can itself be lost and fetched over another |
| Running.ClashingNameDropsUrl | routing/src/transform.rs:380-392 | with a clashing name an asked url is lost |
| Clock.CivilCorrect | core/src/clock.rs:28-39 | every day gives a valid Gregorian date whose day count is that day |
| Clock.CivilInverse | core/src/clock.rs:28-39 | every valid date since 1970 is the date of its day count |
| TimeText.RenderReadsBack | core/src/clock.rs:9-19 | every rendered time is six numbers with their marks, and they name the second it is of |
| Clock.RenderRises | core/src/clock.rs:9-19 | rendered times rise as text through the year 9999 |
| Clock.ExpiredComparesSeconds | core/src/clock.rs:21-26 | expiry of rendered times compares seconds |
| Clock.TextOrderEndsAtYear10000 | core/src/clock.rs:9-26 | comparing texts compares seconds for all times up to n exactly when n is before the year 10000 |
| Resolver.Artifacts | routing/src/lib.rs:117-132 | the candidates best first, equals in the order found |
| Resolver.Resolve | routing/src/lib.rs:134-145 | the first eligible candidate's resolution |
| Resolver.PickIsBest | routing/src/lib.rs:57-145 | the pick is eligible and outranked by none; there is none exactly when nothing is eligible |
| Resolver.ResolvesToGreatest | routing/src/lib.rs:57-145 | an identity resolves exactly when some attestation is usable, and to one that no usable one is above: by the preferred transform, then a held blob where preferred, then trust in the signer, then the later date, then the hash |
| Resolver.MostTrustedWins | routing/src/lib.rs:57-145 | with nothing preferred, no usable attestation's signer is trusted more |
| Resolver.ArtifactsTell | routing/src/lib.rs:85-132 | every content attestation naming a blob is listed, and each artifact says what its attestation and transform record say |
| Resolver.ResolveIsOrderFree | routing/src/lib.rs:117-145 | the blob depends only on the set of attestations |
| Resolver.OrderFreeExactly | routing/src/lib.rs:117-145 | the whole resolution is the same for every order and number of the attestations exactly when all best candidates give one resolution |
| Resolver.SignerFollowsOrder | routing/src/lib.rs:117-145 | of two attestations that rank the same, the first found is named |
| Resolver.RaisingKeepsBlob | routing/src/lib.rs:113-145 | raising the minimum keeps the blob while the old pick is trusted enough |
| Peers.PeerRegistry.ConnectionOpened | node/src/peers.rs:343-355 | a fresh serial, live from zero |
| Peers.PeerRegistry.Observe | node/src/peers.rs:357-370 | totals rise by the saturating difference; only a live slot is replaced |
| Peers.PeerRegistry.ConnectionClosed | node/src/peers.rs:372-376 | the slot goes, the totals stay |
| Peers.PeerRegistry.PruneDead | node/src/peers.rs:424-440 | what is left and what is reported dropped |
| Peers.BytesAreConserved | node/src/peers.rs:343-376 | over every orderly interleaving a peer's totals are the sum of its connections' last samples since its record was made |
| Peers.TotalsAreSums | node/src/peers.rs:343-376 | so they are in every orderly run from the empty registry |
| Peers.SampleBalances | node/src/peers.rs:357-370 | exactly which samples keep the balance, of open, closed and forgotten connections |
| Peers.PruneSparesOpen | node/src/peers.rs:424-440 | in every orderly run a prune drops a peer exactly when it is stale and no connection to it is open |
| Peers.OpenPeersStay | node/src/peers.rs:424-440 | in every run a peer with an open connection is on record |

## Left out

- Ed25519, BLAKE3, randomness, vouches and group learning: signatures and hashes are abstract, and trust levels are given.
- Files, atomic renames and the store lock; sockets, QUIC, tasks and mutexes: operations are atomic steps.
- HTTP gateway, command line, local API, browser, client and FFI layers: routing and wrappers only.
- Legacy heads and the scan of texts for hashes in manifests without a `refs` list: such a blob counts as referring to nothing.
- A head without any ref is counted as holding nothing for the same reason.
- u64 and u32 wrap-around of counters and casts: numbers are unbounded.
- The sort of listed and relayed tables: entries are a set, since no two are equal.
- The seeding of peers, dialling, marks, backfill and the choice of gossip targets: they do not change what is merged.
- Adverts, trust and addresses changing during a run of one node: they stay fixed in `Replication` and `Keeping` and change from turn to turn in `Syncing`; a failed pull is covered by `PullRef` alone.
- NodesConverge: publishing during the run; the replicas of `Convergence` edit and merge in any order.
- GossipRests: is about one instant, since hearsay that expires may be learned again later; `LessonsAreBounded` and `HeartbeatIsQuiet` are about runs over time.
- The tables listed for the user, which are `Entries` less their stamps, and a node's setting of its own table, which is the step `Open` of `Hearsay`.
- Admit: assumes the group's ref name is usable, as the rule for ref names makes it; the rule itself is a parameter.
- Revoke: the same.
- ConvergingIsBounded: assumes the node's own ref names a blob it holds, as every write of a ref does.
- Converge: the version it bumps after a pull, and the outcome texts kept per peer.
- Floats and tags in values; a reader of indefinite lengths, floats, tags and other simple values: the encoder writes none of them.
- The limit on nesting is the reader's own (ciborium is not part of this model), so it is a parameter of the theorems.
- Ties in a head's byte form: union heads of two replicas may differ in order, so equality is of ref sets and folds, not of head hashes.
- Operations that reorder are folded, never minted: the builder has no such edit.
- A key text whose 64 bytes split a character stops the program; here it names no key.
- Address parsing, the hex of signatures, trust files, version comparison, peer records beyond the accounting: easy members only.
- ciborium's refusal of a record with a repeated or missing field: the first field of a name is read.
- `rank_providers`: a filter and a stable sort like the resolver's.
