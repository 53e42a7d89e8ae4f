# mirror-pool: verified model of a cohort-coordination round

This project models, in Dafny, the parts of mirror-pool that decide who is in a cohort, what is
published about it and when a round may move on, and proves what they keep over whole runs:

- the Merkle cohort tree and its inclusion proofs (`Bytes`, `Sorting`, `Merkle`, `MerkleShape`,
  `MerkleBuilder`, `MerkleSoundness`, `Inclusion`);
- the on-chain coordination program, ten instructions over pool, round and participant accounts
  (`Accounts`, `Handlers`, `Ledger`, `Program`, `LedgerInvariant`, `LedgerRuns`, `LedgerHistory`,
  `LedgerAuthority`, `LedgerKeys`, `LedgerOutcomes`), its wire format (`Codec`, `WireBytes`, `AccountTypes`,
  `AccountMisreads`), and the same program on account bytes (`ByteLedger`, `ByteAgreement`, `ByteExactness`);
- the lifecycle graph and round of the protocol core (`Lifecycle`), and exactly how far the on-chain
  machine refines it (`LedgerRefinement`);
- the coordinator's durable store, alone, as an object, and under arbitrary interleaving of callers
  (`Store`, `DurableStore`, `StoreRuns`, `StoreOutcomes`);
- the coordinator: rate limiter, and admission under two locks (`RateLimit`, `Admission`,
  `AdmissionRate`, `Coordinator`);
- the synthetic evaluator's observation loop and metrics (`Statistics`, `Simulator`, `Residues`,
  `Ablation`, `Evaluation`);
- store or coordinator and chain running side by side (`EndToEnd`, `AdmittedEndToEnd`).

`dfyconfig.toml` lists the files, so `dafny verify dfyconfig.toml` covers the whole project.

## How to read it

Code that the program runs step by step is imperative here too: `MerkleBuilder.Build`, `Prove` and
`Verify` loop over growing vectors, `Program.Coordination` reads, changes and writes back accounts,
`DurableStore.Database` reassigns its tables, `Coordinator.Service` updates its limiter and its store,
`Codec.WriteAccount` fills a byte array. Each method is proved equal to a function of the old state, and
the laws are lemmas about those functions and about runs of them. What each such function computes is
pinned without it: `Bytes.LessIsBelow`, `MerkleShape.RootFromTop`, the `…Exactly` lemmas of `Lifecycle`,
`LedgerOutcomes`, `StoreOutcomes` and `Admission`, the byte strings of `WireBytes`, and `Evaluation`.

Premises, all visible in the definitions:

- **Hashing.** BLAKE3 is an arbitrary function from byte strings to 32-byte digests. No injectivity is
  assumed; soundness is by extraction: a function computes two byte strings from an accepted proof, and
  the lemma says that either they collide or the proof is genuine. Merely asserting that a collision
  exists would be empty, since every such function has one.
- **Addresses.** A derived address remembers its seeds and bump (`Ledger.Address`), so derivation is
  injective. A failed instruction changes nothing (`Coordination.ProcessInstruction` rolls back). A
  closed account is gone. Whether seeds derive an off-curve address, whether the system program creates
  the account and whether the refund fits are inputs of a call (`Ledger.Call`).
- **Typed accounts.** The ledger model gives an account one type; the bytes on chain do not. `ByteLedger`
  is the program on bytes, and `BytesFollow` proves that the two agree over every run in which no derived
  address signs, the addresses named differ in bytes, and every pool is created with a ninth id byte of
  at least nine; `AgreeExactly` proves that the last condition is needed.
- **Store.** Transactions are atomic and isolated; the check before a transaction is a separate step.
  Commitments and tree construction are parameters of the store (`Store.Env`); laws that need the
  program's own say `env.Real()`.
- **Clock.** A rate check reads the clock once, and once more when it starts a window; readings do not
  run backwards. Slots are inputs; only the laws that say so need them to ascend.
- **Draws.** Random draws are an input sequence; a fingerprint is a tuple, not its printed form.
- **Reals.** Scores, rates and entropy are real numbers. The logarithm and the exponential are any
  functions that do not decrease, the logarithm being positive beyond one (`Statistics.Analysis`).

Statements one might expect that do not hold of the code, and exactly what does:

- **A round obeys its own pool.** Scheduling, finalizing, cancelling and closing check the authority of
  the pool they are given and never compare it with the round's own. `ForeignCancelAndClose` is a run in
  which a second pool's authority cancels and then closes the first pool's round; `AnyoneCancels`,
  `AnyoneCloses`, `AnyoneSchedules` and `AnyoneFinalizes` say for every ledger, round and pool exactly
  when that works. A live round obeys its own authority if and only if every pool on the ledger has the
  same one (`OwnAuthorityExactly`), that is, if and only if every pool made so far was made for it
  (`OwnAuthorityOverRuns`). Single instructions and windows follow the pool they name (`WhoseAuthority`,
  `AuthorityOfOwnPool`, `OwnWindow`).
- **Registration is bounded in time.** Transparent registration is (`RegistrationCloses`). Publication is
  not: the program never compares its slot with the deadline (`PublicationIgnoresClock`), and
  `PublishedPastDeadline` is a run in which a round reaches its quorum at any slot past it. From the
  deadline on a round's count stays as it is if and only if nobody publishes on it (`CountCloses`). The
  core registers nobody from the deadline on, so a late publication has no counterpart in it
  (`LateHasNoCounterpart`); everything else refines the core at its own slot (`OnChainRefinesCore`), and
  a round's whole history does if and only if no publication on it was late (`ReachableInCore`).
- **Duplicate keys fail.** A record is one per derived address, and the bump of that address is an argument
  of the registration. `OneKeyQuorum` is a run in which one key, under two bumps, is a whole quorum. A key
  registers, again or for the first time, exactly when room, time and an unused derivable bump allow
  (`KeyRegistersExactly`); it does at most once under each bump (`OncePerBump`). A round's count is at
  least the number of its distinct keys and at most 256 times that, and equal to it if and only if no two
  records share a key (`CountAgainstKeys`).
- **A pool never changes except in its counter.** On typed accounts it does not (`PoolCountsOpens`). On
  bytes, a pool whose id's ninth byte is below nine reads as a round (`PoolReadsAsRound`): any pool's
  authority can have it closed if the byte is six, seven or eight (`CloseOnPool`), and cancelled if it is
  less, which sets that byte to seven (`CancelOnPool`).
- **An accepted `leaf_index` is a position of the cohort.** Index bits from the path's length up are never
  read, so `k + 2^depth` is accepted for every position `k` of every tree (`HighBitsIgnored`,
  `IndexPlusPower`); and an odd last node is paired with itself, so with three leaves index 3 is accepted
  for the third (`IndexBeyondLeaves`). `Reindexing` gives the exact set of indices of position `k` out of
  `n`: those with the bits of `k` below the depth, except where the node above `k` is the unpaired last
  one of its level. `PositionBinding` is what holds for indices below the leaf count.
- **An accepted path has the tree's depth.** Over arbitrary digests it need not (`InnerNodeAccepted`).
  `AcceptedExactly` says which paths of each length are accepted; `FullDepth` that the depth is the
  tree's when neither the digest nor any leaf is a parent value; `ShorterAccepted` and `LongerAccepted`
  that both conditions are needed. For cohorts of ticket commitments, hashed under their own domain, an
  accepted digest of any kind is a node of the tree (`AcceptedIsNode`), and an accepted ticket commitment
  a leaf at full depth (`InclusionSoundness`).

The documentation lists expiry among the terminal states; the program never enters `Expired` or
`Finalizing` (`AlwaysWellFormed`), and a scheduled round that misses its window can only be cancelled
(`MissedWindow`).

## Model

| member | source | states |
|---|---|---|
| `Bytes.HashInputInjective` | crates/mirror-pool-core/src/lib.rs:19-26 | within one domain, different messages are different hasher inputs |
| `Bytes.DomainsDisjoint` | crates/mirror-pool-crypto/src/lib.rs:99-101 | a ticket message and a tree-node message are never the same hasher input |
| `Bytes.DomainStrings` | crates/mirror-pool-core/src/lib.rs:21 | the prefix and the two domains are the bytes of their names |
| `Bytes.LessTotal` | crates/mirror-pool-core/src/lib.rs:13-14 | the order on digests is total, so with `LessIsBelow` it is the one by the first differing byte |
| `Bytes.LessIsBelow` | crates/mirror-pool-core/src/lib.rs:13-14 | a digest is the smaller of two exactly when it has the smaller byte at the first position where they differ |
| `Sorting.SortCanonical` | crates/mirror-pool-merkle/src/lib.rs:37 | sorting does not depend on the order leaves arrive in |
| `Sorting.AdjacentScanComplete` | crates/mirror-pool-merkle/src/lib.rs:38-40 | on sorted leaves the scan of neighbours finds a duplicate if and only if there is one |
| `Sorting.PositionCounts` | crates/mirror-pool-merkle/src/lib.rs:37 | in the sorted list a position is the number of elements below the one there |
| `MerkleBuilder.Build` | crates/mirror-pool-merkle/src/lib.rs:30-52 | the sort, scan and level loops compute the specified cohort or the specified error; which, and in which order, say `BuildOutcome`, `IndexIsRank` and `RootFromTop` |
| `MerkleBuilder.GrowLevels` | crates/mirror-pool-merkle/src/lib.rs:41-50 | the level loop produces the whole tower of pairings, ending in one node |
| `MerkleBuilder.RootOf` | crates/mirror-pool-merkle/src/lib.rs:55-61 | the first node of the last level is the root of the tree |
| `MerkleBuilder.BinarySearch` | crates/mirror-pool-merkle/src/lib.rs:65-68 | finds a leaf exactly when it is there |
| `MerkleBuilder.Prove` | crates/mirror-pool-merkle/src/lib.rs:64-83 | succeeds exactly for members, with the proof of the member's position, which is the number of leaves below it |
| `MerkleBuilder.Verify` | crates/mirror-pool-merkle/src/lib.rs:88-109 | the verification loop computes the path fold, and tells the three refusals apart |
| `Merkle.BuildOutcome` | crates/mirror-pool-merkle/src/lib.rs:30-52 | build succeeds exactly on 1 to 100,000 distinct leaves, keeps exactly those, strictly ordered; each error if and only if its cause |
| `Merkle.Canonical` | crates/mirror-pool-merkle/src/lib.rs:29-52 | every permutation of the leaves builds the same cohort and root, or the same error |
| `Merkle.PathReachesRoot` | crates/mirror-pool-merkle/src/lib.rs:71-75 | folding any node up its generated siblings reaches the root, odd levels included |
| `Merkle.DepthIsLeast` | crates/mirror-pool-merkle/src/lib.rs:42 | the tree's height is the least d with 2^d at least the leaf count |
| `Merkle.ProofsVerify` | crates/mirror-pool-merkle/src/lib.rs:64-109 | every generated proof verifies against root and round, and has the least covering length |
| `Merkle.IndexIsRank` | crates/mirror-pool-merkle/src/lib.rs:37-83 | the index a generated proof carries is the number of leaves, as they were given, below its own at the first differing byte |
| `Merkle.VerifiedExactly` | crates/mirror-pool-merkle/src/lib.rs:88-109 | which answer verification gives, case by case |
| `MerkleShape.RootFromTop` | crates/mirror-pool-merkle/src/lib.rs:41-50 | for every pairing and leaf list the root built level by level is the node of least height defined from the top down: its left child over the first 2^(d-1) leaves, its right child over the rest, or the left child twice |
| `MerkleShape.SubtreeOfNext` | crates/mirror-pool-merkle/src/lib.rs:41-50 | replacing leaves by their pairings lowers every node by one and changes no value |
| `Merkle.SmallRoots` | crates/mirror-pool-merkle/src/lib.rs:41-50 | the roots of one to four leaves, written out |
| `MerkleSoundness.PathBinding` | crates/mirror-pool-merkle/src/lib.rs:95-107 | a full-depth path that reaches the root starts at the leaf its index leads to and carries the tree's siblings, or the computed child pairs collide |
| `MerkleSoundness.GenuineAccepted` | crates/mirror-pool-merkle/src/lib.rs:95-107 | conversely such a path is accepted for every index |
| `MerkleSoundness.PositionBinding` | crates/mirror-pool-merkle/src/lib.rs:64-109 | an accepted full-depth proof with index below the leaf count is, field by field, the generated one, or a collision |
| `MerkleSoundness.Reindexing` | crates/mirror-pool-merkle/src/lib.rs:96-104 | over distinct leaves the generated proof of position k is accepted under index i if and only if i has the bits of k below the depth, unpaired nodes excepted, or the computed pairs collide |
| `MerkleSoundness.ResolveExactly` | crates/mirror-pool-merkle/src/lib.rs:96-104 | the position an index leads to, read off the bits of the index |
| `MerkleSoundness.HighBitsIgnored` | crates/mirror-pool-merkle/src/lib.rs:96-104 | adding any multiple of 2^length to the index changes nothing |
| `MerkleSoundness.IndexPlusPower` | crates/mirror-pool-merkle/src/lib.rs:96-104 | every position of every tree is also accepted under an index past the leaves |
| `MerkleSoundness.AcceptedExactly` | crates/mirror-pool-merkle/src/lib.rs:88-109 | for every pairing, digest, index and length: a path k shorter than the tree is accepted if and only if it starts at the node its index leads to k levels up, with the siblings from there, a longer one if and only if its end does so from the leaves, or the computed pairs collide |
| `MerkleSoundness.AcceptedShows` | crates/mirror-pool-merkle/src/lib.rs:88-109 | from any accepted path a computed witness: a collision, the children behind the inner node it starts at, the children it hashes to a leaf, or the leaf |
| `MerkleSoundness.FullDepth` | crates/mirror-pool-merkle/src/lib.rs:88-109 | if neither the digest nor any leaf is a parent value, an accepted path has full depth and is the tree's own, or the computed pairs collide |
| `MerkleSoundness.ShorterAccepted` | crates/mirror-pool-merkle/src/lib.rs:97-104 | every node above the leaves is accepted with the shorter path |
| `MerkleSoundness.LongerAccepted` | crates/mirror-pool-merkle/src/lib.rs:97-104 | the children of a leaf that is a parent value are accepted with a longer path |
| `MerkleSoundness.IndexBeyondLeaves` | crates/mirror-pool-merkle/src/lib.rs:46-47 | with three leaves, index 3 is accepted for the third |
| `Inclusion.NodeInputInjective` | crates/mirror-pool-merkle/src/lib.rs:112-117 | different child pairs are different node messages |
| `Inclusion.HashedBytes` | crates/mirror-pool-merkle/src/lib.rs:112-117 | the bytes hashed for a node and for a ticket, written out |
| `Inclusion.AcceptedIsNode` | crates/mirror-pool-client/src/lib.rs:110-116 | any digest accepted against the root of a cohort of commitments is a node of the tree on the level its path length reaches, with that node's siblings, or the computed byte strings collide |
| `Inclusion.InclusionSoundness` | crates/mirror-pool-merkle/src/lib.rs:88-117 | an accepted proof for a ticket's commitment, of any length and index, yields two colliding byte strings, or that very ticket is in the cohort, at full depth, along the tree's own path |
| `Inclusion.InnerNodeAccepted` | crates/mirror-pool-merkle/src/lib.rs:97-104 | without separate domains a shorter path can end at an inner node |
| `Lifecycle.WalksAreShort` | crates/mirror-pool-core/src/lib.rs:162-183 | no walk along permitted edges revisits a state, passes a terminal one or has more than seven edges |
| `Lifecycle.RunsSettle` | crates/mirror-pool-core/src/lib.rs:206-276 | over every run of operations root and schedule are set at most once, the cohort is closed from sealing on, terminal rounds are fixed and only permitted edges are taken |
| `Lifecycle.EdgesExactly` | crates/mirror-pool-core/src/lib.rs:162-183 | the permitted edges are exactly one step along the chain, cancelling from every state that is not terminal, and expiring from three |
| `Lifecycle.RegisteredExactly` | crates/mirror-pool-core/src/lib.rs:220-238 | a registration counts if and only if the round is open, before its deadline and below the cap; each error if and only if its cause |
| `Lifecycle.SealedExactly` | crates/mirror-pool-core/src/lib.rs:241-250 | sealing succeeds if and only if the round is at its threshold with at least the minimum and no root; each error if and only if its cause |
| `Lifecycle.ScheduledExactly` | crates/mirror-pool-core/src/lib.rs:253-275 | scheduling succeeds if and only if the round is sealed without a release, the delay is within bounds and the window fits; each error if and only if its cause |
| `Lifecycle.RootOrigin` | crates/mirror-pool-core/src/lib.rs:241-250 | over every run a root that appears was passed to a sealing whose minimum the final count meets |
| `Lifecycle.ReleaseOrigin` | crates/mirror-pool-core/src/lib.rs:253-275 | over every run a release that appears lies within the delays of the operation that set it, with its window |
| `Lifecycle.CountOrigin` | crates/mirror-pool-core/src/lib.rs:220-238 | over every run a count that grew is within the cap of some registration made before the deadline |
| `Lifecycle.CountClimbs` | crates/mirror-pool-core/src/lib.rs:220-238 | over every run the count never falls and grows by at most the number of registrations |
| `Lifecycle.Round.Transition` | crates/mirror-pool-core/src/lib.rs:208-217 | moves along a permitted edge or changes nothing |
| `Lifecycle.Round.Register` | crates/mirror-pool-core/src/lib.rs:220-238 | counts one registration or changes nothing |
| `Lifecycle.Round.Seal` | crates/mirror-pool-core/src/lib.rs:241-250 | sets the root and seals, or changes nothing; `SealedExactly` says when |
| `Lifecycle.Round.ScheduleRelease` | crates/mirror-pool-core/src/lib.rs:253-275 | sets the whole window and schedules, or changes nothing |
| `Program.Coordination.InitializePool` | programs/mirror-pool-program/src/lib.rs:202-254 | checking the policy first, creates the pool at its derived, unused address with counter zero, or fails as specified; keeps the ledger well-formed and counts conserved |
| `Program.Coordination.OpenRound` | programs/mirror-pool-program/src/lib.rs:256-327 | opens the pool's next round in registration and advances its counter, or fails as specified, an overflow leaving the allocated account behind for the rollback |
| `Program.Coordination.RegisterTransparent` | programs/mirror-pool-program/src/lib.rs:329-390 | adds one record and one count, reaching the threshold when due, or fails as specified |
| `Program.Coordination.PublishRoot` | programs/mirror-pool-program/src/lib.rs:392-418 | publishes root and count together and reaches the threshold, or fails as specified; `PublishesExactly` says when |
| `Program.Coordination.Seal` | programs/mirror-pool-program/src/lib.rs:420-435 | seals a round at its threshold, or fails as specified |
| `Program.Coordination.Schedule` | programs/mirror-pool-program/src/lib.rs:437-461 | fixes release and window end together, or fails as specified, overflow included |
| `Program.Coordination.BeginWindow` | programs/mirror-pool-program/src/lib.rs:462-477 | opens the window for anyone inside it, or fails as specified |
| `Program.Coordination.Finalize` | programs/mirror-pool-program/src/lib.rs:478-494 | completes a round after its window with a nonzero metrics hash, or fails as specified |
| `Program.Coordination.Cancel` | programs/mirror-pool-program/src/lib.rs:495-511 | cancels a round that is not terminal, or fails as specified |
| `Program.Coordination.CloseRound` | programs/mirror-pool-program/src/lib.rs:512-534 | removes a terminal round's account, or fails as specified |
| `Program.Coordination.CreatePdaAccount` | programs/mirror-pool-program/src/lib.rs:570-598 | a live account is refused as already initialised, an owned account still zero is taken as it is, otherwise one is allocated or creation fails |
| `Program.Coordination.AdminAccounts` | programs/mirror-pool-program/src/lib.rs:536-569 | signature, ownership and type are checked in that order before either account is read |
| `Program.Coordination.Dispatch` | programs/mirror-pool-program/src/lib.rs:136-199 | each handler's outcome is the specified one and a success keeps the invariant |
| `Program.Coordination.ProcessInstruction` | programs/mirror-pool-program/src/lib.rs:136-199 | commits exactly on success; any failure, also one after an account was allocated, leaves every account as it was; the invariant is kept |
| `Program.Coordination.ProcessAll` | programs/mirror-pool-program/src/lib.rs:136-199 | a whole run from an empty ledger ends well-formed with every count conserved |
| `LedgerOutcomes.InitializesExactly` | programs/mirror-pool-program/src/lib.rs:202-254 | for every ledger and call, initialising succeeds if and only if the policy bounds, signature, derivation and an unused address allow; the ledger then |
| `LedgerOutcomes.OpensExactly` | programs/mirror-pool-program/src/lib.rs:256-327 | opening succeeds if and only if the running pool of the signing authority is given its own template, its next number, a deadline ahead and an unused derived address; the ledger then |
| `LedgerOutcomes.RegistersOnExactly` | programs/mirror-pool-program/src/lib.rs:329-390 | registering succeeds if and only if the open transparent round of the pool has room and time and the derived record is unused; the ledger then |
| `LedgerOutcomes.PublishesExactly` | programs/mirror-pool-program/src/lib.rs:392-418 | publishing succeeds if and only if the authority of the round's own Merkle pool gives a nonzero root and a count between the bounds to a round in registration without a root; the ledger then |
| `LedgerOutcomes.SealsExactly` | programs/mirror-pool-program/src/lib.rs:420-435 | sealing succeeds if and only if the own authority seals a round at its threshold with the minimum counted; the ledger then |
| `LedgerOutcomes.SchedulesExactly` | programs/mirror-pool-program/src/lib.rs:437-461 | scheduling succeeds if and only if the round is sealed without a release, the release lies within the delays and the window fits; the ledger then |
| `LedgerOutcomes.BeginsExactly` | programs/mirror-pool-program/src/lib.rs:462-477 | beginning succeeds, for anyone, if and only if a scheduled round is inside its window, both ends included; the ledger then |
| `LedgerOutcomes.FinalizesExactly` | programs/mirror-pool-program/src/lib.rs:478-494 | finalizing succeeds if and only if a running round is strictly past its window and the metrics hash is not zero; the ledger then |
| `LedgerOutcomes.CancelsExactly` | programs/mirror-pool-program/src/lib.rs:495-511 | cancelling succeeds if and only if the round is not terminal; the ledger then |
| `LedgerOutcomes.ClosesExactly` | programs/mirror-pool-program/src/lib.rs:512-534 | closing succeeds if and only if the round is terminal and the refund can be made; the ledger then |
| `LedgerOutcomes.OwnerSucceeds` | programs/mirror-pool-program/src/lib.rs:392-461 | on every ledger in order, for the owner of a live round: exactly when publishing, sealing and scheduling succeed, sealing at every threshold reached |
| `LedgerOutcomes.OwnerOpens` | programs/mirror-pool-program/src/lib.rs:256-327 | on every ledger in order a pool's next round opens for its authority if and only if the deadline is ahead and numbers are left |
| `LedgerOutcomes.NextIsUnused` | programs/mirror-pool-program/src/lib.rs:256-327 | on every ledger in order there is no account at a pool's next round number, under any bump |
| `LedgerOutcomes.AccountErrors` | programs/mirror-pool-program/src/lib.rs:536-569 | which of the account errors, in the order of the checks |
| `LedgerOutcomes.GuardErrors` | programs/mirror-pool-program/src/lib.rs:392-534 | which errors an administrative instruction can give once both accounts are read |
| `LedgerOutcomes.OverflowErrors` | programs/mirror-pool-program/src/lib.rs:437-534 | scheduling and closing overflow if and only if everything else is in order |
| `LedgerOutcomes.InitializeErrors` | programs/mirror-pool-program/src/lib.rs:202-254 | each error of initialising if and only if its cause, in the order of the checks |
| `LedgerOutcomes.OpenErrors` | programs/mirror-pool-program/src/lib.rs:256-327 | each error of opening if and only if its cause, overflow last |
| `LedgerOutcomes.RegisterErrors` | programs/mirror-pool-program/src/lib.rs:346-387 | each error of registering if and only if its cause |
| `LedgerOutcomes.BeginErrors` | programs/mirror-pool-program/src/lib.rs:462-477 | each error of beginning a window if and only if its cause |
| `LedgerInvariant.AlwaysWellFormed` | programs/mirror-pool-program/src/lib.rs:202-494 | after every prefix of every run: what each state implies for count, root, window, metrics and template; `Finalizing` and `Expired` unreached; a live transparent round's count is the number of records naming it |
| `LedgerInvariant.AdminRoundLawful` | programs/mirror-pool-program/src/lib.rs:392-511 | each administrative instruction takes a lawful round to a lawful round of the same identity |
| `LedgerInvariant.RecordAdded` | programs/mirror-pool-program/src/lib.rs:355-387 | a registration adds one record to its own round's records and to no other's |
| `LedgerRuns.StepOnRound` | programs/mirror-pool-program/src/lib.rs:329-534 | a live round changes only by an instruction naming it, exactly as that instruction says |
| `LedgerRuns.FrozenOverRuns` | programs/mirror-pool-program/src/lib.rs:392-534 | over any stretch: identity fixed, state climbs, count and root fixed from publication or sealing on, window from scheduling on, terminal rounds fixed |
| `LedgerRuns.LiveBetween` | programs/mirror-pool-program/src/lib.rs:512-534 | a round live at two times was live throughout |
| `LedgerRuns.PoolCountsOpens` | programs/mirror-pool-program/src/lib.rs:319-324 | a pool never changes except that its counter counts the rounds it opened |
| `LedgerRuns.NeverReopened` | programs/mirror-pool-program/src/lib.rs:271-303 | no pool opens a round number twice, under any bump, closed in between or not |
| `LedgerRefinement.StepFollowsGraph` | crates/mirror-pool-core/src/lib.rs:162-183 | each instruction on a live round is a walk of none, one or, exactly for finalization, two permitted edges |
| `LedgerRefinement.RunFollowsGraph` | crates/mirror-pool-core/src/lib.rs:162-183 | between any two times a live round has moved along permitted edges |
| `LedgerRefinement.OnChainRefinesCore` | programs/mirror-pool-program/src/lib.rs:329-511 | every step that leaves a live round there is a sequence of the core round's own operations, from any core round it stood for to one it stands for; the core accepts them if and only if the step is no publication or its slot is before the deadline |
| `LedgerRefinement.PublishingExactly` | crates/mirror-pool-core/src/lib.rs:220-238 | the core accepts the registrations behind a publication if and only if they come before the deadline |
| `LedgerRefinement.LateHasNoCounterpart` | programs/mirror-pool-program/src/lib.rs:392-418 | no core operations whose registrations come from the deadline on lead to what a publication leaves behind |
| `LedgerRefinement.PublicationIgnoresClock` | programs/mirror-pool-program/src/lib.rs:392-418 | a publication succeeds at every slot or at none, with the same effect |
| `LedgerRefinement.PublishedPastDeadline` | programs/mirror-pool-program/src/lib.rs:392-418 | a run in which a round reaches its quorum by a publication at any slot past its deadline |
| `LedgerRefinement.ReachableExactly` | crates/mirror-pool-core/src/lib.rs:206-276 | over every run, with any slots given to publications: the core accepts the whole history of a live round from its draft on if and only if every publication on it is before its deadline, and then the round stands for the core round reached |
| `LedgerRefinement.ReachableInCore` | crates/mirror-pool-core/src/lib.rs:206-276 | with the instructions' own slots that holds if and only if no publication on the round was late |
| `LedgerRefinement.ReachableAtSomeSlots` | crates/mirror-pool-core/src/lib.rs:206-276 | at some slots the core reaches every live on-chain round |
| `LedgerRuns.RunSpends` | programs/mirror-pool-program/src/lib.rs:329-534 | every successful instruction on a round spends a bounded budget that nothing replenishes |
| `LedgerRuns.InstructionsBounded` | programs/mirror-pool-program/src/lib.rs:305-534 | after it is opened a round accepts at most max_participants + 5 successful instructions |
| `LedgerRuns.ScheduleOrigin` | programs/mirror-pool-program/src/lib.rs:437-461 | every scheduled, running or completed round has the instruction that fixed its window, within the delay bounds of the pool named there |
| `LedgerRuns.BeginOrigin` | programs/mirror-pool-program/src/lib.rs:462-477 | every running or completed round began at a slot inside its window |
| `LedgerRuns.CompletionTiming` | programs/mirror-pool-program/src/lib.rs:437-494 | a finalization was preceded by a schedule and then a begin inside the window, and came strictly later than schedule slot + minimum delay + execution window |
| `LedgerRuns.MissedWindow` | programs/mirror-pool-program/src/lib.rs:466-472 | with ascending slots, a round not begun by its window's end can only be cancelled |
| `LedgerRuns.RegistrationCloses` | programs/mirror-pool-program/src/lib.rs:346-354 | with ascending slots, a round's records never change from its deadline on |
| `LedgerRuns.CountCloses` | programs/mirror-pool-program/src/lib.rs:346-418 | with ascending slots, from the deadline on a live round's count stays as it is if and only if nobody publishes on it |
| `LedgerHistory.PoolOrigin` | programs/mirror-pool-program/src/lib.rs:236-251 | every pool carries the policy of the instruction that created it |
| `LedgerHistory.AuthorityOverRuns` | programs/mirror-pool-program/src/lib.rs:536-562 | every administrative instruction was signed by the authority that signed the initialisation of the pool it names, which need not be the round's own |
| `LedgerAuthority.WhoseAuthority` | programs/mirror-pool-program/src/lib.rs:346-534 | corollary: registration, publication and sealing name the round's own pool; scheduling, finalizing, cancelling and closing are signed by the named pool's authority |
| `LedgerAuthority.OwnAuthorityExactly` | programs/mirror-pool-program/src/lib.rs:437-534 | whatever moves a live round on or removes it is signed by its own pool's authority if and only if every pool on the ledger has that authority |
| `LedgerAuthority.OwnAuthorityOverRuns` | programs/mirror-pool-program/src/lib.rs:437-534 | over runs, a live round obeys its own authority if and only if every pool made so far was made for it |
| `LedgerAuthority.AuthorityOfOwnPool` | programs/mirror-pool-program/src/lib.rs:437-534 | corollary over runs: such an instruction was signed by the authority that initialised the pool it names, beside the one that initialised the round's own |
| `LedgerAuthority.AnyoneCancels` | programs/mirror-pool-program/src/lib.rs:495-511 | any pool's authority cancels exactly the rounds that are not terminal |
| `LedgerAuthority.AnyoneCloses` | programs/mirror-pool-program/src/lib.rs:512-534 | any pool's authority closes exactly the terminal rounds |
| `LedgerAuthority.AnyoneSchedules` | programs/mirror-pool-program/src/lib.rs:437-461 | any pool's authority schedules exactly the sealed rounds, within its own pool's delays, and the window is its own pool's |
| `LedgerAuthority.AnyoneFinalizes` | programs/mirror-pool-program/src/lib.rs:478-494 | any pool's authority completes exactly the running rounds past their window, with metrics of its choice |
| `LedgerAuthority.OwnWindow` | programs/mirror-pool-program/src/lib.rs:437-461 | corollary: a window has the length of the pool named when scheduling; scheduled with the own pool named, release and window obey the own policy |
| `LedgerAuthority.ForeignCancelAndClose` | programs/mirror-pool-program/src/lib.rs:495-534 | a run of five successful instructions in which the second pool's authority cancels and closes the first pool's round |
| `LedgerKeys.CountAgainstKeys` | programs/mirror-pool-program/src/lib.rs:356-387 | a live transparent round's count is at least the number of its distinct keys, at most 256 times that, and equal if and only if no two records share a key |
| `LedgerKeys.CountAgainstKeysOverRuns` | programs/mirror-pool-program/src/lib.rs:356-387 | the same after every prefix of every run |
| `LedgerKeys.RegistersExactly` | programs/mirror-pool-program/src/lib.rs:346-374 | a registration succeeds exactly with room, in time, under a derivable bump not used for that key |
| `LedgerKeys.KeyRegistersExactly` | programs/mirror-pool-program/src/lib.rs:346-374 | a key, registered or not, registers exactly when room, time and an unused derivable bump allow |
| `LedgerKeys.RegisteredKeys` | programs/mirror-pool-program/src/lib.rs:370-387 | a registration adds one to the count and its key to the distinct keys |
| `LedgerKeys.OncePerBump` | programs/mirror-pool-program/src/lib.rs:356-374 | over every run a key registers in a round at most once under each bump |
| `LedgerKeys.OneKeyQuorum` | programs/mirror-pool-program/src/lib.rs:356-387 | a run in which one key under two bumps takes a round with minimum two to its threshold |
| `LedgerHistory.RoundOrigin` | programs/mirror-pool-program/src/lib.rs:272-324 | every round was opened by its pool before its own deadline, with the fields given then |
| `LedgerHistory.RecordOrigin` | programs/mirror-pool-program/src/lib.rs:346-387 | every participant record was made by a registration before the deadline |
| `LedgerHistory.ClosedWhenTerminal` | programs/mirror-pool-program/src/lib.rs:512-534 | a round account disappears only by closing a completed or cancelled round |
| `Codec.TakeAllPutAll` | programs/mirror-pool-program/src/lib.rs:599-602 | reading any list of fields undoes writing it, whatever follows |
| `Codec.PutAllTakeAll` | programs/mirror-pool-program/src/lib.rs:599-602 | only canonical bytes are read |
| `Codec.PoolSize` | programs/mirror-pool-program/src/lib.rs:52-67 | a pool takes 140 of its 256 bytes |
| `Codec.RoundSize` | programs/mirror-pool-program/src/lib.rs:70-84 | a round takes 167 of its 256 bytes |
| `Codec.RecordSize` | programs/mirror-pool-program/src/lib.rs:87-93 | a participant record takes 66 of its 96 bytes |
| `Codec.PoolRoundTrip` | programs/mirror-pool-program/src/lib.rs:599-612 | a pool is read back from any bytes that begin with its encoding |
| `Codec.RoundRoundTrip` | programs/mirror-pool-program/src/lib.rs:599-612 | a round is read back from any bytes that begin with its encoding |
| `Codec.RecordRoundTrip` | programs/mirror-pool-program/src/lib.rs:599-612 | a record is read back from any bytes that begin with its encoding |
| `Codec.WriteAccount` | programs/mirror-pool-program/src/lib.rs:603-612 | the buffer becomes the encoding followed by zeros, or, when too small, stays as it was |
| `Codec.StorePool` | programs/mirror-pool-program/src/lib.rs:599-612 | the pool written is the pool read, whatever the buffer held |
| `Codec.StoreRound` | programs/mirror-pool-program/src/lib.rs:599-612 | the round written is the round read, whatever the buffer held |
| `Codec.StoreRecord` | programs/mirror-pool-program/src/lib.rs:599-612 | the record written is the record read, whatever the buffer held |
| `Codec.InstructionFormat` | programs/mirror-pool-program/src/lib.rs:96-142 | a byte string decodes to an instruction if and only if it is its encoding, whose bytes are those of `WireBytes` |
| `Codec.EncodeInjective` | crates/mirror-pool-client/src/lib.rs:313-319 | different instructions have different encodings |
| `WireBytes.BareInstructionBytes` | programs/mirror-pool-program/src/lib.rs:96-131 | sealing, beginning, cancelling and closing are the single bytes 4, 6, 8 and 9 |
| `WireBytes.InitializeBytesAre` | programs/mirror-pool-program/src/lib.rs:96-131 | the bytes of an initialisation: 0, then each argument at its place |
| `WireBytes.OpenBytesAre` | programs/mirror-pool-program/src/lib.rs:96-131 | the bytes of an opening: 1, then each argument at its place |
| `WireBytes.RegisterBytesAre` | programs/mirror-pool-program/src/lib.rs:96-131 | the bytes of a registration: 2, the key, the bump |
| `WireBytes.PublishBytesAre` | programs/mirror-pool-program/src/lib.rs:96-131 | the bytes of a publication: 3, the root, the count in four bytes |
| `WireBytes.ScheduleBytesAre` | programs/mirror-pool-program/src/lib.rs:96-131 | the bytes of a schedule: 5, the slot in eight bytes |
| `WireBytes.FinalizeBytesAre` | programs/mirror-pool-program/src/lib.rs:96-131 | the bytes of a finalization: 7, the metrics hash |
| `WireBytes.FirstByteTells` | programs/mirror-pool-program/src/lib.rs:96-142 | the first byte of whatever decodes tells which instruction it is |
| `WireBytes.LeByte` | programs/mirror-pool-program/src/lib.rs:599-612 | numbers are little-endian: byte i is the digit of 256^i |
| `WireBytes.PoolBytesAre` | programs/mirror-pool-program/src/lib.rs:52-67 | the bytes of a pool, field by field |
| `WireBytes.RoundBytesAre` | programs/mirror-pool-program/src/lib.rs:70-84 | the bytes of a round, field by field, and the number of each state |
| `WireBytes.RecordBytesAre` | programs/mirror-pool-program/src/lib.rs:87-93 | the bytes of a record, field by field |
| `AccountTypes.ReadableExactly` | programs/mirror-pool-program/src/lib.rs:599-602 | bytes read as a list of fields if and only if they are long enough and every one-byte choice is known |
| `AccountTypes.ReadsAsRound` | programs/mirror-pool-program/src/lib.rs:70-84 | bytes read as a round if and only if there are 167 and byte 42 is below nine |
| `AccountTypes.ReadsAsPool` | programs/mirror-pool-program/src/lib.rs:52-67 | bytes read as a pool if and only if there are 140 and bytes 130 and 139 are below two |
| `AccountTypes.PoolReadsAsRound` | programs/mirror-pool-program/src/lib.rs:599-602 | a pool account reads as a round if and only if the ninth byte of its pool id is below nine |
| `AccountTypes.RoundReadsAsPool` | programs/mirror-pool-program/src/lib.rs:599-602 | a round account reads as a pool if and only if the fourth byte of its window end and the fifth of its metrics hash are below two |
| `AccountTypes.RecordReadsAsNeither` | programs/mirror-pool-program/src/lib.rs:599-602 | a 96-byte record account reads as neither |
| `AccountMisreads.PoolAsRound` | programs/mirror-pool-program/src/lib.rs:599-602 | a pool buffer whose id's ninth byte is below nine reads as a round in the state that byte names, whose encoding, filled up, is the buffer |
| `AccountMisreads.CancelRenames` | programs/mirror-pool-program/src/lib.rs:599-612 | that round, cancelled and written back, is the buffer of the pool with that byte seven |
| `ByteLedger.RealIsLawful` | programs/mirror-pool-program/src/lib.rs:570-612 | the program's own reading and writing of accounts meets what the machine on bytes needs |
| `ByteAgreement.StepAgrees` | programs/mirror-pool-program/src/lib.rs:136-612 | one step of the program on bytes is one step of the typed ledger, whatever accounts the call passes, when every pool id's ninth byte is at least nine and no derived address signs |
| `ByteAgreement.BytesFollow` | programs/mirror-pool-program/src/lib.rs:136-612 | over every run that meets those conditions the bytes on chain are those of the typed ledger |
| `ByteExactness.CancelOnPool` | programs/mirror-pool-program/src/lib.rs:495-511 | on bytes, any pool's authority cancels a pool whose byte is below six, which sets the byte to seven |
| `ByteExactness.CloseOnPool` | programs/mirror-pool-program/src/lib.rs:512-534 | on bytes, any pool's authority closes a pool whose byte is six, seven or eight |
| `ByteExactness.AgreeExactly` | programs/mirror-pool-program/src/lib.rs:136-612 | bytes and typed accounts agree on every call by an ordinary signer if and only if every pool id's ninth byte is at least nine |
| `Store.AcceptKeeps` | crates/mirror-pool-store/src/lib.rs:110-136 | accepting a ticket keeps the database in order and only adds to it |
| `Store.SealTxSeals` | crates/mirror-pool-store/src/lib.rs:148-180 | a sealing transaction that succeeds seals the round with exactly the commitments present, at least the minimum; `StoreOutcomes.SealsExactly` says when it succeeds |
| `Store.SealTxKeeps` | crates/mirror-pool-store/src/lib.rs:148-180 | sealing keeps the database in order, event log included, and only adds to it |
| `Store.ScheduleTxKeeps` | crates/mirror-pool-store/src/lib.rs:228-229 | scheduling keeps the database in order and only adds to it |
| `Store.SealIdempotent` | crates/mirror-pool-store/src/lib.rs:145-147 | a sealed round answers every later seal with the same root and count and writes nothing |
| `Store.ScheduleIdempotent` | crates/mirror-pool-store/src/lib.rs:220-227 | repeating a schedule succeeds, any other conflicts, neither writes |
| `Store.CommitmentsDistinct` | crates/mirror-pool-store/src/lib.rs:17 | a round's commitments are pairwise distinct |
| `Store.SealedPromise` | crates/mirror-pool-store/src/lib.rs:148-171 | a sealed round has a stored proof for exactly the commitments its rows had at sealing; each is its commitment's and verifies against the stored root and round, and the stored count is their number |
| `Store.OnlyAcceptedTickets` | crates/mirror-pool-store/src/lib.rs:148-171 | a proof accepted against a stored root, for any bytes, yields a collision unless those bytes are a ticket accepted before sealing |
| `StoreOutcomes.AcceptsExactly` | crates/mirror-pool-store/src/lib.rs:110-136 | a ticket is accepted if and only if its round number can be stored and no stored ticket has its commitment or its key in its round; each error if and only if its cause |
| `StoreOutcomes.CountsExactly` | crates/mirror-pool-store/src/lib.rs:233-241 | the count is the number of stored tickets of the pool and round; each error if and only if its cause |
| `StoreOutcomes.SealsExactly` | crates/mirror-pool-store/src/lib.rs:148-181 | on every database in order a round not yet sealed is sealed if and only if it has 1 to 100,000 tickets and at least the minimum; below the minimum the answer says so, and no constraint is ever violated |
| `StoreOutcomes.SealCallExactly` | crates/mirror-pool-store/src/lib.rs:139-181 | the same for the whole call, which gives a sealed round its stored root and count |
| `StoreOutcomes.SchedulesExactly` | crates/mirror-pool-store/src/lib.rs:213-230 | a window is stored if and only if the round has none and the slots can be stored; the same again succeeds, another conflicts |
| `StoreRuns.AlwaysOk` | crates/mirror-pool-store/src/lib.rs:110-230 | after any interleaving the database is in order, one event per ticket row and per sealed round, and every successful reply is still true of it |
| `StoreRuns.GrowsAlong` | crates/mirror-pool-store/src/lib.rs:17-25 | no stored row, root, proof, schedule or event is ever changed or removed |
| `StoreRuns.Agreement` | crates/mirror-pool-store/src/lib.rs:139-230 | all successful seals of a round returned one root and count, all successful schedules passed one window, and the database holds them |
| `StoreRuns.ActSeals` | crates/mirror-pool-store/src/lib.rs:148-180 | a round becomes sealed only by the transaction of a caller sealing it, with the rows then present |
| `StoreRuns.SealedExactlyFrom` | crates/mirror-pool-store/src/lib.rs:19 | a round is sealed exactly from its sealing step on, so it has only one |
| `StoreRuns.SealedCohortFixed` | crates/mirror-pool-store/src/lib.rs:148-181 | at every later time root, count and proofs are those of the commitments present at the sealing step, which met its caller's minimum |
| `StoreRuns.SealedCohortExact` | crates/mirror-pool-store/src/lib.rs:148-171 | at every time after the sealing step the proofs stored are those of exactly the commitments present at that step, each verifies, and the count is their number |
| `StoreRuns.ReplyPromise` | crates/mirror-pool-store/src/lib.rs:139-210 | for any successful caller of sealing there is the sealing step; the proofs stored are those of exactly the commitments present then, each verifies against the root the caller was given, and the count it was given is their number |
| `StoreRuns.AcceptedGetsProof` | crates/mirror-pool-store/src/lib.rs:110-210 | a ticket whose acceptance was answered before its round was sealed has, ever after sealing, a stored proof that verifies against the round's root |
| `DurableStore.Database.AcceptTicket` | crates/mirror-pool-store/src/lib.rs:110-136 | the method is the accepting transaction |
| `DurableStore.Database.SelectCommitments` | crates/mirror-pool-store/src/lib.rs:149-160 | reads a round's commitments in ascending order |
| `DurableStore.Database.TicketCount` | crates/mirror-pool-store/src/lib.rs:233-241 | counts a round's rows, refusing a round number or a count out of range |
| `DurableStore.Database.InsertProofs` | crates/mirror-pool-store/src/lib.rs:168-171 | the proof loop stores the generated proof of every leaf, or refuses when one is there already |
| `DurableStore.Database.SealCohort` | crates/mirror-pool-store/src/lib.rs:139-181 | check, tree, root and proof loops together are the specified sealing; `StoreOutcomes.SealCallExactly` says when it succeeds |
| `DurableStore.Database.ScheduleRelease` | crates/mirror-pool-store/src/lib.rs:213-230 | the method is the specified scheduling |
| `RateLimit.CountWithinLimit` | crates/mirror-pool-coordinator/src/lib.rs:116-119 | the count stays within the limit, so the saturating increment never saturates |
| `RateLimit.PassesInSpan` | crates/mirror-pool-coordinator/src/lib.rs:110-121 | in any half-open span of k minutes at most k + 1 times the limit passes |
| `RateLimit.BoundAttained` | crates/mirror-pool-coordinator/src/lib.rs:110-121 | for every limit and every k some schedule of calls attains that bound |
| `Admission.AlwaysOk` | crates/mirror-pool-coordinator/src/lib.rs:126-153 | under any interleaving of submissions and seals: mutual exclusion, counts made under the lock stay good, rows beyond the start are exactly the admitted tickets, and every successful reply is true of the store |
| `Admission.AdmissionSafe` | crates/mirror-pool-coordinator/src/lib.rs:126-142 | the round never exceeds its maximum, and every ticket added was signed, matched the binding and had not expired |
| `Admission.AdmissionDistinct` | crates/mirror-pool-coordinator/src/lib.rs:126-142 | any two rows of one round differ in key and commitment |
| `Admission.AloneIsSubmit` | crates/mirror-pool-coordinator/src/lib.rs:126-142 | an uninterrupted request in the interleaved model finishes after five steps with the reply and database of one submission |
| `Admission.VerifiesExactly` | crates/mirror-pool-crypto/src/lib.rs:69-97 | a ticket verifies if and only if version, pool, round and template match, its expiry is ahead and its signature holds |
| `Admission.SubmitsExactly` | crates/mirror-pool-coordinator/src/lib.rs:110-142 | a submission succeeds if and only if the gate is open, the ticket verifies, fewer than the maximum are stored for the round and no stored ticket has its commitment or key; each refusal if and only if its cause |
| `AdmissionRate.LetWithinPasses` | crates/mirror-pool-coordinator/src/lib.rs:110-142 | tickets admitted and requests in flight never exceed the calls that passed the gate, in any span |
| `AdmissionRate.AdmittedInSpan` | crates/mirror-pool-coordinator/src/lib.rs:110-142 | of the tickets admitted, at most k + 1 times the limit came from requests that passed the gate in any one span of k minutes |
| `Coordinator.Service.CheckRate` | crates/mirror-pool-coordinator/src/lib.rs:110-121 | the limiter update and verdict are the specified ones |
| `Coordinator.Service.SubmitTicket` | crates/mirror-pool-coordinator/src/lib.rs:126-142 | the store and the reply, error by error, are those of the specified submission |
| `Coordinator.Service.Seal` | crates/mirror-pool-coordinator/src/lib.rs:143-153 | seals the configured round with the configured minimum |
| `Coordinator.Service.Proof` | crates/mirror-pool-coordinator/src/lib.rs:154-165 | returns the stored proof of a commitment, if any |
| `Simulator.Evaluate` | crates/mirror-pool-simulator/src/lib.rs:103-196 | which error or report, exactly; a report carries the scenario, the metrics of the specified trace and the hash of its serialisation |
| `Simulator.TraceHashBinds` | crates/mirror-pool-simulator/src/lib.rs:173-177 | one trace hash stands for one serialised trace, or two byte strings collide |
| `Simulator.TraceDomainString` | crates/mirror-pool-simulator/src/lib.rs:173-177 | the trace is hashed under its own domain name |
| `Simulator.Measure` | crates/mirror-pool-simulator/src/lib.rs:198-255 | every metric is what it claims to be: sizes, completion, spread, percentiles, group counts, entropy, confusion counts, rates and ranking area |
| `Simulator.MeasureEntropy` | crates/mirror-pool-simulator/src/lib.rs:220-223 | the loop over groups computes the mean, over all observations, of minus the logarithm of the observation's class share |
| `Simulator.MeasureArea` | crates/mirror-pool-simulator/src/lib.rs:269-291 | the ranking area is the share of pairs won, ties counting half |
| `Simulator.LinkageConsistent` | crates/mirror-pool-simulator/src/lib.rs:225-267 | the four confusion counts partition the observed, the rates are shares, recall and false-negative rate add up to one |
| `Simulator.TimingConsistent` | crates/mirror-pool-simulator/src/lib.rs:203-209 | the median deviation is at most the 95th percentile |
| `Statistics.AreaIsShare` | crates/mirror-pool-simulator/src/lib.rs:269-291 | the area lies between zero and one, and is one exactly when every linked observation outscores every other |
| `Statistics.PercentileMonotone` | crates/mirror-pool-simulator/src/lib.rs:203-209 | a larger fraction of a sorted list picks no smaller value |
| `Statistics.RankIsNearest` | crates/mirror-pool-simulator/src/lib.rs:203-209 | the rank a percentile picks is the index nearest to the product, the upper one at a half |
| `Statistics.RankExamples` | crates/mirror-pool-simulator/src/lib.rs:203-209 | the median of an odd list is its middle, and the fractions zero and one pick its ends |
| `Statistics.F1Between` | crates/mirror-pool-simulator/src/lib.rs:246-251 | F1 lies between precision and recall |
| `Statistics.RatioIs` | crates/mirror-pool-simulator/src/lib.rs:292-294 | a rate is the quotient, zero over nothing |
| `Statistics.WinExactly` | crates/mirror-pool-simulator/src/lib.rs:269-291 | a pair counts one when won, half when tied, nothing when lost |
| `Statistics.EntropyOfEqualClasses` | crates/mirror-pool-simulator/src/lib.rs:220-223 | when all classes have one size, the entropy is minus the logarithm of their share |
| `Evaluation.StrategyBoundsSpread` | crates/mirror-pool-simulator/src/lib.rs:108-215 | for all draws a strategy can make, spread, median and 95th percentile stay within its reach: zero at a fixed slot, three or two slots or the whole window otherwise |
| `Evaluation.JudgedBySignal` | crates/mirror-pool-simulator/src/lib.rs:153-165 | a score is a share; under admissible noise 14 points of signal or more are judged linked, nine or fewer are not |
| `Evaluation.ObservedOf` | crates/mirror-pool-simulator/src/lib.rs:108-171 | what is observed of a participant, feature by feature |
| `Evaluation.SlotsExactly` | crates/mirror-pool-simulator/src/lib.rs:110-122 | where each strategy puts a participant |
| `Evaluation.ScenarioEdges` | crates/mirror-pool-simulator/src/lib.rs:186-196 | which scenarios are evaluated, at the edges |
| `Simulator.GroupByFingerprint` | crates/mirror-pool-simulator/src/lib.rs:216-219 | the group map counts each fingerprint's occurrences |
| `Simulator.SmallestGroup` | crates/mirror-pool-simulator/src/lib.rs:236 | the minimum k is attained and is a lower bound of every class |
| `Simulator.MeasureSpread` | crates/mirror-pool-simulator/src/lib.rs:210-215 | latest minus earliest slot |
| `Simulator.SortedDeviations` | crates/mirror-pool-simulator/src/lib.rs:201-202 | an ascending permutation of the timing deviations |
| `Ablation.FewerFeatures` | crates/mirror-pool-simulator/src/lib.rs:108-255 | for the same draws, fewer observer features never lower the minimum k, never raise unique fingerprints, classes, entropy, effective or normalized anonymity, recall or false-positive rate, never lower the false-negative rate, and leave sizes, completion and timing unchanged |
| `Ablation.CompareAblation` | xtask/src/main.rs:584-592 | running the evaluator twice on one seed, the second time with fewer features: when each succeeds, and that the two reports show those relations |
| `Ablation.CoarserMinimum` | crates/mirror-pool-simulator/src/lib.rs:236 | coarsening any partition never lowers its smallest class |
| `Ablation.CoarserSingletons` | crates/mirror-pool-simulator/src/lib.rs:224 | coarsening any partition never raises its number of singletons |
| `Ablation.CoarserEntropy` | crates/mirror-pool-simulator/src/lib.rs:220-223 | coarsening any partition never raises its entropy |
| `Ablation.ClassBound` | crates/mirror-pool-simulator/src/lib.rs:127-152 | with shape, fee, funding and amount observed no class exceeds ceil(participants / 420), whatever the draws |
| `Ablation.AllUnique` | crates/mirror-pool-simulator/src/lib.rs:127-152 | so at 420 participants or fewer every executed fingerprint is unique |
| `Ablation.HistoryRedundant` | crates/mirror-pool-simulator/src/lib.rs:147-152 | dropping history keeps the partition under all draws if and only if there are at most 420 participants or the period count divides 420 |
| `Ablation.ShapeRedundant` | crates/mirror-pool-simulator/src/lib.rs:127-152 | dropping shape keeps it if and only if five divides the period count or there are no more participants than the least common multiple of 84 and the period count |
| `Ablation.TenPeriods` | xtask/src/main.rs:584-592 | at the ten periods the repository's own ablation uses, dropping history or shape changes no partition, whatever the draws |
| `Residues.FourResidues` | crates/mirror-pool-simulator/src/lib.rs:127-146 | the residues modulo 5, 3, 7 and 4 determine a participant modulo 420 |
| `Residues.CommonPeriodByFive` | crates/mirror-pool-simulator/src/lib.rs:147-148 | the least common multiple of 84 and the period count is a multiple of five exactly when the period count is |
| `EndToEnd.PublishedInclusion` | xtask/src/main.rs:412-420 | once the sealed root and count are published, then until the account is closed the database has a proof for exactly the commitments present at the sealing step, each verifies against the on-chain root, and the on-chain count is their number |
| `EndToEnd.PublishedExclusion` | programs/mirror-pool-program/src/lib.rs:392-418 | a proof that verifies against the published root, for any bytes, yields a collision unless those bytes are a ticket the coordinator accepted for the round |
| `AdmittedEndToEnd.PublishedVetted` | crates/mirror-pool-coordinator/src/lib.rs:126-153 | with the coordinator's admission in the loop: a proof that verifies against the published root, for any bytes, yields a collision unless those bytes are a ticket that was signed, matched the binding and had not expired at the slot it was checked, or was there at the start |
| `AdmittedEndToEnd.PublishedCohort` | crates/mirror-pool-coordinator/src/lib.rs:126-165 | the published count is the number of stored proofs and at most the configured maximum, and the proofs are those of exactly the rows present at sealing |

## Left out

- BLAKE3, Ed25519 and JSON serialisation: parameters; only determinism and the domain prefixes are used.
- SQLite engine, write-ahead log, migrations, timestamps, leases, receipts, `put_round` and `insert_pool`: only the tables the sealing path reads and writes, as atomic transactions.
- Axum router, HTTP status mapping, RPC slot source, signal handling, command line, xtask orchestration: plumbing.
- Safety policy, action templates, pool configuration validation and its hash: straight-line checks.
- Solana runtime: rent amounts and lamport balances, CPI internals, borrow errors, short account lists, off-curve search; a call's inputs say whether derivation, creation and the refund succeed. An account reused inside the transaction that closed it is not modelled.
- Simulator.Evaluate: does not model the fixed list of limitations in the report; is given one draw per participant, where the source makes them itself; slots are unbounded, so an overflow of the target slot plus a huge window does not arise.
- Simulator.Measure: states its quantities over reals, without floating-point rounding.
- Admission.VerifiesExactly: does not tell a malformed public key from a bad signature; both refuse the ticket.
- Core round fields that no operation changes, and `cancellation_reason` and `final_metrics_hash`.
- DurableStore.Database.SealCohort: requires the store to be given the program's own commitment and tree construction; the source has no other.
- MerkleBuilder.RootOf: is stated for built cohorts, for which the empty-tree error does not arise.
