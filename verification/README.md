# Verified model of the proof-VRF operator and contracts

A Dafny 4.11 model of the threshold key ceremony, the subscription coordinators, the off-chain recovery and
journals, the ECVRF prover and the V1 router, with proofs about them. `dafny verify dfyconfig.toml` checks the whole
project.

## What is modelled

**Threshold secret sharing.** `Field`, `FieldPowers` and `Polynomial` are arithmetic modulo an abstract prime.
`ThresholdCrypto` has the Euclid inversion, the Lagrange weights and the aggregation; a curve point is its discrete
logarithm, so a pairing check is an equality of products. `ThresholdGroup` validates manifests and their quorums, with
the manifest hash modelled as injective, and an Ed25519 signature as the pair of key and signed value. `ThresholdDkg` finalizes a ceremony from its
packets, `DkgDealing` creates them, and `DkgTheorems` proves agreement and that a reshare keeps the secret; `DkgGuard` is
the reshare whose last guard fires. `DkgQualification` and `ThresholdQuorums` say which packets, dealers and manifests
count in terms of who signed and revealed what. A sealed share opens for one transport key and one context.

**Canonical JSON.** `CanonicalJson` prints values over UTF-16 code units and has a reader for them;
`CanonicalJsonTheorems` proves that printing is canonical and injective, and `CanonicalText` fixes the text itself.

**Subscription coordinators.** `ServiceBase` is the shared storage and its administration, `Lifecycle.dfy` the request
lifecycle of V2 (compact records over append-only versions) and V3 (one hash per request, witness from the caller).
`Coordinator` makes them one machine in which an untrusted callee may call back in with any script.
`BaseInvariants`, `Books`, `Solvency` and `CoordinatorRuns` prove what every transaction and every run keeps, and
`Refinement` that V3 and V2 go through the same states. `Admissions`, `Settlements`, `Accounts` and `Administration` say
of whole transactions and runs when they succeed, who pays whom how much, and who may change what. `ServiceContract` and `CoordinatorContracts` are the contracts
as objects whose methods are proved to be steps of that machine.

**Recovery and durable state.** `CompactHistory` checks witness histories against what V3 can emit, `Signer` is the share
holder with crash points, `ScanIndex` the request index with leases, `NonceJournal` the transaction journal and its
relayer, one atomic action at a time.

**ECVRF.** `Ecvrf` has the square root, the projective addition and the proof construction, in the role of sections 5.1
and 5.3 of RFC 9381 but with s = k - c x, as in docs/PROTOCOL.md:89.

**V1.** `RouterV1` and `RouterContracts` keep the books of the V1 coordinator and router together, and `RouterAccounts`
follows each address's credit through them.

A thrown error or a revert is `None`, `Failure` or `false`; which error is raised is not kept. Integers are unbounded;
where the original bounds them in a way that matters (expiry in 64 bits, safe integers in JSON) the bound is written out.

## Properties that do not hold as promised

- One message per requestId holds per string (`Signer.NeverEquivocates`). Two spellings of one on-chain number are
  safe together if and only if they are the same spelling (`Signer.OneMessagePerSpelling`); every number has others
  (`Signer.PaddedSpelling`), and any two get different messages in some run (`Signer.TwoSpellingsTwoMessages`).
- The node can start again after a run if and only if no process appended a record after an append of its own whose
  flush had failed (`Signer.RestartRestores`). A client that asks again after the failed flush is enough to break the
  log for ever (`Signer.RetryBreaksTheLog`).
- `canonicalJson` is injective up to key order on values without -0 and without array holes
  (`CanonicalJsonTheorems.TextDeterminesValue`). Among the values of the model, which has one constructor for
  everything the printer refuses, two print alike if and only if their canonical values are equal
  (`CanonicalJsonTheorems.PrintsAlike`); -0 with 0 and the array of one hole with the empty array are
  `CanonicalJsonTheorems.PrinterCollisions`.
- In every run, what a send journals is unresolved afterwards if and only if it is new to the journal
  (`NonceJournal.NotedIsOpenExactly`): a dropped transaction signed again to the same bytes is on the wire, may still be
  mined, and the next send goes out with another nonce (`NonceJournal.ResentIsForgotten`).
- A claimed scan range is safe to commit on every chain if and only if its size is at least what it looks back over
  (`ScanIndex.SafeExactly`); a shorter one drops open requests (`ScanIndex.DropsOpenRequest`) and brings closed ones
  back (`ScanIndex.ReopensClosedRequest`), which takes a configuration changed under an existing cursor
  (`ScanIndex.OneConfigurationIsSafe`). Scanning passes the latest block if and only if the range exceeds the lookback
  or covers the chain at once (`ScanIndex.ReachesHeadExactly`).
- A complaint bundle of threshold - 1 shares is open to every constant but the one that the dealers' rule of a nonzero
  top coefficient excludes (`DkgDealing.ConstantsLeftOpen`).
- A dealer's deal gives a recipient its share if and only if the polynomial is not zero at its index
  (`DkgDealing.HonestDealServesEveryone`, `DkgDealing.ZeroShareIsNeverServed`): the curve library refuses to multiply by
  zero, so that recipient complains and no resolution satisfies the others.
- The last guard of a reshare lets it through if and only if the public old shares, weighted by the indexes of the
  dealer roster, sum to the old key (`DkgTheorems.KeyGuardExactly`). It always does when that roster numbers the
  selected dealers as the previous manifest (`DkgTheorems.ReshareKeepsKey`); with two dealers, crossed, it fires unless
  their old shares are equal (`DkgGuard.CrossedReshare`, `DkgGuard.GuardFires`).
- The prover throws on a random nonce if and only if the search gets to one whose challenge is a nonzero multiple of the
  group order (`Ecvrf.GenerateProof`); `Ecvrf.OrderItselfThrows` is the challenge equal to the order.

## Model

| member | source | states |
|---|---|---|
| Field.Mod | operator/threshold-crypto.mjs:61-64 | The truncated remainder moved into the field is the Euclidean residue, for negative values too |
| ThresholdCrypto.Invert | operator/threshold-crypto.mjs:66-78 | The Euclid loop ends; it throws exactly on multiples of the order and otherwise returns the one inverse below it |
| ThresholdCrypto.LagrangeCoefficientAtZero | operator/threshold-crypto.mjs:80-97 | It succeeds exactly on distinct valid indexes that contain the asked one, and returns the nonzero fraction of the two products |
| ThresholdCrypto.InterpolationAtZero | operator/threshold-crypto.mjs:80-97 | For every polynomial with at most as many coefficients as indexes, the weights applied to its values give its constant term |
| ThresholdCrypto.ExpectedSharePoint | operator/threshold-dkg.mjs:226-239 | The running-power loop over the commitments is polynomial evaluation at the index; it throws exactly on an undecodable commitment |
| ThresholdCrypto.VerifyPublicShareCommitment | operator/threshold-crypto.mjs:138-155 | True exactly when the public share is the committed polynomial at its index; which inputs throw |
| ThresholdCrypto.AggregateThresholdShares | operator/threshold-crypto.mjs:157-196 | Accepts exactly the share lists that combine, and whatever it returns is the signature under the group key |
| ThresholdCrypto.AggregateIsUnique | operator/threshold-crypto.mjs:157-196 | Any threshold or more verified shares of one polynomial, in any order, combine, always to the signature of its constant term |
| ThresholdCrypto.CombinesExactly | operator/threshold-crypto.mjs:157-196 | Shares combine if and only if at least threshold of them, under distinct indexes, each sign the message and their public shares interpolate to the group key |
| ThresholdGroup.NormalizeBody | operator/threshold-group.mjs:129-282 | Accepts exactly the valid manifest bodies, the commitment check on every share included |
| ThresholdGroup.ValidateAttestations | operator/threshold-group.mjs:298-324 | Accepts exactly quorums of distinct known signers of this hash, and returns their ids |
| ThresholdGroup.ValidateGroupManifest | operator/threshold-group.mjs:326-386 | Accepts exactly valid manifests with their attestation and, for a reshare, handoff quorum under a trusted predecessor |
| ThresholdQuorums.BodyExactly | operator/threshold-group.mjs:129-290 | A body is acceptable if and only if its history, majority, commitments, numbering and committed shares are the stated ones |
| ThresholdQuorums.QuorumExactly | operator/threshold-group.mjs:298-324 | Signatures hold if and only if each is a participant's, none signs twice, and at least the required number of participants signed |
| ThresholdQuorums.ManifestExactly | operator/threshold-group.mjs:326-386 | A manifest is accepted if and only if its body is acceptable, threshold of its own participants signed it, and a reshare was signed by the old threshold of the trusted predecessor it continues |
| ThresholdGroup.HandoffCannotFork | operator/threshold-group.mjs:326-386 | Two accepted successors of one trusted manifest are equal unless an old participant signed both: quorums intersect |
| ThresholdGroup.ChainKeepsKey | operator/threshold-group.mjs:340-386 | Along any chain of manifests, each accepted as a reshare of the one before, the group key and domain stay and the epoch counts up |
| ThresholdGroup.ChainsCannotFork | operator/threshold-group.mjs:326-386 | Two such chains from one manifest agree at every height, unless an old participant signed two successors |
| ProofProvider.Prove | operator/proof-provider.mjs:307-379 | The provider succeeds exactly when enough replies are valid, and its signature is the one under the group key, whoever answered |
| ProofProvider.CollectedExactly | operator/proof-provider.mjs:307-348 | There are as many shares to choose from as participants that answered with their own signature |
| ProofProvider.ChosenCombines | operator/proof-provider.mjs:349-362 | Whatever replies came back, the filtered, sorted and cut list satisfies every precondition of aggregation |
| CanonicalJsonTheorems.ReadQuoted | operator/threshold-group.mjs:106-118 | Every string, unpaired surrogates included, is read back from its escaped form (section 7 of RFC 8259) |
| CanonicalText.OrdinaryText | operator/threshold-group.mjs:106-118 | A string with no control unit, quote, backslash or unpaired surrogate is printed as itself between quotes |
| CanonicalText.StringText | operator/threshold-group.mjs:106-118 | Every string is printed as one piece per unit: the seven short escapes, lower-case four-digit hexadecimal for other controls and unpaired surrogates, and all else as it is |
| CanonicalText.QuotedIsUnique | operator/threshold-group.mjs:106-118 | There is one such text for each string |
| CanonicalText.IntegerText | operator/threshold-group.mjs:106-118 | A number is printed in decimal without a leading zero, with a minus sign only when negative |
| CanonicalText.PrintsItsSpelling | operator/threshold-group.mjs:106-118 | Whatever is printed spells its value: containers hold only brackets, commas, colons and their parts, keys ascending |
| CanonicalText.PrintsExactly | operator/threshold-group.mjs:106-118 | For every value with distinct keys, a text is returned if and only if it spells the value, and the printer throws if and only if nothing does |
| CanonicalJsonTheorems.RoundTrip | operator/threshold-group.mjs:106-118 | A parser recovers every printed value, keys in order |
| CanonicalJsonTheorems.PrintsAlike | operator/threshold-group.mjs:106-118 | Two values print alike if and only if their canonical values are equal |
| CanonicalJsonTheorems.KeyOrderIrrelevant | operator/threshold-group.mjs:106-118 | Such values equal up to key order at every depth print identically |
| CanonicalJsonTheorems.TextDeterminesValue | operator/threshold-group.mjs:106-118 | Values without -0 and holes that have one text are one value up to key order |
| CanonicalJsonTheorems.PrinterCollisions | operator/threshold-group.mjs:106-118 | The two collisions beside them: -0 with 0, and an array of one hole with the empty array |
| ThresholdDkg.PolynomialAt | operator/threshold-dkg.mjs:207-214 | Horner's loop from the top coefficient is evaluation modulo the order |
| ThresholdDkg.ValidateResolution | operator/threshold-dkg.mjs:633-668 | Accepts exactly resolutions that answer each complaint once with the committed share |
| ThresholdDkg.CheckConstant | operator/threshold-dkg.mjs:750-766 | A reshare deal's constant commitment is checked to be the weighted old public share |
| ThresholdDkg.CheckResponses | operator/threshold-dkg.mjs:714-719 | Accepts exactly valid responses of distinct recipients |
| ThresholdDkg.CheckDeal | operator/threshold-dkg.mjs:730-777 | Accepts exactly deals of known dealers with valid packets, resolutions and constants |
| ThresholdDkg.SelectQualified | operator/threshold-dkg.mjs:778-806 | The qualification loop keeps exactly the dealers with enough satisfied or resolved recipients |
| ThresholdDkg.SumShares | operator/threshold-dkg.mjs:808-832 | The running private share is the sum of the contributions; it throws exactly when one is missing |
| ThresholdDkg.FinalizeCeremony | operator/threshold-dkg.mjs:682-885 | Finalization succeeds exactly on accepted packets, and its coefficients, key, share and transcript are the stated sums |
| DkgQualification.QualifiesExactly | operator/threshold-dkg.mjs:778-798 | After accepted packets a dealer is selected if and only if fewer than threshold responses complain, each complainer was publicly revealed its committed share by the dealer, and approvals and answered complaints reach the threshold |
| DkgQualification.SummedExactly | operator/threshold-dkg.mjs:670-680 | Each finalized coefficient is the sum of the commitments of exactly those dealers, over all deals |
| DkgQualification.QuorumExactly | operator/threshold-dkg.mjs:796-806 | A generation goes on if and only if threshold dealers stand so, a reshare if and only if exactly the preselected ones do |
| DkgQualification.ResponseExactly | operator/threshold-dkg.mjs:610-631 | A response counts if and only if the recipient it names signed it for this session with at most one short verdict per dealer |
| DkgQualification.ResolutionExactly | operator/threshold-dkg.mjs:633-668 | A resolution counts if and only if its dealer signed it, fewer than threshold recipients complain, and it reveals the committed share of each of them, once, and of nobody else |
| DkgQualification.AcceptedPacketsBind | operator/threshold-dkg.mjs:439-481 | Every accepted deal is signed by its dealer for this session, has exactly threshold commitments with a nonzero top one and one sealed share per participant; every accepted response gives it one verdict |
| DkgQualification.AcceptedResolutionsBind | operator/threshold-dkg.mjs:725-774 | Every accepted resolution answers for one accepted deal, and each dealer resolves at most once |
| DkgQualification.SelectionExactly | operator/threshold-dkg.mjs:324-346 | A selection of old dealers is good if and only if it picks at least threshold members in the manifest's order; its indexes are their positions |
| DkgQualification.TranscriptBinds | operator/threshold-dkg.mjs:838-850 | A transcript fixes the ceremony and every packet but the order of arrival, and names exactly the standing dealers |
| DkgTheorems.AggregateEval | operator/threshold-dkg.mjs:670-680 | Evaluating the aggregated commitments is summing the dealers' committed evaluations |
| DkgTheorems.ContributionCommitted | operator/threshold-dkg.mjs:808-832 | A contribution, decrypted or published in a resolution, is the value its dealer committed to |
| DkgTheorems.LocalShareIsCommitted | operator/threshold-dkg.mjs:808-832 | The share a participant keeps is the aggregated commitments evaluated at its index |
| DkgTheorems.FinalizersAgree | operator/threshold-dkg.mjs:714-858 | Participants that accept the same packets in any order get the same coefficients and transcript |
| DkgTheorems.ConstantsSumToKey | operator/threshold-dkg.mjs:750-838 | For every old manifest, selected set and dealer roster that keeps the numbering, the constants that pass the checks sum to the old group key |
| DkgTheorems.ReshareKeepsKey | operator/threshold-dkg.mjs:833-838 | Under such a roster a reshare that passes every earlier check passes the last guard: it can never fire |
| DkgTheorems.KeyGuardExactly | operator/threshold-dkg.mjs:833-838 | Under any dealer roster the guard passes if and only if the old public shares under that roster's weights sum to the old key |
| DkgTheorems.PreviousRosterFits | operator/threshold-dkg.mjs:1122-1124 | The roster the command line passes keeps the numbering |
| DkgGuard.CrossedReshare | operator/threshold-dkg.mjs:682-838 | For every old manifest with old and new threshold two whose first two holders are exactly the selected dealers: when the dealer roster crosses them, packets that follow the roster pass every earlier check, provided neither the first participant's contributions nor their sum is zero, and the guard passes if and only if the two old shares are equal |
| DkgGuard.GuardFires | operator/threshold-dkg.mjs:833-838 | A setup and packets, for every prime order, at which only the guard refuses |
| DkgTheorems.NewSharesKeepSecret | operator/threshold-dkg.mjs:808-838 | In every reshare that finalizes, any new threshold of new shares interpolates to the secret behind the old group key |
| DkgDealing.DealConstant | operator/threshold-dkg.mjs:348-437 | A reshare dealer's constant is its bound old share times its weight among the selected dealers; when it throws, exactly |
| DkgDealing.MayReshareExactly | operator/threshold-dkg.mjs:348-392 | Only a selected member of the previous manifest that holds a share bound to it may deal, in the next epoch, among at least threshold members selected in order |
| DkgDealing.CreateDealBundle | operator/threshold-dkg.mjs:348-437 | A deal is created exactly for a dealer that may deal whose sampled middle coefficients are not zero; it carries the commitments and sealed shares of its coefficients, none of them zero, under the dealer's signature |
| DkgDealing.HonestDealServesEveryone | operator/threshold-dkg.mjs:348-437 | Such a deal gives every recipient at whose index its polynomial is not zero its committed share without any resolution, and the others nothing |
| DkgDealing.ZeroShareIsNeverServed | operator/threshold-dkg.mjs:633-668 | A recipient at whose index it is zero is not served by any accepted resolution either |
| DkgDealing.HonestDealIsAccepted | operator/threshold-dkg.mjs:439-476 | Such a deal passes the packet check, and its constant the reshare check |
| DkgDealing.CreateResolutionBundle | operator/threshold-dkg.mjs:542-608 | A resolution is made exactly when fewer than threshold recipients complain, and reveals exactly the complained shares |
| DkgDealing.ResolutionStaysBelowThreshold | operator/threshold-dkg.mjs:593-595 | A published bundle reveals fewer than threshold true shares at distinct indexes |
| DkgDealing.EveryConstantFits | operator/threshold-dkg.mjs:572-607 | For every candidate constant some polynomial of degree below the threshold agrees with all revealed shares |
| DkgDealing.ConstantsLeftOpen | operator/threshold-dkg.mjs:393-395 | With the dealer's nonzero top coefficient, a candidate is excluded if and only if threshold - 1 shares are public and it is the one value they interpolate to |
| DkgDealing.AssembleManifest | operator/threshold-dkg.mjs:887-949 | Assembly succeeds exactly on agreeing finalizations that cover the roster and form a valid body |
| DkgDealing.AssembledExactly | operator/threshold-dkg.mjs:917-948 | The assembled body has the finalized epoch, threshold, key and commitments, and each participant the public share of its own finalization |
| DkgDealing.FinalizationsAgree | operator/threshold-dkg.mjs:887-949 | Finalizations of one ceremony always agree on their public result |
| DkgDealing.AssembledSharesAreAccepted | operator/threshold-group.mjs:254-262 | The manifest's commitment check accepts every assembled share |
| BaseInvariants.AdminKeeps | contracts/VRFServiceCoordinatorBase.sol:403-733 | Every unguarded entry point, the inherited ownership transfer included, keeps versions append-only and mirrored, and touches no money, slot or nonce |
| BaseInvariants.AppendPricingKeeps | contracts/VRFServiceCoordinatorBase.sol:410-415 | A price change appends a version and leaves every older one as it was |
| BaseInvariants.AppendKeyKeeps | contracts/VRFServiceCoordinatorBase.sol:534-548 | A key change appends a version that mirrors the key and leaves every older one as it was |
| BaseInvariants.LockedRun | contracts/VRFServiceCoordinatorBase.sol:563-599 | While the guard is held, any calls at any depth reach only administration; the request store stays |
| BaseInvariants.AdminRunKeeps | contracts/VRFServiceCoordinatorBase.sol:403-733 | Any sequence of unguarded calls keeps the base invariant and its frame |
| Solvency.TicketMoves | contracts/VRFServiceCoordinatorBase.sol:869-879 | A request enters exactly its reserve, its consumer slot and its sponsor slot in the books |
| Solvency.QuoteIsPositive | contracts/VRFServiceCoordinatorBase.sol:839-856 | Every quote is positive, so every reserve is |
| Solvency.ReleaseLive | contracts/VRFServiceCoordinatorV2.sol:308-316 | Giving back a live claim never underflows, whatever else happened |
| Solvency.DebitKeeps | contracts/VRFServiceCoordinatorBase.sol:571-599 | A withdrawal the books allow never lacks ether, and takes out of the books what leaves |
| Solvency.CreateKeeps | contracts/VRFServiceCoordinatorV3.sol:37-83 | Creation keeps solvency, coverage and the books, and its id was never used before |
| Solvency.SettleKeeps | contracts/VRFServiceCoordinatorV3.sol:136-147 | Settlement closes the in-flight claim on unchanged ether |
| Solvency.ExpireKeeps | contracts/VRFServiceCoordinatorV3.sol:159-170 | A pending request past its expiry can always be closed, and closing it keeps the books |
| CoordinatorRuns.CallbackKeeps | contracts/VRFServiceCoordinatorV3.sol:225-241 | After any prefix of any callback the whole invariant holds with the in-flight request still counted |
| CoordinatorRuns.ExecSettled | contracts/VRFServiceCoordinatorV3.sol:37-179 | Every transaction, its re-entrant callback included, keeps the invariant |
| CoordinatorRuns.RunSettled | contracts/VRFServiceCoordinatorV3.sol:37-179 | Every run keeps the invariant |
| CoordinatorRuns.SolventThroughReentry | contracts/VRFServiceCoordinatorV3.sol:99-148 | From deployment through every run, and inside every fulfilment callback, ether equals balances, credits and treasury, reserves are sums of live reserves and are covered |
| CoordinatorRuns.SolventThroughWithdrawal | contracts/VRFServiceCoordinatorBase.sol:563-599 | The same inside the external call of every withdrawal and cancellation, whose ether is never lacking |
| CoordinatorRuns.SolventThroughRetry | contracts/VRFServiceCoordinatorV3.sol:150-157 | The same inside every retried callback |
| CoordinatorRuns.FulfilRevertsOnlyOnPrice | contracts/VRFServiceCoordinatorV3.sol:99-148 | After a valid proof a fulfilment reverts if and only if the charge exceeds the reserve, whatever the callback does |
| CoordinatorRuns.ExpiryAlwaysCloses | contracts/VRFServiceCoordinatorV3.sol:159-170 | A pending request can be expired if and only if the block is past its expiry, in every reachable state |
| CoordinatorRuns.RunProgress | contracts/VRFServiceCoordinatorV3.sol:37-179 | In every run a request keeps its terms and only moves forward, and no id comes back |
| CoordinatorRuns.StaleForever | contracts/VRFServiceCoordinatorV3.sol:197-207 | A superseded or pruned witness is rejected in every later state |
| CoordinatorRuns.CancelledIsEmpty | contracts/VRFServiceCoordinatorBase.sol:586-599 | A cancelled subscription has zero balance and reserve and no pending request |
| CoordinatorRuns.CancelledForever | contracts/VRFServiceCoordinatorBase.sol:586-599 | It stays so through every later run |
| CoordinatorRuns.ReserveSuffices | contracts/VRFServiceCoordinatorBase.sol:839-867 | Gas, price and L1 cost within their limits give a charge within the quote, floor and minimum fee included |
| CoordinatorRuns.ChargeSplits | contracts/VRFServiceCoordinatorV2.sol:295-302 | The operator's part lies between the network cost and the charge |
| Settlements.FulfilPays | contracts/VRFServiceCoordinatorV3.sol:135-147 | Over a whole V3 fulfilment, callback included: the subscription loses exactly the charge that cost, premium and minimum fee fix, the payee gains the cost and its rounded share of the rest, the treasury the remainder, and no other account moves |
| Settlements.FullFulfilPays | contracts/VRFServiceCoordinatorV2.sol:206-306 | The same over a whole V2 fulfilment, for the request it reports |
| Settlements.FulfilExactly | contracts/VRFServiceCoordinatorV3.sol:99-148 | A fulfilment goes through if and only if its witness is current and pending, its proof fits, and the charge is within the reserve; what is stored then |
| Settlements.RetryExactly | contracts/VRFServiceCoordinatorV3.sol:150-157 | A retry goes through if and only if the witness is current, fulfilled, not called successfully yet, and gas suffices |
| Settlements.RetryCountsAttempt | contracts/VRFServiceCoordinatorV3.sol:150-157 | It counts an attempt, and moves no money and no counter |
| Settlements.CallbackGetsItsLimit | contracts/VRFServiceCoordinatorV3.sol:225-230 | The gas demanded covers the callback limit after the sixty-fourth that a call keeps back |
| Settlements.ExpireExactly | contracts/VRFServiceCoordinatorV3.sol:159-171 | Expiry closes exactly the current pending requests past their last block |
| Settlements.ExpiryReleases | contracts/VRFServiceCoordinatorV3.sol:159-171 | It gives back the reserve and the slots and moves no money |
| Settlements.PruneExactly | contracts/VRFServiceCoordinatorV3.sol:172-179 | Pruning forgets exactly the current closed requests, fifty thousand blocks after their expiry |
| Admissions.RequestExactly | contracts/VRFServiceCoordinatorV3.sol:37-61 | A V3 request is admitted if and only if key, parameters, sponsor or account, slots, available balance, offered payment, quota of the day and expiry allow it |
| Admissions.RequestStores | contracts/VRFServiceCoordinatorV3.sol:54-83 | The stored request is on its account's terms: enabled override or else public premium for a named subscription, the sponsor's terms for none, at the reserve of those terms |
| Admissions.FullRequestExactly | contracts/VRFServiceCoordinatorV2.sol:66-91 | The same condition for a V2 request |
| Admissions.FullRequestStores | contracts/VRFServiceCoordinatorV2.sol:92-123 | The same request is what V2 reports afterwards |
| Admissions.TermsExactly | contracts/VRFServiceCoordinatorBase.sol:786-825 | Which terms a caller gets, and when it gets any |
| Accounts.WithdrawExactly | contracts/VRFServiceCoordinatorBase.sol:571-599 | A withdrawal or cancellation goes through if and only if its sender may take that much and the recipient accepts it |
| Accounts.WithdrawDraws | contracts/VRFServiceCoordinatorBase.sol:760-784 | The account it draws on, and the ether, lose exactly that; a cancelled subscription closes |
| Accounts.FundExactly | contracts/VRFServiceCoordinatorBase.sol:563-569 | Anyone funds an active subscription with any positive amount |
| Accounts.AccountsFollowLedger | contracts/VRFServiceCoordinatorV3.sol:135-147 | In every run each subscription, operator and the treasury hold what their own transactions booked: funding, charges, payouts and withdrawals |
| Accounts.FullAccountsFollowLedger | contracts/VRFServiceCoordinatorV2.sol:283-306 | The same in every run of V2 |
| Administration.OfficesExactly | contracts/VRFServiceCoordinatorBase.sol:417-433 | Who may hand over, leave, name a guardian, pause and resume, and what each stores |
| Administration.PricingExactly | contracts/VRFServiceCoordinatorBase.sol:403-415 | Only the owner sets prices, within their bounds; they become the next version |
| Administration.RegistrationExactly | contracts/VRFServiceCoordinatorBase.sol:435-503 | When a key is registered, and the configuration and version it gets |
| Administration.KeyChangesExactly | contracts/VRFServiceCoordinatorBase.sol:505-548 | A service change keeps verifier, proof length and activity and appends a version; activity alone makes none |
| Administration.OpeningExactly | contracts/VRFServiceCoordinatorBase.sol:550-561 | Anyone opens an empty subscription of its own under the next id |
| Administration.HandoverExactly | contracts/VRFServiceCoordinatorBase.sol:601-606 | Only a subscription's owner names the next one |
| Administration.AcceptanceExactly | contracts/VRFServiceCoordinatorBase.sol:608-615 | Only the named one accepts |
| Administration.ConsumersExactly | contracts/VRFServiceCoordinatorBase.sol:617-661 | When consumers are added and their limits changed, and what is stored |
| Administration.RemovalExactly | contracts/VRFServiceCoordinatorBase.sol:663-671 | A consumer with nothing pending is removed by the owner |
| Administration.SponsorshipExactly | contracts/VRFServiceCoordinatorBase.sol:685-726 | When a policy is set, and that pending slots and the same day's uses carry over |
| Administration.TermsExactly | contracts/VRFServiceCoordinatorBase.sol:673-683 | Who sets overrides and removes policies, and what is stored |
| Administration.DeploymentExactly | contracts/VRFServiceCoordinatorBase.sol:353-383 | What the constructor demands and stores |
| Administration.OnlyGovernorsChange | contracts/VRFServiceCoordinatorBase.sol:403-733 | Through every run of either contract, re-entrant calls included, the rules change only if owner, pending owner or guardian calls, and a subscription's owners, consumers and limits only if its owner or pending owner does |
| CoordinatorRuns.SettlementConserves | contracts/VRFServiceCoordinatorV2.sol:283-306 | The subscription loses the charge and the reserve; operator and treasury together gain exactly the charge |
| ServiceContract.Service.TransferOwnership | contracts/VRFServiceCoordinatorBase.sol:18-18 | The owner names a pending owner, or nobody |
| ServiceContract.Service.AcceptOwnership | contracts/VRFServiceCoordinatorBase.sol:18-18 | Only the pending owner becomes owner |
| ServiceContract.Service.RenounceOwnership | contracts/VRFServiceCoordinatorBase.sol:18-18 | The owner leaves, and no transfer stays pending |
| ServiceContract.Service.SetPricing | contracts/VRFServiceCoordinatorBase.sol:403-415 | The method is the price step, and reverts without effect otherwise |
| ServiceContract.Service.RegisterKey | contracts/VRFServiceCoordinatorBase.sol:455-503 | The method is the registration step, with every rejection of the original |
| ServiceContract.Service.SetKeyService | contracts/VRFServiceCoordinatorBase.sol:511-532 | The method is the service-change step |
| ServiceContract.Service.CreateSubscription | contracts/VRFServiceCoordinatorBase.sol:550-561 | A new subscription under the next id |
| ServiceContract.Service.FundSubscription | contracts/VRFServiceCoordinatorBase.sol:563-569 | Funding adds the value to balance and ether |
| ServiceContract.Service.AddConsumer | contracts/VRFServiceCoordinatorBase.sol:617-641 | The method is the consumer-adding step |
| ServiceContract.Service.UpdateConsumer | contracts/VRFServiceCoordinatorBase.sol:643-661 | The method is the consumer-update step |
| ServiceContract.Service.RemoveConsumer | contracts/VRFServiceCoordinatorBase.sol:663-671 | The method is the removal step; it reverts while requests are pending |
| ServiceContract.Service.SetSponsorPolicy | contracts/VRFServiceCoordinatorBase.sol:685-726 | The method is the policy step, keeping pending and same-epoch counts |
| ServiceContract.Service.RemoveSponsorPolicy | contracts/VRFServiceCoordinatorBase.sol:728-733 | The method is the removal step; it reverts while requests are pending |
| ServiceContract.Service.ConsumeQuota | contracts/VRFServiceCoordinatorBase.sol:869-879 | The epoch rolls over, the quota is enforced, one use and one slot are counted |
| ServiceContract.Service.TakeTicket | contracts/VRFServiceCoordinatorV2.sol:66-123 | All shared writes of a request, or none |
| ServiceContract.Service.ReleaseReservation | contracts/VRFServiceCoordinatorV2.sol:308-316 | The checked release of reserve and slots |
| ServiceContract.Service.PayOut | contracts/VRFServiceCoordinatorV2.sol:283-306 | The checked payment to payee and treasury |
| ServiceContract.Service.TakeDebit | contracts/VRFServiceCoordinatorBase.sol:571-599 | The checks and bookkeeping of the withdrawals up to the transfer |
| CoordinatorContracts.CoordinatorV2.Execute | contracts/VRFServiceCoordinatorV2.sol:66-256 | Any call, re-entrant scripts included, is one transaction of the machine or reverts without effect |
| CoordinatorContracts.CoordinatorV2.CallOut | contracts/VRFServiceCoordinatorV2.sol:332-334 | The external call runs any script; a failed call takes its writes back |
| CoordinatorContracts.CoordinatorV2.RequestRandomWords | contracts/VRFServiceCoordinatorV2.sol:66-151 | Creation of the compact record under current versions |
| CoordinatorContracts.CoordinatorV2.FulfillRandomWords | contracts/VRFServiceCoordinatorV2.sol:168-219 | Proof, callback and settlement as one transaction, or full revert |
| CoordinatorContracts.CoordinatorV2.Verify | contracts/VRFServiceCoordinatorV2.sol:153-198 | The checks and the writes before the external call |
| CoordinatorContracts.CoordinatorV2.AttemptCallback | contracts/VRFServiceCoordinatorV2.sol:318-337 | The callback cannot touch the request; its success is recorded |
| CoordinatorContracts.CoordinatorV2.Settle | contracts/VRFServiceCoordinatorV2.sol:202-219 | The charge against the recomputed reserve, then release and payment |
| CoordinatorContracts.CoordinatorV2.RetryCallback | contracts/VRFServiceCoordinatorV2.sol:222-230 | A retry counts an attempt and charges nothing |
| CoordinatorContracts.CoordinatorV2.ExpireRequest | contracts/VRFServiceCoordinatorV2.sol:232-244 | Expiry at the recomputed block, with release |
| CoordinatorContracts.CoordinatorV2.PruneRequest | contracts/VRFServiceCoordinatorV2.sol:246-256 | Deletion of a final request after the delay |
| CoordinatorContracts.CoordinatorV3.Execute | contracts/VRFServiceCoordinatorV3.sol:37-179 | Any call, re-entrant scripts included, is one transaction of the machine or reverts without effect |
| CoordinatorContracts.CoordinatorV3.RequestRandomWords | contracts/VRFServiceCoordinatorV3.sol:37-83 | Creation commits to the full witness |
| CoordinatorContracts.CoordinatorV3.FulfillRandomWords | contracts/VRFServiceCoordinatorV3.sol:99-148 | Authentication, proof, callback and settlement as one transaction, or full revert |
| CoordinatorContracts.CoordinatorV3.Verify | contracts/VRFServiceCoordinatorV3.sol:104-130 | Which witnesses and proofs pass |
| CoordinatorContracts.CoordinatorV3.AttemptCallback | contracts/VRFServiceCoordinatorV3.sol:225-241 | The counted state is committed before the call and the success after it |
| CoordinatorContracts.CoordinatorV3.Settle | contracts/VRFServiceCoordinatorV3.sol:136-147 | Charge, release and payment read from the witness |
| CoordinatorContracts.CoordinatorV3.RetryCallback | contracts/VRFServiceCoordinatorV3.sol:150-157 | A retry of an authentic fulfilled witness |
| CoordinatorContracts.CoordinatorV3.ExpireRequest | contracts/VRFServiceCoordinatorV3.sol:159-170 | Expiry of an authentic pending witness |
| CoordinatorContracts.CoordinatorV3.PruneRequest | contracts/VRFServiceCoordinatorV3.sol:172-179 | Deletion of the commitment of a final witness after the delay |
| Refinement.AuthenticWitness | contracts/VRFServiceCoordinatorV3.sol:197-202 | A witness is accepted if and only if it is what V2 reports for its id |
| Refinement.CreateAgrees | contracts/VRFServiceCoordinatorV2.sol:120-135 | What V2 stores at creation reads back as what V3 commits to |
| Refinement.SettlesAlike | contracts/VRFServiceCoordinatorV2.sol:283-306 | V2 settles from pinned versions what V3 settles from the witness |
| Refinement.ExpireAgrees | contracts/VRFServiceCoordinatorV2.sol:232-244 | Expiry does the same on both |
| Refinement.PruneAgrees | contracts/VRFServiceCoordinatorV2.sol:246-256 | Pruning does the same on both |
| Refinement.ExecCommutes | contracts/VRFServiceCoordinatorV3.sol:37-241 | Each V2 transaction equals the V3 transaction that presents the current witness, reverts included |
| Refinement.RunCommutes | contracts/VRFServiceCoordinatorV3.sol:37-241 | So does each whole run, in every balance, reserve, counter, credit and request |
| Refinement.V3StepIsV2Step | contracts/VRFServiceCoordinatorV3.sol:37-241 | Whatever V3 accepts is the V2 transaction on the witness's id |
| Refinement.V3RefinesV2 | contracts/VRFServiceCoordinatorV3.sol:37-241 | Every V3 run, with whatever witnesses, is a V2 run seen through getRequest |
| Refinement.DeployAgrees | contracts/VRFServiceCoordinatorBase.sol:352-383 | Both constructors start in related states that satisfy the invariant |
| Refinement.V2SolventThroughReentry | contracts/VRFServiceCoordinatorV2.sol:168-316 | V2, from deployment through every run and inside every fulfilment callback, is as solvent: its books are those of the requests it reports |
| Refinement.ViewsSame | contracts/VRFServiceCoordinatorV2.sol:30-64 | getRequest does not change when versions are appended |
| Refinement.PinnedReserve | contracts/VRFServiceCoordinatorV2.sol:265-281 | In every run the recomputed reserve and expiry are those of creation while the request is stored |
| Refinement.WithinLimitsAlwaysSettles | contracts/VRFServiceCoordinatorV2.sol:168-219 | In every reachable state a proven fulfilment with costs within its limits goes through |
| CompactHistory.ValidateCompactTransitions | operator/compact-protocol.mjs:71-91 | The loop accepts exactly lists that start with a creation and take allowed transitions on fixed terms |
| CompactHistory.AcceptedIsHistory | operator/compact-protocol.mjs:71-91 | Those are exactly the histories of the contract's request machine |
| CompactHistory.EmittedIsAccepted | contracts/VRFServiceCoordinatorV3.sol:58-170 | Everything the contract emits for a request since deployment is accepted, and its last event is what is stored |
| CompactHistory.AcceptedIsEmitted | contracts/VRFServiceCoordinatorV3.sol:99-170 | Every accepted continuation of a stored request is emitted by some run |
| CompactHistory.AcceptedFromCreation | contracts/VRFServiceCoordinatorV3.sol:58-170 | Every accepted list that starts with what a request call emits is the whole trace of some run from that call |
| CompactHistory.RecoverCompactRequest | operator/compact-protocol.mjs:160-201 | Recovery returns exactly the one history all providers agree on and all commitments confirm |
| CompactHistory.RecoveredIsWhole | operator/compact-protocol.mjs:129-136 | Genuine logs, however few, that pass both checks are the whole history |
| CompactHistory.WholeIsRead | operator/compact-protocol.mjs:190-192 | All genuine logs in any order are read as the history |
| CompactHistory.RecoveryFindsTheContract | operator/compact-protocol.mjs:160-201 | End to end: recovery returns every event the contract emitted and the state it stores |
| Signer.LoadAuditLog | operator/threshold-node.mjs:206-264 | The loop over lines is the fold of the record check |
| Signer.ThresholdNode.StartProcess | operator/threshold-node.mjs:185-264 | Start restores the state from file and log, or refuses |
| Signer.ThresholdNode.AppendAuditRecord | operator/threshold-node.mjs:266-284 | One chained record; memory follows only if the flush succeeded |
| Signer.ThresholdNode.SignPartial | operator/threshold-node.mjs:367-399 | The queued step with every point where it can stop |
| Signer.AnsweredExactly | operator/threshold-node.mjs:367-399 | A request is refused without effect if another message is recorded for its id, and otherwise answered with one partial under both keys and one chained line if the id had none |
| Signer.AskedAgain | operator/threshold-node.mjs:367-399 | In every run, a node asked again for a request it answered gives the same partial again without a new line, and has none on another message |
| Signer.LoadsExactly | operator/threshold-node.mjs:206-264 | A log is accepted if and only if every line continues the chain, is the only one of its request, and carries the recorded message under both keys |
| Signer.NeverEquivocates | operator/threshold-node.mjs:367-399 | In every run, through every crash and failed write, two partials for one requestId carry one message |
| Signer.OneMessagePerNumber | operator/threshold-node.mjs:360-373 | The same per on-chain number, for ids written canonically |
| Signer.TwoSpellingsTwoMessages | operator/threshold-node.mjs:360-373 | For any two different ids there is a run that gives each its own message |
| Signer.OneMessagePerSpelling | operator/threshold-node.mjs:360-373 | Two decimal ids of one number get one message in every run if and only if they are the same string |
| Signer.PaddedSpelling | operator/threshold-node.mjs:360-373 | Every decimal id has another spelling of its number |
| Signer.RestartRestores | operator/threshold-node.mjs:206-284 | For every run of crashes and failed writes: the node starts again if and only if no process appended after an append of its own whose flush failed; then it has back head, audited set and signed messages |
| Signer.LoadedContents | operator/threshold-node.mjs:206-264 | The audited set is the requests in the log, the head its last event |
| Signer.LostSyncBreaksTheLog | operator/threshold-node.mjs:266-284 | After a failed flush the log still loads; the next append of that process, of the same or another request, makes every later start fail, whatever follows |
| Signer.RetryBreaksTheLog | operator/threshold-node.mjs:367-399 | From a fresh start, a request whose flush fails and its retry suffice |
| FieldPowers.ModPow | operator/proof.mjs:27-37 | Square and multiply is the power |
| FieldPowers.ModInverse | operator/proof.mjs:39-51 | The inverse, or a throw exactly on multiples of the prime |
| FieldPowers.Fermat | operator/proof.mjs:81-84 | Fermat's little theorem, on which the square test rests |
| Ecvrf.IsSquare | operator/proof.mjs:81-84 | True if and only if the value has a square root |
| Ecvrf.HashToCurve | operator/proof.mjs:86-93 | The first candidate that is the x of a curve point, with its even root as y |
| Ecvrf.ProjectiveEcAdd | operator/proof.mjs:121-144 | The reassigned locals compute the two fractions of the specification |
| Ecvrf.EcSumIsAffineSum | operator/proof.mjs:121-144 | Divided by z, the result is the affine sum, whether the denominators were equal or not |
| Ecvrf.SubRepresents | operator/proof.mjs:111-115 | The subtraction of fractions is the subtraction of what they stand for |
| Ecvrf.MulRepresents | operator/proof.mjs:117-119 | The product of fractions is the product of what they stand for |
| Ecvrf.SchnorrEquations | operator/proof.mjs:214-215 | The one scalar s = k - c x solves both proof equations |
| Ecvrf.GenerateProof | operator/proof.mjs:190-251 | A returned proof satisfies every equation for the first nonce not passed over; it returns, throws or runs out exactly when the stated nonce is reached |
| Ecvrf.PassedOverExactly | operator/proof.mjs:221-230 | A nonce with usable scalars is passed over exactly when the sum of its witnesses has no inverse: the x comparison stands for the inversion |
| Ecvrf.NoInverseExactly | operator/proof.mjs:121-144 | The projective sum of two points of the field has an inverse exactly when their x coordinates differ |
| Ecvrf.OrderItselfThrows | operator/proof.mjs:214-224 | A challenge equal to the group order throws, whatever nonces would follow |
| Ecvrf.AnswerableExactly | operator/proof.mjs:207-219 | Which challenges the two equations can be answered for, for every claimed output point |
| Ecvrf.WitnessSumIsV | operator/proof.mjs:227-247 | The witness sum divided by the carried inverse is the point v the challenge was computed from |
| Ecvrf.OutputIsUnique | operator/proof.mjs:190-251 | Whoever can answer two challenges for one commitment has the one output point, the secret times the hash of the seed |
| ScanIndex.ScanStore.ClaimScan | operator/postgres-store.mjs:154-177 | Lease and range of one claim |
| ScanIndex.ScanStore.CommitScan | operator/postgres-store.mjs:179-269 | Only the lease holder commits; the loops compute the refreshed table and the cursor |
| ScanIndex.ScanStore.ReleaseScan | operator/postgres-store.mjs:271-280 | Only the holder releases |
| ScanIndex.ClaimedRange | operator/postgres-store.mjs:169-176 | A claimed range reaches the cursor again, and moves it, under exact conditions on its size |
| ScanIndex.ClaimExactly | operator/postgres-store.mjs:154-177 | A scan is claimed if and only if blocks are due and nobody else holds a live lease; which range it gets |
| ScanIndex.LeaseExcludes | operator/postgres-store.mjs:154-281 | While a lease lives, whatever the other instances do, nobody else takes it, moves the cursor or refreshes the table |
| ScanIndex.ReachesHeadExactly | operator/postgres-store.mjs:154-269 | Scanning from deployment passes the latest block if and only if the range exceeds the lookback or covers the chain at once |
| ScanIndex.CommitAgrees | operator/postgres-store.mjs:179-269 | A commit of a range that reaches the cursor brings the index into agreement with the chain, even if rows above the range were lost |
| ScanIndex.CommitExactly | operator/postgres-store.mjs:179-269 | For every range, a commit keeps the agreement if and only if it loses no row above the range and reopens no request finalized above it |
| ScanIndex.SafeExactly | operator/postgres-store.mjs:154-269 | On every chain a claimed range is safe to commit if and only if its size is at least what it looks back over |
| ScanIndex.IndexFollowsChain | operator/postgres-store.mjs:154-280 | Through any interleaving of instances, configurations, expired leases, crashes and workers, if every claim is that wide, the live rows are the covered open requests, short only of completed ones |
| ScanIndex.OneConfigurationIsSafe | operator/postgres-store.mjs:154-280 | With one configuration, whatever it is, that holds in every run |
| ScanIndex.DropsOpenRequest | operator/postgres-store.mjs:179-269 | A range that ends short of the cursor drops an open request |
| ScanIndex.ReopensClosedRequest | operator/postgres-store.mjs:179-269 | And makes a finalized request live again |
| ScanIndex.ExactWithoutCompletions | operator/postgres-store.mjs:179-269 | Without completions they are exactly those |
| ScanIndex.FileIndex.ScanServiceEvents | operator/cli.mjs:389-431 | The file version's loops, also when its queries fail |
| ScanIndex.FileMatchesTable | operator/cli.mjs:389-431 | File and table refresh alike |
| ScanIndex.FileFollowsChain | operator/cli.mjs:389-431 | Through failed queries, completions and restarts the file index misses only rows the next scan reads again, and none after a scan |
| NonceJournal.Relayer.RecordBroadcast | operator/postgres-store.mjs:413-439 | The hash is journaled once, before the broadcast |
| NonceJournal.RecordedIsUnresolved | operator/postgres-store.mjs:413-439 | A recorded hash is unresolved if and only if it was new or unresolved before |
| NonceJournal.NotedIsOpenExactly | operator/postgres-store.mjs:413-439 | In every run, what a send journals is unresolved afterwards if and only if it is new to the journal |
| NonceJournal.Relayer.Reconcile | operator/cli.mjs:529-585 | It throws exactly when the answers about some open nonce decide nothing; otherwise no row is unresolved; every verdict follows from the answers; it is a run of the machine's actions |
| NonceJournal.Relayer.SendWithReplacement | operator/cli.mjs:324-387 | One nonce, each price more than an eighth above the last and none above the cap, each hash journaled before it is sent, and the receipt of the last attempt or of what replaced it; it is a run of the machine's actions |
| NonceJournal.Relayer.SendTransaction | operator/cli.mjs:476-527 | A nonce is used only after reconciliation left nothing unresolved, the row of the receipt is marked, and the whole is a run of the machine's actions |
| NonceJournal.LadderRises | operator/cli.mjs:346-385 | The attempts of one send share the nonce and their prices rise by more than an eighth under the cap |
| NonceJournal.AnsweredDecides | operator/cli.mjs:537-569 | The first unresolved row with receipts decides its nonce: mined and the rest replaced if providers agree, else a throw |
| NonceJournal.CountsDecide | operator/cli.mjs:570-589 | Without receipts the nonce is settled if and only if no provider knows its transactions and all counts agree: consumed above it, dropped otherwise |
| NonceJournal.CutAnywhere | operator/cli.mjs:324-387 | A crash may cut any operation after any of its actions |
| NonceJournal.OperationsAreRuns | operator/cli.mjs:476-585 | The operations, with the chain moving between any two of their actions, are runs |
| NonceJournal.EverySendWasJournaled | operator/cli.mjs:362-371 | In every run, crashes included, each transaction on the wire was journaled before it, and each one on chain is in the journal |
| NonceJournal.FreshNonceWhenResolved | operator/cli.mjs:476-585 | In every run a nonce enters the journal only when no row is unresolved, and no row of another nonce is unresolved when one is journaled |
| NonceJournal.AtMostOneOpenNonce | operator/cli.mjs:529-585 | So reconciliation never finds more than one open nonce |
| NonceJournal.OneMinedPerNonce | operator/postgres-store.mjs:441-495 | In every run at most one row of a nonce is mined and it is the chain's, a replaced row's transaction is not on chain, and replaced and consumed nonces are spent |
| NonceJournal.ResentIsForgotten | operator/postgres-store.mjs:413-439 | For every transaction with a free nonce, a run in which it is dropped, sent again and forgotten, and the next send goes out with any other transaction |
| RouterV1.BooksAgree | contracts/ProofVRFRouter.sol:114-268 | In every run coordinator ether is credits plus open fees, the router's credit is its unsettled refunds plus its earnings, and nothing is both ready and refunded |
| RouterAccounts.RoutedRequestIsTheSenders | contracts/ProofVRFRouter.sol:114-171 | A routed request is its sender's for the fee it paid, and the router's at the provider |
| RouterAccounts.FulfilmentPaysOperator | contracts/ProofVRFCoordinator.sol:239-258 | A fulfilment credits the fee to the pinned operator and nobody else |
| RouterAccounts.RefundPaysConsumer | contracts/ProofVRFCoordinator.sol:279-290 | A refund credits the fee to the consumer once, and only after the block hash is out of reach |
| RouterAccounts.RoutedRefundPaysRequester | contracts/ProofVRFRouter.sol:236-254 | A routed refund moves exactly the fee and credits it to the address that made the request; no other account at the router changes |
| RouterAccounts.RecordExactly | contracts/ProofVRFRouter.sol:173-190 | Words are recorded exactly once, for open linked requests and the number asked for |
| RouterAccounts.EveryAccountIsItsOwners | contracts/ProofVRFRouter.sol:236-268 | In every run each address's router credit is the fees of its own refunded routed requests less its own withdrawals, and its coordinator credit its own fees earned and refunded less what it took |
| RouterAccounts.ReadyWhenDelivered | contracts/ProofVRFRouter.sol:173-198 | In every run a routed request is ready if and only if the provider's callback to the router succeeded |
| RouterV1.RouterEther | contracts/ProofVRFRouter.sol:236-268 | In every run the router's ether is exactly its consumers' credits plus what was given to it |
| RouterV1.RoutedRefundSucceeds | contracts/ProofVRFRouter.sol:236-254 | A routed refund succeeds if and only if the request is open and refunded or expired at the provider: it never lacks credit |
| RouterV1.CreditIsUnsettledRefunds | contracts/ProofVRFRouter.sol:236-254 | When the router is nobody's operator its credit is exactly the refunds not yet passed on |
| RouterV1.SettleKeeps | contracts/ProofVRFCoordinator.sol:239-258 | Fulfilment moves the fee from open to the operator |
| RouterV1.RefundKeeps | contracts/ProofVRFCoordinator.sol:279-290 | A provider refund moves the fee from open to the consumer |
| RouterV1.RoutedKeeps | contracts/ProofVRFRouter.sol:114-170 | A routed request links one request of each contract |
| RouterContracts.CoordinatorContract.RequestRandomWords | contracts/ProofVRFCoordinator.sol:157-220 | The method is the request step |
| RouterContracts.CoordinatorContract.FulfillRandomWords | contracts/ProofVRFCoordinator.sol:239-255 | The part before the callback is the settlement step |
| RouterContracts.CoordinatorContract.RefundExpired | contracts/ProofVRFCoordinator.sol:279-290 | The method is the idempotent refund step |
| RouterContracts.CoordinatorContract.WithdrawCredits | contracts/ProofVRFCoordinator.sol:292-304 | The method is the withdrawal step |
| RouterContracts.RouterContract.RequestRandomWords | contracts/ProofVRFRouter.sol:114-170 | The method is the routed request, or full revert |
| RouterContracts.RouterContract.RawFulfillRandomWords | contracts/ProofVRFRouter.sol:173-189 | Words are recorded once, for open requests |
| RouterContracts.RouterContract.RefundExpired | contracts/ProofVRFRouter.sol:236-254 | Refund, withdrawal and credit as one step, or full revert |
| RouterContracts.RouterContract.WithdrawCredits | contracts/ProofVRFRouter.sol:256-268 | The method is the withdrawal step |
| RouterContracts.Deployment.FulfillRandomWords | contracts/ProofVRFCoordinator.sol:239-258 | Settlement and callback together are the fulfilment step of the two contracts |
| RouterContracts.Deployment.AttemptCallback | contracts/ProofVRFCoordinator.sol:306-334 | The callback is the delivery: the router records, another consumer does as it likes |
| RouterContracts.Deployment.RetryCallback | contracts/ProofVRFCoordinator.sol:260-266 | The method is the retry step |
| RouterContracts.Deployment.RetryProviderCallback | contracts/ProofVRFRouter.sol:192-197 | The router's retry is the coordinator's, for open routed requests only |

## Left out

- DkgTheorems.FinalizersAgree: the order of localeCompare is one strict collation that all participants share.
- DkgDealing.ConstantsLeftOpen: counts the dealer's own rule on the top coefficient; the curve library refuses the other zero coefficients too, so after threshold - 1 public shares the constants whose polynomial has one are excluded as well.
- CompactHistory.ValidateCompactTransitions: starts from normalized witnesses; the field syntax of operator/compact-protocol.mjs:33-57 and its 32-bit bound on attempts are not modelled.
- CompactHistory.RecoverCompactRequest: the anchor block, the event topics and the request identity checks are not modelled; a log is its place and its witness.
- CompactHistory.AcceptedIsHistory: takes the immutable fields of the first witness as given, since the code checks none of their bounds.
- Ecvrf.HashToCurve: the hash chain is a given sequence with at least one candidate on the curve.
- Ecvrf.GenerateProof: the nonces are a given sequence; hash outputs are a function of the points they cover.
- Ecvrf.WitnessSumIsV: the group law on coordinates is a hypothesis, as curve arithmetic is a library of the original.
- ScanIndex.IndexFollowsChain: the chain does not reorganize, and its events are what the nodes report.
- NonceJournal.OneMinedPerNonce: the chain does not reorganize, takes only what this journal's relayer sent, and providers report receipts only for what it holds; the lock is not lost between a check that it is held and the write that follows.
- NonceJournal.Relayer.Reconcile: the providers' answers about one nonce are one combined view.
- Signer.NeverEquivocates: process crashes and failed file operations only; torn writes and power loss are not modelled, and a rename or an append is atomic.
- RouterV1.BooksAgree: one coordinator behind one router; key registration is an input of each request, and code-hash pins are not modelled.
- The router's delivery of recorded words to the final consumer (contracts/ProofVRFRouter.sol:201-232), which moves no money.
- The 256-bit overflow of sums and the 32-bit overflow of attempt counters in the contracts.
- Ether forced into a contract, and callers with address zero, which the model allows though the chain does not.
- The calldata length and offset checks, code hashes and gas are inputs of a fulfilment; the verifier's answer and the L1 cost too.
- Event logs other than CompactRequestState.
- createResponseBundle, keystore and envelope encryption, and the attestation tools.
- Manifest field formats (ids, endpoints, network names, container digests, derived key hashes).
- claimRequest, retryRequest and summary of the request table; the worker's use of a row is a lease flag and a completion.
- VRFAdminTimelock, BlockhashStore, deployment scripts, calibration, health checks and reports.
