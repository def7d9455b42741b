/** contracts/VRFServiceCoordinatorBase.sol: storage, administration, billing.
    A storage mapping is a finite map whose missing entries read as zero. A function that may revert
    returns None; which error is raised is not kept. */
module ServiceBase {
  import opened Outcomes

  type Address = nat
  type KeyHash = nat
  type SubId = nat

  const MIN_REQUEST_CONFIRMATIONS: nat := 1
  const MAX_REQUEST_CONFIRMATIONS: nat := 200
  const MAX_PREMIUM_BPS: nat := 10_000
  const MAX_CALLBACK_GAS_LIMIT: nat := 2_500_000
  const MIN_VERIFICATION_GAS_LIMIT: nat := 100_000
  const MAX_VERIFICATION_GAS_LIMIT: nat := 3_000_000
  const MAX_NUM_WORDS: nat := 32
  const MAX_PROOF_DATA_LENGTH: nat := 8_192
  const MAX_CONSUMERS: nat := 100
  const MIN_REQUEST_TIMEOUT_BLOCKS: nat := 257
  const MAX_REQUEST_TIMEOUT_BLOCKS: nat := 1_000_000
  const PRUNE_DELAY_BLOCKS: nat := 50_000
  const SPONSOR_EPOCH_SECONDS: nat := 86_400
  const MAX_UINT64: nat := 0xFFFF_FFFF_FFFF_FFFF

  datatype PricingConfig = PricingConfig(
    minimumRequestFeeWei: nat, l1FeeReserveWei: nat, fulfillmentOverheadGas: nat, perWordGas: nat,
    publicPremiumBps: nat, operatorPremiumShareBps: nat, requestTimeoutBlocks: nat)

  datatype KeyConfig = KeyConfig(
    verifier: Address, verifierCodeHash: nat, fulfiller: Address, payee: Address, maxGasPriceWei: nat,
    verificationGasLimit: nat, proofDataLength: nat, active: bool)

  datatype KeyVersion = KeyVersion(
    keyHash: KeyHash, verifierCodeHash: nat, verifier: Address, verificationGasLimit: nat, proofDataLength: nat,
    fulfiller: Address, maxGasPriceWei: nat, payee: Address)

  datatype Subscription = Subscription(
    owner: Address, pendingOwner: Address, balance: nat, reserved: nat, consumerCount: nat, active: bool)

  datatype ConsumerConfig = ConsumerConfig(
    maxCallbackGasLimit: nat, maxPendingRequests: nat, pendingRequests: nat, active: bool)

  datatype PremiumOverride = PremiumOverride(premiumBps: nat, enabled: bool)

  datatype SponsorPolicy = SponsorPolicy(
    subscriptionId: SubId, validUntil: nat, epoch: nat, requestsPerEpoch: nat, requestsInEpoch: nat,
    maxPendingRequests: nat, pendingRequests: nat, maxCallbackGasLimit: nat, premiumBps: nat,
    waiveMinimumFee: bool, active: bool)

  datatype SponsorPolicyConfig = SponsorPolicyConfig(
    subscriptionId: SubId, validUntil: nat, requestsPerEpoch: nat, maxPendingRequests: nat,
    maxCallbackGasLimit: nat, premiumBps: nat, waiveMinimumFee: bool)

  datatype Billing = Billing(subscriptionId: SubId, premiumBps: nat, sponsored: bool, waiveMinimumFee: bool)

  /** Storage shared by both coordinators, the contract's ether and its re-entrancy lock. */
  datatype Base = Base(
    owner: Address, pendingOwner: Address, guardian: Address, paused: bool, pricing: PricingConfig, nextSubscriptionId: SubId,
    treasuryCredits: nat, ether: nat, locked: bool,
    keys: map<KeyHash, KeyConfig>,
    subscriptions: map<SubId, Subscription>,
    consumers: map<(SubId, Address), ConsumerConfig>,
    overrides: map<SubId, PremiumOverride>,
    sponsors: map<Address, SponsorPolicy>,
    operatorCredits: map<Address, nat>,
    nonces: map<(SubId, Address), nat>,
    nextKeyVersion: nat, pricingVersion: nat,
    currentKeyVersions: map<KeyHash, nat>,
    keyVersions: map<nat, KeyVersion>,
    pricingVersions: map<nat, PricingConfig>)

  // ------------------------------------------------------------ storage reads

  const NO_SUBSCRIPTION := Subscription(0, 0, 0, 0, 0, false)
  const NO_CONSUMER := ConsumerConfig(0, 0, 0, false)
  const NO_POLICY := SponsorPolicy(0, 0, 0, 0, 0, 0, 0, 0, 0, false, false)

  function Sub(b: Base, id: SubId): Subscription {
    if id in b.subscriptions then b.subscriptions[id] else NO_SUBSCRIPTION
  }

  function Consumer(b: Base, id: SubId, a: Address): ConsumerConfig {
    if (id, a) in b.consumers then b.consumers[(id, a)] else NO_CONSUMER
  }

  function Sponsor(b: Base, a: Address): SponsorPolicy {
    if a in b.sponsors then b.sponsors[a] else NO_POLICY
  }

  function Credits(b: Base, a: Address): nat {
    if a in b.operatorCredits then b.operatorCredits[a] else 0
  }

  function Nonce(b: Base, id: SubId, a: Address): nat {
    if (id, a) in b.nonces then b.nonces[(id, a)] else 0
  }

  function WithSub(b: Base, id: SubId, s: Subscription): Base {
    b.(subscriptions := b.subscriptions[id := s])
  }

  function WithConsumer(b: Base, id: SubId, a: Address, c: ConsumerConfig): Base {
    b.(consumers := b.consumers[(id, a) := c])
  }

  predicate Exists(b: Base, id: SubId) { Sub(b, id).owner != 0 }

  predicate OwnedBy(b: Base, id: SubId, sender: Address) { Exists(b, id) && Sub(b, id).owner == sender }

  // ------------------------------------------------------------------ pricing

  predicate ValidPricing(c: PricingConfig) {
    && 50_000 <= c.fulfillmentOverheadGas <= 1_000_000
    && c.perWordGas <= 100_000 && c.publicPremiumBps <= MAX_PREMIUM_BPS
    && c.operatorPremiumShareBps <= MAX_PREMIUM_BPS
    && MIN_REQUEST_TIMEOUT_BLOCKS <= c.requestTimeoutBlocks <= MAX_REQUEST_TIMEOUT_BLOCKS
  }

  function ApplyPrice(networkCost: nat, premiumBps: nat, minimumFee: nat): nat {
    var priced := networkCost * (MAX_PREMIUM_BPS + premiumBps) / MAX_PREMIUM_BPS;
    if priced < minimumFee then minimumFee else priced
  }

  function QuotePayment(verificationGasLimit: nat, maxGasPriceWei: nat, callbackGasLimit: nat, numWords: nat,
                        premiumBps: nat, waiveMinimumFee: bool, c: PricingConfig): nat
  {
    var gasUnits := verificationGasLimit + callbackGasLimit + c.fulfillmentOverheadGas + c.perWordGas * numWords;
    ApplyPrice(gasUnits * maxGasPriceWei + c.l1FeeReserveWei, premiumBps, if waiveMinimumFee then 0 else c.minimumRequestFeeWei)
  }

  predicate ValidBounds(callbackGasLimit: nat, numWords: nat) {
    0 < callbackGasLimit <= MAX_CALLBACK_GAS_LIMIT && 0 < numWords <= MAX_NUM_WORDS
  }

  function ResolveBilling(b: Base, consumer: Address, supplied: SubId, callbackGasLimit: nat,
                          timestamp: nat): Option<Billing> {
    var policy := Sponsor(b, consumer);
    var billing :=
      if supplied == 0 then
        if !policy.active || timestamp > policy.validUntil then None
        else if callbackGasLimit > policy.maxCallbackGasLimit || policy.pendingRequests >= policy.maxPendingRequests then None
        else Some(Billing(policy.subscriptionId, policy.premiumBps, true, policy.waiveMinimumFee))
      else
        var o := if supplied in b.overrides then b.overrides[supplied] else PremiumOverride(0, false);
        Some(Billing(supplied, if o.enabled then o.premiumBps else b.pricing.publicPremiumBps, false, false));
    if billing.None? then None
    else
      var id := billing.value.subscriptionId;
      var config := Consumer(b, id, consumer);
      if !Exists(b, id) || !Sub(b, id).active || !config.active || callbackGasLimit > config.maxCallbackGasLimit
      then None else billing
  }

  // --------------------------------------------------- unguarded entry points

  /** What the verifier contract answers while a key is registered. */
  datatype VerifierInfo = VerifierInfo(hasCode: bool, codeHash: nat, proofLength: nat, acceptsKey: bool)

  /** The entry points without the re-entrancy guard: any of them can run inside a callback. */
  datatype AdminCall =
    | TransferOwnership(newOwner: Address)
    | AcceptOwnership
    | RenounceOwnership
    | SetPricing(config: PricingConfig)
    | SetGuardian(guardian: Address)
    | PauseRequests
    | UnpauseRequests
    | RegisterKey(keyHash: KeyHash, verifier: Address, info: VerifierInfo, fulfiller: Address, payee: Address,
                  maxGasPriceWei: nat, verificationGasLimit: nat)
    | SetKeyActive(keyHash: KeyHash, active: bool)
    | SetKeyService(keyHash: KeyHash, fulfiller: Address, payee: Address, maxGasPriceWei: nat, verificationGasLimit: nat)
    | CreateSubscription
    | RequestOwnerTransfer(id: SubId, newOwner: Address)
    | AcceptOwnerTransfer(id: SubId)
    | AddConsumer(id: SubId, consumer: Address, hasCode: bool, maxCallbackGasLimit: nat, maxPendingRequests: nat)
    | UpdateConsumer(id: SubId, consumer: Address, maxCallbackGasLimit: nat, maxPendingRequests: nat)
    | RemoveConsumer(id: SubId, consumer: Address)
    | SetPremiumOverride(id: SubId, premiumBps: nat, enabled: bool)
    | SetSponsorPolicy(consumer: Address, hasCode: bool, policy: SponsorPolicyConfig, timestamp: nat)
    | RemoveSponsorPolicy(consumer: Address)

  function AppendPricing(b: Base, c: PricingConfig): Base {
    var v := b.pricingVersion + 1;
    b.(pricing := c, pricingVersion := v, pricingVersions := b.pricingVersions[v := c])
  }

  function VersionOf(keyHash: KeyHash, k: KeyConfig): KeyVersion {
    KeyVersion(keyHash, k.verifierCodeHash, k.verifier, k.verificationGasLimit, k.proofDataLength, k.fulfiller,
               k.maxGasPriceWei, k.payee)
  }

  /** Store a key configuration and append it as the current version. */
  function AppendKey(b: Base, keyHash: KeyHash, k: KeyConfig): Base {
    var v := b.nextKeyVersion + 1;
    b.(keys := b.keys[keyHash := k], nextKeyVersion := v,
       keyVersions := b.keyVersions[v := VersionOf(keyHash, k)],
       currentKeyVersions := b.currentKeyVersions[keyHash := v])
  }

  predicate ValidService(fulfiller: Address, payee: Address, maxGasPriceWei: nat, verificationGasLimit: nat) {
    && fulfiller != 0 && payee != 0 && maxGasPriceWei != 0
    && MIN_VERIFICATION_GAS_LIMIT <= verificationGasLimit <= MAX_VERIFICATION_GAS_LIMIT
  }

  function AdminStep(b: Base, sender: Address, c: AdminCall): Option<Base> {
    match c
    case TransferOwnership(newOwner) =>
      if sender != b.owner then None else Some(b.(pendingOwner := newOwner))
    case AcceptOwnership =>
      if sender != b.pendingOwner then None else Some(b.(owner := sender, pendingOwner := 0))
    case RenounceOwnership =>
      if sender != b.owner then None else Some(b.(owner := 0, pendingOwner := 0))
    case SetPricing(config) =>
      if sender != b.owner || !ValidPricing(config) then None else Some(AppendPricing(b, config))
    case SetGuardian(g) =>
      if sender != b.owner || g == 0 then None else Some(b.(guardian := g))
    case PauseRequests =>
      if sender != b.guardian && sender != b.owner then None else Some(b.(paused := true))
    case UnpauseRequests =>
      if sender != b.owner then None else Some(b.(paused := false))
    case RegisterKey(kh, verifier, info, fulfiller, payee, maxGasPriceWei, verificationGasLimit) =>
      if sender != b.owner || kh in b.keys || kh == 0 || !info.hasCode
         || !ValidService(fulfiller, payee, maxGasPriceWei, verificationGasLimit)
         || info.proofLength == 0 || info.proofLength > MAX_PROOF_DATA_LENGTH || !info.acceptsKey then None
      else Some(AppendKey(b, kh, KeyConfig(verifier, info.codeHash, fulfiller, payee, maxGasPriceWei,
                                           verificationGasLimit, info.proofLength, true)))
    case SetKeyActive(kh, active) =>
      if sender != b.owner || kh !in b.keys then None
      else Some(b.(keys := b.keys[kh := b.keys[kh].(active := active)]))
    case SetKeyService(kh, fulfiller, payee, maxGasPriceWei, verificationGasLimit) =>
      if sender != b.owner || !ValidService(fulfiller, payee, maxGasPriceWei, verificationGasLimit) || kh !in b.keys then None
      else Some(AppendKey(b, kh, b.keys[kh].(fulfiller := fulfiller, payee := payee, maxGasPriceWei := maxGasPriceWei,
                                             verificationGasLimit := verificationGasLimit)))
    case CreateSubscription =>
      Some(WithSub(b, b.nextSubscriptionId, Subscription(sender, 0, 0, 0, 0, true))
           .(nextSubscriptionId := b.nextSubscriptionId + 1))
    case RequestOwnerTransfer(id, newOwner) =>
      if newOwner == 0 || !OwnedBy(b, id, sender) then None
      else Some(WithSub(b, id, Sub(b, id).(pendingOwner := newOwner)))
    case AcceptOwnerTransfer(id) =>
      if !Exists(b, id) || Sub(b, id).pendingOwner != sender then None
      else Some(WithSub(b, id, Sub(b, id).(owner := sender, pendingOwner := 0)))
    case AddConsumer(id, consumer, hasCode, maxCallbackGasLimit, maxPendingRequests) =>
      var config := Consumer(b, id, consumer);
      if !OwnedBy(b, id, sender) || !Sub(b, id).active || !hasCode
         || maxCallbackGasLimit == 0 || maxCallbackGasLimit > MAX_CALLBACK_GAS_LIMIT || maxPendingRequests == 0
         || config.active || Sub(b, id).consumerCount >= MAX_CONSUMERS then None
      else
        var b' := WithConsumer(b, id, consumer, config.(maxCallbackGasLimit := maxCallbackGasLimit,
                                                        maxPendingRequests := maxPendingRequests, active := true));
        Some(WithSub(b', id, Sub(b, id).(consumerCount := Sub(b, id).consumerCount + 1)))
    case UpdateConsumer(id, consumer, maxCallbackGasLimit, maxPendingRequests) =>
      var config := Consumer(b, id, consumer);
      if !OwnedBy(b, id, sender) || !config.active || maxCallbackGasLimit == 0
         || maxCallbackGasLimit > MAX_CALLBACK_GAS_LIMIT || maxPendingRequests == 0
         || maxPendingRequests < config.pendingRequests then None
      else Some(WithConsumer(b, id, consumer, config.(maxCallbackGasLimit := maxCallbackGasLimit,
                                                      maxPendingRequests := maxPendingRequests)))
    case RemoveConsumer(id, consumer) =>
      var config := Consumer(b, id, consumer);
      if !OwnedBy(b, id, sender) || !config.active || config.pendingRequests != 0 || Sub(b, id).consumerCount == 0 then None
      else Some(WithSub(WithConsumer(b, id, consumer, NO_CONSUMER), id,
                        Sub(b, id).(consumerCount := Sub(b, id).consumerCount - 1)))
    case SetPremiumOverride(id, premiumBps, enabled) =>
      if sender != b.owner || !Exists(b, id) || premiumBps > MAX_PREMIUM_BPS then None
      else Some(b.(overrides := b.overrides[id := PremiumOverride(premiumBps, enabled)]))
    case SetSponsorPolicy(consumer, hasCode, policy, timestamp) =>
      var config := Consumer(b, policy.subscriptionId, consumer);
      var prior := Sponsor(b, consumer);
      var epoch := timestamp / SPONSOR_EPOCH_SECONDS;
      if sender != b.owner || !Exists(b, policy.subscriptionId) || !hasCode || !Sub(b, policy.subscriptionId).active
         || !config.active || policy.validUntil <= timestamp || policy.requestsPerEpoch == 0
         || policy.maxPendingRequests == 0 || policy.maxCallbackGasLimit == 0
         || policy.maxCallbackGasLimit > config.maxCallbackGasLimit || policy.premiumBps > MAX_PREMIUM_BPS then None
      else if prior.pendingRequests != 0
              && (prior.subscriptionId != policy.subscriptionId || policy.maxPendingRequests < prior.pendingRequests) then None
      else
        Some(b.(sponsors := b.sponsors[consumer := SponsorPolicy(
          policy.subscriptionId, policy.validUntil, epoch, policy.requestsPerEpoch,
          if prior.active && prior.epoch == epoch then prior.requestsInEpoch else 0,
          policy.maxPendingRequests, prior.pendingRequests, policy.maxCallbackGasLimit, policy.premiumBps,
          policy.waiveMinimumFee, true)]))
    case RemoveSponsorPolicy(consumer) =>
      if sender != b.owner || Sponsor(b, consumer).pendingRequests != 0 then None
      else Some(b.(sponsors := b.sponsors[consumer := NO_POLICY]))
  }
}
