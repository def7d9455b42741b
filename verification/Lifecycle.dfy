/** The parts of the request lifecycle that contracts/VRFServiceCoordinatorV2.sol and
    contracts/VRFServiceCoordinatorV3.sol write in the same words: admission, release and payment. */
module Lifecycle {
  import opened Outcomes
  import opened ServiceBase

  /** What the pre-seed hashes. The domain tag, the chain and the contract are fixed for one deployment. */
  datatype Seed = Seed(consumer: Address, subscriptionId: SubId, nonce: nat, keyHash: KeyHash)

  /** The hash of a pre-seed. Keccak is modelled as injective. */
  datatype RequestId = RequestId(preSeed: Seed)

  datatype Status = Pending | Fulfilled | Expired

  /** The full request: V2 rebuilds it on reads, V3 takes it from the caller as a witness. */
  datatype Request = Request(
    consumer: Address, verifier: Address, verifierCodeHash: nat, fulfiller: Address, payee: Address,
    keyHash: KeyHash, subscriptionId: SubId, preSeed: Seed, reservedPayment: nat, randomness: nat,
    minimumFeeWei: nat, requestBlock: nat, expiresAtBlock: nat, maxGasPriceWei: nat, verificationGasLimit: nat,
    proofDataLength: nat, callbackGasLimit: nat, numWords: nat, callbackAttempts: nat, fulfillmentOverheadGas: nat,
    confirmations: nat, premiumBps: nat, operatorPremiumShareBps: nat, status: Status, sponsored: bool,
    waiveMinimumFee: bool, callbackSucceeded: bool)

  /** The caller's arguments of requestRandomWords. */
  datatype Params = Params(
    keyHash: KeyHash, subscriptionId: SubId, requestConfirmations: nat, callbackGasLimit: nat, numWords: nat,
    maxPayment: nat)

  /** What a request transaction reads from the chain. */
  datatype Chain = Chain(senderHasCode: bool, block: nat, timestamp: nat)

  /** What a fulfilment transaction reads from the chain, the verifier and the gas meter. */
  datatype Proof = Proof(
    block: nat, blockhashAvailable: bool, proofLength: nat, calldataExact: bool, gasPrice: nat,
    verifierCodeHash: nat, calculatorUnchanged: bool, output: Option<nat>, gasLeft: nat, gasUsed: nat, l1Cost: nat)

  // ---------------------------------------------------------------- admission

  datatype Ticket = Ticket(base: Base, preSeed: Seed, billing: Billing, reserve: nat)

  function ConsumeSponsorQuota(b: Base, consumer: Address, timestamp: nat): Option<Base> {
    var policy := Sponsor(b, consumer);
    var epoch := timestamp / SPONSOR_EPOCH_SECONDS;
    var used := if policy.epoch != epoch then 0 else policy.requestsInEpoch;
    if used >= policy.requestsPerEpoch then None
    else Some(b.(sponsors := b.sponsors[consumer := policy.(
      epoch := epoch, requestsInEpoch := used + 1, pendingRequests := policy.pendingRequests + 1)]))
  }

  function QuoteMaxPayment(b: Base, key: KeyConfig, callbackGasLimit: nat, numWords: nat, billing: Billing): nat {
    QuotePayment(key.verificationGasLimit, key.maxGasPriceWei, callbackGasLimit, numWords,
                 billing.premiumBps, billing.waiveMinimumFee, b.pricing)
  }

  /** The checks of requestRandomWords, in order; the billing context and the reserve when they pass. */
  function Admit(b: Base, sender: Address, p: Params, chain: Chain): Option<(Billing, nat)> {
    if b.paused || !chain.senderHasCode
       || !(MIN_REQUEST_CONFIRMATIONS <= p.requestConfirmations <= MAX_REQUEST_CONFIRMATIONS)
       || !ValidBounds(p.callbackGasLimit, p.numWords) || p.keyHash !in b.keys || !b.keys[p.keyHash].active then None
    else
      match ResolveBilling(b, sender, p.subscriptionId, p.callbackGasLimit, chain.timestamp)
      case None => None
      case Some(billing) =>
        var reserve := QuoteMaxPayment(b, b.keys[p.keyHash], p.callbackGasLimit, p.numWords, billing);
        var subscription := Sub(b, billing.subscriptionId);
        var consumer := Consumer(b, billing.subscriptionId, sender);
        if p.maxPayment < reserve || subscription.balance < subscription.reserved
           || subscription.balance - subscription.reserved < reserve
           || consumer.pendingRequests >= consumer.maxPendingRequests then None
        else Some((billing, reserve))
  }

  /** Use up a nonce, reserve the payment and take a pending slot. */
  function Reserve(b: Base, id: SubId, sender: Address, reserve: nat): Base {
    var b1 := b.(nonces := b.nonces[(id, sender) := Nonce(b, id, sender) + 1]);
    var b2 := WithSub(b1, id, Sub(b1, id).(reserved := Sub(b1, id).reserved + reserve));
    var config := Consumer(b2, id, sender);
    WithConsumer(b2, id, sender, config.(pendingRequests := config.pendingRequests + 1))
  }

  /** The writes of requestRandomWords to shared storage, and its pre-seed. */
  function TakeTicket(b: Base, sender: Address, p: Params, chain: Chain): Option<Ticket> {
    match Admit(b, sender, p, chain)
    case None => None
    case Some((billing, reserve)) =>
      match (if billing.sponsored then ConsumeSponsorQuota(b, sender, chain.timestamp) else Some(b))
      case None => None
      case Some(b1) =>
        if chain.block + b.pricing.requestTimeoutBlocks > MAX_UINT64 then None
        else
          var seed := Seed(sender, billing.subscriptionId, Nonce(b, billing.subscriptionId, sender) + 1, p.keyHash);
          Some(Ticket(Reserve(b1, billing.subscriptionId, sender, reserve), seed, billing, reserve))
  }

  // --------------------------------------------------------------- fulfilment

  function MinimumCallbackGas(callbackGasLimit: nat, overhead: nat): nat {
    callbackGasLimit + callbackGasLimit / 63 + overhead
  }

  predicate SeedReady(requestBlock: nat, confirmations: nat, expiresAtBlock: nat, proof: Proof) {
    requestBlock + confirmations <= proof.block <= expiresAtBlock && proof.blockhashAvailable
  }

  function NetworkCost(proof: Proof, overhead: nat): nat {
    (proof.gasUsed + overhead) * proof.gasPrice + proof.l1Cost
  }

  function OperatorPayment(networkCost: nat, charge: nat, shareBps: nat): int {
    networkCost + (charge - networkCost) * shareBps / MAX_PREMIUM_BPS
  }

  /** Give back a reserve and the pending slots. Subtractions are checked: an underflow reverts. */
  function Release(b: Base, id: SubId, consumer: Address, sponsored: bool, reserve: nat): Option<Base> {
    var subscription := Sub(b, id);
    var config := Consumer(b, id, consumer);
    if subscription.reserved < reserve || config.pendingRequests == 0
       || (sponsored && Sponsor(b, consumer).pendingRequests == 0) then None
    else
      var b1 := WithSub(b, id, subscription.(reserved := subscription.reserved - reserve));
      var b2 := WithConsumer(b1, id, consumer, config.(pendingRequests := config.pendingRequests - 1));
      var policy := Sponsor(b, consumer);
      Some(if sponsored
           then b2.(sponsors := b2.sponsors[consumer := policy.(pendingRequests := policy.pendingRequests - 1)])
           else b2)
  }

  /** Move a charge from the subscription to the payee and the treasury. */
  function Pay(b: Base, id: SubId, payee: Address, shareBps: nat, networkCost: nat, charge: nat): Option<Base> {
    var subscription := Sub(b, id);
    var operatorPayment := OperatorPayment(networkCost, charge, shareBps);
    if subscription.balance < charge || charge < networkCost || charge < operatorPayment then None
    else
      var b1 := WithSub(b, id, subscription.(balance := subscription.balance - charge));
      assert operatorPayment >= 0;
      Some(b1.(operatorCredits := b1.operatorCredits[payee := Credits(b1, payee) + operatorPayment],
               treasuryCredits := b1.treasuryCredits + (charge - operatorPayment)))
  }
}

/** contracts/VRFServiceCoordinatorV2.sol: storage keeps a compact record that names append-only versions. */
module StoredRequests {
  import opened Outcomes
  import opened ServiceBase
  import opened Lifecycle

  datatype StoredRequest = StoredRequest(
    consumer: Address, keyVersion: nat, callbackGasLimit: nat, subscriptionId: SubId, preSeed: Seed, randomness: nat,
    requestBlock: nat, pricingVersion: nat, numWords: nat, callbackAttempts: nat, confirmations: nat, premiumBps: nat,
    status: Status, sponsored: bool, waiveMinimumFee: bool, callbackSucceeded: bool)

  type Table = map<RequestId, StoredRequest>

  const NO_KEY := KeyVersion(0, 0, 0, 0, 0, 0, 0, 0)
  const NO_PRICING := PricingConfig(0, 0, 0, 0, 0, 0, 0)

  function KeyAt(b: Base, v: nat): KeyVersion {
    if v in b.keyVersions then b.keyVersions[v] else NO_KEY
  }

  function PricingAt(b: Base, v: nat): PricingConfig {
    if v in b.pricingVersions then b.pricingVersions[v] else NO_PRICING
  }

  function ReservedPayment(b: Base, s: StoredRequest): nat {
    var key := KeyAt(b, s.keyVersion);
    QuotePayment(key.verificationGasLimit, key.maxGasPriceWei, s.callbackGasLimit, s.numWords, s.premiumBps,
                 s.waiveMinimumFee, PricingAt(b, s.pricingVersion))
  }

  function ExpiresAt(b: Base, s: StoredRequest): nat {
    s.requestBlock + PricingAt(b, s.pricingVersion).requestTimeoutBlocks
  }

  function MinimumFee(b: Base, s: StoredRequest): nat {
    if s.waiveMinimumFee then 0 else PricingAt(b, s.pricingVersion).minimumRequestFeeWei
  }

  /** getRequest for a known request. */
  function View(b: Base, s: StoredRequest): Request {
    var key, config := KeyAt(b, s.keyVersion), PricingAt(b, s.pricingVersion);
    Request(s.consumer, key.verifier, key.verifierCodeHash, key.fulfiller, key.payee, key.keyHash, s.subscriptionId,
            s.preSeed, ReservedPayment(b, s), s.randomness, MinimumFee(b, s), s.requestBlock, ExpiresAt(b, s),
            key.maxGasPriceWei, key.verificationGasLimit, key.proofDataLength, s.callbackGasLimit, s.numWords,
            s.callbackAttempts, config.fulfillmentOverheadGas, s.confirmations, s.premiumBps,
            config.operatorPremiumShareBps, s.status, s.sponsored, s.waiveMinimumFee, s.callbackSucceeded)
  }

  function Create(b: Base, t: Table, sender: Address, p: Params, chain: Chain): Option<(Base, Table)> {
    match TakeTicket(b, sender, p, chain)
    case None => None
    case Some(k) =>
      var version := if p.keyHash in b.currentKeyVersions then b.currentKeyVersions[p.keyHash] else 0;
      var s := StoredRequest(sender, version, p.callbackGasLimit, k.billing.subscriptionId, k.preSeed, 0, chain.block,
                             b.pricingVersion, p.numWords, 0, p.requestConfirmations, k.billing.premiumBps, Pending,
                             k.billing.sponsored, k.billing.waiveMinimumFee, false);
      Some((k.base, t[RequestId(k.preSeed) := s]))
  }

  /** fulfillRandomWords up to the external call. */
  function BeginFulfil(b: Base, t: Table, id: RequestId, sender: Address, proof: Proof): Option<Table> {
    if id !in t || t[id].status != Pending then None
    else
      var s := t[id];
      var key, config := KeyAt(b, s.keyVersion), PricingAt(b, s.pricingVersion);
      if proof.proofLength != key.proofDataLength || !proof.calldataExact || sender != key.fulfiller
         || proof.gasPrice > key.maxGasPriceWei || proof.verifierCodeHash != key.verifierCodeHash
         || !proof.calculatorUnchanged || !SeedReady(s.requestBlock, s.confirmations, ExpiresAt(b, s), proof)
         || proof.output.None?
         || proof.gasLeft < MinimumCallbackGas(s.callbackGasLimit, config.fulfillmentOverheadGas) then None
      else Some(t[id := s.(status := Fulfilled, randomness := proof.output.value,
                           callbackAttempts := s.callbackAttempts + 1)])
  }

  function AfterCallback(s: StoredRequest, success: bool): StoredRequest {
    if success then s.(callbackSucceeded := true) else s
  }

  /** The charge and _settle: everything is recomputed from the pinned versions. */
  function Settle(b: Base, s: StoredRequest, proof: Proof): Option<Base> {
    var key, config := KeyAt(b, s.keyVersion), PricingAt(b, s.pricingVersion);
    var networkCost := NetworkCost(proof, config.fulfillmentOverheadGas);
    var charge := ApplyPrice(networkCost, s.premiumBps, if s.waiveMinimumFee then 0 else config.minimumRequestFeeWei);
    var reserve := ReservedPayment(b, s);
    if charge > reserve then None
    else
      match Release(b, s.subscriptionId, s.consumer, s.sponsored, reserve)
      case None => None
      case Some(b1) => Pay(b1, s.subscriptionId, key.payee, config.operatorPremiumShareBps, networkCost, charge)
  }

  /** The same call after the external call returned. */
  function FinishFulfil(b: Base, t: Table, id: RequestId, success: bool, proof: Proof): Option<(Base, Table)> {
    if id !in t then None
    else
      var s := AfterCallback(t[id], success);
      match Settle(b, s, proof)
      case None => None
      case Some(b1) => Some((b1, t[id := s]))
  }

  function BeginRetry(b: Base, t: Table, id: RequestId, gasLeft: nat): Option<Table> {
    if id !in t || t[id].status != Fulfilled || t[id].callbackSucceeded then None
    else
      var s := t[id];
      if gasLeft < MinimumCallbackGas(s.callbackGasLimit, PricingAt(b, s.pricingVersion).fulfillmentOverheadGas) then None
      else Some(t[id := s.(callbackAttempts := s.callbackAttempts + 1)])
  }

  function FinishRetry(t: Table, id: RequestId, success: bool): Option<Table> {
    if id !in t then None
    else Some(t[id := AfterCallback(t[id], success)])
  }

  function Expire(b: Base, t: Table, id: RequestId, block: nat): Option<(Base, Table)> {
    if id !in t || t[id].status != Pending || block <= ExpiresAt(b, t[id]) then None
    else
      var s := t[id];
      match Release(b, s.subscriptionId, s.consumer, s.sponsored, ReservedPayment(b, s))
      case None => None
      case Some(b1) => Some((b1, t[id := s.(status := Expired)]))
  }

  function Prune(b: Base, t: Table, id: RequestId, block: nat): Option<Table> {
    if id !in t || t[id].status == Pending || block <= ExpiresAt(b, t[id]) + PRUNE_DELAY_BLOCKS then None
    else Some(t - {id})
  }
}

/** contracts/VRFServiceCoordinatorV3.sol: storage keeps one hash per request; the caller brings the witness. */
module Commitments {
  import opened Outcomes
  import opened ServiceBase
  import opened Lifecycle

  /** The hash of a full request. Keccak is modelled as injective. */
  datatype Digest = Digest(request: Request)

  type Table = map<RequestId, Digest>

  predicate Authenticates(t: Table, w: Request) {
    RequestId(w.preSeed) in t && t[RequestId(w.preSeed)] == Digest(w)
  }

  function Persist(t: Table, w: Request): Table { t[RequestId(w.preSeed) := Digest(w)] }

  /** The witness of a new request. */
  function NewWitness(b: Base, sender: Address, p: Params, chain: Chain, k: Ticket): Request
    requires p.keyHash in b.keys
  {
    var key, config := b.keys[p.keyHash], b.pricing;
    Request(sender, key.verifier, key.verifierCodeHash, key.fulfiller, key.payee, p.keyHash, k.billing.subscriptionId,
            k.preSeed, k.reserve, 0, if k.billing.waiveMinimumFee then 0 else config.minimumRequestFeeWei, chain.block,
            chain.block + config.requestTimeoutBlocks, key.maxGasPriceWei, key.verificationGasLimit,
            key.proofDataLength, p.callbackGasLimit, p.numWords, 0, config.fulfillmentOverheadGas,
            p.requestConfirmations, k.billing.premiumBps, config.operatorPremiumShareBps, Pending,
            k.billing.sponsored, k.billing.waiveMinimumFee, false)
  }

  function Create(b: Base, t: Table, sender: Address, p: Params, chain: Chain): Option<(Base, Table)> {
    match TakeTicket(b, sender, p, chain)
    case None => None
    case Some(k) => Some((k.base, Persist(t, NewWitness(b, sender, p, chain, k))))
  }

  /** The state a verified proof gives a request, committed before the external call. */
  function Verified(w: Request, randomness: nat): Request {
    w.(status := Fulfilled, randomness := randomness, callbackAttempts := w.callbackAttempts + 1)
  }

  predicate Fulfillable(w: Request, sender: Address, proof: Proof) {
    && w.status == Pending && proof.proofLength == w.proofDataLength && proof.calldataExact && sender == w.fulfiller
    && proof.gasPrice <= w.maxGasPriceWei && proof.verifierCodeHash == w.verifierCodeHash && proof.calculatorUnchanged
    && SeedReady(w.requestBlock, w.confirmations, w.expiresAtBlock, proof) && proof.output.Some?
    && proof.gasLeft >= MinimumCallbackGas(w.callbackGasLimit, w.fulfillmentOverheadGas)
  }

  function BeginFulfil(t: Table, w: Request, sender: Address, proof: Proof): Option<Table> {
    if !Authenticates(t, w) || !Fulfillable(w, sender, proof) then None
    else Some(Persist(t, Verified(w, proof.output.value)))
  }

  /** A successful callback commits the counted witness once more, with its flag. */
  function AfterCallback(t: Table, counted: Request, success: bool): Table {
    if success then Persist(t, counted.(callbackSucceeded := true)) else t
  }

  /** Reserve and slots back, then the charge out, all read from the witness. */
  function Settle(b: Base, w: Request, proof: Proof): Option<Base> {
    var networkCost := NetworkCost(proof, w.fulfillmentOverheadGas);
    var charge := ApplyPrice(networkCost, w.premiumBps, w.minimumFeeWei);
    if charge > w.reservedPayment then None
    else
      match Release(b, w.subscriptionId, w.consumer, w.sponsored, w.reservedPayment)
      case None => None
      case Some(b1) => Pay(b1, w.subscriptionId, w.payee, w.operatorPremiumShareBps, networkCost, charge)
  }

  /** The same call after the external call returned: `w` is the witness it was given. */
  function FinishFulfil(b: Base, t: Table, w: Request, success: bool, proof: Proof): Option<(Base, Table)> {
    var updated := Verified(w, if proof.output.Some? then proof.output.value else 0);
    match Settle(b, w, proof)
    case None => None
    case Some(b1) => Some((b1, AfterCallback(t, updated, success)))
  }

  function BeginRetry(t: Table, w: Request, gasLeft: nat): Option<Table> {
    if !Authenticates(t, w) || w.status != Fulfilled || w.callbackSucceeded
       || gasLeft < MinimumCallbackGas(w.callbackGasLimit, w.fulfillmentOverheadGas) then None
    else Some(Persist(t, w.(callbackAttempts := w.callbackAttempts + 1)))
  }

  function FinishRetry(t: Table, w: Request, success: bool): Option<Table> {
    Some(AfterCallback(t, w.(callbackAttempts := w.callbackAttempts + 1), success))
  }

  function Expire(b: Base, t: Table, w: Request, block: nat): Option<(Base, Table)> {
    if !Authenticates(t, w) || w.status != Pending || block <= w.expiresAtBlock then None
    else
      match Release(b, w.subscriptionId, w.consumer, w.sponsored, w.reservedPayment)
      case None => None
      case Some(b1) => Some((b1, Persist(t, w.(status := Expired))))
  }

  function Prune(t: Table, w: Request, block: nat): Option<Table> {
    if !Authenticates(t, w) || w.status == Pending || block <= w.expiresAtBlock + PRUNE_DELAY_BLOCKS then None
    else Some(t - {RequestId(w.preSeed)})
  }
}
