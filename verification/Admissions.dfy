/** requestRandomWords as its caller sees it: exactly when a request is admitted, on whose account and terms, and
    what the coordinator then stores. */
module Admissions {
  import opened Outcomes
  import opened ServiceBase
  import opened Lifecycle
  import opened Commitments
  import opened Coordinator
  import opened BaseInvariants
  import opened Books
  import opened Solvency
  import opened CoordinatorRuns
  import opened Refinement
  import opened Settlements
  import V2 = StoredRequests

  // ------------------------------------------------------------------- terms

  predicate Overridden(b: Base, id: SubId) { id in b.overrides && b.overrides[id].enabled }

  /** Who pays, and on what terms: a named subscription pays its enabled override or else the public premium, with no
      sponsor and no fee waived; a caller that names none is on its sponsor's terms. */
  predicate TermsAre(b: Base, sender: Address, supplied: SubId, k: Billing) {
    if supplied != 0 then
      && k.subscriptionId == supplied && !k.sponsored && !k.waiveMinimumFee
      && (Overridden(b, supplied) ==> k.premiumBps == b.overrides[supplied].premiumBps)
      && (!Overridden(b, supplied) ==> k.premiumBps == b.pricing.publicPremiumBps)
    else
      && k.subscriptionId == Sponsor(b, sender).subscriptionId && k.premiumBps == Sponsor(b, sender).premiumBps
      && k.sponsored && (k.waiveMinimumFee <==> Sponsor(b, sender).waiveMinimumFee)
  }

  /** The sponsor still stands for its caller: in time, within its limits, and with quota left in this day's epoch. */
  predicate SponsorStands(policy: SponsorPolicy, callbackGasLimit: nat, timestamp: nat) {
    && policy.active && timestamp <= policy.validUntil && callbackGasLimit <= policy.maxCallbackGasLimit
    && policy.pendingRequests < policy.maxPendingRequests && 0 < policy.requestsPerEpoch
    && (policy.epoch == timestamp / 86_400 ==> policy.requestsInEpoch < policy.requestsPerEpoch)
  }

  predicate AccountStands(account: Subscription, consumer: ConsumerConfig, callbackGasLimit: nat) {
    && account.owner != 0 && account.active && consumer.active && callbackGasLimit <= consumer.maxCallbackGasLimit
    && consumer.pendingRequests < consumer.maxPendingRequests
  }

  /** The reserve is the price of the largest fulfilment the request allows, on its terms. */
  predicate ReserveIs(b: Base, p: Params, k: Billing, reserve: int)
    requires p.keyHash in b.keys
  {
    var key, c := b.keys[p.keyHash], b.pricing;
    var gas := key.verificationGasLimit + p.callbackGasLimit + c.fulfillmentOverheadGas + c.perWordGas * p.numWords;
    IsCharge(reserve, gas * key.maxGasPriceWei + c.l1FeeReserveWei, k.premiumBps,
             if k.waiveMinimumFee then 0 else c.minimumRequestFeeWei)
  }

  predicate Allowed(b: Base, sender: Address, p: Params, chain: Chain, k: Billing, reserve: int) {
    && !b.paused && chain.senderHasCode && 1 <= p.requestConfirmations <= 200
    && 1 <= p.callbackGasLimit <= 2_500_000 && 1 <= p.numWords <= 32
    && p.keyHash in b.keys && b.keys[p.keyHash].active
    && (p.subscriptionId == 0 ==> SponsorStands(Sponsor(b, sender), p.callbackGasLimit, chain.timestamp))
    && AccountStands(Sub(b, k.subscriptionId), Consumer(b, k.subscriptionId, sender), p.callbackGasLimit)
    && reserve <= p.maxPayment && Sub(b, k.subscriptionId).reserved + reserve <= Sub(b, k.subscriptionId).balance
    && chain.block + b.pricing.requestTimeoutBlocks <= 0xFFFF_FFFF_FFFF_FFFF
  }

  // -------------------------------------------------------- what the code computes

  lemma TermsExactly(b: Base, sender: Address, supplied: SubId, callbackGasLimit: nat, timestamp: nat, k: Billing)
    requires TermsAre(b, sender, supplied, k)
    ensures ResolveBilling(b, sender, supplied, callbackGasLimit, timestamp).Some? ==>
      ResolveBilling(b, sender, supplied, callbackGasLimit, timestamp) == Some(k)
    ensures ResolveBilling(b, sender, supplied, callbackGasLimit, timestamp).Some? <==>
      var (account, consumer) := (Sub(b, k.subscriptionId), Consumer(b, k.subscriptionId, sender));
      && account.owner != 0 && account.active && consumer.active && callbackGasLimit <= consumer.maxCallbackGasLimit
      && (supplied == 0 ==>
            var policy := Sponsor(b, sender);
            && policy.active && timestamp <= policy.validUntil && callbackGasLimit <= policy.maxCallbackGasLimit
            && policy.pendingRequests < policy.maxPendingRequests)
  {
  }

  lemma QuoteIsReserve(b: Base, p: Params, k: Billing)
    requires p.keyHash in b.keys
    ensures ReserveIs(b, p, k, QuoteMaxPayment(b, b.keys[p.keyHash], p.callbackGasLimit, p.numWords, k))
  {
    var key, c := b.keys[p.keyHash], b.pricing;
    var gas := key.verificationGasLimit + p.callbackGasLimit + c.fulfillmentOverheadGas + c.perWordGas * p.numWords;
    PriceIsCharge(gas * key.maxGasPriceWei + c.l1FeeReserveWei, k.premiumBps,
                  if k.waiveMinimumFee then 0 else c.minimumRequestFeeWei);
  }

  lemma ReserveIsQuote(b: Base, p: Params, k: Billing, reserve: int)
    requires p.keyHash in b.keys && ReserveIs(b, p, k, reserve)
    ensures reserve == QuoteMaxPayment(b, b.keys[p.keyHash], p.callbackGasLimit, p.numWords, k)
  {
    var key, c := b.keys[p.keyHash], b.pricing;
    var gas := key.verificationGasLimit + p.callbackGasLimit + c.fulfillmentOverheadGas + c.perWordGas * p.numWords;
    QuoteIsReserve(b, p, k);
    ChargeIsUnique(reserve, QuoteMaxPayment(b, b.keys[p.keyHash], p.callbackGasLimit, p.numWords, k),
                   gas * key.maxGasPriceWei + c.l1FeeReserveWei, k.premiumBps,
                   if k.waiveMinimumFee then 0 else c.minimumRequestFeeWei);
  }

  lemma TicketExactly(b: Base, sender: Address, p: Params, chain: Chain, k: Billing, reserve: int)
    requires Covered(b) && TermsAre(b, sender, p.subscriptionId, k)
    requires p.keyHash in b.keys ==> ReserveIs(b, p, k, reserve)
    ensures TakeTicket(b, sender, p, chain).Some? <==> Allowed(b, sender, p, chain, k, reserve)
    ensures TakeTicket(b, sender, p, chain).Some? ==>
      TakeTicket(b, sender, p, chain).value.billing == k && TakeTicket(b, sender, p, chain).value.reserve == reserve
  {
    TermsExactly(b, sender, p.subscriptionId, p.callbackGasLimit, chain.timestamp, k);
    assert Sub(b, k.subscriptionId).reserved <= Sub(b, k.subscriptionId).balance;
    if p.keyHash in b.keys {
      ReserveIsQuote(b, p, k, reserve);
    }
  }

  // ------------------------------------------------------------- whole transactions

  /** A request is admitted if and only if its terms, its account, its sponsor and the current key allow it. */
  lemma RequestExactly(s: State, sender: Address, p: Params, chain: Chain, k: Billing, reserve: int)
    requires Settled(s) && TermsAre(s.base, sender, p.subscriptionId, k)
    requires p.keyHash in s.base.keys ==> ReserveIs(s.base, p, k, reserve)
    ensures Exec(s, RequestWords(sender, p, chain)).Some? <==> Allowed(s.base, sender, p, chain, k, reserve)
  {
    TicketExactly(s.base, sender, p, chain, k, reserve);
  }

  /** The fields of a new request: the caller's parameters, the current key and prices, and a seed never used before. */
  predicate Opens(b: Base, sender: Address, p: Params, chain: Chain, w: Request)
    requires p.keyHash in b.keys
  {
    var key, c := b.keys[p.keyHash], b.pricing;
    && (w.consumer, w.keyHash, w.callbackGasLimit, w.numWords, w.confirmations)
         == (sender, p.keyHash, p.callbackGasLimit, p.numWords, p.requestConfirmations)
    && (w.verifier, w.verifierCodeHash, w.fulfiller, w.payee) == (key.verifier, key.verifierCodeHash, key.fulfiller, key.payee)
    && (w.maxGasPriceWei, w.verificationGasLimit, w.proofDataLength)
         == (key.maxGasPriceWei, key.verificationGasLimit, key.proofDataLength)
    && w.minimumFeeWei == (if w.waiveMinimumFee then 0 else c.minimumRequestFeeWei)
    && (w.fulfillmentOverheadGas, w.operatorPremiumShareBps) == (c.fulfillmentOverheadGas, c.operatorPremiumShareBps)
    && w.requestBlock == chain.block && w.expiresAtBlock == chain.block + c.requestTimeoutBlocks
    && w.preSeed == Seed(sender, w.subscriptionId, Nonce(b, w.subscriptionId, sender) + 1, p.keyHash)
    && w.status == Pending && w.randomness == 0 && w.callbackAttempts == 0 && !w.callbackSucceeded
  }

  function BillingOf(w: Request): Billing { Billing(w.subscriptionId, w.premiumBps, w.sponsored, w.waiveMinimumFee) }

  /** One use of the day's quota and one slot are taken; a new day starts the count over. */
  predicate QuotaTaken(policy: SponsorPolicy, policy': SponsorPolicy, timestamp: nat) {
    && policy'.epoch * 86_400 <= timestamp < (policy'.epoch + 1) * 86_400
    && policy'.requestsInEpoch == (if policy.epoch == policy'.epoch then policy.requestsInEpoch else 0) + 1
    && policy' == policy.(epoch := policy'.epoch, requestsInEpoch := policy'.requestsInEpoch,
                          pendingRequests := policy.pendingRequests + 1)
  }

  /** Creation reserves the payment, takes the slots and the nonce, and moves no money. */
  ghost predicate Reserves(b: Base, b': Base, w: Request, timestamp: nat) {
    && (forall id :: Sub(b', id) == if id != w.subscriptionId then Sub(b, id)
          else Sub(b, id).(reserved := Sub(b, id).reserved + w.reservedPayment))
    && (forall id: SubId, a: Address :: Consumer(b', id, a) == if (id, a) != (w.subscriptionId, w.consumer) then Consumer(b, id, a)
          else Consumer(b, id, a).(pendingRequests := Consumer(b, id, a).pendingRequests + 1))
    && (forall id: SubId, a: Address :: Nonce(b', id, a) == Nonce(b, id, a) + if (id, a) == (w.subscriptionId, w.consumer) then 1 else 0)
    && (forall a :: a != w.consumer || !w.sponsored ==> Sponsor(b', a) == Sponsor(b, a))
    && (w.sponsored ==> QuotaTaken(Sponsor(b, w.consumer), Sponsor(b', w.consumer), timestamp))
    && b'.operatorCredits == b.operatorCredits && b'.treasuryCredits == b.treasuryCredits && b'.ether == b.ether
  }

  lemma TicketReserves(b: Base, sender: Address, p: Params, chain: Chain, w: Request)
    requires TakeTicket(b, sender, p, chain).Some? && w.consumer == sender
    requires TakeTicket(b, sender, p, chain).value.billing == BillingOf(w)
    requires TakeTicket(b, sender, p, chain).value.reserve == w.reservedPayment
    ensures Reserves(b, TakeTicket(b, sender, p, chain).value.base, w, chain.timestamp)
  {
    TicketWrites(b, sender, p, chain);
    if w.sponsored {
      QuotaIsTaken(b, sender, chain.timestamp);
    }
  }

  lemma QuotaIsTaken(b: Base, sender: Address, timestamp: nat)
    requires ConsumeSponsorQuota(b, sender, timestamp).Some?
    ensures QuotaTaken(Sponsor(b, sender), Sponsor(ConsumeSponsorQuota(b, sender, timestamp).value, sender), timestamp)
  {
  }

  lemma WitnessOpens(b: Base, sender: Address, p: Params, chain: Chain)
    requires TakeTicket(b, sender, p, chain).Some? && p.keyHash in b.keys
    ensures var k := TakeTicket(b, sender, p, chain).value;
      var w := NewWitness(b, sender, p, chain, k);
      Opens(b, sender, p, chain, w) && BillingOf(w) == k.billing && w.reservedPayment == k.reserve
  {
    TicketWrites(b, sender, p, chain);
  }

  /** What an admitted call leaves: a new request on the terms of its account, at the reserve of those terms. */
  ghost predicate Admitted(b: Base, b': Base, sender: Address, p: Params, chain: Chain, w: Request) {
    && p.keyHash in b.keys && Opens(b, sender, p, chain, w)
    && TermsAre(b, sender, p.subscriptionId, BillingOf(w)) && ReserveIs(b, p, BillingOf(w), w.reservedPayment)
    && Reserves(b, b', w, chain.timestamp)
  }

  lemma RequestStores(s: State, sender: Address, p: Params, chain: Chain) returns (b: Base, w: Request)
    requires Settled(s) && Exec(s, RequestWords(sender, p, chain)).Some?
    ensures Exec(s, RequestWords(sender, p, chain))
         == Some(State(b, Compact(s.store.commitments[RequestId(w.preSeed) := Digest(w)])))
    ensures RequestId(w.preSeed) !in s.store.commitments && Admitted(s.base, b, sender, p, chain, w)
  {
    w := TicketStores(s.base, sender, p, chain);
    b := TakeTicket(s.base, sender, p, chain).value.base;
    FreshId(s.base, s.store.commitments, w.preSeed);
  }

  lemma TicketStores(b: Base, sender: Address, p: Params, chain: Chain) returns (w: Request)
    requires TakeTicket(b, sender, p, chain).Some?
    ensures p.keyHash in b.keys && w == NewWitness(b, sender, p, chain, TakeTicket(b, sender, p, chain).value)
    ensures Admitted(b, TakeTicket(b, sender, p, chain).value.base, sender, p, chain, w)
  {
    TicketTerms(b, sender, p, chain);
    WitnessOpens(b, sender, p, chain);
    w := NewWitness(b, sender, p, chain, TakeTicket(b, sender, p, chain).value);
    TicketReserves(b, sender, p, chain, w);
  }

  lemma TicketTerms(b: Base, sender: Address, p: Params, chain: Chain)
    requires TakeTicket(b, sender, p, chain).Some?
    ensures p.keyHash in b.keys
    ensures var k := TakeTicket(b, sender, p, chain).value;
      TermsAre(b, sender, p.subscriptionId, k.billing) && ReserveIs(b, p, k.billing, k.reserve)
  {
    var k := TakeTicket(b, sender, p, chain).value;
    TicketWrites(b, sender, p, chain);
    QuoteIsReserve(b, p, k.billing);
  }

  /** The same of V2: the condition, and the request it reports afterwards. */
  lemma FullRequestExactly(s: State, sender: Address, p: Params, chain: Chain, k: Billing, reserve: int)
    requires SettledFull(s) && TermsAre(s.base, sender, p.subscriptionId, k)
    requires p.keyHash in s.base.keys ==> ReserveIs(s.base, p, k, reserve)
    ensures Exec(s, RequestWords(sender, p, chain)).Some? <==> Allowed(s.base, sender, p, chain, k, reserve)
  {
    ExecCommutes(s, RequestWords(sender, p, chain));
    RequestExactly(Compacted(s), sender, p, chain, k, reserve);
  }

  lemma FullRequestStores(s: State, sender: Address, p: Params, chain: Chain) returns (w: Request)
    requires SettledFull(s) && Exec(s, RequestWords(sender, p, chain)).Some?
    ensures var s' := Exec(s, RequestWords(sender, p, chain)).value;
      && Admitted(s.base, s'.base, sender, p, chain, w) && RequestId(w.preSeed) !in s.store.requests
      && s'.store.Full? && RequestId(w.preSeed) in s'.store.requests
      && V2.View(s'.base, s'.store.requests[RequestId(w.preSeed)]) == w
  {
    ExecCommutes(s, RequestWords(sender, p, chain));
    var b;
    b, w := RequestStores(Compacted(s), sender, p, chain);
    var s' := Exec(s, RequestWords(sender, p, chain)).value;
    assert Compacted(s').store.commitments[RequestId(w.preSeed)] == Digest(w);
  }
}
