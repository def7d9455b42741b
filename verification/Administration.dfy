/** Who governs a coordinator: what each administration call demands and leaves, and that through whole runs only
    its officers change its rules and only a subscription's owner changes that subscription. */
module Administration {
  import opened Outcomes
  import opened ServiceBase
  import opened Lifecycle
  import opened Coordinator
  import opened BaseInvariants
  import opened Books
  import V2 = StoredRequests
  import V3 = Commitments

  // ---------------------------------------------------------------- frames

  predicate SameOffice(b: Base, b': Base) {
    (b'.owner, b'.pendingOwner, b'.guardian) == (b.owner, b.pendingOwner, b.guardian) && b'.paused == b.paused
  }

  predicate SamePrices(b: Base, b': Base) {
    b'.pricing == b.pricing && b'.pricingVersion == b.pricingVersion && b'.pricingVersions == b.pricingVersions
  }

  predicate SameKeys(b: Base, b': Base) {
    && b'.keys == b.keys && b'.nextKeyVersion == b.nextKeyVersion
    && b'.keyVersions == b.keyVersions && b'.currentKeyVersions == b.currentKeyVersions
  }

  predicate SameAccounts(b: Base, b': Base) {
    && b'.subscriptions == b.subscriptions && b'.consumers == b.consumers
    && b'.nextSubscriptionId == b.nextSubscriptionId
  }

  predicate SameTerms(b: Base, b': Base) { b'.overrides == b.overrides && b'.sponsors == b.sponsors }

  // ------------------------------------------------------------- single calls

  /** The offices: the owner hands over in two steps or leaves; the guardian may stop requests, only the owner resumes. */
  lemma OfficesExactly(b: Base, sender: Address, op: AdminCall)
    requires IsOfficeCall(op)
    ensures AdminStep(b, sender, op).Some? <==>
      match op
      case AcceptOwnership => sender == b.pendingOwner
      case SetGuardian(g) => sender == b.owner && g != 0
      case PauseRequests => sender == b.owner || sender == b.guardian
      case _ => sender == b.owner
    ensures AdminStep(b, sender, op).Some? ==>
      var b' := AdminStep(b, sender, op).value;
      && SamePrices(b, b') && SameKeys(b, b') && SameAccounts(b, b') && SameTerms(b, b')
      && b'.owner == (if op.AcceptOwnership? then sender else if op.RenounceOwnership? then 0 else b.owner)
      && b'.pendingOwner == (match op
         case TransferOwnership(next) => next
         case AcceptOwnership => 0
         case RenounceOwnership => 0
         case _ => b.pendingOwner)
      && b'.guardian == (if op.SetGuardian? then op.guardian else b.guardian)
      && b'.paused == (if op.PauseRequests? then true else if op.UnpauseRequests? then false else b.paused)
  {
  }

  predicate ServiceFits(fulfiller: Address, payee: Address, maxGasPriceWei: nat, verificationGasLimit: nat) {
    fulfiller != 0 && payee != 0 && maxGasPriceWei > 0 && 100_000 <= verificationGasLimit <= 3_000_000
  }

  /** Prices within their bounds become the next version. */
  lemma PricingExactly(b: Base, sender: Address, c: PricingConfig)
    ensures AdminStep(b, sender, SetPricing(c)).Some? <==>
      && sender == b.owner && 50_000 <= c.fulfillmentOverheadGas <= 1_000_000 && c.perWordGas <= 100_000
      && c.publicPremiumBps <= 10_000 && c.operatorPremiumShareBps <= 10_000 && 257 <= c.requestTimeoutBlocks <= 1_000_000
    ensures AdminStep(b, sender, SetPricing(c)).Some? ==>
      var b' := AdminStep(b, sender, SetPricing(c)).value;
      && SameOffice(b, b') && SameKeys(b, b') && SameAccounts(b, b') && SameTerms(b, b')
      && b'.pricing == c && b'.pricingVersion == b.pricingVersion + 1
      && b'.pricingVersions == b.pricingVersions[b'.pricingVersion := c]
  {
  }

  /** The next key version is this configuration, and the other keys are as before. */
  predicate KeyStored(b: Base, b': Base, kh: KeyHash, k: KeyConfig) {
    && b'.keys == b.keys[kh := k] && b'.nextKeyVersion == b.nextKeyVersion + 1
    && b'.currentKeyVersions == b.currentKeyVersions[kh := b'.nextKeyVersion]
    && b'.keyVersions == b.keyVersions[b'.nextKeyVersion := KeyVersion(kh, k.verifierCodeHash, k.verifier,
         k.verificationGasLimit, k.proofDataLength, k.fulfiller, k.maxGasPriceWei, k.payee)]
  }

  /** A new key needs a deployed verifier that accepts it and names a proof length; it starts active. */
  lemma RegistrationExactly(b: Base, sender: Address, kh: KeyHash, verifier: Address, info: VerifierInfo,
                            fulfiller: Address, payee: Address, maxGasPriceWei: nat, verificationGasLimit: nat)
    ensures
      var op := RegisterKey(kh, verifier, info, fulfiller, payee, maxGasPriceWei, verificationGasLimit);
      var r := AdminStep(b, sender, op);
      && (r.Some? <==>
            && sender == b.owner && kh != 0 && kh !in b.keys && info.hasCode && info.acceptsKey
            && 1 <= info.proofLength <= 8_192 && ServiceFits(fulfiller, payee, maxGasPriceWei, verificationGasLimit))
      && (r.Some? ==>
            && SameOffice(b, r.value) && SamePrices(b, r.value) && SameAccounts(b, r.value) && SameTerms(b, r.value)
            && KeyStored(b, r.value, kh, KeyConfig(verifier, info.codeHash, fulfiller, payee, maxGasPriceWei,
                                                   verificationGasLimit, info.proofLength, true)))
  {
  }

  /** A service change keeps the verifier, its proof length and the activity; activity alone makes no version. */
  lemma KeyChangesExactly(b: Base, sender: Address, kh: KeyHash, fulfiller: Address, payee: Address, maxGasPriceWei: nat,
                          verificationGasLimit: nat, active: bool)
    ensures var r := AdminStep(b, sender, SetKeyService(kh, fulfiller, payee, maxGasPriceWei, verificationGasLimit));
      && (r.Some? <==>
            sender == b.owner && kh in b.keys && ServiceFits(fulfiller, payee, maxGasPriceWei, verificationGasLimit))
      && (r.Some? ==>
            && SameOffice(b, r.value) && SamePrices(b, r.value) && SameAccounts(b, r.value) && SameTerms(b, r.value)
            && var k := b.keys[kh];
            KeyStored(b, r.value, kh, KeyConfig(k.verifier, k.verifierCodeHash, fulfiller, payee, maxGasPriceWei,
                                                verificationGasLimit, k.proofDataLength, k.active)))
    ensures var r := AdminStep(b, sender, SetKeyActive(kh, active));
      && (r.Some? <==> sender == b.owner && kh in b.keys)
      && (r.Some? ==> r.value == b.(keys := b.keys[kh := b.keys[kh].(active := active)]))
  {
  }

  /** Only the subscriptions and consumers named changed, and only in what was named. */
  ghost predicate AccountsBut(b: Base, b': Base, id: SubId, account: Subscription) {
    && SameOffice(b, b') && SamePrices(b, b') && SameKeys(b, b') && SameTerms(b, b')
    && forall i: SubId :: Sub(b', i) == if i == id then account else Sub(b, i)
  }

  ghost predicate ConsumersBut(b: Base, b': Base, id: SubId, consumer: Address, config: ConsumerConfig) {
    forall i: SubId, a: Address :: Consumer(b', i, a) == if (i, a) == (id, consumer) then config else Consumer(b, i, a)
  }

  /** Anyone opens an empty subscription of its own. */
  lemma OpeningExactly(b: Base, sender: Address)
    ensures var r := AdminStep(b, sender, CreateSubscription);
      && r.Some? && r.value.nextSubscriptionId == b.nextSubscriptionId + 1 && r.value.consumers == b.consumers
      && AccountsBut(b, r.value, b.nextSubscriptionId, Subscription(sender, 0, 0, 0, 0, true))
  {
  }

  /** An owner hands its subscription over in two steps: it names the next owner, who accepts. */
  lemma HandoverExactly(b: Base, sender: Address, id: SubId, newOwner: Address)
    ensures var r := AdminStep(b, sender, RequestOwnerTransfer(id, newOwner));
      && (r.Some? <==> sender != 0 && sender == Sub(b, id).owner && newOwner != 0)
      && (r.Some? ==> AccountsBut(b, r.value, id, Sub(b, id).(pendingOwner := newOwner)) && r.value.consumers == b.consumers)
  {
  }

  lemma AcceptanceExactly(b: Base, sender: Address, id: SubId)
    ensures var r := AdminStep(b, sender, AcceptOwnerTransfer(id));
      && (r.Some? <==> Sub(b, id).owner != 0 && sender == Sub(b, id).pendingOwner)
      && (r.Some? ==>
            && AccountsBut(b, r.value, id, Sub(b, id).(owner := sender, pendingOwner := 0))
            && r.value.consumers == b.consumers)
  {
  }

  predicate LimitsFit(maxCallbackGasLimit: nat, maxPendingRequests: nat) {
    1 <= maxCallbackGasLimit <= 2_500_000 && maxPendingRequests > 0
  }

  /** The owner of an active subscription adds up to a hundred contracts, changes their limits above what is pending,
      and removes those with nothing pending. */
  lemma ConsumersExactly(b: Base, sender: Address, id: SubId, consumer: Address, hasCode: bool, gas: nat, pending: nat)
    ensures var r := AdminStep(b, sender, AddConsumer(id, consumer, hasCode, gas, pending));
      var c := Consumer(b, id, consumer);
      && (r.Some? <==>
            && sender != 0 && sender == Sub(b, id).owner && Sub(b, id).active && hasCode && LimitsFit(gas, pending)
            && !c.active && Sub(b, id).consumerCount < 100)
      && (r.Some? ==>
            && AccountsBut(b, r.value, id, Sub(b, id).(consumerCount := Sub(b, id).consumerCount + 1))
            && ConsumersBut(b, r.value, id, consumer, ConsumerConfig(gas, pending, c.pendingRequests, true)))
    ensures var r := AdminStep(b, sender, UpdateConsumer(id, consumer, gas, pending));
      var c := Consumer(b, id, consumer);
      && (r.Some? <==>
            && sender != 0 && sender == Sub(b, id).owner && c.active && LimitsFit(gas, pending)
            && c.pendingRequests <= pending)
      && (r.Some? ==>
            && AccountsBut(b, r.value, id, Sub(b, id))
            && ConsumersBut(b, r.value, id, consumer, ConsumerConfig(gas, pending, c.pendingRequests, true)))
  {
  }

  lemma RemovalExactly(b: Base, sender: Address, id: SubId, consumer: Address)
    ensures var r := AdminStep(b, sender, RemoveConsumer(id, consumer));
      var c := Consumer(b, id, consumer);
      && (r.Some? <==>
            && sender != 0 && sender == Sub(b, id).owner && c.active && c.pendingRequests == 0
            && Sub(b, id).consumerCount > 0)
      && (r.Some? ==>
            && AccountsBut(b, r.value, id, Sub(b, id).(consumerCount := Sub(b, id).consumerCount - 1))
            && ConsumersBut(b, r.value, id, consumer, ConsumerConfig(0, 0, 0, false)))
  {
  }

  ghost predicate SponsorsBut(b: Base, b': Base, consumer: Address, policy: SponsorPolicy) {
    && SameOffice(b, b') && SamePrices(b, b') && SameKeys(b, b') && SameAccounts(b, b') && b'.overrides == b.overrides
    && forall a :: Sponsor(b', a) == if a == consumer then policy else Sponsor(b, a)
  }

  /** The owner sponsors an active consumer of an active subscription within the consumer's own limit. Pending slots
      carry over and pin the subscription; uses carry over within the same day of a policy still active. */
  lemma SponsorshipExactly(b: Base, sender: Address, consumer: Address, hasCode: bool, c: SponsorPolicyConfig,
                           timestamp: nat)
    ensures var r := AdminStep(b, sender, SetSponsorPolicy(consumer, hasCode, c, timestamp));
      var (prior, account, config)
        := (Sponsor(b, consumer), Sub(b, c.subscriptionId), Consumer(b, c.subscriptionId, consumer));
      && (r.Some? <==>
            && sender == b.owner && account.owner != 0 && account.active && hasCode && config.active
            && timestamp < c.validUntil && c.requestsPerEpoch > 0 && c.maxPendingRequests > 0
            && 1 <= c.maxCallbackGasLimit <= config.maxCallbackGasLimit && c.premiumBps <= 10_000
            && (prior.pendingRequests > 0 ==>
                  prior.subscriptionId == c.subscriptionId && prior.pendingRequests <= c.maxPendingRequests))
      && (r.Some? ==> exists epoch: nat, used: nat ::
            && epoch * 86_400 <= timestamp < (epoch + 1) * 86_400
            && used == (if prior.active && prior.epoch == epoch then prior.requestsInEpoch else 0)
            && SponsorsBut(b, r.value, consumer, SponsorPolicy(
                 c.subscriptionId, c.validUntil, epoch, c.requestsPerEpoch, used, c.maxPendingRequests,
                 prior.pendingRequests, c.maxCallbackGasLimit, c.premiumBps, c.waiveMinimumFee, true)))
  {
    var r := AdminStep(b, sender, SetSponsorPolicy(consumer, hasCode, c, timestamp));
    if r.Some? {
      var (prior, policy) := (Sponsor(b, consumer), Sponsor(r.value, consumer));
      assert SponsorsBut(b, r.value, consumer, SponsorPolicy(
        c.subscriptionId, c.validUntil, policy.epoch, c.requestsPerEpoch, policy.requestsInEpoch, c.maxPendingRequests,
        prior.pendingRequests, c.maxCallbackGasLimit, c.premiumBps, c.waiveMinimumFee, true));
    }
  }

  lemma TermsExactly(b: Base, sender: Address, consumer: Address, id: SubId, premiumBps: nat, enabled: bool)
    ensures var r := AdminStep(b, sender, RemoveSponsorPolicy(consumer));
      && (r.Some? <==> sender == b.owner && Sponsor(b, consumer).pendingRequests == 0)
      && (r.Some? ==> SponsorsBut(b, r.value, consumer, SponsorPolicy(0, 0, 0, 0, 0, 0, 0, 0, 0, false, false)))
    ensures var r := AdminStep(b, sender, SetPremiumOverride(id, premiumBps, enabled));
      && (r.Some? <==> sender == b.owner && Sub(b, id).owner != 0 && premiumBps <= 10_000)
      && (r.Some? ==> r.value == b.(overrides := b.overrides[id := PremiumOverride(premiumBps, enabled)]))
  {
  }

  /** The constructor needs two officers, the linked libraries, prices within their bounds and a first key that fits. It
      starts open, with one pricing and one key version and nothing owed. */
  lemma DeploymentExactly(compact: bool, owner: Address, guardian: Address, linked: bool, pricing: PricingConfig,
                          kh: KeyHash, verifier: Address, info: VerifierInfo, fulfiller: Address, payee: Address,
                          maxGasPriceWei: nat, verificationGasLimit: nat)
    ensures
      var key := RegisterKey(kh, verifier, info, fulfiller, payee, maxGasPriceWei, verificationGasLimit);
      var r := Deploy(compact, owner, guardian, linked, pricing, key);
      && (r.Some? <==>
            && owner != 0 && guardian != 0 && linked && ValidPricing(pricing)
            && kh != 0 && info.hasCode && info.acceptsKey && 1 <= info.proofLength <= 8_192
            && ServiceFits(fulfiller, payee, maxGasPriceWei, verificationGasLimit))
      && (r.Some? ==>
            var b := r.value.base;
            && r.value.store == (if compact then Compact(map[]) else Full(map[]))
            && (b.owner, b.pendingOwner, b.guardian) == (owner, 0, guardian) && !b.paused && !b.locked
            && b.pricing == pricing && b.pricingVersions == map[1 := pricing] && b.pricingVersion == 1
            && b.keys == map[kh := KeyConfig(verifier, info.codeHash, fulfiller, payee, maxGasPriceWei,
                                             verificationGasLimit, info.proofLength, true)]
            && b.nextSubscriptionId == 1 && b.subscriptions == map[] && b.consumers == map[] && b.sponsors == map[]
            && b.operatorCredits == map[] && b.treasuryCredits == 0 && b.ether == 0)
  {
  }

  // -------------------------------------------------------------- whole runs

  /** No administration call and no withdrawal of these senders, at any depth of the callbacks. */
  predicate Avoids(c: Call, who: set<Address>)
    decreases c
  {
    match c
    case Admin(sender, _) => sender !in who
    case Withdraw(sender, _, _, external) => sender !in who && AllAvoid(external.script, who)
    case Fulfil(_, _, _, external) => AllAvoid(external.script, who)
    case Retry(_, _, external) => AllAvoid(external.script, who)
    case _ => true
  }

  predicate AllAvoid(calls: seq<Call>, who: set<Address>)
    decreases calls
  {
    forall i :: 0 <= i < |calls| ==> Avoids(calls[i], who)
  }

  /** What is governed: the contract's rules, or one subscription. */
  datatype Scope = Rules | Account(id: SubId)

  /** Whose calls can change it. */
  function Governors(b: Base, x: Scope): set<Address> {
    match x
    case Rules => {b.owner, b.pendingOwner, b.guardian}
    case Account(id) => {Sub(b, id).owner, Sub(b, id).pendingOwner}
  }

  /** A subscription is opened once its id was handed out. */
  predicate Opened(b: Base, x: Scope) { x.Account? ==> x.id < b.nextSubscriptionId }

  /** What a sponsor promised, without its counters. */
  function Promise(p: SponsorPolicy): SponsorPolicy { p.(epoch := 0, requestsInEpoch := 0, pendingRequests := 0) }

  /** The offices, prices, keys, overrides and sponsorships. */
  ghost predicate SameRules(b: Base, b': Base) {
    && SameOffice(b, b') && SamePrices(b, b') && SameKeys(b, b') && b'.overrides == b.overrides
    && forall a :: Promise(Sponsor(b', a)) == Promise(Sponsor(b, a))
  }

  /** A subscription's owners, activity, and consumers with their limits: all but what requests and money move. */
  ghost predicate SameAccount(b: Base, b': Base, id: SubId) {
    && b.nextSubscriptionId <= b'.nextSubscriptionId
    && Sub(b', id) == Sub(b, id).(balance := Sub(b', id).balance, reserved := Sub(b', id).reserved)
    && forall a :: Consumer(b', id, a)
                == Consumer(b, id, a).(pendingRequests := Consumer(b', id, a).pendingRequests)
  }

  ghost predicate Unchanged(b: Base, b': Base, x: Scope) {
    match x
    case Rules => SameRules(b, b')
    case Account(id) => SameAccount(b, b', id)
  }

  lemma StrangerKeepsRules(b: Base, sender: Address, op: AdminCall)
    requires sender !in Governors(b, Rules) && AdminStep(b, sender, op).Some?
    ensures SameRules(b, AdminStep(b, sender, op).value)
  {
  }

  lemma StrangerKeepsAccount(b: Base, sender: Address, op: AdminCall, id: SubId)
    requires id < b.nextSubscriptionId && sender !in Governors(b, Account(id)) && AdminStep(b, sender, op).Some?
    ensures SameAccount(b, AdminStep(b, sender, op).value, id)
  {
    if IsSubscriptionCall(op) {
      StrangerOpensOnly(b, sender, op, id);
    } else if op.UpdateConsumer? {
      assert op.id != id;
    } else {
      var b' := AdminStep(b, sender, op).value;
      assert SameAccounts(b, b');
    }
  }

  lemma StrangerOpensOnly(b: Base, sender: Address, op: AdminCall, id: SubId)
    requires id < b.nextSubscriptionId && sender !in Governors(b, Account(id)) && AdminStep(b, sender, op).Some?
    requires IsSubscriptionCall(op)
    ensures SameAccount(b, AdminStep(b, sender, op).value, id)
  {
    var b' := AdminStep(b, sender, op).value;
    assert SubscriptionOf(b, op) != id;
    assert Sub(b', id) == Sub(b, id);
    assert forall a :: Consumer(b', id, a) == Consumer(b, id, a);
  }

  lemma {:induction false} ScriptKeeps(b: Base, script: seq<Call>, x: Scope)
    requires Opened(b, x) && AllAvoid(script, Governors(b, x))
    ensures Unchanged(b, AdminRun(b, script), x)
    decreases script
  {
    if script != [] {
      var c := script[0];
      var b1 := if c.Admin? then AdminStep(b, c.sender, c.op) else None;
      if b1.Some? {
        assert Avoids(script[0], Governors(b, x));
        match x {
          case Rules => StrangerKeepsRules(b, c.sender, c.op);
          case Account(id) => StrangerKeepsAccount(b, c.sender, c.op, id);
        }
      }
      assert AllAvoid(script[1..], Governors(b, x));
      ScriptKeeps(if b1.Some? then b1.value else b, script[1..], x);
    }
  }

  lemma CallbackLeaves(s: State, external: External, x: Scope)
    requires s.base.locked && Opened(s.base, x) && AllAvoid(external.script, Governors(s.base, x))
    ensures Unchanged(s.base, Interrupted(s, external).base, x) && Interrupted(s, external).store == s.store
  {
    if external.success {
      LockedRun(s, external.script);
      ScriptKeeps(s.base, external.script, x);
    }
  }

  // Steps of requests and money.

  lemma QuotaKeeps(b: Base, sender: Address, timestamp: nat, x: Scope)
    requires ConsumeSponsorQuota(b, sender, timestamp).Some?
    ensures Unchanged(b, ConsumeSponsorQuota(b, sender, timestamp).value, x)
    ensures ConsumeSponsorQuota(b, sender, timestamp).value.locked == b.locked
  {
  }

  lemma ReserveKeeps(b: Base, id: SubId, sender: Address, reserve: nat, x: Scope)
    ensures Unchanged(b, Reserve(b, id, sender, reserve), x)
    ensures Reserve(b, id, sender, reserve).locked == b.locked
  {
  }

  lemma TicketKeeps(b: Base, sender: Address, p: Params, chain: Chain, x: Scope)
    requires TakeTicket(b, sender, p, chain).Some?
    ensures Unchanged(b, TakeTicket(b, sender, p, chain).value.base, x)
    ensures TakeTicket(b, sender, p, chain).value.base.locked == b.locked
  {
    var k := TakeTicket(b, sender, p, chain).value;
    var b1 := if k.billing.sponsored then ConsumeSponsorQuota(b, sender, chain.timestamp).value else b;
    if k.billing.sponsored {
      QuotaKeeps(b, sender, chain.timestamp, x);
    }
    ReserveKeeps(b1, k.billing.subscriptionId, sender, k.reserve, x);
    assert k.base == Reserve(b1, k.billing.subscriptionId, sender, k.reserve);
  }

  lemma ReleaseKeeps(b: Base, id: SubId, consumer: Address, sponsored: bool, reserve: nat, x: Scope)
    requires Release(b, id, consumer, sponsored, reserve).Some?
    ensures Unchanged(b, Release(b, id, consumer, sponsored, reserve).value, x)
    ensures Release(b, id, consumer, sponsored, reserve).value.locked == b.locked
  {
  }

  lemma PayKeeps(b: Base, id: SubId, payee: Address, shareBps: nat, cost: nat, charge: nat, x: Scope)
    requires Pay(b, id, payee, shareBps, cost, charge).Some?
    ensures Unchanged(b, Pay(b, id, payee, shareBps, cost, charge).value, x)
  {
  }

  lemma DebitKeeps(b: Base, sender: Address, source: Source, recipient: Address, x: Scope)
    requires Debit(b, sender, source, recipient).Some? && sender !in Governors(b, x)
    ensures Unchanged(b, Debit(b, sender, source, recipient).value.0, x)
  {
  }

  lemma SettleKeeps(s: State, ref: Ref, success: bool, proof: Proof, x: Scope)
    requires FinishFulfilStep(s, ref, success, proof).Some?
    ensures Unchanged(s.base, FinishFulfilStep(s, ref, success, proof).value.base, x)
  {
    match (s.store, ref) {
      case (Full(t), ById(id)) =>
        var (b, r) := (s.base, V2.AfterCallback(t[id], success));
        var reserve := V2.ReservedPayment(b, r);
        ReleaseKeeps(b, r.subscriptionId, r.consumer, r.sponsored, reserve, x);
        var b1 := Release(b, r.subscriptionId, r.consumer, r.sponsored, reserve).value;
        var (key, config) := (V2.KeyAt(b, r.keyVersion), V2.PricingAt(b, r.pricingVersion));
        var cost := NetworkCost(proof, config.fulfillmentOverheadGas);
        PayKeeps(b1, r.subscriptionId, key.payee, config.operatorPremiumShareBps, cost,
                 ApplyPrice(cost, r.premiumBps, if r.waiveMinimumFee then 0 else config.minimumRequestFeeWei), x);
      case (Compact(t), ByWitness(w)) =>
        ReleaseKeeps(s.base, w.subscriptionId, w.consumer, w.sponsored, w.reservedPayment, x);
        var b1 := Release(s.base, w.subscriptionId, w.consumer, w.sponsored, w.reservedPayment).value;
        var cost := NetworkCost(proof, w.fulfillmentOverheadGas);
        PayKeeps(b1, w.subscriptionId, w.payee, w.operatorPremiumShareBps, cost,
                 ApplyPrice(cost, w.premiumBps, w.minimumFeeWei), x);
    }
  }

  lemma ExpireKeeps(s: State, ref: Ref, block: nat, x: Scope)
    requires ExpireStep(s, ref, block).Some?
    ensures Unchanged(s.base, ExpireStep(s, ref, block).value.base, x)
    ensures ExpireStep(s, ref, block).value.base.locked == s.base.locked
  {
    match (s.store, ref) {
      case (Full(t), ById(id)) =>
        var r := t[id];
        ReleaseKeeps(s.base, r.subscriptionId, r.consumer, r.sponsored, V2.ReservedPayment(s.base, r), x);
      case (Compact(t), ByWitness(w)) =>
        ReleaseKeeps(s.base, w.subscriptionId, w.consumer, w.sponsored, w.reservedPayment, x);
    }
  }

  lemma UnchangedTransitive(a: Base, b: Base, c: Base, x: Scope)
    requires Unchanged(a, b, x) && Unchanged(b, c, x)
    ensures Unchanged(a, c, x)
  {
  }

  lemma LockUnchanged(b: Base, locked: bool, x: Scope)
    ensures Unchanged(b, b.(locked := locked), x)
  {
  }

  lemma FulfilLeaves(s: State, sender: Address, ref: Ref, proof: Proof, external: External, x: Scope)
    requires Opened(s.base, x) && AllAvoid(external.script, Governors(s.base, x)) && !s.base.locked
    requires Exec(s, Fulfil(sender, ref, proof, external)).Some?
    ensures Unchanged(s.base, Exec(s, Fulfil(sender, ref, proof, external)).value.base, x)
    ensures !Exec(s, Fulfil(sender, ref, proof, external)).value.base.locked
  {
    LockUnchanged(s.base, true, x);
    var s1 := BeginFulfilStep(Lock(s), ref, sender, proof).value;
    CallbackLeaves(s1, external, x);
    var s2 := Interrupted(s1, external);
    SettleKeeps(s2, ref, external.success, proof, x);
    var b3 := FinishFulfilStep(s2, ref, external.success, proof).value.base;
    LockUnchanged(b3, false, x);
    UnchangedTransitive(s.base, s1.base, s2.base, x);
    UnchangedTransitive(s.base, s2.base, b3, x);
    UnchangedTransitive(s.base, b3, b3.(locked := false), x);
  }

  lemma RetryLeaves(s: State, ref: Ref, gasLeft: nat, external: External, x: Scope)
    requires Opened(s.base, x) && AllAvoid(external.script, Governors(s.base, x)) && !s.base.locked
    requires Exec(s, Retry(ref, gasLeft, external)).Some?
    ensures Unchanged(s.base, Exec(s, Retry(ref, gasLeft, external)).value.base, x)
    ensures !Exec(s, Retry(ref, gasLeft, external)).value.base.locked
  {
    LockUnchanged(s.base, true, x);
    var s1 := BeginRetryStep(Lock(s), ref, gasLeft).value;
    CallbackLeaves(s1, external, x);
    var s2 := Interrupted(s1, external);
    LockUnchanged(s2.base, false, x);
    UnchangedTransitive(s.base, s1.base, s2.base, x);
    UnchangedTransitive(s.base, s2.base, s2.base.(locked := false), x);
  }

  lemma WithdrawLeaves(s: State, sender: Address, source: Source, recipient: Address, external: External, x: Scope)
    requires Opened(s.base, x) && AllAvoid(external.script, Governors(s.base, x)) && !s.base.locked
    requires sender !in Governors(s.base, x)
    requires Exec(s, Withdraw(sender, source, recipient, external)).Some?
    ensures Unchanged(s.base, Exec(s, Withdraw(sender, source, recipient, external)).value.base, x)
    ensures !Exec(s, Withdraw(sender, source, recipient, external)).value.base.locked
  {
    var (b, amount) := Debit(s.base, sender, source, recipient).value;
    DebitKeeps(s.base, sender, source, recipient, x);
    var s1 := Lock(s.(base := SendEther(b, amount).value));
    SendUnchanged(b, amount, x);
    UnchangedTransitive(s.base, b, s1.base, x);
    CallbackLeaves(s1, external, x);
    var s2 := Run(s1, external.script);
    UnchangedTransitive(s.base, s1.base, s2.base, x);
    LockUnchanged(s2.base, false, x);
    UnchangedTransitive(s.base, s2.base, s2.base.(locked := false), x);
  }

  lemma SendUnchanged(b: Base, amount: nat, x: Scope)
    requires SendEther(b, amount).Some?
    ensures Unchanged(b, SendEther(b, amount).value.(locked := true), x)
  {
  }

  lemma PlainLeaves(s: State, c: Call, x: Scope)
    requires c.Fund? || c.RequestWords? || c.Expire? || c.Prune?
    requires Exec(s, c).Some?
    ensures Unchanged(s.base, Exec(s, c).value.base, x)
    ensures Exec(s, c).value.base.locked == s.base.locked
  {
    match c {
      case Fund(id, amount) =>
      case RequestWords(sender, p, chain) => TicketKeeps(s.base, sender, p, chain, x);
      case Expire(ref, block) => ExpireKeeps(s, ref, block, x);
      case Prune(ref, block) =>
    }
  }

  lemma ExecLeaves(s: State, c: Call, x: Scope)
    requires Opened(s.base, x) && Avoids(c, Governors(s.base, x)) && !s.base.locked && Exec(s, c).Some?
    ensures Unchanged(s.base, Exec(s, c).value.base, x) && !Exec(s, c).value.base.locked
  {
    match c {
      case Admin(sender, op) =>
        AdminKeepsLock(s.base, sender, op);
        match x {
          case Rules => StrangerKeepsRules(s.base, sender, op);
          case Account(id) => StrangerKeepsAccount(s.base, sender, op, id);
        }
      case Withdraw(sender, source, recipient, external) => WithdrawLeaves(s, sender, source, recipient, external, x);
      case Fulfil(sender, ref, proof, external) => FulfilLeaves(s, sender, ref, proof, external, x);
      case Retry(ref, gasLeft, external) => RetryLeaves(s, ref, gasLeft, external, x);
      case _ => PlainLeaves(s, c, x);
    }
  }

  /** Through every run of either contract, re-entrant calls included, what is governed changes only if one of its
      governors calls: requests, payments and strangers' administration leave it as it was. */
  lemma {:induction false} OnlyGovernorsChange(s: State, calls: seq<Call>, x: Scope)
    requires Opened(s.base, x) && AllAvoid(calls, Governors(s.base, x)) && !s.base.locked
    ensures Unchanged(s.base, Run(s, calls).base, x)
    decreases calls
  {
    if calls != [] {
      var s1 := Exec(s, calls[0]);
      assert AllAvoid(calls[1..], Governors(s.base, x));
      if s1.Some? {
        assert Avoids(calls[0], Governors(s.base, x));
        ExecLeaves(s, calls[0], x);
        OnlyGovernorsChange(s1.value, calls[1..], x);
        UnchangedTransitive(s.base, s1.value.base, Run(s, calls).base, x);
      } else {
        OnlyGovernorsChange(s, calls[1..], x);
      }
    }
  }
}
