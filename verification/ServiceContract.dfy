/** contracts/VRFServiceCoordinatorBase.sol as an object: one field per storage variable, written step by
    step. Every method is proved against the function of ServiceBase, Lifecycle or Coordinator it runs. */
module ServiceContract {
  import opened Outcomes
  import opened ServiceBase
  import opened Lifecycle
  import Coordinator

  /** A transaction either takes the step or reverts and changes nothing. */
  ghost predicate Took(b: Base, step: Option<Base>, b': Base, ok: bool) {
    ok == step.Some? && b' == if ok then step.value else b
  }

  class Service {
    var owner: Address
    var pendingOwner: Address
    var guardian: Address
    var paused: bool
    var pricing: PricingConfig
    var nextSubscriptionId: SubId
    var treasuryCredits: nat
    var ether: nat
    var locked: bool
    var keys: map<KeyHash, KeyConfig>
    var subscriptions: map<SubId, Subscription>
    var consumers: map<(SubId, Address), ConsumerConfig>
    var overrides: map<SubId, PremiumOverride>
    var sponsors: map<Address, SponsorPolicy>
    var operatorCredits: map<Address, nat>
    var nonces: map<(SubId, Address), nat>
    var nextKeyVersion: nat
    var pricingVersion: nat
    var currentKeyVersions: map<KeyHash, nat>
    var keyVersions: map<nat, KeyVersion>
    var pricingVersions: map<nat, PricingConfig>

    function Stored(): Base
      reads this
    {
      Base(owner, pendingOwner, guardian, paused, pricing, nextSubscriptionId, treasuryCredits, ether, locked, keys, subscriptions,
           consumers, overrides, sponsors, operatorCredits, nonces, nextKeyVersion, pricingVersion,
           currentKeyVersions, keyVersions, pricingVersions)
    }

    function SubscriptionAt(id: SubId): Subscription
      reads this
    {
      if id in subscriptions then subscriptions[id] else NO_SUBSCRIPTION
    }

    function ConsumerAt(id: SubId, a: Address): ConsumerConfig
      reads this
    {
      if (id, a) in consumers then consumers[(id, a)] else NO_CONSUMER
    }

    function PolicyAt(a: Address): SponsorPolicy
      reads this
    {
      if a in sponsors then sponsors[a] else NO_POLICY
    }

    function CreditsOf(a: Address): nat
      reads this
    {
      if a in operatorCredits then operatorCredits[a] else 0
    }

    constructor (b: Base)
      ensures Stored() == b
    {
      owner, pendingOwner, guardian, paused := b.owner, b.pendingOwner, b.guardian, b.paused;
      pricing, nextSubscriptionId := b.pricing, b.nextSubscriptionId;
      treasuryCredits, ether, locked, keys, subscriptions := b.treasuryCredits, b.ether, b.locked, b.keys, b.subscriptions;
      consumers, overrides, sponsors, operatorCredits := b.consumers, b.overrides, b.sponsors, b.operatorCredits;
      nonces, nextKeyVersion, pricingVersion := b.nonces, b.nextKeyVersion, b.pricingVersion;
      currentKeyVersions, keyVersions, pricingVersions := b.currentKeyVersions, b.keyVersions, b.pricingVersions;
    }

    method RestoreSettings(b: Base)
      modifies `owner, `pendingOwner, `guardian, `paused, `pricing, `keys, `nextKeyVersion, `pricingVersion,
               `currentKeyVersions, `keyVersions, `pricingVersions
      ensures owner == b.owner && pendingOwner == b.pendingOwner
      ensures guardian == b.guardian && paused == b.paused && pricing == b.pricing && keys == b.keys
      ensures nextKeyVersion == b.nextKeyVersion && pricingVersion == b.pricingVersion
      ensures currentKeyVersions == b.currentKeyVersions && keyVersions == b.keyVersions
      ensures pricingVersions == b.pricingVersions
    {
      owner, pendingOwner := b.owner, b.pendingOwner;
      guardian, paused, pricing, keys := b.guardian, b.paused, b.pricing, b.keys;
      nextKeyVersion, pricingVersion := b.nextKeyVersion, b.pricingVersion;
      currentKeyVersions, keyVersions, pricingVersions := b.currentKeyVersions, b.keyVersions, b.pricingVersions;
    }

    method RestoreAccounts(b: Base)
      modifies `nextSubscriptionId, `treasuryCredits, `ether, `locked, `subscriptions, `consumers, `overrides,
               `sponsors, `operatorCredits, `nonces
      ensures nextSubscriptionId == b.nextSubscriptionId && treasuryCredits == b.treasuryCredits && ether == b.ether
      ensures locked == b.locked && subscriptions == b.subscriptions && consumers == b.consumers
      ensures overrides == b.overrides && sponsors == b.sponsors && operatorCredits == b.operatorCredits
      ensures nonces == b.nonces
    {
      nextSubscriptionId, treasuryCredits, ether, locked := b.nextSubscriptionId, b.treasuryCredits, b.ether, b.locked;
      subscriptions, consumers, overrides := b.subscriptions, b.consumers, b.overrides;
      sponsors, operatorCredits, nonces := b.sponsors, b.operatorCredits, b.nonces;
    }

    /** A revert takes every write back. */
    method Restore(b: Base)
      modifies this
      ensures Stored() == b
    {
      RestoreSettings(b);
      RestoreAccounts(b);
    }

    method SetLock(held: bool)
      modifies `locked
      ensures Stored() == old(Stored()).(locked := held)
    {
      locked := held;
    }

    method Send(amount: nat) returns (ok: bool)
      modifies `ether
      ensures Took(old(Stored()), Coordinator.SendEther(old(Stored()), amount), Stored(), ok)
    {
      ok := amount <= ether;
      if ok { ether := ether - amount; }
    }

    method PutSubscription(id: SubId, s: Subscription)
      modifies `subscriptions
      ensures Stored() == WithSub(old(Stored()), id, s)
    {
      subscriptions := subscriptions[id := s];
    }

    method PutConsumer(id: SubId, a: Address, config: ConsumerConfig)
      modifies `consumers
      ensures Stored() == WithConsumer(old(Stored()), id, a, config)
    {
      consumers := consumers[(id, a) := config];
    }

    method UseNonce(id: SubId, a: Address)
      modifies `nonces
      ensures Stored() == old(Stored()).(nonces := old(nonces)[(id, a) := Nonce(old(Stored()), id, a) + 1])
    {
      nonces := nonces[(id, a) := (if (id, a) in nonces then nonces[(id, a)] else 0) + 1];
    }

    method PutPolicy(a: Address, policy: SponsorPolicy)
      modifies `sponsors
      ensures Stored() == old(Stored()).(sponsors := old(sponsors)[a := policy])
    {
      sponsors := sponsors[a := policy];
    }

    // -------------------------------------------------------- ownership (Ownable2Step)

    method TransferOwnership(sender: Address, newOwner: Address) returns (ok: bool)
      modifies this
      ensures Took(old(Stored()), AdminStep(old(Stored()), sender, AdminCall.TransferOwnership(newOwner)), Stored(), ok)
    {
      ok := sender == owner;
      if ok { pendingOwner := newOwner; }
    }

    method AcceptOwnership(sender: Address) returns (ok: bool)
      modifies this
      ensures Took(old(Stored()), AdminStep(old(Stored()), sender, AdminCall.AcceptOwnership), Stored(), ok)
    {
      ok := sender == pendingOwner;
      if ok { owner, pendingOwner := sender, 0; }
    }

    method RenounceOwnership(sender: Address) returns (ok: bool)
      modifies this
      ensures Took(old(Stored()), AdminStep(old(Stored()), sender, AdminCall.RenounceOwnership), Stored(), ok)
    {
      ok := sender == owner;
      if ok { owner, pendingOwner := 0, 0; }
    }

    // ------------------------------------------------------- pricing, keys, pause

    method AppendPricingVersion(config: PricingConfig)
      modifies this
      ensures Stored() == AppendPricing(old(Stored()).(pricing := config), config)
    {
      pricing := config;
      pricingVersion := pricingVersion + 1;
      pricingVersions := pricingVersions[pricingVersion := config];
    }

    method SetPricing(sender: Address, config: PricingConfig) returns (ok: bool)
      modifies this
      ensures Took(old(Stored()), AdminStep(old(Stored()), sender, AdminCall.SetPricing(config)), Stored(), ok)
    {
      ok := sender == owner && ValidPricing(config);
      if ok { AppendPricingVersion(config); }
    }

    method SetGuardian(sender: Address, newGuardian: Address) returns (ok: bool)
      modifies this
      ensures Took(old(Stored()), AdminStep(old(Stored()), sender, AdminCall.SetGuardian(newGuardian)), Stored(), ok)
    {
      ok := sender == owner && newGuardian != 0;
      if ok { guardian := newGuardian; }
    }

    method PauseRequests(sender: Address) returns (ok: bool)
      modifies this
      ensures Took(old(Stored()), AdminStep(old(Stored()), sender, AdminCall.PauseRequests), Stored(), ok)
    {
      ok := sender == guardian || sender == owner;
      if ok { paused := true; }
    }

    method UnpauseRequests(sender: Address) returns (ok: bool)
      modifies this
      ensures Took(old(Stored()), AdminStep(old(Stored()), sender, AdminCall.UnpauseRequests), Stored(), ok)
    {
      ok := sender == owner;
      if ok { paused := false; }
    }

    method AppendKeyVersion(keyHash: KeyHash, key: KeyConfig)
      modifies this
      ensures Stored() == AppendKey(old(Stored()), keyHash, key)
    {
      keys := keys[keyHash := key];
      nextKeyVersion := nextKeyVersion + 1;
      keyVersions := keyVersions[nextKeyVersion := KeyVersion(
        keyHash, key.verifierCodeHash, key.verifier, key.verificationGasLimit, key.proofDataLength, key.fulfiller,
        key.maxGasPriceWei, key.payee)];
      currentKeyVersions := currentKeyVersions[keyHash := nextKeyVersion];
    }

    method RegisterKey(sender: Address, keyHash: KeyHash, verifier: Address, info: VerifierInfo, fulfiller: Address,
                       payee: Address, maxGasPriceWei: nat, verificationGasLimit: nat) returns (ok: bool)
      modifies this
      ensures Took(old(Stored()), AdminStep(old(Stored()), sender, AdminCall.RegisterKey(
        keyHash, verifier, info, fulfiller, payee, maxGasPriceWei, verificationGasLimit)), Stored(), ok)
    {
      if sender != owner || keyHash in keys { return false; }
      if keyHash == 0 || !info.hasCode || !ValidService(fulfiller, payee, maxGasPriceWei, verificationGasLimit) { return false; }
      if info.proofLength == 0 || info.proofLength > MAX_PROOF_DATA_LENGTH { return false; }
      if !info.acceptsKey { return false; }
      AppendKeyVersion(keyHash, KeyConfig(verifier, info.codeHash, fulfiller, payee, maxGasPriceWei,
                                          verificationGasLimit, info.proofLength, true));
      ok := true;
    }

    method SetKeyActive(sender: Address, keyHash: KeyHash, active: bool) returns (ok: bool)
      modifies this
      ensures Took(old(Stored()), AdminStep(old(Stored()), sender, AdminCall.SetKeyActive(keyHash, active)), Stored(), ok)
    {
      ok := sender == owner && keyHash in keys;
      if ok { keys := keys[keyHash := keys[keyHash].(active := active)]; }
    }

    method SetKeyService(sender: Address, keyHash: KeyHash, fulfiller: Address, payee: Address, maxGasPriceWei: nat,
                         verificationGasLimit: nat) returns (ok: bool)
      modifies this
      ensures Took(old(Stored()), AdminStep(old(Stored()), sender, AdminCall.SetKeyService(
        keyHash, fulfiller, payee, maxGasPriceWei, verificationGasLimit)), Stored(), ok)
    {
      if sender != owner || !ValidService(fulfiller, payee, maxGasPriceWei, verificationGasLimit) { return false; }
      if keyHash !in keys { return false; }
      var key := keys[keyHash];
      key := key.(fulfiller := fulfiller);
      key := key.(payee := payee);
      key := key.(maxGasPriceWei := maxGasPriceWei);
      key := key.(verificationGasLimit := verificationGasLimit);
      AppendKeyVersion(keyHash, key);
      ok := true;
    }

    // --------------------------------------------------- subscriptions and consumers

    method CreateSubscription(sender: Address) returns (id: SubId)
      modifies this
      ensures id == old(nextSubscriptionId)
      ensures Took(old(Stored()), AdminStep(old(Stored()), sender, AdminCall.CreateSubscription), Stored(), true)
    {
      id := nextSubscriptionId;
      nextSubscriptionId := nextSubscriptionId + 1;
      subscriptions := subscriptions[id := Subscription(sender, 0, 0, 0, 0, true)];
    }

    method FundSubscription(id: SubId, amount: nat) returns (ok: bool)
      requires !locked
      modifies this
      ensures Took(old(Stored()), Coordinator.FundStep(old(Stored()), id, amount), Stored(), ok)
    {
      var s := SubscriptionAt(id);
      ok := s.owner != 0 && s.active && amount != 0;
      if ok {
        ether := ether + amount;
        subscriptions := subscriptions[id := s.(balance := s.balance + amount)];
      }
    }

    method RequestOwnerTransfer(sender: Address, id: SubId, newOwner: Address) returns (ok: bool)
      modifies this
      ensures Took(old(Stored()), AdminStep(old(Stored()), sender, AdminCall.RequestOwnerTransfer(id, newOwner)), Stored(), ok)
    {
      var s := SubscriptionAt(id);
      ok := newOwner != 0 && s.owner != 0 && s.owner == sender;
      if ok { subscriptions := subscriptions[id := s.(pendingOwner := newOwner)]; }
    }

    method AcceptOwnerTransfer(sender: Address, id: SubId) returns (ok: bool)
      modifies this
      ensures Took(old(Stored()), AdminStep(old(Stored()), sender, AdminCall.AcceptOwnerTransfer(id)), Stored(), ok)
    {
      var s := SubscriptionAt(id);
      ok := s.owner != 0 && s.pendingOwner == sender;
      if ok {
        s := s.(owner := sender);
        s := s.(pendingOwner := 0);
        subscriptions := subscriptions[id := s];
      }
    }

    method AddConsumer(sender: Address, id: SubId, consumer: Address, hasCode: bool, maxCallbackGasLimit: nat,
                       maxPendingRequests: nat) returns (ok: bool)
      modifies this
      ensures Took(old(Stored()), AdminStep(old(Stored()), sender, AdminCall.AddConsumer(
        id, consumer, hasCode, maxCallbackGasLimit, maxPendingRequests)), Stored(), ok)
    {
      var s := SubscriptionAt(id);
      if s.owner == 0 || s.owner != sender || !s.active || !hasCode { return false; }
      if maxCallbackGasLimit == 0 || maxCallbackGasLimit > MAX_CALLBACK_GAS_LIMIT || maxPendingRequests == 0 { return false; }
      var config := ConsumerAt(id, consumer);
      if config.active || s.consumerCount >= MAX_CONSUMERS { return false; }
      config := config.(maxCallbackGasLimit := maxCallbackGasLimit);
      config := config.(maxPendingRequests := maxPendingRequests);
      config := config.(active := true);
      consumers := consumers[(id, consumer) := config];
      subscriptions := subscriptions[id := s.(consumerCount := s.consumerCount + 1)];
      ok := true;
    }

    method UpdateConsumer(sender: Address, id: SubId, consumer: Address, maxCallbackGasLimit: nat,
                          maxPendingRequests: nat) returns (ok: bool)
      modifies this
      ensures Took(old(Stored()), AdminStep(old(Stored()), sender, AdminCall.UpdateConsumer(
        id, consumer, maxCallbackGasLimit, maxPendingRequests)), Stored(), ok)
    {
      var s := SubscriptionAt(id);
      if s.owner == 0 || s.owner != sender { return false; }
      var config := ConsumerAt(id, consumer);
      if !config.active || maxCallbackGasLimit == 0 || maxCallbackGasLimit > MAX_CALLBACK_GAS_LIMIT
         || maxPendingRequests == 0 || maxPendingRequests < config.pendingRequests { return false; }
      config := config.(maxCallbackGasLimit := maxCallbackGasLimit);
      config := config.(maxPendingRequests := maxPendingRequests);
      consumers := consumers[(id, consumer) := config];
      ok := true;
    }

    method RemoveConsumer(sender: Address, id: SubId, consumer: Address) returns (ok: bool)
      modifies this
      ensures Took(old(Stored()), AdminStep(old(Stored()), sender, AdminCall.RemoveConsumer(id, consumer)), Stored(), ok)
    {
      var s := SubscriptionAt(id);
      var config := ConsumerAt(id, consumer);
      ok := s.owner != 0 && s.owner == sender && config.active && config.pendingRequests == 0 && s.consumerCount > 0;
      if ok {
        consumers := consumers[(id, consumer) := NO_CONSUMER];
        subscriptions := subscriptions[id := s.(consumerCount := s.consumerCount - 1)];
      }
    }

    method SetPremiumOverride(sender: Address, id: SubId, premiumBps: nat, enabled: bool) returns (ok: bool)
      modifies this
      ensures Took(old(Stored()), AdminStep(old(Stored()), sender, AdminCall.SetPremiumOverride(id, premiumBps, enabled)),
                   Stored(), ok)
    {
      ok := sender == owner && SubscriptionAt(id).owner != 0 && premiumBps <= MAX_PREMIUM_BPS;
      if ok { overrides := overrides[id := PremiumOverride(premiumBps, enabled)]; }
    }

    method SetSponsorPolicy(sender: Address, consumer: Address, hasCode: bool, policy: SponsorPolicyConfig,
                            timestamp: nat) returns (ok: bool)
      modifies this
      ensures Took(old(Stored()), AdminStep(old(Stored()), sender, AdminCall.SetSponsorPolicy(
        consumer, hasCode, policy, timestamp)), Stored(), ok)
    {
      var s, config := SubscriptionAt(policy.subscriptionId), ConsumerAt(policy.subscriptionId, consumer);
      if sender != owner || s.owner == 0 { return false; }
      if !hasCode || !s.active || !config.active || policy.validUntil <= timestamp || policy.requestsPerEpoch == 0
         || policy.maxPendingRequests == 0 || policy.maxCallbackGasLimit == 0
         || policy.maxCallbackGasLimit > config.maxCallbackGasLimit || policy.premiumBps > MAX_PREMIUM_BPS { return false; }
      var prior := PolicyAt(consumer);
      if prior.pendingRequests != 0 {
        if prior.subscriptionId != policy.subscriptionId { return false; }
        if policy.maxPendingRequests < prior.pendingRequests { return false; }
      }
      var epoch := timestamp / SPONSOR_EPOCH_SECONDS;
      var used := 0;
      if prior.active && prior.epoch == epoch { used := prior.requestsInEpoch; }
      sponsors := sponsors[consumer := SponsorPolicy(
        policy.subscriptionId, policy.validUntil, epoch, policy.requestsPerEpoch, used, policy.maxPendingRequests,
        prior.pendingRequests, policy.maxCallbackGasLimit, policy.premiumBps, policy.waiveMinimumFee, true)];
      ok := true;
    }

    method RemoveSponsorPolicy(sender: Address, consumer: Address) returns (ok: bool)
      modifies this
      ensures Took(old(Stored()), AdminStep(old(Stored()), sender, AdminCall.RemoveSponsorPolicy(consumer)), Stored(), ok)
    {
      ok := sender == owner && PolicyAt(consumer).pendingRequests == 0;
      if ok { sponsors := sponsors[consumer := NO_POLICY]; }
    }

    method Administer(sender: Address, op: AdminCall) returns (ok: bool)
      modifies this
      ensures Took(old(Stored()), AdminStep(old(Stored()), sender, op), Stored(), ok)
    {
      match op {
        case SetPricing(config) => ok := SetPricing(sender, config);
        case TransferOwnership(newOwner) => ok := TransferOwnership(sender, newOwner);
        case AcceptOwnership => ok := AcceptOwnership(sender);
        case RenounceOwnership => ok := RenounceOwnership(sender);
        case SetGuardian(g) => ok := SetGuardian(sender, g);
        case PauseRequests => ok := PauseRequests(sender);
        case UnpauseRequests => ok := UnpauseRequests(sender);
        case RegisterKey(kh, verifier, info, fulfiller, payee, price, gas) =>
          ok := RegisterKey(sender, kh, verifier, info, fulfiller, payee, price, gas);
        case SetKeyActive(kh, active) => ok := SetKeyActive(sender, kh, active);
        case SetKeyService(kh, fulfiller, payee, price, gas) => ok := SetKeyService(sender, kh, fulfiller, payee, price, gas);
        case CreateSubscription =>
          var id := CreateSubscription(sender);
          ok := true;
        case RequestOwnerTransfer(id, newOwner) => ok := RequestOwnerTransfer(sender, id, newOwner);
        case AcceptOwnerTransfer(id) => ok := AcceptOwnerTransfer(sender, id);
        case AddConsumer(id, consumer, hasCode, gas, pending) => ok := AddConsumer(sender, id, consumer, hasCode, gas, pending);
        case UpdateConsumer(id, consumer, gas, pending) => ok := UpdateConsumer(sender, id, consumer, gas, pending);
        case RemoveConsumer(id, consumer) => ok := RemoveConsumer(sender, id, consumer);
        case SetPremiumOverride(id, bps, enabled) => ok := SetPremiumOverride(sender, id, bps, enabled);
        case SetSponsorPolicy(consumer, hasCode, policy, timestamp) =>
          ok := SetSponsorPolicy(sender, consumer, hasCode, policy, timestamp);
        case RemoveSponsorPolicy(consumer) => ok := RemoveSponsorPolicy(sender, consumer);
      }
    }

    // ---------------------------------------------------------- request accounting

    /** _consumeSponsorQuota */
    method ConsumeQuota(consumer: Address, timestamp: nat) returns (ok: bool)
      modifies this
      ensures Took(old(Stored()), ConsumeSponsorQuota(old(Stored()), consumer, timestamp), Stored(), ok)
    {
      var policy := PolicyAt(consumer);
      var epoch := timestamp / SPONSOR_EPOCH_SECONDS;
      if policy.epoch != epoch {
        policy := policy.(epoch := epoch);
        policy := policy.(requestsInEpoch := 0);
      }
      if policy.requestsInEpoch >= policy.requestsPerEpoch { return false; }
      policy := policy.(requestsInEpoch := policy.requestsInEpoch + 1);
      policy := policy.(pendingRequests := policy.pendingRequests + 1);
      sponsors := sponsors[consumer := policy];
      ok := true;
    }

    method AddReserve(id: SubId, reserve: nat)
      modifies `subscriptions
      ensures Stored() == WithSub(old(Stored()), id,
        Sub(old(Stored()), id).(reserved := Sub(old(Stored()), id).reserved + reserve))
    {
      var s := SubscriptionAt(id);
      PutSubscription(id, s.(reserved := s.reserved + reserve));
    }

    method AddPending(id: SubId, a: Address)
      modifies `consumers
      ensures Stored() == WithConsumer(old(Stored()), id, a,
        Consumer(old(Stored()), id, a).(pendingRequests := Consumer(old(Stored()), id, a).pendingRequests + 1))
    {
      var config := ConsumerAt(id, a);
      PutConsumer(id, a, config.(pendingRequests := config.pendingRequests + 1));
    }

    /** A nonce, the reserve and a pending slot. */
    method ReserveSlot(id: SubId, sender: Address, reserve: nat)
      modifies this
      ensures Stored() == Reserve(old(Stored()), id, sender, reserve)
    {
      UseNonce(id, sender);
      AddReserve(id, reserve);
      AddPending(id, sender);
    }

    /** The writes requestRandomWords makes to shared storage, checks first. */
    method TakeTicket(sender: Address, p: Params, chain: Chain) returns (r: Option<Ticket>)
      modifies this
      ensures r == Lifecycle.TakeTicket(old(Stored()), sender, p, chain)
      ensures Stored() == if r.Some? then r.value.base else old(Stored())
    {
      var before := Stored();
      var admitted := Admit(before, sender, p, chain);
      if admitted.None? { return None; }
      var (billing, reserve) := admitted.value;
      var id := billing.subscriptionId;
      if billing.sponsored {
        var ok := ConsumeQuota(sender, chain.timestamp);
        if !ok { return None; }
      }
      if chain.block + pricing.requestTimeoutBlocks > MAX_UINT64 {
        Restore(before);
        return None;
      }
      var seed := Seed(sender, id, (if (id, sender) in nonces then nonces[(id, sender)] else 0) + 1, p.keyHash);
      ReserveSlot(id, sender, reserve);
      r := Some(Ticket(Stored(), seed, billing, reserve));
    }

    /** _releaseReservation and _decrementPending; on an underflow the caller reverts. */
    method ReleaseReservation(id: SubId, consumer: Address, sponsored: bool, reserve: nat) returns (ok: bool)
      modifies this
      ensures ok == Release(old(Stored()), id, consumer, sponsored, reserve).Some?
      ensures ok ==> Stored() == Release(old(Stored()), id, consumer, sponsored, reserve).value
    {
      var s := SubscriptionAt(id);
      if s.reserved < reserve { return false; }
      PutSubscription(id, s.(reserved := s.reserved - reserve));
      var config := ConsumerAt(id, consumer);
      if config.pendingRequests == 0 { return false; }
      PutConsumer(id, consumer, config.(pendingRequests := config.pendingRequests - 1));
      if sponsored {
        var policy := PolicyAt(consumer);
        if policy.pendingRequests == 0 { return false; }
        PutPolicy(consumer, policy.(pendingRequests := policy.pendingRequests - 1));
      }
      ok := true;
    }

    method Credit(payee: Address, operatorPayment: nat, treasuryPayment: nat)
      modifies `operatorCredits, `treasuryCredits
      ensures Stored() == old(Stored()).(
        operatorCredits := old(operatorCredits)[payee := old(CreditsOf(payee)) + operatorPayment],
        treasuryCredits := old(treasuryCredits) + treasuryPayment)
    {
      operatorCredits := operatorCredits[payee := CreditsOf(payee) + operatorPayment];
      treasuryCredits := treasuryCredits + treasuryPayment;
    }

    /** The payment half of _settle; on an underflow the caller reverts. */
    method PayOut(id: SubId, payee: Address, shareBps: nat, networkCost: nat, charge: nat) returns (ok: bool)
      modifies this
      ensures ok == Pay(old(Stored()), id, payee, shareBps, networkCost, charge).Some?
      ensures ok ==> Stored() == Pay(old(Stored()), id, payee, shareBps, networkCost, charge).value
    {
      var s := SubscriptionAt(id);
      if s.balance < charge { return false; }
      PutSubscription(id, s.(balance := s.balance - charge));
      if charge < networkCost { return false; }
      var premium := charge - networkCost;
      var operatorPayment := networkCost + premium * shareBps / MAX_PREMIUM_BPS;
      if charge < operatorPayment { return false; }
      Credit(payee, operatorPayment, charge - operatorPayment);
      ok := true;
    }

    /** The checks and bookkeeping of the four withdrawals, up to the transfer. */
    method TakeDebit(sender: Address, source: Coordinator.Source, recipient: Address) returns (r: Option<nat>)
      modifies this
      ensures var d := Coordinator.Debit(old(Stored()), sender, source, recipient);
        && r.Some? == d.Some?
        && (if d.Some? then Stored() == d.value.0 && r.value == d.value.1 else Stored() == old(Stored()))
    {
      if recipient == 0 { return None; }
      match source {
        case Balance(id, amount) =>
          var s := SubscriptionAt(id);
          if s.owner == 0 || s.owner != sender || s.balance < s.reserved { return None; }
          var available := s.balance - s.reserved;
          if amount > available { return None; }
          subscriptions := subscriptions[id := s.(balance := s.balance - amount)];
          r := Some(amount);
        case Cancellation(id) =>
          var s := SubscriptionAt(id);
          if s.owner == 0 || s.owner != sender || s.reserved != 0 { return None; }
          var refund := s.balance;
          s := s.(balance := 0);
          s := s.(active := false);
          subscriptions := subscriptions[id := s];
          r := Some(refund);
        case OperatorCredits(amount) =>
          var available := CreditsOf(sender);
          if amount > available { return None; }
          operatorCredits := operatorCredits[sender := available - amount];
          r := Some(amount);
        case Treasury(amount) =>
          if sender != owner || amount > treasuryCredits { return None; }
          treasuryCredits := treasuryCredits - amount;
          r := Some(amount);
      }
    }
  }
}
