/** The V1 coordinator and router as objects, each method proved to be the step of RouterV1 it runs. */
module RouterContracts {
  import opened Outcomes
  import opened RouterV1

  /** contracts/ProofVRFCoordinator.sol */
  class CoordinatorContract {
    var ether: nat
    var nonce: nat
    var requests: map<ProviderId, ProviderRequest>
    var credits: map<Address, nat>

    function Snapshot(): Coordinator
      reads this
    {
      Coordinator(ether, nonce, requests, credits)
    }

    constructor ()
      ensures Snapshot() == Coordinator(0, 0, map[], map[])
    {
      ether, nonce, requests, credits := 0, 0, map[], map[];
    }

    /** A revert further out takes the writes back. */
    method Restore(c: Coordinator)
      modifies this
      ensures Snapshot() == c
    {
      ether, nonce, requests, credits := c.ether, c.nonce, c.requests, c.credits;
    }

    method RequestRandomWords(sender: Address, key: Key, value: nat, numWords: nat,
                              block: nat) returns (id: Option<ProviderId>)
      modifies this
      ensures var r := Ask(old(Snapshot()), sender, key, value, numWords, block);
        && id.Some? == r.Some?
        && if r.Some? then Snapshot() == r.value.0 && id.value == r.value.1 else Snapshot() == old(Snapshot())
    {
      if !key.active || value != key.fee { return None; }
      ether := ether + value;
      nonce := nonce + 1;
      id := Some(ProviderId(sender, nonce, key.keyHash));
      requests := requests[id.value := ProviderRequest(sender, key.operator, block, numWords, key.fee, false, false, false)];
    }

    /** fulfillRandomWords up to its callback. */
    method FulfillRandomWords(id: ProviderId, proofValid: bool) returns (ok: bool)
      modifies this
      ensures var r := Settle(old(Snapshot()), id, proofValid);
        ok == r.Some? && Snapshot() == if ok then r.value else old(Snapshot())
    {
      if id !in requests || requests[id].fulfilled || requests[id].refunded || !proofValid { return false; }
      var request := requests[id];
      requests := requests[id := request.(fulfilled := true)];
      credits := credits[request.operator := Credit(credits, request.operator) + request.feePaid];
      ok := true;
    }

    /** The end of a callback that succeeded. */
    method RecordDelivery(id: ProviderId)
      requires id in requests
      modifies `requests
      ensures Snapshot() == MarkDelivered(old(Snapshot()), id)
    {
      requests := requests[id := requests[id].(callbackSucceeded := true)];
    }

    method RefundExpired(id: ProviderId, block: nat) returns (ok: bool)
      modifies this
      ensures var r := Refund(old(Snapshot()), id, block);
        ok == r.Some? && Snapshot() == if ok then r.value else old(Snapshot())
    {
      if id !in requests || requests[id].fulfilled { return false; }
      var request := requests[id];
      if request.refunded { return true; }
      if block <= request.requestBlock + BLOCKHASH_WINDOW { return false; }
      requests := requests[id := request.(refunded := true)];
      credits := credits[request.consumer := Credit(credits, request.consumer) + request.feePaid];
      ok := true;
    }

    method WithdrawCredits(sender: Address, amount: nat) returns (ok: bool)
      modifies this
      ensures var r := Withdraw(old(Snapshot()), sender, amount);
        ok == r.Some? && Snapshot() == if ok then r.value else old(Snapshot())
    {
      var available := Credit(credits, sender);
      if amount > available || ether < amount { return false; }
      credits := credits[sender := available - amount];
      ether := ether - amount;
      ok := true;
    }
  }

  /** contracts/ProofVRFRouter.sol, with the one coordinator its keys route to. */
  class RouterContract {
    const self: Address
    const coordinator: CoordinatorContract
    var ether: nat
    var nonce: nat
    var requests: map<RouterId, RoutedRequest>
    var byProvider: map<ProviderId, RouterId>
    var credits: map<Address, nat>

    ghost function Snapshot(): World
      reads this, coordinator
    {
      World(coordinator.Snapshot(), Router(ether, nonce, requests, byProvider, credits))
    }

    constructor (self: Address)
      ensures Snapshot() == Deployed() && this.self == self && fresh(coordinator)
    {
      this.self := self;
      coordinator := new CoordinatorContract();
      ether, nonce, requests, byProvider, credits := 0, 0, map[], map[], map[];
    }

    method RequestRandomWords(sender: Address, key: Key, value: nat, numWords: nat,
                              block: nat) returns (id: Option<RouterId>)
      modifies this, coordinator
      ensures var r := Routed(old(Snapshot()), sender, key, value, numWords, block, self);
        id.Some? == r.Some? && Snapshot() == if r.Some? then r.value else old(Snapshot())
    {
      var before := coordinator.Snapshot();
      var provider := coordinator.RequestRandomWords(self, key, value, numWords, block);
      if provider.None? { return None; }
      if provider.value in byProvider {
        coordinator.Restore(before);
        return None;
      }
      nonce := nonce + 1;
      id := Some(RouterId(nonce, sender, provider.value));
      requests := requests[id.value := RoutedRequest(sender, provider.value, value, numWords, false, false)];
      byProvider := byProvider[provider.value := id.value];
    }

    /** rawFulfillRandomWords, called by the coordinator: it records, and calls nobody. */
    method RawFulfillRandomWords(id: ProviderId, numWords: nat) returns (ok: bool)
      modifies this
      ensures var r := Record(old(Snapshot()).r, id, numWords);
        ok == r.Some? && Snapshot() == World(old(Snapshot()).c, if ok then r.value else old(Snapshot()).r)
    {
      if id !in byProvider || byProvider[id] !in requests { return false; }
      var request := requests[byProvider[id]];
      if request.ready || request.refunded || numWords != request.numWords { return false; }
      requests := requests[byProvider[id] := request.(ready := true)];
      ok := true;
    }

    method CreditRefund(id: RouterId)
      requires id in requests
      modifies this
      ensures Snapshot().r == Credited(old(Snapshot()).r.(ether := old(ether) + old(requests)[id].feePaid), id)
    {
      var request := requests[id];
      ether := ether + request.feePaid;
      requests := requests[id := request.(refunded := true)];
      credits := credits[request.consumer := Credit(credits, request.consumer) + request.feePaid];
    }

    /** refundExpired: refund at the provider, withdraw the fee, credit the consumer; or nothing at all. */
    method RefundExpired(id: RouterId, block: nat) returns (ok: bool)
      modifies this, coordinator
      ensures var r := RoutedRefund(old(Snapshot()), id, block, self);
        ok == r.Some? && Snapshot() == if ok then r.value else old(Snapshot())
    {
      if id !in requests || requests[id].ready || requests[id].refunded { return false; }
      var before := coordinator.Snapshot();
      ok := coordinator.RefundExpired(requests[id].provider, block);
      if !ok { return; }
      ok := coordinator.WithdrawCredits(self, requests[id].feePaid);
      if !ok {
        coordinator.Restore(before);
        return;
      }
      CreditRefund(id);
    }

    method WithdrawCredits(sender: Address, amount: nat) returns (ok: bool)
      modifies this
      ensures var r := PayOut(old(Snapshot()).r, sender, amount);
        ok == r.Some? && Snapshot().r == if ok then r.value else old(Snapshot()).r
    {
      var available := Credit(credits, sender);
      if amount > available || ether < amount { return false; }
      credits := credits[sender := available - amount];
      ether := ether - amount;
      ok := true;
    }
  }

  /** Both on one chain: the coordinator's operations that call its consumers, the router among them. */
  class Deployment {
    const router: RouterContract

    ghost function Snapshot(): World
      reads router, router.coordinator
    {
      router.Snapshot()
    }

    constructor (self: Address)
      ensures Snapshot() == Deployed() && router.self == self && fresh(router) && fresh(router.coordinator)
    {
      router := new RouterContract(self);
    }

    /** _attemptCallback: a consumer that is not the router succeeds or fails as it likes; the gas given decides. */
    method AttemptCallback(id: ProviderId, delivered: bool)
      requires id in router.coordinator.requests
      modifies router, router.coordinator
      ensures Snapshot() == Deliver(old(Snapshot()), id, delivered, router.self)
    {
      var success := delivered;
      var request := router.coordinator.requests[id];
      if delivered && request.consumer == router.self {
        success := router.RawFulfillRandomWords(id, request.numWords);
      }
      if success { router.coordinator.RecordDelivery(id); }
    }

    /** fulfillRandomWords, callback included. */
    method FulfillRandomWords(id: ProviderId, proofValid: bool, delivered: bool)
      modifies router, router.coordinator
      ensures Snapshot() == Apply(old(Snapshot()), Fulfil(id, proofValid, delivered), router.self)
    {
      var ok := router.coordinator.FulfillRandomWords(id, proofValid);
      if ok { AttemptCallback(id, delivered); }
    }

    method RetryCallback(id: ProviderId, delivered: bool)
      modifies router, router.coordinator
      ensures Snapshot() == Apply(old(Snapshot()), Step.RetryCallback(id, delivered), router.self)
    {
      if id !in router.coordinator.requests { return; }
      var request := router.coordinator.requests[id];
      if !request.fulfilled || request.callbackSucceeded { return; }
      AttemptCallback(id, delivered);
    }

    /** retryProviderCallback of the router: the same retry for an open routed request. */
    method RetryProviderCallback(routed: RouterId, delivered: bool)
      modifies router, router.coordinator
      ensures var w := old(Snapshot());
        Snapshot() ==
        if routed in w.r.requests && !w.r.requests[routed].ready && !w.r.requests[routed].refunded
        then Apply(w, Step.RetryCallback(w.r.requests[routed].provider, delivered), router.self) else w
    {
      if routed !in router.requests { return; }
      var request := router.requests[routed];
      if request.ready || request.refunded { return; }
      RetryCallback(request.provider, delivered);
    }
  }
}
