/** The two deployed coordinators as objects. Each entry point is proved to be one transaction of the
    machine in Coordinator, re-entrant callbacks included. */
module CoordinatorContracts {
  import opened Outcomes
  import opened ServiceBase
  import opened Lifecycle
  import opened Coordinator
  import opened ServiceContract
  import BaseInvariants
  import V2 = StoredRequests
  import V3 = Commitments

  /** The transaction ran as specified, or reverted and left everything as it was. */
  ghost predicate Ran(s: State, step: Option<State>, s': State, ok: bool) {
    ok == step.Some? && s' == if ok then step.value else s
  }

  lemma RunSplit(s: State, c: Call, rest: seq<Call>)
    ensures Run(s, [c] + rest) == Run(if Exec(s, c).Some? then Exec(s, c).value else s, rest)
  {
    assert ([c] + rest)[1..] == rest;
  }

  function HeldLock(b: Base, held: bool): Base { b.(locked := held) }

  /** A whole V2 fulfilment, piece by piece. */
  lemma FulfilPieces(b: Base, t: V2.Table, id: RequestId, sender: Address, proof: Proof, external: External)
    requires !b.locked
    ensures var b1 := HeldLock(b, true);
      var r := V2.BeginFulfil(b1, t, id, sender, proof);
      var whole := Exec(State(b, Full(t)), Fulfil(sender, ById(id), proof, external));
      if r.None? then whole == None
      else
        var s2 := Interrupted(State(b1, Full(r.value)), external);
        && id in r.value && s2.store == Full(r.value)
        && var last := V2.AfterCallback(r.value[id], external.success);
        var paid := V2.Settle(s2.base, last, proof);
        whole == if paid.None? then None else Some(State(HeldLock(paid.value, false), Full(r.value[id := last])))
  {
    var r := V2.BeginFulfil(HeldLock(b, true), t, id, sender, proof);
    if r.Some? {
      BaseInvariants.LockedRun(State(HeldLock(b, true), Full(r.value)), external.script);
    }
  }

  /** contracts/VRFServiceCoordinatorV2.sol */
  class CoordinatorV2 {
    const service: Service
    var requests: V2.Table

    ghost function Snapshot(): State
      reads this, service
    {
      State(service.Stored(), Full(requests))
    }

    constructor (b: Base)
      ensures Snapshot() == State(b, Full(map[])) && fresh(service)
    {
      service := new Service(b);
      requests := map[];
    }

    method Revert(b: Base, t: V2.Table)
      modifies this, service
      ensures Snapshot() == State(b, Full(t))
    {
      service.Restore(b);
      requests := t;
    }

    /** Untrusted code runs and may call back in; a failed call takes its writes back. */
    method CallOut(external: External)
      modifies this, service
      ensures Snapshot() == Interrupted(old(Snapshot()), external)
      decreases external, 0
    {
      var b, t := service.Stored(), requests;
      var i := 0;
      while i < |external.script|
        invariant 0 <= i <= |external.script|
        invariant Run(Snapshot(), external.script[i..]) == Run(old(Snapshot()), external.script)
      {
        RunSplit(Snapshot(), external.script[i], external.script[i + 1..]);
        assert external.script[i..] == [external.script[i]] + external.script[i + 1..];
        var ok := Execute(external.script[i]);
        i := i + 1;
      }
      if !external.success {
        Revert(b, t);
      }
    }

    method Execute(c: Call) returns (ok: bool)
      modifies this, service
      ensures Ran(old(Snapshot()), Exec(old(Snapshot()), c), Snapshot(), ok)
      decreases c, 4
    {
      if c.Admin? {
        ok := service.Administer(c.sender, c.op);
        return;
      }
      if service.locked { return false; }
      match c {
        case Fund(id, amount) => ok := service.FundSubscription(id, amount);
        case Withdraw(sender, source, recipient, external) => ok := Withdraw(sender, source, recipient, external);
        case RequestWords(sender, p, chain) =>
          var id := RequestRandomWords(sender, p, chain);
          ok := id.Some?;
        case Fulfil(sender, ref, proof, external) =>
          if ref.ByWitness? { return false; }
          ok := FulfillRandomWords(sender, ref.id, proof, external);
        case Retry(ref, gasLeft, external) =>
          if ref.ByWitness? { return false; }
          ok := RetryCallback(ref.id, gasLeft, external);
        case Expire(ref, block) =>
          if ref.ByWitness? { return false; }
          ok := ExpireRequest(ref.id, block);
        case Prune(ref, block) =>
          if ref.ByWitness? { return false; }
          ok := PruneRequest(ref.id, block);
      }
    }

    method Withdraw(sender: Address, source: Source, recipient: Address, external: External) returns (ok: bool)
      requires !service.locked
      modifies this, service
      ensures Ran(old(Snapshot()), Exec(old(Snapshot()), Call.Withdraw(sender, source, recipient, external)), Snapshot(), ok)
      decreases external, 1
    {
      var b, t := service.Stored(), requests;
      var amount := service.TakeDebit(sender, source, recipient);
      if amount.None? { return false; }
      ok := service.Send(amount.value);
      if !ok || !external.success {
        Revert(b, t);
        return false;
      }
      service.SetLock(true);
      CallOut(external);
      service.SetLock(false);
    }

    method RequestRandomWords(sender: Address, p: Params, chain: Chain) returns (id: Option<RequestId>)
      requires !service.locked
      modifies this, service
      ensures Ran(old(Snapshot()), Exec(old(Snapshot()), RequestWords(sender, p, chain)), Snapshot(), id.Some?)
      ensures id.Some? ==> id.value in requests
    {
      var ticket := service.TakeTicket(sender, p, chain);
      if ticket.None? { return None; }
      var k := ticket.value;
      var version := if p.keyHash in service.currentKeyVersions then service.currentKeyVersions[p.keyHash] else 0;
      id := Some(RequestId(k.preSeed));
      requests := requests[id.value := V2.StoredRequest(
        sender, version, p.callbackGasLimit, k.billing.subscriptionId, k.preSeed, 0, chain.block,
        service.pricingVersion, p.numWords, 0, p.requestConfirmations, k.billing.premiumBps, Pending,
        k.billing.sponsored, k.billing.waiveMinimumFee, false)];
    }

    method FulfillRandomWords(sender: Address, id: RequestId, proof: Proof, external: External) returns (ok: bool)
      requires !service.locked
      modifies this, service
      ensures Ran(old(Snapshot()), Exec(old(Snapshot()), Fulfil(sender, ById(id), proof, external)), Snapshot(), ok)
      decreases external, 2
    {
      var b, t := service.Stored(), requests;
      FulfilPieces(b, t, id, sender, proof, external);
      service.SetLock(true);
      ok := Verify(sender, id, proof);
      if !ok {
        Revert(b, t);
        return;
      }
      AttemptCallback(id, external);
      ok := Settle(id, proof);
      if !ok {
        Revert(b, t);
        return;
      }
      service.SetLock(false);
    }

    /** The external call of _attemptCallback and the flag it leaves. The guard keeps the request where it is. */
    method AttemptCallback(id: RequestId, external: External)
      requires service.locked && id in requests
      modifies this, service
      ensures var s := Interrupted(old(Snapshot()), external);
        && s.store == old(Snapshot()).store && service.Stored() == s.base
        && requests == old(requests)[id := V2.AfterCallback(old(requests)[id], external.success)]
      decreases external, 1
    {
      ghost var s := Snapshot();
      BaseInvariants.LockedRun(s, external.script);
      CallOut(external);
      if external.success {
        requests := requests[id := requests[id].(callbackSucceeded := true)];
      }
    }

    /** The checks of fulfillRandomWords and the writes before the external call. */
    method Verify(sender: Address, id: RequestId, proof: Proof) returns (ok: bool)
      modifies this
      ensures var r := V2.BeginFulfil(service.Stored(), old(requests), id, sender, proof);
        ok == r.Some? && requests == if ok then r.value else old(requests)
    {
      if id !in requests || requests[id].status != Pending { return false; }
      var request := requests[id];
      var key, config := V2.KeyAt(service.Stored(), request.keyVersion), V2.PricingAt(service.Stored(), request.pricingVersion);
      if proof.proofLength != key.proofDataLength || !proof.calldataExact { return false; }
      if sender != key.fulfiller || proof.gasPrice > key.maxGasPriceWei { return false; }
      if proof.verifierCodeHash != key.verifierCodeHash || !proof.calculatorUnchanged { return false; }
      var expiresAtBlock := request.requestBlock + config.requestTimeoutBlocks;
      if proof.block > expiresAtBlock || proof.block < request.requestBlock + request.confirmations { return false; }
      if !proof.blockhashAvailable || proof.output.None? { return false; }
      if proof.gasLeft < MinimumCallbackGas(request.callbackGasLimit, config.fulfillmentOverheadGas) { return false; }
      request := request.(status := Status.Fulfilled);
      request := request.(randomness := proof.output.value);
      request := request.(callbackAttempts := request.callbackAttempts + 1);
      requests := requests[id := request];
      ok := true;
    }

    /** The charge, and _settle. On false the caller reverts. */
    method Settle(id: RequestId, proof: Proof) returns (ok: bool)
      requires id in requests
      modifies service
      ensures var r := V2.Settle(old(service.Stored()), requests[id], proof);
        ok == r.Some? && (ok ==> service.Stored() == r.value)
    {
      var request, b := requests[id], service.Stored();
      var key, config := V2.KeyAt(b, request.keyVersion), V2.PricingAt(b, request.pricingVersion);
      var networkCost := (proof.gasUsed + config.fulfillmentOverheadGas) * proof.gasPrice + proof.l1Cost;
      var charge := ApplyPrice(networkCost, request.premiumBps,
                               if request.waiveMinimumFee then 0 else config.minimumRequestFeeWei);
      var reserve := V2.ReservedPayment(b, request);
      if charge > reserve { return false; }
      ok := service.ReleaseReservation(request.subscriptionId, request.consumer, request.sponsored, reserve);
      if ok {
        ok := service.PayOut(request.subscriptionId, key.payee, config.operatorPremiumShareBps, networkCost, charge);
      }
    }

    method RetryCallback(id: RequestId, gasLeft: nat, external: External) returns (ok: bool)
      requires !service.locked
      modifies this, service
      ensures Ran(old(Snapshot()), Exec(old(Snapshot()), Retry(ById(id), gasLeft, external)), Snapshot(), ok)
      decreases external, 2
    {
      if id !in requests || requests[id].status != Status.Fulfilled || requests[id].callbackSucceeded { return false; }
      var request := requests[id];
      var overhead := V2.PricingAt(service.Stored(), request.pricingVersion).fulfillmentOverheadGas;
      if gasLeft < MinimumCallbackGas(request.callbackGasLimit, overhead) { return false; }
      service.SetLock(true);
      requests := requests[id := request.(callbackAttempts := request.callbackAttempts + 1)];
      AttemptCallback(id, external);
      service.SetLock(false);
      ok := true;
    }

    method ExpireRequest(id: RequestId, block: nat) returns (ok: bool)
      requires !service.locked
      modifies this, service
      ensures Ran(old(Snapshot()), Exec(old(Snapshot()), Call.Expire(ById(id), block)), Snapshot(), ok)
    {
      if id !in requests || requests[id].status != Pending { return false; }
      var request, b := requests[id], service.Stored();
      if block <= V2.ExpiresAt(b, request) { return false; }
      var reserve := V2.ReservedPayment(b, request);
      ok := service.ReleaseReservation(request.subscriptionId, request.consumer, request.sponsored, reserve);
      if !ok {
        service.Restore(b);
        return;
      }
      requests := requests[id := request.(status := Expired)];
    }

    method PruneRequest(id: RequestId, block: nat) returns (ok: bool)
      requires !service.locked
      modifies this
      ensures Ran(old(Snapshot()), Exec(old(Snapshot()), Call.Prune(ById(id), block)), Snapshot(), ok)
    {
      if id !in requests || requests[id].status == Pending { return false; }
      var pruneAfterBlock := V2.ExpiresAt(service.Stored(), requests[id]) + PRUNE_DELAY_BLOCKS;
      if block <= pruneAfterBlock { return false; }
      requests := requests - {id};
      ok := true;
    }
  }

  /** A whole V3 fulfilment, piece by piece. */
  lemma FulfilPiecesCompact(b: Base, t: V3.Table, w: Request, sender: Address, proof: Proof, external: External)
    requires !b.locked
    ensures var whole := Exec(State(b, Compact(t)), Fulfil(sender, ByWitness(w), proof, external));
      if !V3.Authenticates(t, w) || !V3.Fulfillable(w, sender, proof) then whole == None
      else
        var counted := V3.Verified(w, proof.output.value);
        var t1 := V3.Persist(t, counted);
        var s2 := Interrupted(State(HeldLock(b, true), Compact(t1)), external);
        && s2.store == Compact(t1)
        && var paid := V3.Settle(s2.base, w, proof);
        whole == if paid.None? then None
                 else Some(State(HeldLock(paid.value, false), Compact(V3.AfterCallback(t1, counted, external.success))))
  {
    if V3.Authenticates(t, w) && V3.Fulfillable(w, sender, proof) {
      BaseInvariants.LockedRun(State(HeldLock(b, true), Compact(V3.Persist(t, V3.Verified(w, proof.output.value)))),
                               external.script);
    }
  }

  /** contracts/VRFServiceCoordinatorV3.sol */
  class CoordinatorV3 {
    const service: Service
    var commitments: V3.Table

    ghost function Snapshot(): State
      reads this, service
    {
      State(service.Stored(), Compact(commitments))
    }

    constructor (b: Base)
      ensures Snapshot() == State(b, Compact(map[])) && fresh(service)
    {
      service := new Service(b);
      commitments := map[];
    }

    method Revert(b: Base, t: V3.Table)
      modifies this, service
      ensures Snapshot() == State(b, Compact(t))
    {
      service.Restore(b);
      commitments := t;
    }

    /** Untrusted code runs and may call back in; a failed call takes its writes back. */
    method CallOut(external: External)
      modifies this, service
      ensures Snapshot() == Interrupted(old(Snapshot()), external)
      decreases external, 0
    {
      var b, t := service.Stored(), commitments;
      var i := 0;
      while i < |external.script|
        invariant 0 <= i <= |external.script|
        invariant Run(Snapshot(), external.script[i..]) == Run(old(Snapshot()), external.script)
      {
        RunSplit(Snapshot(), external.script[i], external.script[i + 1..]);
        assert external.script[i..] == [external.script[i]] + external.script[i + 1..];
        var ok := Execute(external.script[i]);
        i := i + 1;
      }
      if !external.success {
        Revert(b, t);
      }
    }

    method Execute(c: Call) returns (ok: bool)
      modifies this, service
      ensures Ran(old(Snapshot()), Exec(old(Snapshot()), c), Snapshot(), ok)
      decreases c, 4
    {
      if c.Admin? {
        ok := service.Administer(c.sender, c.op);
        return;
      }
      if service.locked { return false; }
      match c {
        case Fund(id, amount) => ok := service.FundSubscription(id, amount);
        case Withdraw(sender, source, recipient, external) => ok := Withdraw(sender, source, recipient, external);
        case RequestWords(sender, p, chain) =>
          var id := RequestRandomWords(sender, p, chain);
          ok := id.Some?;
        case Fulfil(sender, ref, proof, external) =>
          if ref.ById? { return false; }
          ok := FulfillRandomWords(sender, ref.request, proof, external);
        case Retry(ref, gasLeft, external) =>
          if ref.ById? { return false; }
          ok := RetryCallback(ref.request, gasLeft, external);
        case Expire(ref, block) =>
          if ref.ById? { return false; }
          ok := ExpireRequest(ref.request, block);
        case Prune(ref, block) =>
          if ref.ById? { return false; }
          ok := PruneRequest(ref.request, block);
      }
    }

    method Withdraw(sender: Address, source: Source, recipient: Address, external: External) returns (ok: bool)
      requires !service.locked
      modifies this, service
      ensures Ran(old(Snapshot()), Exec(old(Snapshot()), Call.Withdraw(sender, source, recipient, external)), Snapshot(), ok)
      decreases external, 1
    {
      var b, t := service.Stored(), commitments;
      var amount := service.TakeDebit(sender, source, recipient);
      if amount.None? { return false; }
      ok := service.Send(amount.value);
      if !ok || !external.success {
        Revert(b, t);
        return false;
      }
      service.SetLock(true);
      CallOut(external);
      service.SetLock(false);
    }

    method PersistWitness(w: Request)
      modifies this
      ensures commitments == V3.Persist(old(commitments), w)
    {
      commitments := commitments[RequestId(w.preSeed) := V3.Digest(w)];
    }

    method RequestRandomWords(sender: Address, p: Params, chain: Chain) returns (id: Option<RequestId>)
      requires !service.locked
      modifies this, service
      ensures Ran(old(Snapshot()), Exec(old(Snapshot()), RequestWords(sender, p, chain)), Snapshot(), id.Some?)
      ensures id.Some? ==> id.value in commitments
    {
      var ticket := service.TakeTicket(sender, p, chain);
      if ticket.None? { return None; }
      var k, key, config := ticket.value, service.keys[p.keyHash], service.pricing;
      id := Some(RequestId(k.preSeed));
      PersistWitness(Request(
        sender, key.verifier, key.verifierCodeHash, key.fulfiller, key.payee, p.keyHash, k.billing.subscriptionId,
        k.preSeed, k.reserve, 0, if k.billing.waiveMinimumFee then 0 else config.minimumRequestFeeWei, chain.block,
        chain.block + config.requestTimeoutBlocks, key.maxGasPriceWei, key.verificationGasLimit, key.proofDataLength,
        p.callbackGasLimit, p.numWords, 0, config.fulfillmentOverheadGas, p.requestConfirmations, k.billing.premiumBps,
        config.operatorPremiumShareBps, Pending, k.billing.sponsored, k.billing.waiveMinimumFee, false));
    }

    /** _authenticate */
    function Authentic(w: Request): bool
      reads this
    {
      RequestId(w.preSeed) in commitments && commitments[RequestId(w.preSeed)] == V3.Digest(w)
    }

    method FulfillRandomWords(sender: Address, w: Request, proof: Proof, external: External) returns (ok: bool)
      requires !service.locked
      modifies this, service
      ensures Ran(old(Snapshot()), Exec(old(Snapshot()), Fulfil(sender, ByWitness(w), proof, external)), Snapshot(), ok)
      decreases external, 3
    {
      var b, t := service.Stored(), commitments;
      FulfilPiecesCompact(b, t, w, sender, proof, external);
      service.SetLock(true);
      ok := Verify(sender, w, proof);
      if !ok {
        Revert(b, t);
        return;
      }
      ok := CallAndSettle(w, proof, external);
      if !ok {
        Revert(b, t);
        return;
      }
      service.SetLock(false);
    }

    /** From the verified proof to the payment. On false the caller reverts. */
    method CallAndSettle(w: Request, proof: Proof, external: External) returns (ok: bool)
      requires service.locked && proof.output.Some?
      modifies this, service
      ensures var counted := V3.Verified(w, proof.output.value);
        var t := V3.Persist(old(commitments), counted);
        var paid := V3.Settle(Interrupted(State(old(service.Stored()), Compact(t)), external).base, w, proof);
        && ok == paid.Some?
        && (ok ==> service.Stored() == paid.value && commitments == V3.AfterCallback(t, counted, external.success))
      decreases external, 2
    {
      var updated := w.(status := Status.Fulfilled);
      updated := updated.(randomness := proof.output.value);
      AttemptCallback(updated, external);
      ok := Settle(w, proof);
    }

    /** The checks of fulfillRandomWords; the first write of _callback follows them. */
    method Verify(sender: Address, w: Request, proof: Proof) returns (ok: bool)
      ensures ok == (Authentic(w) && V3.Fulfillable(w, sender, proof))
    {
      if !Authentic(w) || w.status != Pending { return false; }
      if proof.proofLength != w.proofDataLength || !proof.calldataExact { return false; }
      if sender != w.fulfiller || proof.gasPrice > w.maxGasPriceWei { return false; }
      if proof.verifierCodeHash != w.verifierCodeHash || !proof.calculatorUnchanged { return false; }
      if proof.block > w.expiresAtBlock || proof.block < w.requestBlock + w.confirmations { return false; }
      if !proof.blockhashAvailable || proof.output.None? { return false; }
      ok := proof.gasLeft >= MinimumCallbackGas(w.callbackGasLimit, w.fulfillmentOverheadGas);
    }

    /** _callback: count the attempt, commit, call out, commit the success. */
    method AttemptCallback(w: Request, external: External)
      requires service.locked
      modifies this, service
      ensures var counted := w.(callbackAttempts := w.callbackAttempts + 1);
        var t := V3.Persist(old(commitments), counted);
        var s := Interrupted(State(old(service.Stored()), Compact(t)), external);
        && s.store == Compact(t) && service.Stored() == s.base
        && commitments == V3.AfterCallback(t, counted, external.success)
      decreases external, 1
    {
      var updated := w.(callbackAttempts := w.callbackAttempts + 1);
      PersistWitness(updated);
      ghost var s := Snapshot();
      BaseInvariants.LockedRun(s, external.script);
      CallOut(external);
      if external.success {
        updated := updated.(callbackSucceeded := true);
        PersistWitness(updated);
      }
    }

    /** The charge, _release and the payment. On false the caller reverts. */
    method Settle(w: Request, proof: Proof) returns (ok: bool)
      modifies service
      ensures var r := V3.Settle(old(service.Stored()), w, proof);
        ok == r.Some? && (ok ==> service.Stored() == r.value)
    {
      var networkCost := (proof.gasUsed + w.fulfillmentOverheadGas) * proof.gasPrice + proof.l1Cost;
      var charge := ApplyPrice(networkCost, w.premiumBps, w.minimumFeeWei);
      if charge > w.reservedPayment { return false; }
      ok := service.ReleaseReservation(w.subscriptionId, w.consumer, w.sponsored, w.reservedPayment);
      if ok {
        ok := service.PayOut(w.subscriptionId, w.payee, w.operatorPremiumShareBps, networkCost, charge);
      }
    }

    method RetryCallback(w: Request, gasLeft: nat, external: External) returns (ok: bool)
      requires !service.locked
      modifies this, service
      ensures Ran(old(Snapshot()), Exec(old(Snapshot()), Retry(ByWitness(w), gasLeft, external)), Snapshot(), ok)
      decreases external, 2
    {
      if !Authentic(w) || w.status != Status.Fulfilled || w.callbackSucceeded { return false; }
      if gasLeft < MinimumCallbackGas(w.callbackGasLimit, w.fulfillmentOverheadGas) { return false; }
      service.SetLock(true);
      AttemptCallback(w, external);
      service.SetLock(false);
      ok := true;
    }

    method ExpireRequest(w: Request, block: nat) returns (ok: bool)
      requires !service.locked
      modifies this, service
      ensures Ran(old(Snapshot()), Exec(old(Snapshot()), Call.Expire(ByWitness(w), block)), Snapshot(), ok)
    {
      if !Authentic(w) || w.status != Pending || block <= w.expiresAtBlock { return false; }
      var b, t := service.Stored(), commitments;
      PersistWitness(w.(status := Expired));
      ok := service.ReleaseReservation(w.subscriptionId, w.consumer, w.sponsored, w.reservedPayment);
      if !ok {
        Revert(b, t);
      }
    }

    method PruneRequest(w: Request, block: nat) returns (ok: bool)
      requires !service.locked
      modifies this
      ensures Ran(old(Snapshot()), Exec(old(Snapshot()), Call.Prune(ByWitness(w), block)), Snapshot(), ok)
    {
      ok := Authentic(w) && w.status != Pending && block > w.expiresAtBlock + PRUNE_DELAY_BLOCKS;
      if ok {
        commitments := commitments - {RequestId(w.preSeed)};
      }
    }
  }
}
