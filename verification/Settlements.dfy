/** What closing a request moves, stated on whole transactions and in plain arithmetic: who pays how much to whom
    when a fulfilment settles, and exactly when a request can be fulfilled, retried, expired and pruned. */
module Settlements {
  import opened Outcomes
  import opened ServiceBase
  import opened Lifecycle
  import opened Commitments
  import opened Coordinator
  import opened BaseInvariants
  import opened Books
  import opened Solvency
  import opened CoordinatorRuns
  import opened Refinement
  import V2 = StoredRequests

  // ------------------------------------------------------------------ prices

  /** The least amount that covers the minimum fee and, rounded down, the cost with its premium. */
  predicate IsCharge(charge: int, cost: int, premiumBps: int, minimumFee: int) {
    && minimumFee <= charge && cost * (10_000 + premiumBps) < (charge + 1) * 10_000
    && (charge == minimumFee || charge * 10_000 <= cost * (10_000 + premiumBps))
  }

  /** The payee gains the cost and, rounded down, its share of what was charged beyond it. */
  predicate IsPayout(gain: int, cost: int, charge: int, shareBps: int) {
    (gain - cost) * 10_000 <= (charge - cost) * shareBps < (gain - cost + 1) * 10_000
  }

  function GasCost(proof: Proof, overhead: nat): nat { (proof.gasUsed + overhead) * proof.gasPrice + proof.l1Cost }

  lemma PriceIsCharge(cost: nat, premiumBps: nat, minimumFee: nat)
    ensures IsCharge(ApplyPrice(cost, premiumBps, minimumFee), cost, premiumBps, minimumFee)
  {
    Floors(cost * (MAX_PREMIUM_BPS + premiumBps));
  }

  lemma Floors(x: int)
    ensures (x / MAX_PREMIUM_BPS) * 10_000 <= x < (x / MAX_PREMIUM_BPS + 1) * 10_000
  {
  }

  /** Only one amount is the charge. */
  lemma ChargeIsUnique(a: int, b: int, cost: int, premiumBps: int, minimumFee: int)
    requires IsCharge(a, cost, premiumBps, minimumFee) && IsCharge(b, cost, premiumBps, minimumFee)
    ensures a == b
  {
    var x := cost * (10_000 + premiumBps);
    assert x < (a + 1) * 10_000 && x < (b + 1) * 10_000;
  }

  lemma ShareIsPayout(cost: nat, charge: nat, shareBps: nat)
    ensures IsPayout(OperatorPayment(cost, charge, shareBps), cost, charge, shareBps)
  {
    Floors((charge - cost) * shareBps);
  }

  // ------------------------------------------------------------- fulfilment

  /** A reserve and its slots came back, and nothing else of the counters moved. */
  ghost predicate Released(b: Base, b': Base, w: Request) {
    && (forall id :: Sub(b', id).reserved == Sub(b, id).reserved - if id == w.subscriptionId then w.reservedPayment else 0)
    && (forall id, a :: Consumer(b', id, a).pendingRequests
          == Consumer(b, id, a).pendingRequests - if id == w.subscriptionId && a == w.consumer then 1 else 0)
    && (forall a :: Sponsor(b', a).pendingRequests
          == Sponsor(b, a).pendingRequests - if w.sponsored && a == w.consumer then 1 else 0)
  }

  /** The subscription lost the charge, the payee gained its part and the treasury the rest; no other account moved. */
  ghost predicate Moves(b: Base, b': Base, w: Request, charge: int, gain: int) {
    && (forall id :: Sub(b', id).balance == Sub(b, id).balance - if id == w.subscriptionId then charge else 0)
    && (forall a :: Credits(b', a) == Credits(b, a) + if a == w.payee then gain else 0)
    && b'.treasuryCredits == b.treasuryCredits + charge - gain && b'.ether == b.ether
  }

  /** A settlement at this cost: charge and payout are the ones the request's terms fix. */
  ghost predicate Paid(b: Base, b': Base, w: Request, cost: int) {
    exists charge, gain :: Moves(b, b', w, charge, gain) && charge <= w.reservedPayment
      && IsCharge(charge, cost, w.premiumBps, w.minimumFeeWei) && IsPayout(gain, cost, charge, w.operatorPremiumShareBps)
  }

  lemma ReleaseReleases(b: Base, w: Request)
    requires ReleaseClaim(b, ClaimOf(w)).Some?
    ensures Released(b, ReleaseClaim(b, ClaimOf(w)).value, w)
  {
    ReleaseMoves(b, ClaimOf(w));
    var b' := ReleaseClaim(b, ClaimOf(w)).value;
    forall id ensures Sub(b', id).reserved == Sub(b, id).reserved - if id == w.subscriptionId then w.reservedPayment else 0 {
      assert Sub(b', id).reserved - ReserveShare(None, id) == Sub(b, id).reserved - ReserveShare(Some(ClaimOf(w)), id);
    }
  }

  lemma PayMoves(b: Base, b1: Base, w: Request, cost: nat, charge: nat)
    requires Pay(b1, w.subscriptionId, w.payee, w.operatorPremiumShareBps, cost, charge).Some?
    requires ReleaseClaim(b, ClaimOf(w)) == Some(b1)
    ensures var b' := Pay(b1, w.subscriptionId, w.payee, w.operatorPremiumShareBps, cost, charge).value;
      Moves(b, b', w, charge, OperatorPayment(cost, charge, w.operatorPremiumShareBps)) && Released(b, b', w)
  {
    ReleaseFrame(b, ClaimOf(w));
    ReleaseReleases(b, w);
    PayFrame(b1, w.subscriptionId, w.payee, w.operatorPremiumShareBps, cost, charge);
  }

  lemma SettlePays(b: Base, w: Request, proof: Proof)
    requires Settle(b, w, proof).Some?
    ensures var b' := Settle(b, w, proof).value;
      Paid(b, b', w, GasCost(proof, w.fulfillmentOverheadGas)) && Released(b, b', w)
  {
    var cost := NetworkCost(proof, w.fulfillmentOverheadGas);
    PayMoves(b, ReleaseClaim(b, ClaimOf(w)).value, w, cost, ChargeOf(w, proof));
    PriceIsCharge(cost, w.premiumBps, w.minimumFeeWei);
    ShareIsPayout(cost, ChargeOf(w, proof), w.operatorPremiumShareBps);
  }

  /** What the callback did in between touched no money and no counter. */
  lemma PaidFrom(b: Base, b1: Base, b': Base, w: Request, cost: int)
    requires SameMoney(b, b1) && SameCounts(b, b1) && Paid(b1, b', w, cost) && Released(b1, b', w)
    ensures Paid(b, b', w, cost) && Released(b, b', w)
  {
    var charge, gain :| Moves(b1, b', w, charge, gain) && charge <= w.reservedPayment
      && IsCharge(charge, cost, w.premiumBps, w.minimumFeeWei) && IsPayout(gain, cost, charge, w.operatorPremiumShareBps);
    assert forall a :: Credits(b1, a) == Credits(b, a);
    assert Moves(b, b', w, charge, gain);
  }

  lemma UnlockMoves(b: Base, b1: Base, w: Request, charge: int, gain: int)
    requires Moves(b.(locked := true), b1, w, charge, gain)
    ensures Moves(b, b1.(locked := false), w, charge, gain)
  {
    var b', b1' := b.(locked := true), b1.(locked := false);
    assert forall id :: Sub(b', id) == Sub(b, id) && Sub(b1', id) == Sub(b1, id);
    assert forall a :: Credits(b', a) == Credits(b, a) && Credits(b1', a) == Credits(b1, a);
  }

  lemma UnlockReleases(b: Base, b1: Base, w: Request)
    requires Released(b.(locked := true), b1, w)
    ensures Released(b, b1.(locked := false), w)
  {
    var b', b1' := b.(locked := true), b1.(locked := false);
    assert forall id :: Sub(b', id) == Sub(b, id) && Sub(b1', id) == Sub(b1, id);
    assert forall id, a :: Consumer(b', id, a) == Consumer(b, id, a) && Consumer(b1', id, a) == Consumer(b1, id, a);
    assert forall a :: Sponsor(b', a) == Sponsor(b, a) && Sponsor(b1', a) == Sponsor(b1, a);
  }

  /** A whole fulfilment, whatever its callback does: the charge is fixed by the measured cost and the request's
      premium and minimum fee, and split by the request's share. */
  lemma FulfilPays(s: State, sender: Address, w: Request, proof: Proof, external: External)
    requires Settled(s) && Exec(s, Fulfil(sender, ByWitness(w), proof, external)).Some?
    ensures var s' := Exec(s, Fulfil(sender, ByWitness(w), proof, external)).value;
      Paid(s.base, s'.base, w, GasCost(proof, w.fulfillmentOverheadGas)) && Released(s.base, s'.base, w)
  {
    FulfilFlight(s, sender, w, proof, external);
    var s2 := Interrupted(BeginFulfilStep(Lock(s), ByWitness(w), sender, proof).value, external);
    var b1 := Settle(s2.base, w, proof).value;
    SettlePays(s2.base, w, proof);
    PaidFrom(Lock(s).base, s2.base, b1, w, GasCost(proof, w.fulfillmentOverheadGas));
    UnlockPays(s.base, b1, w, GasCost(proof, w.fulfillmentOverheadGas));
  }

  lemma UnlockPays(b: Base, b1: Base, w: Request, cost: int)
    requires Paid(b.(locked := true), b1, w, cost) && Released(b.(locked := true), b1, w)
    ensures Paid(b, b1.(locked := false), w, cost) && Released(b, b1.(locked := false), w)
  {
    var charge, gain :| Moves(b.(locked := true), b1, w, charge, gain) && charge <= w.reservedPayment
      && IsCharge(charge, cost, w.premiumBps, w.minimumFeeWei) && IsPayout(gain, cost, charge, w.operatorPremiumShareBps);
    UnlockMoves(b, b1, w, charge, gain);
    UnlockReleases(b, b1, w);
  }

  /** The same of V2, for the request it reports. */
  lemma FullFulfilPays(s: State, sender: Address, k: RequestId, proof: Proof, external: External)
    requires SettledFull(s) && k in s.store.requests && Exec(s, Fulfil(sender, ById(k), proof, external)).Some?
    ensures var w := V2.View(s.base, s.store.requests[k]);
      var s' := Exec(s, Fulfil(sender, ById(k), proof, external)).value;
      Paid(s.base, s'.base, w, GasCost(proof, w.fulfillmentOverheadGas)) && Released(s.base, s'.base, w)
  {
    FulfilCommutes(s, sender, k, proof, external);
    FulfilPays(Compacted(s), sender, V2.View(s.base, s.store.requests[k]), proof, external);
  }

  // -------------------------------------------------- when a request can be closed

  /** The gas left after the overhead covers the callback and the part a call may not forward. */
  predicate GasSuffices(gasLeft: int, callbackGasLimit: int, overhead: int) {
    63 * (gasLeft - overhead - callbackGasLimit + 1) > callbackGasLimit
  }

  lemma GasExactly(gasLeft: nat, callbackGasLimit: nat, overhead: nat)
    ensures gasLeft >= MinimumCallbackGas(callbackGasLimit, overhead) <==> GasSuffices(gasLeft, callbackGasLimit, overhead)
  {
  }

  /** A sixty-fourth stays behind at a call; what is forwarded still covers the callback's limit. */
  lemma CallbackGetsItsLimit(gasLeft: int, callbackGasLimit: nat, overhead: nat)
    requires GasSuffices(gasLeft, callbackGasLimit, overhead)
    ensures var available := gasLeft - overhead; available - available / 64 >= callbackGasLimit
  {
  }

  /** The proof fits the request: from its fulfiller, within its block window, gas lane and verifier. */
  predicate ProofFits(w: Request, sender: Address, proof: Proof) {
    && sender == w.fulfiller && proof.proofLength == w.proofDataLength && proof.calldataExact
    && proof.gasPrice <= w.maxGasPriceWei && proof.verifierCodeHash == w.verifierCodeHash && proof.calculatorUnchanged
    && w.requestBlock + w.confirmations <= proof.block && proof.block <= w.expiresAtBlock && proof.blockhashAvailable
    && proof.output.Some? && GasSuffices(proof.gasLeft, w.callbackGasLimit, w.fulfillmentOverheadGas)
  }

  /** The stored commitment is the one of this witness. */
  predicate Current(s: State, w: Request)
    requires s.store.Compact?
  {
    RequestId(w.preSeed) in s.store.commitments && s.store.commitments[RequestId(w.preSeed)].request == w
  }

  /** A fulfilment goes through if and only if its witness is current and pending, its proof fits, and the charge is
      within the reserve; the stored request then carries the randomness, one attempt more and the callback's outcome. */
  lemma FulfilExactly(s: State, sender: Address, w: Request, proof: Proof, external: External, charge: int)
    requires Settled(s)
    requires IsCharge(charge, GasCost(proof, w.fulfillmentOverheadGas), w.premiumBps, w.minimumFeeWei)
    ensures Exec(s, Fulfil(sender, ByWitness(w), proof, external)).Some? <==>
      Current(s, w) && w.status == Pending && ProofFits(w, sender, proof) && charge <= w.reservedPayment
    ensures Exec(s, Fulfil(sender, ByWitness(w), proof, external)).Some? ==>
      Exec(s, Fulfil(sender, ByWitness(w), proof, external)).value.store.Compact?
      && Exec(s, Fulfil(sender, ByWitness(w), proof, external)).value.store.commitments
         == s.store.commitments[RequestId(w.preSeed) := Digest(
              w.(status := Fulfilled, randomness := proof.output.value, callbackAttempts := w.callbackAttempts + 1,
                 callbackSucceeded := w.callbackSucceeded || external.success))]
  {
    GasExactly(proof.gasLeft, w.callbackGasLimit, w.fulfillmentOverheadGas);
    PriceIsCharge(NetworkCost(proof, w.fulfillmentOverheadGas), w.premiumBps, w.minimumFeeWei);
    ChargeIsUnique(charge, ChargeOf(w, proof), GasCost(proof, w.fulfillmentOverheadGas), w.premiumBps, w.minimumFeeWei);
    if BeginFulfilStep(Lock(s), ByWitness(w), sender, proof).Some? {
      FulfilRevertsOnlyOnPrice(s, sender, w, proof, external);
      if Exec(s, Fulfil(sender, ByWitness(w), proof, external)).Some? {
        FulfilResult(s, sender, w, proof, external);
      }
    }
  }

  /** A retry calls back again if and only if the witness is current, fulfilled and not called successfully yet, and
      gas suffices. */
  lemma RetryExactly(s: State, w: Request, gasLeft: nat, external: External)
    requires Settled(s)
    ensures Exec(s, Retry(ByWitness(w), gasLeft, external)).Some? <==>
      && Current(s, w) && w.status == Status.Fulfilled && !w.callbackSucceeded
      && GasSuffices(gasLeft, w.callbackGasLimit, w.fulfillmentOverheadGas)
  {
    GasExactly(gasLeft, w.callbackGasLimit, w.fulfillmentOverheadGas);
    var s1 := BeginRetryStep(Lock(s), ByWitness(w), gasLeft);
    if s1.Some? {
      LockSettled(s);
      BeginRetryKeeps(Lock(s).base, s.store.commitments, w, gasLeft);
      InterruptedKeeps(s1.value, None, external);
    }
  }

  /** It counts an attempt, keeps the randomness, and moves no money and no counter. */
  lemma RetryCountsAttempt(s: State, w: Request, gasLeft: nat, external: External)
    requires Settled(s) && Exec(s, Retry(ByWitness(w), gasLeft, external)).Some?
    ensures var s' := Exec(s, Retry(ByWitness(w), gasLeft, external)).value;
      && SameMoney(s.base, s'.base) && SameCounts(s.base, s'.base)
      && s'.store == Compact(s.store.commitments[RequestId(w.preSeed) := Digest(
           w.(callbackAttempts := w.callbackAttempts + 1, callbackSucceeded := external.success))])
  {
    RetryResult(s, w, gasLeft, external);
    RetryFrame(s, w, gasLeft, external);
  }

  lemma RetryFrame(s: State, w: Request, gasLeft: nat, external: External)
    requires Settled(s) && Exec(s, Retry(ByWitness(w), gasLeft, external)).Some?
    ensures var b' := Exec(s, Retry(ByWitness(w), gasLeft, external)).value.base;
      SameMoney(s.base, b') && SameCounts(s.base, b')
  {
    LockSettled(s);
    BeginRetryKeeps(Lock(s).base, s.store.commitments, w, gasLeft);
    var s1 := BeginRetryStep(Lock(s), ByWitness(w), gasLeft).value;
    InterruptedKeeps(s1, None, external);
    UnlockSame(s.base, Interrupted(s1, external).base);
  }

  lemma UnlockSame(b: Base, b1: Base)
    requires !b.locked && SameMoney(b.(locked := true), b1) && SameCounts(b.(locked := true), b1)
    ensures SameMoney(b, b1.(locked := false)) && SameCounts(b, b1.(locked := false))
  {
    var b', b1' := b.(locked := true), b1.(locked := false);
    assert forall id :: Sub(b', id) == Sub(b, id) && Sub(b1', id) == Sub(b1, id);
    assert forall id, a :: Consumer(b', id, a) == Consumer(b, id, a) && Consumer(b1', id, a) == Consumer(b1, id, a);
    assert forall a :: Sponsor(b', a) == Sponsor(b, a) && Sponsor(b1', a) == Sponsor(b1, a);
    assert SumBalances(b) == SumBalances(b') == SumBalances(b1) == SumBalances(b1');
  }

  /** Expiry closes exactly the current pending requests past their last block. */
  lemma ExpireExactly(s: State, w: Request, block: nat)
    requires Settled(s)
    ensures Exec(s, Call.Expire(ByWitness(w), block)).Some? <==>
      Current(s, w) && w.status == Pending && block > w.expiresAtBlock
  {
    if Current(s, w) && w.status == Pending {
      ExpiryAlwaysCloses(s, w, block);
    }
  }

  /** Its reserve and slots come back, and no money moves. */
  lemma ExpiryReleases(s: State, w: Request, block: nat) returns (b: Base)
    requires Settled(s) && Exec(s, Call.Expire(ByWitness(w), block)).Some?
    ensures Exec(s, Call.Expire(ByWitness(w), block)) == Some(State(b, Compact(
              s.store.commitments[RequestId(w.preSeed) := Digest(w.(status := Expired))])))
    ensures Released(s.base, b, w) && Moves(s.base, b, w, 0, 0)
  {
    b := ReleaseClaim(s.base, ClaimOf(w)).value;
    ReleaseMovesNothing(s.base, w);
  }

  lemma ReleaseMovesNothing(b: Base, w: Request)
    requires ReleaseClaim(b, ClaimOf(w)).Some?
    ensures var b' := ReleaseClaim(b, ClaimOf(w)).value;
      Released(b, b', w) && Moves(b, b', w, 0, 0)
  {
    ReleaseFrame(b, ClaimOf(w));
    ReleaseReleases(b, w);
  }

  /** Pruning forgets exactly the current closed requests, fifty thousand blocks after their expiry. */
  lemma PruneExactly(s: State, w: Request, block: nat)
    requires Settled(s)
    ensures Exec(s, Call.Prune(ByWitness(w), block)).Some? <==>
      Current(s, w) && w.status != Pending && block > w.expiresAtBlock + 50_000
    ensures Exec(s, Call.Prune(ByWitness(w), block)).Some? ==>
      Exec(s, Call.Prune(ByWitness(w), block)) == Some(State(s.base, Compact(s.store.commitments - {RequestId(w.preSeed)})))
  {
  }
}
