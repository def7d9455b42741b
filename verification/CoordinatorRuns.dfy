/** Whole transactions and whole runs of the coordinator, stated on the commitment store. */
module CoordinatorRuns {
  import opened Outcomes
  import opened ServiceBase
  import opened Lifecycle
  import opened Commitments
  import opened Coordinator
  import opened BaseInvariants
  import opened Books
  import opened Solvency

  /** Between transactions: the guard is open and no request is in flight. */
  ghost predicate Settled(s: State) {
    s.store.Compact? && !s.base.locked && Inv(s.base, s.store.commitments, None)
  }

  /** Inside the external call of a fulfilment of `id`. */
  ghost predicate MidCallback(s: State, f: Flight) {
    s.store.Compact? && s.base.locked && Inv(s.base, s.store.commitments, f)
  }

  // ----------------------------------------------------------- inside a callback

  /** Whatever calls a callback makes, and after every prefix of them, the books balance with the
      in-flight request still counted. */
  lemma CallbackKeeps(s: State, f: Flight, script: seq<Call>)
    requires MidCallback(s, f)
    ensures MidCallback(Run(s, script), f) && Run(s, script).store == s.store
    ensures Framed(s.base, Run(s, script).base)
  {
    LockedRun(s, script);
    AdminRunKeeps(s.base, script);
    FramedKeeps(s.base, AdminRun(s.base, script), s.store.commitments, f);
  }

  lemma FramedReflexive(b: Base)
    ensures Framed(b, b)
  {
  }

  lemma InterruptedKeeps(s: State, f: Flight, external: External)
    requires MidCallback(s, f)
    ensures MidCallback(Interrupted(s, external), f) && Interrupted(s, external).store == s.store
    ensures Framed(s.base, Interrupted(s, external).base)
  {
    if external.success {
      CallbackKeeps(s, f, external.script);
    } else {
      FramedReflexive(s.base);
    }
  }

  // ---------------------------------------------------------------- transactions

  lemma AdminSettled(s: State, sender: Address, op: AdminCall)
    requires Settled(s) && AdminStep(s.base, sender, op).Some?
    ensures Settled(s.(base := AdminStep(s.base, sender, op).value))
  {
    AdminKeeps(s.base, sender, op);
    FramedKeeps(s.base, AdminStep(s.base, sender, op).value, s.store.commitments, None);
  }

  lemma LockSettled(s: State)
    requires Settled(s)
    ensures MidCallback(Lock(s), None)
  {
    LockKeeps(s.base, s.store.commitments, None, true);
  }

  lemma UnlockSettled(s: State)
    requires s.store.Compact? && Inv(s.base, s.store.commitments, None)
    ensures Settled(Unlock(s))
  {
    LockKeeps(s.base, s.store.commitments, None, false);
  }

  lemma WithdrawSettled(s: State, sender: Address, source: Source, recipient: Address, external: External)
    requires Settled(s) && Exec(s, Withdraw(sender, source, recipient, external)).Some?
    ensures Settled(Exec(s, Withdraw(sender, source, recipient, external)).value)
  {
    DebitKeeps(s.base, sender, source, recipient, s.store.commitments);
    var (b, amount) := Debit(s.base, sender, source, recipient).value;
    var s1 := Lock(s.(base := SendEther(b, amount).value));
    LockKeeps(SendEther(b, amount).value, s.store.commitments, None, true);
    CallbackKeeps(s1, None, external.script);
    UnlockSettled(Run(s1, external.script));
  }

  /** The flight of a fulfilment, from the verified proof to just before settlement. */
  lemma FulfilFlight(s: State, sender: Address, w: Request, proof: Proof, external: External)
    requires Settled(s) && BeginFulfilStep(Lock(s), ByWitness(w), sender, proof).Some?
    ensures var s1 := BeginFulfilStep(Lock(s), ByWitness(w), sender, proof).value;
      && Authenticates(s.store.commitments, w) && w.status == Pending && proof.output.Some?
      && MidCallback(s1, Some(RequestId(w.preSeed)))
      && MidCallback(Interrupted(s1, external), Some(RequestId(w.preSeed)))
      && Interrupted(s1, external).store == s1.store && Framed(s1.base, Interrupted(s1, external).base)
      && s1 == State(Lock(s).base, Compact(Persist(s.store.commitments, Verified(w, proof.output.value))))
      && Authenticates(s1.store.commitments, Verified(w, proof.output.value))
  {
    LockSettled(s);
    BeginFulfilKeeps(Lock(s).base, s.store.commitments, w, sender, proof);
    var s1 := BeginFulfilStep(Lock(s), ByWitness(w), sender, proof).value;
    InterruptedKeeps(s1, Some(RequestId(w.preSeed)), external);
  }

  lemma FulfilSettled(s: State, sender: Address, w: Request, proof: Proof, external: External)
    requires Settled(s) && Exec(s, Fulfil(sender, ByWitness(w), proof, external)).Some?
    ensures Settled(Exec(s, Fulfil(sender, ByWitness(w), proof, external)).value)
  {
    FulfilFlight(s, sender, w, proof, external);
    var s2 := Interrupted(BeginFulfilStep(Lock(s), ByWitness(w), sender, proof).value, external);
    FinishFulfilKeeps(s2.base, s2.store.commitments, w, external.success, proof);
    UnlockSettled(FinishFulfilStep(s2, ByWitness(w), external.success, proof).value);
  }

  lemma RetrySettled(s: State, w: Request, gasLeft: nat, external: External)
    requires Settled(s) && Exec(s, Retry(ByWitness(w), gasLeft, external)).Some?
    ensures Settled(Exec(s, Retry(ByWitness(w), gasLeft, external)).value)
  {
    LockSettled(s);
    BeginRetryKeeps(Lock(s).base, s.store.commitments, w, gasLeft);
    var s1 := BeginRetryStep(Lock(s), ByWitness(w), gasLeft).value;
    InterruptedKeeps(s1, None, external);
    var s2 := Interrupted(s1, external);
    if external.success {
      SucceedKeeps(s2.base, s2.store.commitments, w.(callbackAttempts := w.callbackAttempts + 1), None);
    }
    UnlockSettled(FinishRetryStep(s2, ByWitness(w), external.success).value);
  }

  lemma TicketUnlocked(b: Base, t: Table, sender: Address, p: Params, chain: Chain)
    requires Commitments.Create(b, t, sender, p, chain).Some?
    ensures Commitments.Create(b, t, sender, p, chain).value.0.locked == b.locked
  {
  }

  lemma ExecSettled(s: State, c: Call)
    requires Settled(s) && Exec(s, c).Some?
    ensures Settled(Exec(s, c).value)
  {
    var t := s.store.commitments;
    match c {
      case Admin(sender, op) => AdminSettled(s, sender, op);
      case Fund(id, amount) => FundKeeps(s.base, id, amount, t);
      case Withdraw(sender, source, recipient, external) => WithdrawSettled(s, sender, source, recipient, external);
      case RequestWords(sender, p, chain) =>
        TicketUnlocked(s.base, t, sender, p, chain);
        CreateKeeps(s.base, t, sender, p, chain);
      case Fulfil(sender, ref, proof, external) => FulfilSettled(s, sender, ref.request, proof, external);
      case Retry(ref, gasLeft, external) => RetrySettled(s, ref.request, gasLeft, external);
      case Expire(ref, block) =>
        ExpireKeeps(s.base, t, ref.request, block);
        ReleaseFrame(s.base, ClaimOf(ref.request));
      case Prune(ref, block) => PruneKeeps(s.base, t, ref.request, block);
    }
  }

  /** Every run of transactions keeps the invariant. */
  lemma {:induction false} RunSettled(s: State, calls: seq<Call>)
    requires Settled(s)
    ensures Settled(Run(s, calls))
    decreases calls
  {
    if calls != [] {
      var s1 := Exec(s, calls[0]);
      if s1.Some? {
        ExecSettled(s, calls[0]);
        RunSettled(s1.value, calls[1..]);
      } else {
        RunSettled(s, calls[1..]);
      }
    }
  }

  lemma EmptyBooks(b: Base)
    requires b.subscriptions == map[] && b.consumers == map[] && b.sponsors == map[]
    ensures Booked(b, map[], None) && Covered(b)
  {
  }

  /** The constructor starts in the invariant. */
  lemma DeploySettled(owner: Address, guardian: Address, linked: bool, pricing: PricingConfig, key: AdminCall)
    requires Deploy(true, owner, guardian, linked, pricing, key).Some?
    ensures Settled(Deploy(true, owner, guardian, linked, pricing, key).value)
  {
    var s := Deploy(true, owner, guardian, linked, pricing, key).value;
    assert Mirrored(s.base, key.keyHash);
    assert Sane(s.base);
    EmptyBooks(s.base);
  }

  // ------------------------------------------------------------- what a reader may rely on

  /** In every reachable state the contract holds exactly what it owes, and no reserve exceeds its balance;
      both also hold after any calls made from inside a fulfilment callback. */
  lemma SolventThroughReentry(owner: Address, guardian: Address, linked: bool, pricing: PricingConfig, key: AdminCall,
                              calls: seq<Call>, sender: Address, w: Request, proof: Proof, script: seq<Call>)
    requires Deploy(true, owner, guardian, linked, pricing, key).Some?
    ensures var s := Run(Deploy(true, owner, guardian, linked, pricing, key).value, calls);
      && s.store.Compact? && Solvent(s.base) && Covered(s.base) && Booked(s.base, s.store.commitments, None)
      && var s1 := BeginFulfilStep(Lock(s), ByWitness(w), sender, proof);
      s1.Some? ==>
        (var s2 := Run(s1.value, script);
         && s2.store == s1.value.store
         && Solvent(s2.base) && Covered(s2.base) && Booked(s2.base, s2.store.commitments, Some(RequestId(w.preSeed))))
  {
    DeploySettled(owner, guardian, linked, pricing, key);
    var s0 := Deploy(true, owner, guardian, linked, pricing, key).value;
    RunSettled(s0, calls);
    var s := Run(s0, calls);
    var s1 := BeginFulfilStep(Lock(s), ByWitness(w), sender, proof);
    if s1.Some? {
      FulfilFlight(s, sender, w, proof, External(script, true));
    }
  }

  /** The same inside the external call of a withdrawal or a cancellation, whose ether is never lacking. */
  lemma SolventThroughWithdrawal(owner: Address, guardian: Address, linked: bool, pricing: PricingConfig, key: AdminCall,
                                 calls: seq<Call>, sender: Address, source: Source, recipient: Address, script: seq<Call>)
    requires Deploy(true, owner, guardian, linked, pricing, key).Some?
    ensures var s := Run(Deploy(true, owner, guardian, linked, pricing, key).value, calls);
      var d := Debit(s.base, sender, source, recipient);
      d.Some? ==>
        (var sent := SendEther(d.value.0, d.value.1);
         && sent.Some?
         && var s2 := Run(Lock(s.(base := sent.value)), script);
         && s2.store == s.store && s2.store.Compact?
         && Solvent(s2.base) && Covered(s2.base) && Booked(s2.base, s2.store.commitments, None))
  {
    DeploySettled(owner, guardian, linked, pricing, key);
    var s0 := Deploy(true, owner, guardian, linked, pricing, key).value;
    RunSettled(s0, calls);
    var s := Run(s0, calls);
    if Debit(s.base, sender, source, recipient).Some? {
      DebitKeeps(s.base, sender, source, recipient, s.store.commitments);
      var (b, amount) := Debit(s.base, sender, source, recipient).value;
      var b1 := SendEther(b, amount).value;
      LockKeeps(b1, s.store.commitments, None, true);
      CallbackKeeps(Lock(s.(base := b1)), None, script);
    }
  }

  /** And inside a retried callback, which owes nothing any more. */
  lemma SolventThroughRetry(owner: Address, guardian: Address, linked: bool, pricing: PricingConfig, key: AdminCall,
                            calls: seq<Call>, w: Request, gasLeft: nat, script: seq<Call>)
    requires Deploy(true, owner, guardian, linked, pricing, key).Some?
    ensures var s := Run(Deploy(true, owner, guardian, linked, pricing, key).value, calls);
      var s1 := BeginRetryStep(Lock(s), ByWitness(w), gasLeft);
      s1.Some? ==>
        (var s2 := Run(s1.value, script);
         && s2.store == s1.value.store && s2.store.Compact?
         && Solvent(s2.base) && Covered(s2.base) && Booked(s2.base, s2.store.commitments, None))
  {
    DeploySettled(owner, guardian, linked, pricing, key);
    var s0 := Deploy(true, owner, guardian, linked, pricing, key).value;
    RunSettled(s0, calls);
    var s := Run(s0, calls);
    var s1 := BeginRetryStep(Lock(s), ByWitness(w), gasLeft);
    if s1.Some? {
      LockSettled(s);
      BeginRetryKeeps(Lock(s).base, s.store.commitments, w, gasLeft);
      CallbackKeeps(s1.value, None, script);
    }
  }

  lemma ChargeCoversCost(w: Request, proof: Proof)
    ensures NetworkCost(proof, w.fulfillmentOverheadGas) <= ChargeOf(w, proof)
  {
    PriceCoversCost(NetworkCost(proof, w.fulfillmentOverheadGas), w.premiumBps, w.minimumFeeWei);
  }

  lemma ShareBelow(premium: nat, shareBps: nat)
    requires shareBps <= MAX_PREMIUM_BPS
    ensures 0 <= premium * shareBps / MAX_PREMIUM_BPS <= premium
  {
    assert premium * shareBps <= premium * MAX_PREMIUM_BPS;
  }

  /** Operator and treasury share the charge, and the operator never gets less than the network cost. */
  lemma ChargeSplits(networkCost: nat, charge: nat, shareBps: nat)
    requires networkCost <= charge && shareBps <= MAX_PREMIUM_BPS
    ensures networkCost <= OperatorPayment(networkCost, charge, shareBps) <= charge
  {
    ShareBelow(charge - networkCost, shareBps);
  }

  /** Once the proof is verified, only a charge above the reserve can revert a fulfilment: whatever the
      callback did, no counter, reserve or balance underflows. */
  lemma FulfilRevertsOnlyOnPrice(s: State, sender: Address, w: Request, proof: Proof, external: External)
    requires Settled(s) && BeginFulfilStep(Lock(s), ByWitness(w), sender, proof).Some?
    ensures Exec(s, Fulfil(sender, ByWitness(w), proof, external)).Some? <==> ChargeOf(w, proof) <= w.reservedPayment
  {
    FulfilFlight(s, sender, w, proof, external);
    var s2 := Interrupted(BeginFulfilStep(Lock(s), ByWitness(w), sender, proof).value, external);
    assert WellFormed(s.base, RequestId(w.preSeed), w);
    if ChargeOf(w, proof) <= w.reservedPayment {
      SettleSucceeds(s2.base, s2.store.commitments, w, proof, RequestId(w.preSeed));
    }
  }

  lemma SettleSucceeds(b: Base, t: Table, w: Request, proof: Proof, k: RequestId)
    requires Inv(b, t, Some(k)) && ClaimAt(t, k, Some(k)) == Some(ClaimOf(w))
    requires ChargeOf(w, proof) <= w.reservedPayment && w.operatorPremiumShareBps <= MAX_PREMIUM_BPS
    ensures Settle(b, w, proof).Some?
  {
    ReleaseLive(b, t, Some(k), k);
    assert Sub(ReleaseClaim(b, ClaimOf(w)).value, w.subscriptionId).reserved + w.reservedPayment
        <= Sub(ReleaseClaim(b, ClaimOf(w)).value, w.subscriptionId).balance;
    ChargeCoversCost(w, proof);
    ChargeSplits(NetworkCost(proof, w.fulfillmentOverheadGas), ChargeOf(w, proof), w.operatorPremiumShareBps);
  }

  /** Every pending request can be closed as soon as it is past its expiry, by anyone, in every state. */
  lemma ExpiryAlwaysCloses(s: State, w: Request, block: nat)
    requires Settled(s) && Authenticates(s.store.commitments, w) && w.status == Pending
    ensures Exec(s, Call.Expire(ByWitness(w), block)).Some? <==> block > w.expiresAtBlock
  {
    if block > w.expiresAtBlock {
      ExpireKeeps(s.base, s.store.commitments, w, block);
    }
  }

  // ------------------------------------------------------------- progress of one request

  /** The fields fixed at creation: reserve, expiry, prices, parties and gas lane among them. */
  predicate Pinned(r: Request, r': Request) {
    r' == r.(status := r'.status, randomness := r'.randomness, callbackAttempts := r'.callbackAttempts,
             callbackSucceeded := r'.callbackSucceeded)
  }

  /** `r'` may follow `r`: a final status and its randomness stay, attempts and success only grow. */
  predicate Later(r: Request, r': Request) {
    && Pinned(r, r') && (r.status == Pending || (r'.status == r.status && r'.randomness == r.randomness))
    && r.callbackAttempts <= r'.callbackAttempts && (r.callbackSucceeded ==> r'.callbackSucceeded)
    && (r'.status == Pending ==> r' == r)
  }

  predicate Issued(b: Base, k: RequestId) {
    k.preSeed.nonce <= Nonce(b, k.preSeed.subscriptionId, k.preSeed.consumer)
  }

  /** Old requests moved forward or were pruned, and nothing reappeared under an issued id. */
  ghost predicate Progress(b: Base, t: Table, b': Base, t': Table) {
    && (forall id, a :: Nonce(b, id, a) <= Nonce(b', id, a))
    && (forall k :: k in t' && Issued(b, k) ==> k in t && Later(t[k].request, t'[k].request))
  }

  ghost predicate ProgressOf(s: State, s': State) {
    s.store.Compact? && s'.store.Compact? && Progress(s.base, s.store.commitments, s'.base, s'.store.commitments)
  }

  lemma ProgressTransitive(a: State, b: State, c: State)
    requires ProgressOf(a, b) && ProgressOf(b, c)
    ensures ProgressOf(a, c)
  {
    forall k | k in c.store.commitments && Issued(a.base, k)
      ensures k in a.store.commitments && Later(a.store.commitments[k].request, c.store.commitments[k].request)
    {
      assert Issued(b.base, k);
    }
    forall id, n
      ensures Nonce(a.base, id, n) <= Nonce(c.base, id, n)
    {
      assert Nonce(a.base, id, n) <= Nonce(b.base, id, n) <= Nonce(c.base, id, n);
    }
  }

  lemma RewriteProgress(b: Base, b': Base, t: Table, w: Request, w': Request)
    requires Authenticates(t, w) && Later(w, w') && b'.nonces == b.nonces
    ensures Progress(b, t, b', Persist(t, w'))
  {
  }

  lemma CreateProgress(b: Base, t: Table, sender: Address, p: Params, chain: Chain)
    requires Inv(b, t, None) && Commitments.Create(b, t, sender, p, chain).Some?
    ensures var (b', t') := Commitments.Create(b, t, sender, p, chain).value;
      Progress(b, t, b', t')
  {
    var k := TakeTicket(b, sender, p, chain).value;
    NewRequest(b, t, sender, p, chain);
    TicketWrites(b, sender, p, chain);
    assert !Issued(b, RequestId(k.preSeed));
  }

  lemma PayNonces(b: Base, w: Request, proof: Proof)
    requires Settle(b, w, proof).Some?
    ensures Settle(b, w, proof).value.nonces == b.nonces
  {
  }

  function Called(w: Request, success: bool): Request {
    if success then w.(callbackSucceeded := true) else w
  }

  /** What a whole fulfilment leaves in the store. */
  lemma FulfilResult(s: State, sender: Address, w: Request, proof: Proof, external: External)
    requires Settled(s) && Exec(s, Fulfil(sender, ByWitness(w), proof, external)).Some?
    ensures var s' := Exec(s, Fulfil(sender, ByWitness(w), proof, external)).value;
      && Authenticates(s.store.commitments, w) && w.status == Pending && proof.output.Some?
      && s'.store == Compact(Persist(s.store.commitments, Called(Verified(w, proof.output.value), external.success)))
      && s'.base.nonces == s.base.nonces
  {
    FulfilFlight(s, sender, w, proof, external);
    var s2 := Interrupted(BeginFulfilStep(Lock(s), ByWitness(w), sender, proof).value, external);
    assert s2.base.nonces == s.base.nonces;
    FinishResult(s2, w, external.success, proof);
    PersistTwice(s.store.commitments, Verified(w, proof.output.value),
                 Called(Verified(w, proof.output.value), external.success));
  }

  lemma PersistTwice(t: Table, w: Request, w': Request)
    requires w'.preSeed == w.preSeed
    ensures Persist(Persist(t, w), w') == Persist(t, w')
  {
  }

  lemma FinishResult(s: State, w: Request, success: bool, proof: Proof)
    requires s.store.Compact? && proof.output.Some? && Authenticates(s.store.commitments, Verified(w, proof.output.value))
    requires FinishFulfilStep(s, ByWitness(w), success, proof).Some?
    ensures var s' := FinishFulfilStep(s, ByWitness(w), success, proof).value;
      && s'.store == Compact(Persist(s.store.commitments, Called(Verified(w, proof.output.value), success)))
      && s'.base.nonces == s.base.nonces
  {
    PayNonces(s.base, w, proof);
    assert Persist(s.store.commitments, Verified(w, proof.output.value)) == s.store.commitments;
  }

  lemma FulfilProgress(s: State, sender: Address, w: Request, proof: Proof, external: External)
    requires Settled(s) && Exec(s, Fulfil(sender, ByWitness(w), proof, external)).Some?
    ensures ProgressOf(s, Exec(s, Fulfil(sender, ByWitness(w), proof, external)).value)
  {
    FulfilResult(s, sender, w, proof, external);
    assert WellFormed(s.base, RequestId(w.preSeed), w);
    RewriteProgress(s.base, Exec(s, Fulfil(sender, ByWitness(w), proof, external)).value.base, s.store.commitments, w,
                    Called(Verified(w, proof.output.value), external.success));
  }

  /** What a whole retry leaves in the store. */
  lemma RetryResult(s: State, w: Request, gasLeft: nat, external: External)
    requires Settled(s) && Exec(s, Retry(ByWitness(w), gasLeft, external)).Some?
    ensures var s' := Exec(s, Retry(ByWitness(w), gasLeft, external)).value;
      && Authenticates(s.store.commitments, w) && w.status == Status.Fulfilled && !w.callbackSucceeded
      && s'.store == Compact(Persist(s.store.commitments,
                                     Called(w.(callbackAttempts := w.callbackAttempts + 1), external.success)))
      && s'.base.nonces == s.base.nonces
  {
    LockSettled(s);
    BeginRetryKeeps(Lock(s).base, s.store.commitments, w, gasLeft);
    var s1 := BeginRetryStep(Lock(s), ByWitness(w), gasLeft).value;
    InterruptedKeeps(s1, None, external);
    var counted := w.(callbackAttempts := w.callbackAttempts + 1);
    PersistTwice(s.store.commitments, counted, Called(counted, external.success));
  }

  lemma RetryProgress(s: State, w: Request, gasLeft: nat, external: External)
    requires Settled(s) && Exec(s, Retry(ByWitness(w), gasLeft, external)).Some?
    ensures ProgressOf(s, Exec(s, Retry(ByWitness(w), gasLeft, external)).value)
  {
    RetryResult(s, w, gasLeft, external);
    RewriteProgress(s.base, Exec(s, Retry(ByWitness(w), gasLeft, external)).value.base, s.store.commitments, w,
                    Called(w.(callbackAttempts := w.callbackAttempts + 1), external.success));
  }

  lemma SameNoncesProgress(b: Base, b': Base, t: Table)
    requires b'.nonces == b.nonces
    ensures Progress(b, t, b', t)
  {
  }

  lemma WithdrawProgress(s: State, sender: Address, source: Source, recipient: Address, external: External)
    requires Settled(s) && Exec(s, Withdraw(sender, source, recipient, external)).Some?
    ensures ProgressOf(s, Exec(s, Withdraw(sender, source, recipient, external)).value)
  {
    DebitKeeps(s.base, sender, source, recipient, s.store.commitments);
    DebitFrame(s.base, sender, source, recipient);
    var (b, amount) := Debit(s.base, sender, source, recipient).value;
    var s1 := Lock(s.(base := SendEther(b, amount).value));
    LockKeeps(SendEther(b, amount).value, s.store.commitments, None, true);
    CallbackKeeps(s1, None, external.script);
    SameNoncesProgress(s.base, Exec(s, Withdraw(sender, source, recipient, external)).value.base, s.store.commitments);
  }

  lemma ExecProgress(s: State, c: Call)
    requires Settled(s) && Exec(s, c).Some?
    ensures ProgressOf(s, Exec(s, c).value)
  {
    var t := s.store.commitments;
    match c {
      case Admin(sender, op) =>
        AdminKeeps(s.base, sender, op);
        SameNoncesProgress(s.base, AdminStep(s.base, sender, op).value, t);
      case Fund(id, amount) => SameNoncesProgress(s.base, FundStep(s.base, id, amount).value, t);
      case Withdraw(sender, source, recipient, external) => WithdrawProgress(s, sender, source, recipient, external);
      case RequestWords(sender, p, chain) => CreateProgress(s.base, t, sender, p, chain);
      case Fulfil(sender, ref, proof, external) => FulfilProgress(s, sender, ref.request, proof, external);
      case Retry(ref, gasLeft, external) => RetryProgress(s, ref.request, gasLeft, external);
      case Expire(ref, block) =>
        ReleaseFrame(s.base, ClaimOf(ref.request));
        assert WellFormed(s.base, RequestId(ref.request.preSeed), ref.request);
        RewriteProgress(s.base, Exec(s, c).value.base, t, ref.request, ref.request.(status := Expired));
      case Prune(ref, block) =>
    }
  }

  /** In every run a request keeps its reserve, expiry and terms, moves only forward, and a pruned id never
      comes back, whatever pricing, keys, overrides and sponsors do meanwhile. */
  lemma {:induction false} RunProgress(s: State, calls: seq<Call>)
    requires Settled(s)
    ensures ProgressOf(s, Run(s, calls))
    decreases calls
  {
    if calls != [] {
      var s1 := Exec(s, calls[0]);
      if s1.Some? {
        ExecSettled(s, calls[0]);
        ExecProgress(s, calls[0]);
        RunProgress(s1.value, calls[1..]);
        ProgressTransitive(s, s1.value, Run(s, calls));
      } else {
        RunProgress(s, calls[1..]);
      }
    }
  }

  /** A witness that was superseded or pruned is rejected from then on, in every later state. */
  lemma StaleForever(s: State, calls: seq<Call>, more: seq<Call>, w: Request)
    requires Settled(s) && Authenticates(s.store.commitments, w)
    requires Run(s, calls).store.Compact? && !Authenticates(Run(s, calls).store.commitments, w)
    ensures Run(Run(s, calls), more).store.Compact? && !Authenticates(Run(Run(s, calls), more).store.commitments, w)
  {
    var s1 := Run(s, calls);
    RunSettled(s, calls);
    RunProgress(s, calls);
    RunProgress(s1, more);
    var k := RequestId(w.preSeed);
    assert WellFormed(s.base, k, w);
    assert Issued(s.base, k) && Issued(s1.base, k);
    var t1, t2 := s1.store.commitments, Run(s1, more).store.commitments;
    assert k in t1 ==> Later(w, t1[k].request);
    assert k in t2 ==> k in t1 && Later(t1[k].request, t2[k].request);
  }

  // ---------------------------------------------------------- cancelled subscriptions

  lemma {:induction false} Unclaimed(t: Table, k: RequestId, id: SubId)
    requires k in t && t[k].request.status == Pending && t[k].request.subscriptionId == id
    ensures Reserved(t, id, None) >= t[k].request.reservedPayment
  {
    MapSums.SumNonnegative(t, ReserveWeight(id, None));
    assert ReserveWeight(id, None)(k, t[k]) == t[k].request.reservedPayment;
  }

  /** A cancelled subscription is empty and no request of it is pending. */
  lemma CancelledIsEmpty(s: State, id: SubId)
    requires Settled(s) && id in s.base.subscriptions && !Sub(s.base, id).active
    ensures Sub(s.base, id).balance == 0 && Sub(s.base, id).reserved == 0
    ensures forall k :: k in s.store.commitments && s.store.commitments[k].request.subscriptionId == id
                    ==> s.store.commitments[k].request.status != Pending
  {
    var t := s.store.commitments;
    assert Sub(s.base, id).reserved <= Sub(s.base, id).balance;
    forall k | k in t && t[k].request.subscriptionId == id
      ensures t[k].request.status != Pending
    {
      assert WellFormed(s.base, k, t[k].request);
      if t[k].request.status == Pending {
        Unclaimed(t, k, id);
      }
    }
  }

  predicate Cancelled(b: Base, id: SubId) { id in b.subscriptions && !b.subscriptions[id].active }

  lemma FramedCancelled(b: Base, b': Base, id: SubId)
    requires Framed(b, b') && Cancelled(b, id)
    ensures Cancelled(b', id)
  {
    assert !Sub(b', id).active;
  }

  lemma SettleActivity(b: Base, w: Request, proof: Proof, id: SubId)
    requires Settle(b, w, proof).Some? && Cancelled(b, id)
    ensures Cancelled(Settle(b, w, proof).value, id)
  {
  }

  lemma TicketActivity(b: Base, t: Table, sender: Address, p: Params, chain: Chain, id: SubId)
    requires Commitments.Create(b, t, sender, p, chain).Some? && Cancelled(b, id)
    ensures Cancelled(Commitments.Create(b, t, sender, p, chain).value.0, id)
  {
    TicketWrites(b, sender, p, chain);
  }

  lemma CallbackCancelled(s: State, f: Flight, external: External, id: SubId)
    requires MidCallback(s, f) && Cancelled(s.base, id)
    ensures Cancelled(Interrupted(s, external).base, id)
  {
    InterruptedKeeps(s, f, external);
    FramedCancelled(s.base, Interrupted(s, external).base, id);
  }

  lemma WithdrawCancelled(s: State, sender: Address, source: Source, recipient: Address, external: External, id: SubId)
    requires Settled(s) && Exec(s, Withdraw(sender, source, recipient, external)).Some? && Cancelled(s.base, id)
    ensures Cancelled(Exec(s, Withdraw(sender, source, recipient, external)).value.base, id)
  {
    DebitKeeps(s.base, sender, source, recipient, s.store.commitments);
    var (b, amount) := Debit(s.base, sender, source, recipient).value;
    LockKeeps(SendEther(b, amount).value, s.store.commitments, None, true);
    CallbackCancelled(Lock(s.(base := SendEther(b, amount).value)), None, external, id);
  }

  lemma FulfilCancelled(s: State, sender: Address, w: Request, proof: Proof, external: External, id: SubId)
    requires Settled(s) && Exec(s, Fulfil(sender, ByWitness(w), proof, external)).Some? && Cancelled(s.base, id)
    ensures Cancelled(Exec(s, Fulfil(sender, ByWitness(w), proof, external)).value.base, id)
  {
    FulfilFlight(s, sender, w, proof, external);
    var s1 := BeginFulfilStep(Lock(s), ByWitness(w), sender, proof).value;
    CallbackCancelled(s1, Some(RequestId(w.preSeed)), external, id);
    SettleActivity(Interrupted(s1, external).base, w, proof, id);
  }

  lemma RetryCancelled(s: State, w: Request, gasLeft: nat, external: External, id: SubId)
    requires Settled(s) && Exec(s, Retry(ByWitness(w), gasLeft, external)).Some? && Cancelled(s.base, id)
    ensures Cancelled(Exec(s, Retry(ByWitness(w), gasLeft, external)).value.base, id)
  {
    LockSettled(s);
    BeginRetryKeeps(Lock(s).base, s.store.commitments, w, gasLeft);
    CallbackCancelled(BeginRetryStep(Lock(s), ByWitness(w), gasLeft).value, None, external, id);
  }

  lemma ExecCancelled(s: State, c: Call, id: SubId)
    requires Settled(s) && Exec(s, c).Some? && Cancelled(s.base, id)
    ensures Cancelled(Exec(s, c).value.base, id)
  {
    match c {
      case Admin(sender, op) =>
        AdminKeeps(s.base, sender, op);
        FramedCancelled(s.base, AdminStep(s.base, sender, op).value, id);
      case Fund(_, _) =>
      case Withdraw(sender, source, recipient, external) => WithdrawCancelled(s, sender, source, recipient, external, id);
      case RequestWords(sender, p, chain) => TicketActivity(s.base, s.store.commitments, sender, p, chain, id);
      case Fulfil(sender, ref, proof, external) => FulfilCancelled(s, sender, ref.request, proof, external, id);
      case Retry(ref, gasLeft, external) => RetryCancelled(s, ref.request, gasLeft, external, id);
      case Expire(ref, block) => ReleaseFrame(s.base, ClaimOf(ref.request));
      case Prune(_, _) =>
    }
  }

  /** Cancellation is final: through every later run the subscription stays at zero with nothing pending. */
  lemma {:induction false} CancelledForever(s: State, calls: seq<Call>, id: SubId)
    requires Settled(s) && Cancelled(s.base, id)
    ensures Cancelled(Run(s, calls).base, id)
    ensures Sub(Run(s, calls).base, id).balance == 0 && Sub(Run(s, calls).base, id).reserved == 0
    decreases calls
  {
    if calls == [] {
      CancelledIsEmpty(s, id);
    } else {
      var s1 := Exec(s, calls[0]);
      if s1.Some? {
        ExecSettled(s, calls[0]);
        ExecCancelled(s, calls[0], id);
        CancelledForever(s1.value, calls[1..], id);
      } else {
        CancelledForever(s, calls[1..], id);
      }
    }
  }

  // ------------------------------------------------------------------ billing

  lemma MulMonotone(a: nat, b: nat, c: nat, d: nat)
    requires a <= c && b <= d
    ensures a * b <= c * d
  {
    assert a * b <= c * b <= c * d;
  }

  lemma PriceMonotone(cost: nat, limit: nat, premiumBps: nat, minimumFee: nat)
    requires cost <= limit
    ensures ApplyPrice(cost, premiumBps, minimumFee) <= ApplyPrice(limit, premiumBps, minimumFee)
  {
    MulMonotone(cost, MAX_PREMIUM_BPS + premiumBps, limit, MAX_PREMIUM_BPS + premiumBps);
    FloorMonotone(cost * (MAX_PREMIUM_BPS + premiumBps), limit * (MAX_PREMIUM_BPS + premiumBps));
  }

  lemma FloorMonotone(a: nat, b: nat)
    requires a <= b
    ensures a / MAX_PREMIUM_BPS <= b / MAX_PREMIUM_BPS
  {
  }

  /** The reserve is enough: with gas within its limits, a gas price within the lane and an L1 cost within its
      reserve, the charge is at most what was quoted, rounding and minimum fee included. */
  lemma ReserveSuffices(verificationGasLimit: nat, maxGasPriceWei: nat, callbackGasLimit: nat, numWords: nat,
                        premiumBps: nat, waive: bool, c: PricingConfig, proof: Proof)
    requires proof.gasUsed <= verificationGasLimit + callbackGasLimit + c.perWordGas * numWords
    requires proof.gasPrice <= maxGasPriceWei && proof.l1Cost <= c.l1FeeReserveWei
    ensures ApplyPrice(NetworkCost(proof, c.fulfillmentOverheadGas), premiumBps, if waive then 0 else c.minimumRequestFeeWei)
         <= QuotePayment(verificationGasLimit, maxGasPriceWei, callbackGasLimit, numWords, premiumBps, waive, c)
  {
    var gasUnits := verificationGasLimit + callbackGasLimit + c.fulfillmentOverheadGas + c.perWordGas * numWords;
    MulMonotone(proof.gasUsed + c.fulfillmentOverheadGas, proof.gasPrice, gasUnits, maxGasPriceWei);
    PriceMonotone(NetworkCost(proof, c.fulfillmentOverheadGas), gasUnits * maxGasPriceWei + c.l1FeeReserveWei,
                  premiumBps, if waive then 0 else c.minimumRequestFeeWei);
  }

  /** A settlement leaves the sum of all accounts as it was: what the subscription loses, the payee and the
      treasury gain, and the payee gains at least the network cost. */
  lemma SettlementConserves(b: Base, w: Request, proof: Proof)
    requires Settle(b, w, proof).Some?
    ensures var b', cost, charge := Settle(b, w, proof).value, NetworkCost(proof, w.fulfillmentOverheadGas), ChargeOf(w, proof);
      && charge <= w.reservedPayment
      && Sub(b', w.subscriptionId).balance == Sub(b, w.subscriptionId).balance - charge
      && Sub(b', w.subscriptionId).reserved == Sub(b, w.subscriptionId).reserved - w.reservedPayment
      && Credits(b', w.payee) - Credits(b, w.payee) + (b'.treasuryCredits - b.treasuryCredits) == charge
      && cost <= Credits(b', w.payee) - Credits(b, w.payee) <= charge
  {
    ChargeCoversCost(w, proof);
    var b1 := ReleaseClaim(b, ClaimOf(w)).value;
    ReleaseFrame(b, ClaimOf(w));
    PayFrame(b1, w.subscriptionId, w.payee, w.operatorPremiumShareBps, NetworkCost(proof, w.fulfillmentOverheadGas),
             ChargeOf(w, proof));
  }
}
