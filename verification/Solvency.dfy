/** The invariant of the coordinator and its proof, step by step and through re-entry. */
module Solvency {
  import opened Outcomes
  import opened ServiceBase
  import opened Lifecycle
  import opened Commitments
  import opened Coordinator
  import opened BaseInvariants
  import opened Books

  ghost predicate Covered(b: Base) { forall id :: Sub(b, id).reserved <= Sub(b, id).balance }

  /** What every stored request satisfies. */
  predicate WellFormed(b: Base, k: RequestId, r: Request) {
    && k == RequestId(r.preSeed) && r.preSeed.consumer == r.consumer
    && r.preSeed.subscriptionId == r.subscriptionId && r.preSeed.keyHash == r.keyHash
    && 1 <= r.preSeed.nonce <= Nonce(b, r.subscriptionId, r.consumer)
    && r.reservedPayment > 0 && r.operatorPremiumShareBps <= MAX_PREMIUM_BPS
    && r.requestBlock + r.confirmations < r.expiresAtBlock <= MAX_UINT64 && r.minimumFeeWei <= r.reservedPayment
    && (r.status == Status.Fulfilled <==> r.callbackAttempts >= 1)
    && (r.status != Status.Fulfilled ==> r.randomness == 0 && !r.callbackSucceeded)
  }

  ghost predicate Recorded(b: Base, t: Table) { forall k :: k in t ==> WellFormed(b, k, t[k].request) }

  ghost predicate InFlight(t: Table, f: Flight) {
    f.Some? ==> f.value in t && t[f.value].request.status == Status.Fulfilled
  }

  ghost predicate Inv(b: Base, t: Table, f: Flight) {
    Sane(b) && Solvent(b) && Covered(b) && Booked(b, t, f) && Recorded(b, t) && InFlight(t, f)
  }

  /** Administration, and so any callback, keeps the invariant. */
  lemma FramedKeeps(b: Base, b': Base, t: Table, f: Flight)
    requires Inv(b, t, f) && Sane(b') && Framed(b, b')
    ensures Inv(b', t, f)
  {
    assert Covered(b');
    assert Booked(b', t, f);
    forall k | k in t
      ensures WellFormed(b', k, t[k].request)
    {
      assert WellFormed(b, k, t[k].request);
    }
  }

  lemma LockKeeps(b: Base, t: Table, f: Flight, locked: bool)
    requires Inv(b, t, f)
    ensures Inv(b.(locked := locked), t, f)
  {
    var b' := b.(locked := locked);
    SaneFrame(b, b');
    assert Covered(b') by {
      forall id
        ensures Sub(b', id).reserved <= Sub(b', id).balance
      {
        assert Sub(b', id) == Sub(b, id);
      }
    }
    assert Booked(b', t, f) by {
      assert Moved(b, None, b', None);
      BookedSame(b, b', t, f);
    }
    forall k | k in t
      ensures WellFormed(b', k, t[k].request)
    {
      assert WellFormed(b, k, t[k].request);
    }
  }

  lemma BookedSame(b: Base, b': Base, t: Table, f: Flight)
    requires Booked(b, t, f)
    requires b'.consumers == b.consumers && b'.sponsors == b.sponsors
    requires forall id :: Sub(b', id).reserved == Sub(b, id).reserved
    ensures Booked(b', t, f)
  {
    assert forall id, a :: Consumer(b', id, a) == Consumer(b, id, a);
    assert forall a :: Sponsor(b', a) == Sponsor(b, a);
  }

  lemma RecordedSame(b: Base, b': Base, t: Table)
    requires Recorded(b, t) && b'.nonces == b.nonces
    ensures Recorded(b', t)
  {
    forall k | k in t
      ensures WellFormed(b', k, t[k].request)
    {
      assert WellFormed(b, k, t[k].request);
    }
  }

  // ------------------------------------------------------------------- money

  lemma FundKeeps(b: Base, id: SubId, amount: nat, t: Table)
    requires Inv(b, t, None) && FundStep(b, id, amount).Some?
    ensures Inv(FundStep(b, id, amount).value, t, None)
  {
    var b' := FundStep(b, id, amount).value;
    SubWritten(b, id, Sub(b', id));
    SaneFrame(b, b');
    BookedSame(b, b', t, None);
    RecordedSame(b, b', t);
    assert Covered(b') by {
      forall i
        ensures Sub(b', i).reserved <= Sub(b', i).balance
      {
        assert Sub(b, i).reserved <= Sub(b, i).balance;
      }
    }
  }

  /** A debit takes out of the books exactly what leaves. */
  lemma DebitOwes(b: Base, sender: Address, source: Source, recipient: Address)
    requires Sane(b) && Covered(b) && Debit(b, sender, source, recipient).Some?
    ensures var (b', amount) := Debit(b, sender, source, recipient).value;
      && SumBalances(b') + SumCredits(b') + b'.treasuryCredits + amount == SumBalances(b) + SumCredits(b) + b.treasuryCredits
      && b'.ether == b.ether && Sane(b') && Covered(b')
  {
    var (b', amount) := Debit(b, sender, source, recipient).value;
    match source {
      case Balance(id, _) => SubWritten(b, id, Sub(b', id));
      case Cancellation(id) => SubWritten(b, id, Sub(b', id));
      case OperatorCredits(n) => CreditWritten(b, sender, Credits(b, sender) - n);
      case Treasury(_) =>
    }
    SaneFrame(b, b');
    forall i
      ensures Sub(b', i).reserved <= Sub(b', i).balance
    {
      assert Sub(b, i).reserved <= Sub(b, i).balance;
    }
  }

  lemma DebitFrame(b: Base, sender: Address, source: Source, recipient: Address)
    requires Debit(b, sender, source, recipient).Some?
    ensures var b' := Debit(b, sender, source, recipient).value.0;
      && b'.consumers == b.consumers && b'.sponsors == b.sponsors && b'.nonces == b.nonces
      && (forall id :: Sub(b', id).reserved == Sub(b, id).reserved)
  {
  }

  /** Solvency pays: a withdrawal the books allow never lacks ether. */
  lemma DebitKeeps(b: Base, sender: Address, source: Source, recipient: Address, t: Table)
    requires Inv(b, t, None) && Debit(b, sender, source, recipient).Some?
    ensures var (b', amount) := Debit(b, sender, source, recipient).value;
      SendEther(b', amount).Some? && Inv(SendEther(b', amount).value, t, None)
  {
    var (b', amount) := Debit(b, sender, source, recipient).value;
    DebitOwes(b, sender, source, recipient);
    DebitFrame(b, sender, source, recipient);
    SumsAreNonnegative(b');
    BookedSame(b, b', t, None);
    RecordedSame(b, b', t);
    EtherSent(b', amount, t);
  }

  lemma EtherSent(b: Base, amount: nat, t: Table)
    requires Sane(b) && Covered(b) && Booked(b, t, None) && Recorded(b, t) && amount <= b.ether
    requires b.ether == SumBalances(b) + SumCredits(b) + b.treasuryCredits + amount
    ensures SendEther(b, amount).Some? && Inv(SendEther(b, amount).value, t, None)
  {
    var b' := SendEther(b, amount).value;
    SaneFrame(b, b');
    BookedSame(b, b', t, None);
    RecordedSame(b, b', t);
    forall i
      ensures Sub(b', i).reserved <= Sub(b', i).balance
    {
      assert Sub(b', i) == Sub(b, i);
    }
  }

  lemma SumsAreNonnegative(b: Base)
    ensures SumBalances(b) >= 0 && SumCredits(b) >= 0
  {
    MapSums.SumNonnegative(b.subscriptions, BalanceWeight());
    MapSums.SumNonnegative(b.operatorCredits, CreditWeight());
  }

  // ----------------------------------------------------------------- pricing

  lemma PriceCoversCost(networkCost: nat, premiumBps: nat, minimumFee: nat)
    ensures networkCost <= ApplyPrice(networkCost, premiumBps, minimumFee)
  {
    assert networkCost * (MAX_PREMIUM_BPS + premiumBps) >= networkCost * MAX_PREMIUM_BPS;
  }

  lemma QuoteIsPositive(key: KeyConfig, callbackGasLimit: nat, numWords: nat, billing: Billing, b: Base)
    requires ValidKey(key)
    ensures QuoteMaxPayment(b, key, callbackGasLimit, numWords, billing) > 0
  {
    var c := b.pricing;
    var gasUnits := key.verificationGasLimit + callbackGasLimit + c.fulfillmentOverheadGas + c.perWordGas * numWords;
    assert gasUnits >= 1;
    assert gasUnits * key.maxGasPriceWei >= 1;
    PriceCoversCost(gasUnits * key.maxGasPriceWei + c.l1FeeReserveWei, billing.premiumBps,
                    if billing.waiveMinimumFee then 0 else c.minimumRequestFeeWei);
  }

  // ---------------------------------------------------------------- creation

  lemma SponsorMoves(x: Base, y: Base, id: SubId, sender: Address, reserve: nat)
    requires y.subscriptions == x.subscriptions && y.consumers == x.consumers
    requires Sponsor(y, sender).pendingRequests == Sponsor(x, sender).pendingRequests + 1
    requires forall a :: a != sender ==> Sponsor(y, a) == Sponsor(x, a)
    ensures Moved(x, Some(Claim(id, sender, false, reserve)), y, Some(Claim(id, sender, true, reserve)))
  {
  }

  /** Only the sponsor's policy is written, and one more request of it is pending. */
  lemma QuotaWrites(b: Base, sender: Address, timestamp: nat)
    requires ConsumeSponsorQuota(b, sender, timestamp).Some?
    ensures var b' := ConsumeSponsorQuota(b, sender, timestamp).value;
      && b' == b.(sponsors := b'.sponsors)
      && Sponsor(b', sender).pendingRequests == Sponsor(b, sender).pendingRequests + 1
      && forall a :: a != sender ==> Sponsor(b', a) == Sponsor(b, a)
  {
  }

  /** What the reservation writes. */
  lemma ReserveWrites(b: Base, id: SubId, sender: Address, reserve: nat)
    ensures var b' := Reserve(b, id, sender, reserve);
      && SameSetup(b, b') && b'.sponsors == b.sponsors && b'.ether == b.ether
      && b'.treasuryCredits == b.treasuryCredits && b'.operatorCredits == b.operatorCredits
      && b'.nonces == b.nonces[(id, sender) := Nonce(b, id, sender) + 1]
      && b'.subscriptions == b.subscriptions[id := Sub(b, id).(reserved := Sub(b, id).reserved + reserve)]
      && b'.consumers == b.consumers[(id, sender) :=
           Consumer(b, id, sender).(pendingRequests := Consumer(b, id, sender).pendingRequests + 1)]
  {
  }

  lemma QuotaMoves(b: Base, sender: Address, timestamp: nat, id: SubId, reserve: nat)
    requires ConsumeSponsorQuota(b, sender, timestamp).Some?
    ensures var b' := ConsumeSponsorQuota(b, sender, timestamp).value;
      && b' == b.(sponsors := b'.sponsors)
      && Moved(Reserve(b, id, sender, reserve), Some(Claim(id, sender, false, reserve)),
               Reserve(b', id, sender, reserve), Some(Claim(id, sender, true, reserve)))
  {
    var b' := ConsumeSponsorQuota(b, sender, timestamp).value;
    QuotaWrites(b, sender, timestamp);
    ReserveSame(b, b', id, sender, reserve);
    SponsorMoves(Reserve(b, id, sender, reserve), Reserve(b', id, sender, reserve), id, sender, reserve);
  }

  /** The reservation does not depend on the sponsors, and does not write them. */
  lemma ReserveSame(b: Base, b': Base, id: SubId, sender: Address, reserve: nat)
    requires b' == b.(sponsors := b'.sponsors)
    ensures var (x, y) := (Reserve(b, id, sender, reserve), Reserve(b', id, sender, reserve));
      && y.subscriptions == x.subscriptions && y.consumers == x.consumers
      && forall a :: Sponsor(x, a) == Sponsor(b, a) && Sponsor(y, a) == Sponsor(b', a)
  {
    ReserveWrites(b, id, sender, reserve);
    ReserveWrites(b', id, sender, reserve);
    assert Sub(b', id) == Sub(b, id) && Consumer(b', id, sender) == Consumer(b, id, sender);
  }

  lemma ReserveMoves(b: Base, id: SubId, sender: Address, reserve: nat)
    ensures Moved(b, None, Reserve(b, id, sender, reserve), Some(Claim(id, sender, false, reserve)))
  {
  }

  lemma MovedTransitive(a: Base, ca: Option<Claim>, b: Base, cb: Option<Claim>, c: Base, cc: Option<Claim>)
    requires Moved(a, ca, b, cb) && Moved(b, cb, c, cc)
    ensures Moved(a, ca, c, cc)
  {
  }

  /** A ticket enters exactly its claim in the books. */
  lemma TicketMoves(b: Base, sender: Address, p: Params, chain: Chain)
    requires TakeTicket(b, sender, p, chain).Some?
    ensures var k := TakeTicket(b, sender, p, chain).value;
      Moved(b, None, k.base, Some(Claim(k.billing.subscriptionId, sender, k.billing.sponsored, k.reserve)))
  {
    var k := TakeTicket(b, sender, p, chain).value;
    var id := k.billing.subscriptionId;
    ReserveMoves(b, id, sender, k.reserve);
    if k.billing.sponsored {
      QuotaMoves(b, sender, chain.timestamp, id, k.reserve);
      MovedTransitive(b, None, Reserve(b, id, sender, k.reserve), Some(Claim(id, sender, false, k.reserve)),
                      k.base, Some(Claim(id, sender, true, k.reserve)));
    }
  }

  /** What requestRandomWords writes. */
  lemma TicketWrites(b: Base, sender: Address, p: Params, chain: Chain)
    requires TakeTicket(b, sender, p, chain).Some?
    ensures var k := TakeTicket(b, sender, p, chain).value;
      && Admit(b, sender, p, chain) == Some((k.billing, k.reserve))
      && SameSetup(b, k.base) && k.base.ether == b.ether && k.base.treasuryCredits == b.treasuryCredits
      && k.base.operatorCredits == b.operatorCredits
      && k.preSeed == Seed(sender, k.billing.subscriptionId, Nonce(b, k.billing.subscriptionId, sender) + 1, p.keyHash)
      && k.base.nonces == b.nonces[(k.billing.subscriptionId, sender) := k.preSeed.nonce]
      && k.base.subscriptions == b.subscriptions[k.billing.subscriptionId :=
           Sub(b, k.billing.subscriptionId).(reserved := Sub(b, k.billing.subscriptionId).reserved + k.reserve)]
      && chain.block + b.pricing.requestTimeoutBlocks <= MAX_UINT64
  {
    var k := TakeTicket(b, sender, p, chain).value;
    var id := k.billing.subscriptionId;
    var b1 := if k.billing.sponsored then ConsumeSponsorQuota(b, sender, chain.timestamp).value else b;
    if k.billing.sponsored {
      QuotaWrites(b, sender, chain.timestamp);
    }
    assert k.base == Reserve(b1, id, sender, k.reserve);
    ReserveWrites(b1, id, sender, k.reserve);
    assert Sub(b1, id) == Sub(b, id) && Nonce(b1, id, sender) == Nonce(b, id, sender);
  }

  lemma AdmitFacts(b: Base, sender: Address, p: Params, chain: Chain)
    requires Sane(b) && Admit(b, sender, p, chain).Some?
    ensures var (billing, reserve) := Admit(b, sender, p, chain).value;
      && reserve > 0 && p.keyHash in b.keys
      && Exists(b, billing.subscriptionId) && Sub(b, billing.subscriptionId).active
      && Sub(b, billing.subscriptionId).reserved + reserve <= Sub(b, billing.subscriptionId).balance
  {
    var (billing, reserve) := Admit(b, sender, p, chain).value;
    QuoteIsPositive(b.keys[p.keyHash], p.callbackGasLimit, p.numWords, billing, b);
  }

  lemma TicketKeepsBase(b: Base, sender: Address, p: Params, chain: Chain)
    requires Sane(b) && Solvent(b) && Covered(b) && TakeTicket(b, sender, p, chain).Some?
    ensures var b' := TakeTicket(b, sender, p, chain).value.base;
      Sane(b') && Solvent(b') && Covered(b')
  {
    var k := TakeTicket(b, sender, p, chain).value;
    var id := k.billing.subscriptionId;
    TicketWrites(b, sender, p, chain);
    AdmitFacts(b, sender, p, chain);
    SubWritten(b, id, Sub(k.base, id));
    assert SumBalances(k.base) == SumBalances(WithSub(b, id, Sub(k.base, id)));
    SaneFrame(b, k.base);
    forall i
      ensures Sub(k.base, i).reserved <= Sub(k.base, i).balance
    {
      assert Sub(b, i).reserved <= Sub(b, i).balance;
    }
  }

  /** Nonces only grow, so a new id was never used before. */
  lemma FreshId(b: Base, t: Table, seed: Seed)
    requires Recorded(b, t) && seed.nonce > Nonce(b, seed.subscriptionId, seed.consumer)
    ensures RequestId(seed) !in t
  {
    assert forall k :: k in t ==> WellFormed(b, k, t[k].request);
  }

  /** Storing a well-formed request keeps the table well formed, whatever nonce grew. */
  lemma RecordedPersist(b: Base, b': Base, t: Table, w: Request)
    requires Recorded(b, t) && WellFormed(b', RequestId(w.preSeed), w)
    requires forall id, a :: Nonce(b, id, a) <= Nonce(b', id, a)
    ensures Recorded(b', Persist(t, w))
  {
    var t' := Persist(t, w);
    forall j | j in t'
      ensures WellFormed(b', j, t'[j].request)
    {
      if j != RequestId(w.preSeed) {
        assert WellFormed(b, j, t[j].request);
        assert Nonce(b, t[j].request.subscriptionId, t[j].request.consumer)
            <= Nonce(b', t[j].request.subscriptionId, t[j].request.consumer);
      }
    }
  }

  /** The request that creation stores. */
  lemma NewRequest(b: Base, t: Table, sender: Address, p: Params, chain: Chain)
    requires Sane(b) && Commitments.Create(b, t, sender, p, chain).Some?
    ensures var k := TakeTicket(b, sender, p, chain).value;
      var (b', t') := Commitments.Create(b, t, sender, p, chain).value;
      && b' == k.base && RequestId(k.preSeed) in t'
      && t' == Persist(t, t'[RequestId(k.preSeed)].request)
      && var w := t'[RequestId(k.preSeed)].request;
      && ClaimOf(w) == Claim(k.billing.subscriptionId, sender, k.billing.sponsored, k.reserve)
      && w.preSeed == k.preSeed && w.status == Pending && WellFormed(k.base, RequestId(k.preSeed), w)
  {
    TicketWrites(b, sender, p, chain);
    AdmitFacts(b, sender, p, chain);
  }

  lemma CreateKeeps(b: Base, t: Table, sender: Address, p: Params, chain: Chain)
    requires Inv(b, t, None) && Commitments.Create(b, t, sender, p, chain).Some?
    ensures var (b', t') := Commitments.Create(b, t, sender, p, chain).value;
      Inv(b', t', None)
  {
    var k := TakeTicket(b, sender, p, chain).value;
    var id := RequestId(k.preSeed);
    NewRequest(b, t, sender, p, chain);
    var t' := Commitments.Create(b, t, sender, p, chain).value.1;
    var w := t'[id].request;
    TicketKeepsBase(b, sender, p, chain);
    TicketWrites(b, sender, p, chain);
    TicketMoves(b, sender, p, chain);
    EnterKeeps(b, t, k.base, w);
  }

  /** A new live request under a fresh id, with its claim entered in the books. */
  lemma EnterKeeps(b: Base, t: Table, b': Base, w: Request)
    requires Inv(b, t, None) && Sane(b') && Solvent(b') && Covered(b')
    requires w.status == Pending && WellFormed(b', RequestId(w.preSeed), w)
    requires Moved(b, None, b', Some(ClaimOf(w)))
    requires w.preSeed.nonce == Nonce(b, w.subscriptionId, w.consumer) + 1
    requires b'.nonces == b.nonces[(w.subscriptionId, w.consumer) := w.preSeed.nonce]
    ensures Inv(b', Persist(t, w), None)
  {
    FreshId(b, t, w.preSeed);
    BookedMoves(b, t, None, b', Persist(t, w), None, RequestId(w.preSeed));
    RecordedPersist(b, b', t, w);
  }

  // ------------------------------------------------------- one stored request changes

  /** A new version of a request that holds the same claim. */
  lemma RewriteKeeps(b: Base, t: Table, f: Flight, w: Request, w': Request, f': Flight)
    requires Inv(b, t, f) && Authenticates(t, w) && w'.preSeed == w.preSeed
    requires FlightsAgreeOff(RequestId(w.preSeed), f, f') && InFlight(Persist(t, w'), f')
    requires ClaimAt(t, RequestId(w.preSeed), f) == ClaimAt(Persist(t, w'), RequestId(w.preSeed), f')
    requires WellFormed(b, RequestId(w.preSeed), w')
    ensures Inv(b, Persist(t, w'), f')
  {
    var k := RequestId(w.preSeed);
    var t' := Persist(t, w');
    assert Moved(b, ClaimAt(t, k, f), b, ClaimAt(t', k, f'));
    BookedMoves(b, t, f, b, t', f', k);
    forall j | j in t'
      ensures WellFormed(b, j, t'[j].request)
    {
      assert j != k ==> WellFormed(b, j, t[j].request);
    }
  }

  lemma BeginFulfilKeeps(b: Base, t: Table, w: Request, sender: Address, proof: Proof)
    requires Inv(b, t, None) && Commitments.BeginFulfil(t, w, sender, proof).Some?
    ensures Inv(b, Commitments.BeginFulfil(t, w, sender, proof).value, Some(RequestId(w.preSeed)))
  {
    var k := RequestId(w.preSeed);
    assert WellFormed(b, k, t[k].request);
    RewriteKeeps(b, t, None, w, Verified(w, proof.output.value), Some(k));
  }

  lemma BeginRetryKeeps(b: Base, t: Table, w: Request, gasLeft: nat)
    requires Inv(b, t, None) && Commitments.BeginRetry(t, w, gasLeft).Some?
    ensures Inv(b, Commitments.BeginRetry(t, w, gasLeft).value, None)
  {
    var k := RequestId(w.preSeed);
    assert WellFormed(b, k, t[k].request);
    RewriteKeeps(b, t, None, w, w.(callbackAttempts := w.callbackAttempts + 1), None);
  }

  lemma SucceedKeeps(b: Base, t: Table, w: Request, f: Flight)
    requires Inv(b, t, f) && Authenticates(t, w) && w.status == Status.Fulfilled
    ensures Inv(b, Persist(t, w.(callbackSucceeded := true)), f)
  {
    assert WellFormed(b, RequestId(w.preSeed), w);
    RewriteKeeps(b, t, f, w, w.(callbackSucceeded := true), f);
  }

  // ------------------------------------------------------------- release and payment

  lemma ReleaseSane(b: Base, c: Claim)
    requires Sane(b) && Solvent(b) && ReleaseClaim(b, c).Some? && c.subscriptionId in b.subscriptions
    ensures Sane(ReleaseClaim(b, c).value) && Solvent(ReleaseClaim(b, c).value)
  {
    var b' := ReleaseClaim(b, c).value;
    ReleaseFrame(b, c);
    SubWritten(b, c.subscriptionId, Sub(b', c.subscriptionId));
    assert SumBalances(b') == SumBalances(WithSub(b, c.subscriptionId, Sub(b', c.subscriptionId)));
    SaneFrame(b, b');
  }

  lemma ReleaseShrinks(b: Base, c: Claim)
    requires Covered(b) && ReleaseClaim(b, c).Some?
    ensures forall id :: Sub(ReleaseClaim(b, c).value, id).reserved + ReserveShare(Some(c), id)
                      <= Sub(ReleaseClaim(b, c).value, id).balance
  {
    var b' := ReleaseClaim(b, c).value;
    ReleaseFrame(b, c);
    forall id
      ensures Sub(b', id).reserved + ReserveShare(Some(c), id) <= Sub(b', id).balance
    {
      assert Sub(b, id).reserved <= Sub(b, id).balance;
    }
  }

  /** Releasing a live claim always succeeds. */
  lemma ReleaseLive(b: Base, t: Table, f: Flight, k: RequestId)
    requires Inv(b, t, f) && ClaimAt(t, k, f).Some?
    ensures var c := ClaimAt(t, k, f).value;
      && ReleaseClaim(b, c).Some?
      && Sane(ReleaseClaim(b, c).value) && Solvent(ReleaseClaim(b, c).value)
      && Sub(b, c.subscriptionId).active && c.subscriptionId in b.subscriptions
      && (forall id :: Sub(ReleaseClaim(b, c).value, id).reserved + ReserveShare(Some(c), id)
                    <= Sub(ReleaseClaim(b, c).value, id).balance)
  {
    var c := ClaimAt(t, k, f).value;
    ClaimIsBooked(b, t, f, k);
    assert WellFormed(b, k, t[k].request);
    assert Sub(b, c.subscriptionId).balance >= Sub(b, c.subscriptionId).reserved > 0;
    ReleaseSane(b, c);
    ReleaseShrinks(b, c);
  }

  /** After a claim is released and its request left the live ones, the books agree again. */
  lemma LeaveKeeps(b: Base, t: Table, f: Flight, t': Table, k: RequestId)
    requires Inv(b, t, f) && ClaimAt(t, k, f).Some? && (f == None || f == Some(k))
    requires t - {k} == t' - {k} && ClaimAt(t', k, None) == None
    ensures ReleaseClaim(b, ClaimAt(t, k, f).value).Some?
    ensures Booked(ReleaseClaim(b, ClaimAt(t, k, f).value).value, t', None)
  {
    var c := ClaimAt(t, k, f).value;
    ReleaseLive(b, t, f, k);
    ReleaseMoves(b, c);
    BookedMoves(b, t, f, ReleaseClaim(b, c).value, t', None, k);
  }

  lemma ReleaseCovers(b: Base, t: Table, f: Flight, k: RequestId)
    requires Inv(b, t, f) && ClaimAt(t, k, f).Some?
    ensures ReleaseClaim(b, ClaimAt(t, k, f).value).Some? && Covered(ReleaseClaim(b, ClaimAt(t, k, f).value).value)
  {
    var c := ClaimAt(t, k, f).value;
    ReleaseLive(b, t, f, k);
    var b' := ReleaseClaim(b, c).value;
    forall id
      ensures Sub(b', id).reserved <= Sub(b', id).balance
    {
      assert Sub(b', id).reserved + ReserveShare(Some(c), id) <= Sub(b', id).balance;
    }
  }

  /** An expired request can always be closed, and closing it keeps the books. */
  lemma ExpireKeeps(b: Base, t: Table, w: Request, block: nat)
    requires Inv(b, t, None) && Authenticates(t, w) && w.status == Pending && block > w.expiresAtBlock
    ensures Commitments.Expire(b, t, w, block).Some?
    ensures var (b', t') := Commitments.Expire(b, t, w, block).value;
      Inv(b', t', None)
  {
    var k := RequestId(w.preSeed);
    var w' := w.(status := Expired);
    assert ClaimAt(t, k, None) == Some(ClaimOf(w));
    assert WellFormed(b, k, w);
    LeaveKeeps(b, t, None, Persist(t, w'), k);
    ReleaseCovers(b, t, None, k);
    ReleaseLive(b, t, None, k);
    ReleaseFrame(b, ClaimOf(w));
    RecordedPersist(b, ReleaseClaim(b, ClaimOf(w)).value, t, w');
  }

  /** A charge within what the subscription has is paid in full, to the payee and the treasury. */
  lemma PayKeeps(b: Base, id: SubId, payee: Address, shareBps: nat, networkCost: nat, charge: nat)
    requires Sane(b) && Solvent(b) && id in b.subscriptions && Sub(b, id).active
    requires Pay(b, id, payee, shareBps, networkCost, charge).Some?
    ensures var b' := Pay(b, id, payee, shareBps, networkCost, charge).value;
      Sane(b') && Solvent(b') && b'.ether == b.ether
  {
    var b' := Pay(b, id, payee, shareBps, networkCost, charge).value;
    SubWritten(b, id, Sub(b', id));
    CreditWritten(b, payee, Credits(b', payee));
    SaneFrame(b, b');
  }

  lemma PayFrame(b: Base, id: SubId, payee: Address, shareBps: nat, networkCost: nat, charge: nat)
    requires Pay(b, id, payee, shareBps, networkCost, charge).Some?
    ensures var b' := Pay(b, id, payee, shareBps, networkCost, charge).value;
      && b'.consumers == b.consumers && b'.sponsors == b.sponsors && b'.nonces == b.nonces
      && charge <= Sub(b, id).balance
      && b'.subscriptions == b.subscriptions[id := Sub(b, id).(balance := Sub(b, id).balance - charge)]
      && networkCost <= OperatorPayment(networkCost, charge, shareBps) <= charge
      && Credits(b', payee) == Credits(b, payee) + OperatorPayment(networkCost, charge, shareBps)
      && b'.treasuryCredits == b.treasuryCredits + charge - OperatorPayment(networkCost, charge, shareBps)
  {
    assert (charge - networkCost) * shareBps >= 0;
  }

  function ChargeOf(w: Request, proof: Proof): nat {
    ApplyPrice(NetworkCost(proof, w.fulfillmentOverheadGas), w.premiumBps, w.minimumFeeWei)
  }

  lemma FinishFulfilKeeps(b: Base, t: Table, w: Request, success: bool, proof: Proof)
    requires w.status == Pending && proof.output.Some?
    requires Authenticates(t, Verified(w, proof.output.value))
    requires Inv(b, t, Some(RequestId(w.preSeed))) && Commitments.FinishFulfil(b, t, w, success, proof).Some?
    ensures var (b', t') := Commitments.FinishFulfil(b, t, w, success, proof).value;
      Inv(b', t', None)
  {
    var k := RequestId(w.preSeed);
    var updated := Verified(w, proof.output.value);
    var t' := if success then Persist(t, updated.(callbackSucceeded := true)) else t;
    if success {
      SucceedKeeps(b, t, updated, Some(k));
    }
    assert Inv(b, t', Some(k));
    SettleKeeps(b, t', w, proof, k);
  }

  /** The released base of a settlement. */
  lemma SettleReleases(b: Base, t: Table, w: Request, k: RequestId)
    requires Inv(b, t, Some(k)) && ClaimAt(t, k, Some(k)) == Some(ClaimOf(w))
    ensures ReleaseClaim(b, ClaimOf(w)).Some?
    ensures var b1 := ReleaseClaim(b, ClaimOf(w)).value;
      && Sane(b1) && Solvent(b1) && Booked(b1, t, None) && Recorded(b1, t)
      && w.subscriptionId in b1.subscriptions && Sub(b1, w.subscriptionId).active
      && (forall id :: Sub(b1, id).reserved + ReserveShare(Some(ClaimOf(w)), id) <= Sub(b1, id).balance)
  {
    ReleaseLive(b, t, Some(k), k);
    LeaveKeeps(b, t, Some(k), t, k);
    ReleaseFrame(b, ClaimOf(w));
    RecordedSame(b, ReleaseClaim(b, ClaimOf(w)).value, t);
  }

  /** Settlement closes the flight: the reserve is given back and the charge moved, on the same ether. */
  lemma SettleKeeps(b: Base, t: Table, w: Request, proof: Proof, k: RequestId)
    requires Inv(b, t, Some(k)) && ClaimAt(t, k, Some(k)) == Some(ClaimOf(w)) && Settle(b, w, proof).Some?
    ensures Inv(Settle(b, w, proof).value, t, None)
  {
    SettleReleases(b, t, w, k);
    var b1 := ReleaseClaim(b, ClaimOf(w)).value;
    PaidKeeps(b1, t, w, NetworkCost(proof, w.fulfillmentOverheadGas), ChargeOf(w, proof));
  }

  lemma PaidKeeps(b: Base, t: Table, w: Request, cost: nat, charge: nat)
    requires Sane(b) && Solvent(b) && Booked(b, t, None) && Recorded(b, t)
    requires w.subscriptionId in b.subscriptions && Sub(b, w.subscriptionId).active && charge <= w.reservedPayment
    requires forall id :: Sub(b, id).reserved + ReserveShare(Some(ClaimOf(w)), id) <= Sub(b, id).balance
    requires Pay(b, w.subscriptionId, w.payee, w.operatorPremiumShareBps, cost, charge).Some?
    ensures Inv(Pay(b, w.subscriptionId, w.payee, w.operatorPremiumShareBps, cost, charge).value, t, None)
  {
    PayKeeps(b, w.subscriptionId, w.payee, w.operatorPremiumShareBps, cost, charge);
    PayFrame(b, w.subscriptionId, w.payee, w.operatorPremiumShareBps, cost, charge);
    var b' := Pay(b, w.subscriptionId, w.payee, w.operatorPremiumShareBps, cost, charge).value;
    BookedSame(b, b', t, None);
    RecordedSame(b, b', t);
    SettleCovers(b, b', ClaimOf(w), charge);
  }

  lemma SettleCovers(b: Base, b': Base, c: Claim, charge: nat)
    requires forall id :: Sub(b, id).reserved + ReserveShare(Some(c), id) <= Sub(b, id).balance
    requires charge <= c.reserve && charge <= Sub(b, c.subscriptionId).balance
    requires b'.subscriptions
          == b.subscriptions[c.subscriptionId := Sub(b, c.subscriptionId).(balance := Sub(b, c.subscriptionId).balance - charge)]
    ensures Covered(b')
  {
    forall id
      ensures Sub(b', id).reserved <= Sub(b', id).balance
    {
      assert Sub(b, id).reserved + ReserveShare(Some(c), id) <= Sub(b, id).balance;
    }
  }

  lemma PruneKeeps(b: Base, t: Table, w: Request, block: nat)
    requires Inv(b, t, None) && Commitments.Prune(t, w, block).Some?
    ensures Inv(b, Commitments.Prune(t, w, block).value, None)
  {
    var k := RequestId(w.preSeed);
    var t' := Commitments.Prune(t, w, block).value;
    assert t' - {k} == t - {k};
    assert Moved(b, None, b, None);
    BookedMoves(b, t, None, b, t', None, k);
    forall j | j in t'
      ensures WellFormed(b, j, t'[j].request)
    {
      assert WellFormed(b, j, t[j].request);
    }
  }
}
