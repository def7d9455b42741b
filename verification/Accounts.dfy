/** The accounts of a coordinator, one by one: what each subscription, operator and the treasury holds is what its
    own transactions put in and took out, and who may take. */
module Accounts {
  import opened Outcomes
  import opened ServiceBase
  import opened Lifecycle
  import opened Commitments
  import opened Coordinator
  import opened BaseInvariants
  import opened Books
  import opened Solvency
  import opened CoordinatorRuns
  import opened Refinement
  import opened Sequences
  import opened Settlements
  import V2 = StoredRequests

  datatype Account = OfSubscription(id: SubId) | OfOperator(a: Address) | OfTreasury

  function Holding(b: Base, a: Account): int {
    match a
    case OfSubscription(id) => Sub(b, id).balance
    case OfOperator(a) => Credits(b, a)
    case OfTreasury => b.treasuryCredits
  }

  /** The account a withdrawal draws on. */
  function Drawn(sender: Address, source: Source): Account {
    match source
    case Balance(id, _) => OfSubscription(id)
    case Cancellation(id) => OfSubscription(id)
    case OperatorCredits(_) => OfOperator(sender)
    case Treasury(_) => OfTreasury
  }

  function Amount(b: Base, source: Source): int {
    match source
    case Balance(_, amount) => amount
    case Cancellation(id) => Sub(b, id).balance
    case OperatorCredits(amount) => amount
    case Treasury(amount) => amount
  }

  // ------------------------------------------------------------------ withdrawals

  /** Who may take what: an owner the unreserved part of its subscription, or all of it to cancel when nothing is
      reserved; an operator its own credits; the contract's owner the treasury. */
  predicate MayWithdraw(b: Base, sender: Address, source: Source) {
    match source
    case Balance(id, amount) => sender != 0 && Sub(b, id).owner == sender && amount + Sub(b, id).reserved <= Sub(b, id).balance
    case Cancellation(id) => sender != 0 && Sub(b, id).owner == sender && Sub(b, id).reserved == 0
    case OperatorCredits(amount) => amount <= Credits(b, sender)
    case Treasury(amount) => sender == b.owner && amount <= b.treasuryCredits
  }

  lemma DebitExactly(b: Base, sender: Address, source: Source, recipient: Address)
    requires Covered(b)
    ensures Debit(b, sender, source, recipient).Some? <==> recipient != 0 && MayWithdraw(b, sender, source)
    ensures Debit(b, sender, source, recipient).Some? ==>
      var (b', amount) := Debit(b, sender, source, recipient).value;
      amount == Amount(b, source) && Drew(b, b', Drawn(sender, source), amount)
  {
    if source.Balance? {
      assert Sub(b, source.id).reserved <= Sub(b, source.id).balance;
    }
  }

  /** A withdrawal goes through if and only if the sender may take that much and the recipient accepts it. */
  lemma WithdrawExactly(s: State, sender: Address, source: Source, recipient: Address, external: External)
    requires Settled(s)
    ensures Exec(s, Withdraw(sender, source, recipient, external)).Some?
      <==> recipient != 0 && MayWithdraw(s.base, sender, source) && external.success
  {
    DebitExactly(s.base, sender, source, recipient);
    if Debit(s.base, sender, source, recipient).Some? {
      DebitKeeps(s.base, sender, source, recipient, s.store.commitments);
    }
  }

  /** What a withdrawal leaves is what its debit and the transfer left, whatever the recipient called back. */
  lemma WithdrawLeaves(s: State, sender: Address, source: Source, recipient: Address, external: External)
    requires Settled(s) && Exec(s, Withdraw(sender, source, recipient, external)).Some?
    ensures Debit(s.base, sender, source, recipient).Some?
    ensures var (b, amount) := Debit(s.base, sender, source, recipient).value;
      var b' := Exec(s, Withdraw(sender, source, recipient, external)).value.base;
      && b.ether == s.base.ether && amount <= b.ether
      && SameMoney(b.(ether := b.ether - amount, locked := true), b'.(locked := true))
      && StaysCancelled(b, b')
  {
    DebitKeeps(s.base, sender, source, recipient, s.store.commitments);
    var (b, amount) := Debit(s.base, sender, source, recipient).value;
    var b1 := SendEther(b, amount).value;
    LockKeeps(b1, s.store.commitments, None, true);
    CallbackKeeps(Lock(s.(base := b1)), None, external.script);
  }

  /** The account it draws on loses exactly that, and so does the contract's ether; a cancelled subscription closes. */
  lemma WithdrawDraws(s: State, sender: Address, source: Source, recipient: Address, external: External)
    requires Settled(s) && Exec(s, Withdraw(sender, source, recipient, external)).Some?
    ensures var b' := Exec(s, Withdraw(sender, source, recipient, external)).value.base;
      && b'.ether == s.base.ether - Amount(s.base, source)
      && Drew(s.base, b', Drawn(sender, source), Amount(s.base, source))
      && (source.Cancellation? ==> Cancelled(b', source.id))
  {
    WithdrawLeaves(s, sender, source, recipient, external);
    DrawsFrom(s.base, sender, source, recipient, Exec(s, Withdraw(sender, source, recipient, external)).value.base);
  }

  ghost predicate Drew(b: Base, b': Base, a: Account, amount: int) {
    forall x :: Holding(b', x) == Holding(b, x) - if x == a then amount else 0
  }

  lemma DrawsFrom(b0: Base, sender: Address, source: Source, recipient: Address, b': Base)
    requires Covered(b0) && Debit(b0, sender, source, recipient).Some?
    requires var (b, amount) := Debit(b0, sender, source, recipient).value;
      && b.ether == b0.ether && amount <= b.ether
      && SameMoney(b.(ether := b.ether - amount, locked := true), b'.(locked := true)) && StaysCancelled(b, b')
    ensures b'.ether == b0.ether - Amount(b0, source) && Drew(b0, b', Drawn(sender, source), Amount(b0, source))
    ensures source.Cancellation? ==> Cancelled(b', source.id)
  {
    DebitExactly(b0, sender, source, recipient);
    var (b, amount) := Debit(b0, sender, source, recipient).value;
    var b1, b2 := b.(ether := b.ether - amount, locked := true), b'.(locked := true);
    SameHoldings(b1, b2);
    forall x: Account
      ensures Holding(b', x) == Holding(b0, x) - if x == Drawn(sender, source) then Amount(b0, source) else 0
    {
      SameStorage(b, b1, x);
      SameStorage(b', b2, x);
      assert Holding(b2, x) == Holding(b1, x);
    }
    if source.Cancellation? {
      assert source.id in b.subscriptions && !b.subscriptions[source.id].active;
    }
  }

  lemma SameStorage(b: Base, b': Base, x: Account)
    requires b'.subscriptions == b.subscriptions && b'.operatorCredits == b.operatorCredits
    requires b'.treasuryCredits == b.treasuryCredits
    ensures Holding(b', x) == Holding(b, x)
  {
  }

  lemma SameHoldings(b: Base, b': Base)
    requires SameMoney(b, b')
    ensures forall a :: Holding(b', a) == Holding(b, a)
  {
    forall a: Account ensures Holding(b', a) == Holding(b, a) {
      if a.OfSubscription? { assert Sub(b', a.id).balance == Sub(b, a.id).balance; }
    }
  }

  /** Anyone funds an active subscription with any positive amount, and with nothing else. */
  lemma FundExactly(s: State, id: SubId, amount: nat)
    requires Settled(s)
    ensures Exec(s, Fund(id, amount)).Some? <==> Sub(s.base, id).owner != 0 && Sub(s.base, id).active && amount > 0
    ensures Exec(s, Fund(id, amount)).Some? ==>
      var b' := Exec(s, Fund(id, amount)).value.base;
      && b'.ether == s.base.ether + amount
      && forall a :: Holding(b', a) == Holding(s.base, a) + if a == OfSubscription(id) then amount else 0
  {
  }

  // ------------------------------------------------------------------ the ledger

  /** What one accepted transaction may book to an account. */
  ghost predicate Entry(b: Base, c: Call, a: Account, delta: int) {
    match c
    case Fund(id, amount) => delta == if a == OfSubscription(id) then amount else 0
    case Withdraw(sender, source, _, _) => delta == if a == Drawn(sender, source) then -Amount(b, source) else 0
    case Fulfil(_, ByWitness(w), proof, _) => FulfilEntry(w, proof, a, delta)
    case _ => delta == 0
  }

  /** A fulfilment books the charge to the subscription, the payout to the payee and the rest to the treasury. */
  ghost predicate FulfilEntry(w: Request, proof: Proof, a: Account, delta: int) {
    exists charge, gain :: delta == Part(w, charge, gain, a)
      && IsCharge(charge, GasCost(proof, w.fulfillmentOverheadGas), w.premiumBps, w.minimumFeeWei)
      && IsPayout(gain, GasCost(proof, w.fulfillmentOverheadGas), charge, w.operatorPremiumShareBps)
  }

  function Part(w: Request, charge: int, gain: int, a: Account): int {
    match a
    case OfSubscription(id) => if id == w.subscriptionId then -charge else 0
    case OfOperator(o) => if o == w.payee then gain else 0
    case OfTreasury => charge - gain
  }

  lemma MovesPart(b: Base, b': Base, w: Request, charge: int, gain: int, a: Account)
    requires Moves(b, b', w, charge, gain)
    ensures Holding(b', a) == Holding(b, a) + Part(w, charge, gain, a)
  {
  }

  lemma FulfilBooks(s: State, sender: Address, w: Request, proof: Proof, external: External, a: Account)
    requires Settled(s) && Exec(s, Fulfil(sender, ByWitness(w), proof, external)).Some?
    ensures var b' := Exec(s, Fulfil(sender, ByWitness(w), proof, external)).value.base;
      FulfilEntry(w, proof, a, Holding(b', a) - Holding(s.base, a))
  {
    FulfilPays(s, sender, w, proof, external);
    var b' := Exec(s, Fulfil(sender, ByWitness(w), proof, external)).value.base;
    var cost := GasCost(proof, w.fulfillmentOverheadGas);
    var charge, gain :| Moves(s.base, b', w, charge, gain) && charge <= w.reservedPayment
      && IsCharge(charge, cost, w.premiumBps, w.minimumFeeWei) && IsPayout(gain, cost, charge, w.operatorPremiumShareBps);
    MovesPart(s.base, b', w, charge, gain, a);
  }

  lemma CreateBooks(b: Base, t: Table, sender: Address, p: Params, chain: Chain, a: Account)
    requires Commitments.Create(b, t, sender, p, chain).Some?
    ensures Holding(Commitments.Create(b, t, sender, p, chain).value.0, a) == Holding(b, a)
  {
    TicketWrites(b, sender, p, chain);
  }

  lemma ReleaseBooks(b: Base, c: Claim, a: Account)
    requires ReleaseClaim(b, c).Some?
    ensures Holding(ReleaseClaim(b, c).value, a) == Holding(b, a)
  {
    ReleaseFrame(b, c);
  }

  lemma FundBooks(b: Base, id: SubId, amount: nat, a: Account)
    requires FundStep(b, id, amount).Some?
    ensures Holding(FundStep(b, id, amount).value, a) == Holding(b, a) + if a == OfSubscription(id) then amount else 0
  {
  }

  lemma ExecBooks(s: State, c: Call, a: Account)
    requires Settled(s) && Exec(s, c).Some?
    ensures Entry(s.base, c, a, Holding(Exec(s, c).value.base, a) - Holding(s.base, a))
  {
    match c {
      case Admin(sender, op) =>
        AdminKeeps(s.base, sender, op);
        SameHoldings(s.base, AdminStep(s.base, sender, op).value);
      case Fund(id, amount) => FundBooks(s.base, id, amount, a);
      case Withdraw(sender, source, recipient, external) => WithdrawDraws(s, sender, source, recipient, external);
      case RequestWords(sender, p, chain) => CreateBooks(s.base, s.store.commitments, sender, p, chain, a);
      case Fulfil(sender, ref, proof, external) => FulfilBooks(s, sender, ref.request, proof, external, a);
      case Retry(ref, gasLeft, external) =>
        RetryFrame(s, ref.request, gasLeft, external);
        SameHoldings(s.base, Exec(s, c).value.base);
      case Expire(ref, block) => ReleaseBooks(s.base, ClaimOf(ref.request), a);
      case Prune(ref, block) =>
    }
  }

  /** One entry per transaction: a rejected one books nothing. */
  ghost predicate Ledger(s: State, calls: seq<Call>, a: Account, entries: seq<int>)
    decreases calls
  {
    if calls == [] then entries == []
    else
      && entries != []
      && var s1 := Exec(s, calls[0]);
      && (if s1.Some? then Entry(s.base, calls[0], a, entries[0]) else entries[0] == 0)
      && Ledger(if s1.Some? then s1.value else s, calls[1..], a, entries[1..])
  }

  function Itself(): int -> int { (n: int) => n }

  /** In every run each account holds what its entries add up to: a subscription its funding less its charges and
      withdrawals, an operator the payouts of its requests less its withdrawals, the treasury the rest of the charges. */
  lemma {:induction false} AccountsFollowLedger(s: State, calls: seq<Call>, a: Account) returns (entries: seq<int>)
    requires Settled(s)
    ensures Ledger(s, calls, a, entries)
    ensures Holding(Run(s, calls).base, a) == Holding(s.base, a) + Sum(entries, Itself())
    decreases calls
  {
    if calls == [] {
      entries := [];
    } else {
      var s1 := Exec(s, calls[0]);
      var next := if s1.Some? then s1.value else s;
      var delta := Holding(next.base, a) - Holding(s.base, a);
      if s1.Some? {
        ExecSettled(s, calls[0]);
        ExecBooks(s, calls[0], a);
      }
      var rest := AccountsFollowLedger(next, calls[1..], a);
      entries := [delta] + rest;
      LedgerNext(s, calls, a, delta, rest);
    }
  }

  lemma LedgerNext(s: State, calls: seq<Call>, a: Account, delta: int, rest: seq<int>)
    requires calls != []
    requires var s1 := Exec(s, calls[0]);
      && (if s1.Some? then Entry(s.base, calls[0], a, delta) else delta == 0)
      && Ledger(if s1.Some? then s1.value else s, calls[1..], a, rest)
    ensures Ledger(s, calls, a, [delta] + rest)
    ensures Sum([delta] + rest, Itself()) == delta + Sum(rest, Itself())
  {
    assert ([delta] + rest)[1..] == rest;
  }

  /** The same of V2, whose run the V3 run that presents the current witnesses follows. */
  lemma FullAccountsFollowLedger(s: State, calls: seq<Call>, a: Account) returns (entries: seq<int>)
    requires SettledFull(s)
    ensures Ledger(Compacted(s), TranslateRun(s, calls), a, entries)
    ensures Holding(Run(s, calls).base, a) == Holding(s.base, a) + Sum(entries, Itself())
  {
    RunCommutes(s, calls);
    entries := AccountsFollowLedger(Compacted(s), TranslateRun(s, calls), a);
  }
}
