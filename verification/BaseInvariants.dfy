/** What every administration call keeps, and so what a callback cannot disturb. */
module BaseInvariants {
  import opened Outcomes
  import opened MapSums
  import opened ServiceBase
  import opened Lifecycle
  import opened Coordinator

  // ------------------------------------------------------------ what is kept

  /** The current versions mirror `pricing` and `s_keys`, and version numbers only grow. */
  ghost predicate Mirrors(b: Base) {
    && b.pricingVersion in b.pricingVersions && b.pricingVersions[b.pricingVersion] == b.pricing
    && (forall v :: v in b.pricingVersions ==> v <= b.pricingVersion)
    && (forall v :: v in b.keyVersions ==> v <= b.nextKeyVersion)
    && forall kh :: kh in b.keys ==> Mirrored(b, kh)
  }

  predicate Mirrored(b: Base, kh: KeyHash)
    requires kh in b.keys
  {
    && kh in b.currentKeyVersions && b.currentKeyVersions[kh] in b.keyVersions
    && b.keyVersions[b.currentKeyVersions[kh]] == VersionOf(kh, b.keys[kh])
  }

  predicate ValidKey(k: KeyConfig) {
    k.maxGasPriceWei > 0 && MIN_VERIFICATION_GAS_LIMIT <= k.verificationGasLimit <= MAX_VERIFICATION_GAS_LIMIT
  }

  /** Subscription ids are handed out in order, and a cancelled subscription is empty. */
  ghost predicate OrderlySubscriptions(b: Base) {
    && 1 <= b.nextSubscriptionId
    && (forall id :: id in b.subscriptions ==> 1 <= id < b.nextSubscriptionId)
    && (forall id :: id in b.subscriptions && !b.subscriptions[id].active ==> b.subscriptions[id].balance == 0)
  }

  ghost predicate Sane(b: Base) {
    Mirrors(b) && ValidPricing(b.pricing) && (forall kh :: kh in b.keys ==> ValidKey(b.keys[kh])) && OrderlySubscriptions(b)
  }

  ghost function BalanceWeight(): (SubId, Subscription) -> int { (id, s: Subscription) => s.balance }

  ghost function CreditWeight(): (Address, nat) -> int { (a, n) => n }

  ghost function SumBalances(b: Base): int { SumMap(b.subscriptions, BalanceWeight()) }

  ghost function SumCredits(b: Base): int { SumMap(b.operatorCredits, CreditWeight()) }

  ghost predicate Solvent(b: Base) { b.ether == SumBalances(b) + SumCredits(b) + b.treasuryCredits }

  // ------------------------------------------------- what administration leaves alone

  ghost predicate SameMoney(b: Base, b': Base) {
    && b'.ether == b.ether && b'.treasuryCredits == b.treasuryCredits && b'.operatorCredits == b.operatorCredits
    && b'.nonces == b.nonces && b'.locked == b.locked && SumBalances(b') == SumBalances(b)
    && forall id :: Sub(b', id).balance == Sub(b, id).balance && Sub(b', id).reserved == Sub(b, id).reserved
  }

  ghost predicate SameCounts(b: Base, b': Base) {
    && (forall id, a :: Consumer(b', id, a).pendingRequests == Consumer(b, id, a).pendingRequests)
    && (forall a :: Sponsor(b', a).pendingRequests == Sponsor(b, a).pendingRequests)
  }

  ghost predicate StaysCancelled(b: Base, b': Base) {
    && (forall id :: id in b.subscriptions ==> id in b'.subscriptions)
    && (forall id :: id in b.subscriptions && !b.subscriptions[id].active ==> !Sub(b', id).active)
  }

  /** Versions are append-only. */
  ghost predicate Extends(b: Base, b': Base) {
    && (forall v :: v in b.pricingVersions ==> v in b'.pricingVersions && b'.pricingVersions[v] == b.pricingVersions[v])
    && (forall v :: v in b.keyVersions ==> v in b'.keyVersions && b'.keyVersions[v] == b.keyVersions[v])
  }

  ghost predicate Framed(b: Base, b': Base) {
    SameMoney(b, b') && SameCounts(b, b') && StaysCancelled(b, b') && Extends(b, b')
  }

  lemma SubWritten(b: Base, id: SubId, s: Subscription)
    ensures SumBalances(WithSub(b, id, s)) == SumBalances(b) - Sub(b, id).balance + s.balance
  {
    SumUpdate(b.subscriptions, BalanceWeight(), id, s);
  }

  lemma CreditWritten(b: Base, a: Address, n: nat)
    ensures SumMap(b.operatorCredits[a := n], CreditWeight()) == SumCredits(b) - Credits(b, a) + n
  {
    SumUpdate(b.operatorCredits, CreditWeight(), a, n);
  }

  /** Only the listed parts of storage were written, and the written subscription kept its money. */
  lemma SubFramed(b: Base, id: SubId, s: Subscription, b': Base)
    requires s.balance == Sub(b, id).balance && s.reserved == Sub(b, id).reserved
    requires id in b.subscriptions ==> s.active == Sub(b, id).active
    requires b'.subscriptions == b.subscriptions[id := s]
    requires b'.ether == b.ether && b'.treasuryCredits == b.treasuryCredits && b'.operatorCredits == b.operatorCredits
    requires b'.nonces == b.nonces && b'.locked == b.locked
    ensures SameMoney(b, b') && StaysCancelled(b, b')
  {
    SubWritten(b, id, s);
  }

  lemma AppendKeyKeeps(b: Base, kh: KeyHash, k: KeyConfig)
    requires Sane(b) && ValidKey(k)
    ensures Sane(AppendKey(b, kh, k)) && Extends(b, AppendKey(b, kh, k))
  {
    var b' := AppendKey(b, kh, k);
    forall h | h in b'.keys
      ensures Mirrored(b', h) && ValidKey(b'.keys[h])
    {
      assert h != kh ==> Mirrored(b, h);
    }
  }

  lemma AppendPricingKeeps(b: Base, c: PricingConfig)
    requires Sane(b) && ValidPricing(c)
    ensures Sane(AppendPricing(b, c)) && Extends(b, AppendPricing(b, c))
  {
    var b' := AppendPricing(b, c);
    forall h | h in b'.keys
      ensures Mirrored(b', h)
    {
      assert Mirrored(b, h);
    }
  }

  /** Sane reads only these fields. */
  lemma SaneFrame(b: Base, b': Base)
    requires Sane(b)
    requires b'.keys == b.keys && b'.pricing == b.pricing && b'.pricingVersion == b.pricingVersion
    requires b'.pricingVersions == b.pricingVersions && b'.nextKeyVersion == b.nextKeyVersion
    requires b'.keyVersions == b.keyVersions && b'.currentKeyVersions == b.currentKeyVersions
    requires OrderlySubscriptions(b')
    ensures Sane(b')
  {
    forall h | h in b'.keys
      ensures Mirrored(b', h)
    {
      assert Mirrored(b, h);
    }
  }

  predicate IsKeyCall(op: AdminCall) {
    op.SetPricing? || op.RegisterKey? || op.SetKeyActive? || op.SetKeyService?
  }

  /** No money, no slot and no subscription was written. */
  lemma Untouched(b: Base, b': Base)
    requires b'.subscriptions == b.subscriptions && b'.consumers == b.consumers && b'.sponsors == b.sponsors
    requires b'.ether == b.ether && b'.treasuryCredits == b.treasuryCredits && b'.operatorCredits == b.operatorCredits
    requires b'.nonces == b.nonces && b'.locked == b.locked
    ensures SameMoney(b, b') && SameCounts(b, b') && StaysCancelled(b, b')
  {
  }

  lemma ActivationKeeps(b: Base, kh: KeyHash, active: bool)
    requires Sane(b) && kh in b.keys
    ensures var b' := b.(keys := b.keys[kh := b.keys[kh].(active := active)]);
      Sane(b') && Extends(b, b')
  {
    var b' := b.(keys := b.keys[kh := b.keys[kh].(active := active)]);
    forall h | h in b'.keys
      ensures Mirrored(b', h) && ValidKey(b'.keys[h])
    {
      assert Mirrored(b, h) && ValidKey(b.keys[h]);
    }
  }

  lemma KeyCallKeeps(b: Base, sender: Address, op: AdminCall)
    requires Sane(b) && IsKeyCall(op) && AdminStep(b, sender, op).Some?
    ensures Sane(AdminStep(b, sender, op).value) && Framed(b, AdminStep(b, sender, op).value)
  {
    match op {
      case SetPricing(config) =>
        AppendPricingKeeps(b, config);
        Untouched(b, AppendPricing(b, config));
      case RegisterKey(kh, verifier, info, fulfiller, payee, price, gas) =>
        var k := KeyConfig(verifier, info.codeHash, fulfiller, payee, price, gas, info.proofLength, true);
        AppendKeyKeeps(b, kh, k);
        Untouched(b, AppendKey(b, kh, k));
      case SetKeyActive(kh, active) =>
        ActivationKeeps(b, kh, active);
        Untouched(b, b.(keys := b.keys[kh := b.keys[kh].(active := active)]));
      case SetKeyService(kh, fulfiller, payee, price, gas) =>
        var k := b.keys[kh].(fulfiller := fulfiller, payee := payee, maxGasPriceWei := price, verificationGasLimit := gas);
        AppendKeyKeeps(b, kh, k);
        Untouched(b, AppendKey(b, kh, k));
    }
  }

  predicate IsSubscriptionCall(op: AdminCall) {
    op.CreateSubscription? || op.RequestOwnerTransfer? || op.AcceptOwnerTransfer? || op.AddConsumer? || op.RemoveConsumer?
  }

  function SubscriptionOf(b: Base, op: AdminCall): SubId
    requires IsSubscriptionCall(op)
  {
    match op
    case CreateSubscription => b.nextSubscriptionId
    case RequestOwnerTransfer(id, _) => id
    case AcceptOwnerTransfer(id) => id
    case AddConsumer(id, _, _, _, _) => id
    case RemoveConsumer(id, _) => id
  }

  /** The one subscription such a call writes, and what it writes there. */
  lemma SubscriptionCallWrites(b: Base, sender: Address, op: AdminCall)
    requires OrderlySubscriptions(b) && IsSubscriptionCall(op) && AdminStep(b, sender, op).Some?
    ensures var b', id := AdminStep(b, sender, op).value, SubscriptionOf(b, op);
      && b'.subscriptions == b.subscriptions[id := Sub(b', id)]
      && Sub(b', id).balance == Sub(b, id).balance && Sub(b', id).reserved == Sub(b, id).reserved
      && (id in b.subscriptions ==> Sub(b', id).active == Sub(b, id).active)
      && (id in b.subscriptions || (op.CreateSubscription? && Sub(b', id).active))
      && b'.nextSubscriptionId >= b.nextSubscriptionId && 1 <= id < b'.nextSubscriptionId
  {
  }

  lemma SubscriptionCallCounts(b: Base, sender: Address, op: AdminCall)
    requires IsSubscriptionCall(op) && AdminStep(b, sender, op).Some?
    ensures SameCounts(b, AdminStep(b, sender, op).value) && Extends(b, AdminStep(b, sender, op).value)
  {
  }

  lemma SubscriptionCallKeeps(b: Base, sender: Address, op: AdminCall)
    requires Sane(b) && IsSubscriptionCall(op) && AdminStep(b, sender, op).Some?
    ensures Sane(AdminStep(b, sender, op).value) && Framed(b, AdminStep(b, sender, op).value)
  {
    var b', id := AdminStep(b, sender, op).value, SubscriptionOf(b, op);
    SubscriptionCallWrites(b, sender, op);
    SubscriptionCallCounts(b, sender, op);
    SubFramed(b, id, Sub(b', id), b');
    SaneFrame(b, b');
  }

  /** Calls that write the contract's officers or its pause flag and nothing else. */
  predicate IsOfficeCall(op: AdminCall) {
    || op.TransferOwnership? || op.AcceptOwnership? || op.RenounceOwnership?
    || op.SetGuardian? || op.PauseRequests? || op.UnpauseRequests?
  }

  lemma OfficeCallKeeps(b: Base, sender: Address, op: AdminCall)
    requires Sane(b) && IsOfficeCall(op) && AdminStep(b, sender, op).Some?
    ensures Sane(AdminStep(b, sender, op).value) && Framed(b, AdminStep(b, sender, op).value)
  {
    var b' := AdminStep(b, sender, op).value;
    Untouched(b, b');
    SaneFrame(b, b');
  }

  lemma LimitsKeep(b: Base, sender: Address, op: AdminCall)
    requires Sane(b) && op.UpdateConsumer? && AdminStep(b, sender, op).Some?
    ensures Sane(AdminStep(b, sender, op).value) && Framed(b, AdminStep(b, sender, op).value)
  {
    var b' := AdminStep(b, sender, op).value;
    assert b' == b.(consumers := b'.consumers);
    assert forall id, a :: Consumer(b', id, a).pendingRequests == Consumer(b, id, a).pendingRequests;
    SaneFrame(b, b');
  }

  lemma OtherCallKeeps(b: Base, sender: Address, op: AdminCall)
    requires Sane(b) && !IsKeyCall(op) && !IsSubscriptionCall(op) && !IsOfficeCall(op) && AdminStep(b, sender, op).Some?
    ensures Sane(AdminStep(b, sender, op).value) && Framed(b, AdminStep(b, sender, op).value)
  {
    var b' := AdminStep(b, sender, op).value;
    if op.UpdateConsumer? {
      LimitsKeep(b, sender, op);
    } else {
      assert b' == b.(overrides := b'.overrides, sponsors := b'.sponsors);
      assert forall a :: Sponsor(b', a).pendingRequests == Sponsor(b, a).pendingRequests;
      SaneFrame(b, b');
    }
  }

  lemma AdminKeeps(b: Base, sender: Address, op: AdminCall)
    requires Sane(b) && AdminStep(b, sender, op).Some?
    ensures Sane(AdminStep(b, sender, op).value) && Framed(b, AdminStep(b, sender, op).value)
  {
    if IsKeyCall(op) {
      KeyCallKeeps(b, sender, op);
    } else if IsSubscriptionCall(op) {
      SubscriptionCallKeeps(b, sender, op);
    } else if IsOfficeCall(op) {
      OfficeCallKeeps(b, sender, op);
    } else {
      OtherCallKeeps(b, sender, op);
    }
  }

  // ------------------------------------------------------------ locked execution

  /** The administration calls of a script, one after another. */
  function AdminRun(b: Base, script: seq<Call>): Base
    decreases script
  {
    if script == [] then b
    else
      var c := script[0];
      var b1 := if c.Admin? then AdminStep(b, c.sender, c.op) else None;
      AdminRun(if b1.Some? then b1.value else b, script[1..])
  }

  lemma AdminKeepsLock(b: Base, sender: Address, op: AdminCall)
    ensures AdminStep(b, sender, op).Some? ==> AdminStep(b, sender, op).value.locked == b.locked
  {
  }

  /** While the guard is held, a callback reaches nothing but administration: the request store is out of
      its reach, whatever it calls and however deep. */
  lemma {:induction false} LockedRun(s: State, script: seq<Call>)
    requires s.base.locked
    ensures Run(s, script) == s.(base := AdminRun(s.base, script))
    ensures AdminRun(s.base, script).locked
    decreases script
  {
    if script != [] {
      var c := script[0];
      if c.Admin? {
        AdminKeepsLock(s.base, c.sender, c.op);
      }
      var s1 := Exec(s, c);
      LockedRun(if s1.Some? then s1.value else s, script[1..]);
    }
  }

  lemma FramedTransitive(a: Base, b: Base, c: Base)
    requires Framed(a, b) && Framed(b, c)
    ensures Framed(a, c)
  {
    assert SameMoney(a, c);
    assert SameCounts(a, c);
    forall id | id in a.subscriptions && !a.subscriptions[id].active
      ensures !Sub(c, id).active
    {
      assert id in b.subscriptions && !Sub(b, id).active;
    }
    assert StaysCancelled(a, c);
  }

  lemma {:induction false} AdminRunKeeps(b: Base, script: seq<Call>)
    requires Sane(b)
    ensures Sane(AdminRun(b, script)) && Framed(b, AdminRun(b, script))
    decreases script
  {
    if script != [] {
      var c := script[0];
      var b1 := if c.Admin? then AdminStep(b, c.sender, c.op) else None;
      if b1.Some? {
        AdminKeeps(b, c.sender, c.op);
        AdminRunKeeps(b1.value, script[1..]);
        FramedTransitive(b, b1.value, AdminRun(b, script));
      } else {
        AdminRunKeeps(b, script[1..]);
      }
    }
  }
}
