/** Whose money the two V1 contracts hold: what each step credits to whom, and through whole runs each address's
    credit is what its own requests brought in, less what it took out. */
module RouterAccounts {
  import opened Outcomes
  import opened MapSums
  import opened RouterV1

  // ------------------------------------------------------------- single steps

  /** The credits of one address moved by an amount, and of nobody else. */
  ghost predicate Credits(m: map<Address, nat>, m': map<Address, nat>, to: Address, amount: int) {
    forall a :: Credit(m', a) == Credit(m, a) + if a == to then amount else 0
  }

  /** A routed request is its sender's, for the fee it paid, and the router's at the provider. */
  lemma RoutedRequestIsTheSenders(w: World, sender: Address, key: Key, value: nat, numWords: nat, block: nat, router: Address)
    requires Inv(w, router)
    ensures Routed(w, sender, key, value, numWords, block, router).Some? <==> key.active && value == key.fee
    ensures Routed(w, sender, key, value, numWords, block, router).Some? ==>
      var w' := Routed(w, sender, key, value, numWords, block, router).value;
      exists id, provider :: id !in w.r.requests && provider !in w.c.requests
        && id.consumer == sender && provider.consumer == router && provider.keyHash == key.keyHash
        && w'.r.requests == w.r.requests[id := RoutedRequest(sender, provider, key.fee, numWords, false, false)]
        && w'.c.requests == w.c.requests[provider :=
             ProviderRequest(router, key.operator, block, numWords, key.fee, false, false, false)]
        && w'.c.ether == w.c.ether + key.fee && w'.r.ether == w.r.ether
        && w'.c.credits == w.c.credits && w'.r.credits == w.r.credits
  {
    if key.active && value == key.fee {
      FreshProvider(w.c, router, key.keyHash);
      var provider := ProviderId(router, w.c.nonce + 1, key.keyHash);
      var id := RouterId(w.r.nonce + 1, sender, provider);
      assert provider !in w.c.requests && id !in w.r.requests;
    }
  }

  /** A fulfilment credits the fee to the operator its request pinned, and to nobody else. */
  lemma FulfilmentPaysOperator(c: Coordinator, id: ProviderId, proofValid: bool)
    ensures Settle(c, id, proofValid).Some? <==>
      id in c.requests && !c.requests[id].fulfilled && !c.requests[id].refunded && proofValid
    ensures Settle(c, id, proofValid).Some? ==>
      var c' := Settle(c, id, proofValid).value;
      && Credits(c.credits, c'.credits, c.requests[id].operator, c.requests[id].feePaid) && c'.ether == c.ether
      && c'.requests == c.requests[id := c.requests[id].(fulfilled := true)]
  {
  }

  /** A refund credits the fee to the consumer, once, and only after the block hash is out of reach. */
  lemma RefundPaysConsumer(c: Coordinator, id: ProviderId, block: nat)
    ensures Refund(c, id, block).Some? <==>
      && id in c.requests && !c.requests[id].fulfilled
      && (c.requests[id].refunded || block > c.requests[id].requestBlock + 256)
    ensures Refund(c, id, block).Some? ==>
      var c' := Refund(c, id, block).value;
      && Credits(c.credits, c'.credits, c.requests[id].consumer, if c.requests[id].refunded then 0 else c.requests[id].feePaid)
      && c'.ether == c.ether && c'.requests == c.requests[id := c.requests[id].(refunded := true)]
  {
  }

  /** The router records words exactly once, for its own open requests and the number of words asked for. */
  lemma RecordExactly(r: Router, id: ProviderId, numWords: nat)
    ensures Record(r, id, numWords).Some? <==>
      && id in r.byProvider && r.byProvider[id] in r.requests
      && var q := r.requests[r.byProvider[id]]; !q.ready && !q.refunded && q.numWords == numWords
    ensures Record(r, id, numWords).Some? ==>
      Record(r, id, numWords).value
        == r.(requests := r.requests[r.byProvider[id] := r.requests[r.byProvider[id]].(ready := true)])
  {
  }

  /** A routed refund moves exactly the fee from the coordinator's ether to the router's, and credits it to the address
      that made the request: nobody else's credit at the router changes, nobody's but the router's at the coordinator. */
  lemma RoutedRefundPaysRequester(w: World, id: RouterId, block: nat, router: Address)
    requires Inv(w, router) && RoutedRefund(w, id, block, router).Some?
    ensures var (w', q) := (RoutedRefund(w, id, block, router).value, w.r.requests[id]);
      && Credits(w.r.credits, w'.r.credits, q.consumer, q.feePaid)
      && w'.r.ether == w.r.ether + q.feePaid && w'.c.ether == w.c.ether - q.feePaid
      && Credits(w'.c.credits, w.c.credits, router, if w.c.requests[q.provider].refunded then q.feePaid else 0)
      && w'.r.requests == w.r.requests[id := q.(refunded := true)]
      && w'.c.requests == w.c.requests[q.provider := w.c.requests[q.provider].(refunded := true)]
  {
    var q := w.r.requests[id];
    assert LinkedRequest(w, id, router);
    RefundPaysConsumer(w.c, q.provider, block);
    RoutedRefundIs(w, id, block, router);
  }

  // ------------------------------------------------------------------ whole runs

  /** What an address's own routed requests brought it. */
  ghost function RefundsOf(a: Address): (RouterId, RoutedRequest) -> int {
    (id: RouterId, q: RoutedRequest) => if q.refunded && id.consumer == a then q.feePaid else 0
  }

  /** What an address earned as operator and got back as consumer. */
  ghost function FeesOf(a: Address): (ProviderId, ProviderRequest) -> int {
    (id: ProviderId, r: ProviderRequest) =>
      if (r.fulfilled && r.operator == a) || (r.refunded && id.consumer == a) then r.feePaid else 0
  }

  /** What one step takes out of an address's credit at the router. */
  function TakenAtRouter(w: World, s: Step, a: Address): nat {
    if s.WithdrawAtRouter? && s.sender == a && s.amount <= Credit(w.r.credits, a) then s.amount else 0
  }

  /** What one step takes out of an address's credit at the coordinator: its own withdrawals, and for the router what
      its refunds pass on. */
  function TakenAtCoordinator(w: World, s: Step, a: Address, router: Address): nat {
    match s
    case WithdrawAtCoordinator(sender, amount, _) =>
      if sender == a && a != router && amount <= Credit(w.c.credits, a) then amount else 0
    case RefundAtRouter(id, block) => if a == router && Refundable(w, id, block) then w.r.requests[id].feePaid else 0
    case _ => 0
  }

  function AllTakenAtRouter(w: World, steps: seq<Step>, a: Address, router: Address): nat
    decreases |steps|
  {
    if steps == [] then 0
    else TakenAtRouter(w, steps[0], a) + AllTakenAtRouter(Apply(w, steps[0], router), steps[1..], a, router)
  }

  function AllTakenAtCoordinator(w: World, steps: seq<Step>, a: Address, router: Address): nat
    decreases |steps|
  {
    if steps == [] then 0
    else
      TakenAtCoordinator(w, steps[0], a, router)
      + AllTakenAtCoordinator(Apply(w, steps[0], router), steps[1..], a, router)
  }

  /** Requests carry the consumer of their id. */
  predicate Named(w: World) {
    && (forall id :: id in w.r.requests ==> w.r.requests[id].consumer == id.consumer)
    && (forall id :: id in w.c.requests ==> w.c.requests[id].consumer == id.consumer)
  }

  lemma ApplyNames(w: World, s: Step, router: Address)
    requires Named(w)
    ensures Named(Apply(w, s, router))
  {
  }

  ghost function OwedAtRouter(w: World, a: Address): int { SumMap(w.r.requests, RefundsOf(a)) }

  ghost function OwedAtCoordinator(w: World, a: Address): int { SumMap(w.c.requests, FeesOf(a)) }

  /** Marking a routed request ready brings nobody anything. */
  lemma RecordBrings(r: Router, id: ProviderId, numWords: nat, a: Address)
    requires Record(r, id, numWords).Some?
    ensures SumMap(Record(r, id, numWords).value.requests, RefundsOf(a)) == SumMap(r.requests, RefundsOf(a))
    ensures Record(r, id, numWords).value.credits == r.credits
  {
    var k := r.byProvider[id];
    SumUpdate(r.requests, RefundsOf(a), k, r.requests[k].(ready := true));
  }

  lemma MarkBrings(c: Coordinator, id: ProviderId, a: Address)
    requires id in c.requests
    ensures SumMap(MarkDelivered(c, id).requests, FeesOf(a)) == SumMap(c.requests, FeesOf(a))
  {
    SumUpdate(c.requests, FeesOf(a), id, c.requests[id].(callbackSucceeded := true));
  }

  lemma DeliverBrings(w: World, id: ProviderId, delivered: bool, a: Address, router: Address)
    requires id in w.c.requests
    ensures var w' := Deliver(w, id, delivered, router);
      && OwedAtRouter(w', a) == OwedAtRouter(w, a) && w'.r.credits == w.r.credits
      && OwedAtCoordinator(w', a) == OwedAtCoordinator(w, a) && w'.c.credits == w.c.credits
  {
    MarkBrings(w.c, id, a);
    if delivered && w.c.requests[id].consumer == router && Record(w.r, id, w.c.requests[id].numWords).Some? {
      RecordBrings(w.r, id, w.c.requests[id].numWords, a);
    }
  }

  lemma RefundBrings(w: World, id: RouterId, block: nat, a: Address, router: Address)
    requires Inv(w, router) && Named(w) && RoutedRefund(w, id, block, router).Some?
    ensures var (w', q) := (RoutedRefund(w, id, block, router).value, w.r.requests[id]);
      && OwedAtRouter(w', a) - Credit(w'.r.credits, a) == OwedAtRouter(w, a) - Credit(w.r.credits, a)
      && OwedAtCoordinator(w', a) - Credit(w'.c.credits, a)
           == OwedAtCoordinator(w, a) - Credit(w.c.credits, a) + if a == router then q.feePaid else 0
  {
    var q := w.r.requests[id];
    assert LinkedRequest(w, id, router);
    RoutedRefundPaysRequester(w, id, block, router);
    SumUpdate(w.r.requests, RefundsOf(a), id, q.(refunded := true));
    var p := w.c.requests[q.provider];
    SumUpdate(w.c.requests, FeesOf(a), q.provider, p.(refunded := true));
  }

  lemma RequestBrings(w: World, sender: Address, key: Key, value: nat, numWords: nat, block: nat, a: Address, router: Address)
    requires Inv(w, router) && Routed(w, sender, key, value, numWords, block, router).Some?
    ensures var w' := Routed(w, sender, key, value, numWords, block, router).value;
      && OwedAtRouter(w', a) == OwedAtRouter(w, a) && w'.r.credits == w.r.credits
      && OwedAtCoordinator(w', a) == OwedAtCoordinator(w, a) && w'.c.credits == w.c.credits
  {
    RoutedRequestIsTheSenders(w, sender, key, value, numWords, block, router);
    var w' := Routed(w, sender, key, value, numWords, block, router).value;
    var id, provider :| id !in w.r.requests && provider !in w.c.requests
      && w'.r.requests == w.r.requests[id := RoutedRequest(sender, provider, key.fee, numWords, false, false)]
      && w'.c.requests == w.c.requests[provider :=
           ProviderRequest(router, key.operator, block, numWords, key.fee, false, false, false)];
    SumUpdate(w.r.requests, RefundsOf(a), id, w'.r.requests[id]);
    SumUpdate(w.c.requests, FeesOf(a), provider, w'.c.requests[provider]);
  }

  lemma AskBrings(c: Coordinator, sender: Address, key: Key, value: nat, numWords: nat, block: nat, a: Address)
    requires ProviderSound(c) && Ask(c, sender, key, value, numWords, block).Some?
    ensures var c' := Ask(c, sender, key, value, numWords, block).value.0;
      SumMap(c'.requests, FeesOf(a)) == SumMap(c.requests, FeesOf(a)) && c'.credits == c.credits
  {
    FreshProvider(c, sender, key.keyHash);
    var (c', id) := Ask(c, sender, key, value, numWords, block).value;
    SumUpdate(c.requests, FeesOf(a), id, c'.requests[id]);
  }

  lemma SettleBrings(c: Coordinator, id: ProviderId, proofValid: bool, a: Address)
    requires ProviderSound(c) && Settle(c, id, proofValid).Some?
    ensures var c' := Settle(c, id, proofValid).value;
      SumMap(c'.requests, FeesOf(a)) - Credit(c'.credits, a) == SumMap(c.requests, FeesOf(a)) - Credit(c.credits, a)
  {
    FulfilmentPaysOperator(c, id, proofValid);
    SumUpdate(c.requests, FeesOf(a), id, c.requests[id].(fulfilled := true));
  }

  lemma ProviderRefundBrings(c: Coordinator, id: ProviderId, block: nat, a: Address)
    requires ProviderSound(c) && Refund(c, id, block).Some?
    ensures var c' := Refund(c, id, block).value;
      SumMap(c'.requests, FeesOf(a)) - Credit(c'.credits, a) == SumMap(c.requests, FeesOf(a)) - Credit(c.credits, a)
  {
    RefundPaysConsumer(c, id, block);
    SumUpdate(c.requests, FeesOf(a), id, c.requests[id].(refunded := true));
  }

  /** Ether never runs out before credits do. */
  lemma CreditIsBacked(w: World, a: Address, router: Address)
    requires Inv(w, router)
    ensures Credit(w.r.credits, a) <= w.r.ether && Credit(w.c.credits, a) <= w.c.ether
  {
    SumNonnegative(w.r.credits, CreditWeight());
    SumNonnegative(w.c.credits, CreditWeight());
    SumNonnegative(w.c.requests, OpenWeight());
    if a in w.r.credits { assert CreditWeight()(a, w.r.credits[a]) == w.r.credits[a]; }
    if a in w.c.credits { assert CreditWeight()(a, w.c.credits[a]) == w.c.credits[a]; }
  }

  ghost predicate Accounted(w: World, w': World, a: Address, atRouter: nat, atCoordinator: nat) {
    && OwedAtRouter(w', a) - Credit(w'.r.credits, a) == OwedAtRouter(w, a) - Credit(w.r.credits, a) + atRouter
    && OwedAtCoordinator(w', a) - Credit(w'.c.credits, a)
         == OwedAtCoordinator(w, a) - Credit(w.c.credits, a) + atCoordinator
  }

  lemma FulfilAccounts(w: World, id: ProviderId, proofValid: bool, delivered: bool, a: Address, router: Address)
    requires Inv(w, router) && Settle(w.c, id, proofValid).Some?
    ensures Accounted(w, Apply(w, Fulfil(id, proofValid, delivered), router), a, 0, 0)
  {
    SettleBrings(w.c, id, proofValid, a);
    DeliverBrings(w.(c := Settle(w.c, id, proofValid).value), id, delivered, a, router);
  }

  lemma RefundAccounts(w: World, id: RouterId, block: nat, a: Address, router: Address)
    requires Inv(w, router) && Named(w)
    ensures Accounted(w, Apply(w, RefundAtRouter(id, block), router), a, 0,
                      TakenAtCoordinator(w, RefundAtRouter(id, block), a, router))
  {
    RoutedRefundSucceeds(w, id, block, router);
    if RoutedRefund(w, id, block, router).Some? { RefundBrings(w, id, block, a, router); }
  }

  lemma WithdrawalAccounts(w: World, s: Step, a: Address, router: Address)
    requires Inv(w, router) && (s.WithdrawAtCoordinator? || s.WithdrawAtRouter?)
    ensures Accounted(w, Apply(w, s, router), a, TakenAtRouter(w, s, a), TakenAtCoordinator(w, s, a, router))
  {
    CreditIsBacked(w, s.sender, router);
  }

  lemma ApplyAccounts(w: World, s: Step, a: Address, router: Address)
    requires Inv(w, router) && Named(w)
    ensures Accounted(w, Apply(w, s, router), a, TakenAtRouter(w, s, a), TakenAtCoordinator(w, s, a, router))
  {
    match s {
      case DirectRequest(sender, key, value, numWords, block) =>
        if sender != router && Ask(w.c, sender, key, value, numWords, block).Some? {
          AskBrings(w.c, sender, key, value, numWords, block, a);
        }
      case RoutedRequestStep(sender, key, value, numWords, block) =>
        if Routed(w, sender, key, value, numWords, block, router).Some? {
          RequestBrings(w, sender, key, value, numWords, block, a, router);
        }
      case Fulfil(id, proofValid, delivered) =>
        if Settle(w.c, id, proofValid).Some? { FulfilAccounts(w, id, proofValid, delivered, a, router); }
      case RetryCallback(id, delivered) =>
        if id in w.c.requests { DeliverBrings(w, id, delivered, a, router); }
      case RefundAtCoordinator(id, block) =>
        if Refund(w.c, id, block).Some? { ProviderRefundBrings(w.c, id, block, a); }
      case RefundAtRouter(id, block) => RefundAccounts(w, id, block, a, router);
      case Donate(_) =>
      case _ => WithdrawalAccounts(w, s, a, router);
    }
  }

  lemma {:induction false} RunAccounts(w: World, steps: seq<Step>, a: Address, router: Address)
    requires Inv(w, router) && Named(w)
    ensures Accounted(w, After(w, steps, router), a, AllTakenAtRouter(w, steps, a, router),
                      AllTakenAtCoordinator(w, steps, a, router))
    decreases |steps|
  {
    if steps != [] {
      ApplyAccounts(w, steps[0], a, router);
      ApplyKeeps(w, steps[0], router);
      ApplyNames(w, steps[0], router);
      RunAccounts(Apply(w, steps[0], router), steps[1..], a, router);
    }
  }

  /** In every run each address's credit at the router is the fees of its own refunded routed requests less its own
      withdrawals; and at the coordinator the fees it earned as operator and got back as consumer, less what it
      withdrew or, for the router, passed on. */
  lemma EveryAccountIsItsOwners(steps: seq<Step>, a: Address, router: Address)
    ensures var w := After(Deployed(), steps, router);
      && Credit(w.r.credits, a) + AllTakenAtRouter(Deployed(), steps, a, router) == SumMap(w.r.requests, RefundsOf(a))
      && Credit(w.c.credits, a) + AllTakenAtCoordinator(Deployed(), steps, a, router) == SumMap(w.c.requests, FeesOf(a))
  {
    RunAccounts(Deployed(), steps, a, router);
  }

  // -------------------------------------------------------------- delivery

  predicate DeliveredAt(w: World, id: RouterId)
    requires id in w.r.requests
  {
    var q := w.r.requests[id];
    q.provider in w.c.requests && (q.ready <==> w.c.requests[q.provider].callbackSucceeded)
  }

  ghost predicate Delivered(w: World) { forall id :: id in w.r.requests ==> DeliveredAt(w, id) }

  lemma DeliverDelivers(w: World, id: ProviderId, delivered: bool, router: Address)
    requires Linked(w, router) && Delivered(w) && id in w.c.requests
    ensures Delivered(Deliver(w, id, delivered, router))
  {
    var w' := Deliver(w, id, delivered, router);
    forall k | k in w'.r.requests ensures DeliveredAt(w', k) {
      assert LinkedRequest(w, k, router) && DeliveredAt(w, k);
    }
  }

  lemma RequestDelivers(w: World, sender: Address, key: Key, value: nat, numWords: nat, block: nat, router: Address)
    requires Inv(w, router) && Delivered(w) && Routed(w, sender, key, value, numWords, block, router).Some?
    ensures Delivered(Routed(w, sender, key, value, numWords, block, router).value)
  {
    FreshProvider(w.c, router, key.keyHash);
    var w' := Routed(w, sender, key, value, numWords, block, router).value;
    forall k | k in w'.r.requests ensures DeliveredAt(w', k) {
      if k in w.r.requests { assert LinkedRequest(w, k, router) && DeliveredAt(w, k); }
    }
  }

  lemma RefundDelivers(w: World, id: RouterId, block: nat, router: Address)
    requires Inv(w, router) && Delivered(w) && RoutedRefund(w, id, block, router).Some?
    ensures Delivered(RoutedRefund(w, id, block, router).value)
  {
    RoutedRefundPaysRequester(w, id, block, router);
    var w' := RoutedRefund(w, id, block, router).value;
    forall k | k in w'.r.requests ensures DeliveredAt(w', k) {
      assert DeliveredAt(w, k);
    }
  }

  /** Steps that leave the router's requests and the delivery flags of its provider requests alone. */
  lemma OthersDeliver(w: World, w': World, router: Address)
    requires Inv(w, router) && Delivered(w) && w'.r.requests == w.r.requests
    requires forall id :: id in w.c.requests && w.c.requests[id].consumer == router ==>
      id in w'.c.requests && w'.c.requests[id].callbackSucceeded == w.c.requests[id].callbackSucceeded
    ensures Delivered(w')
  {
    forall k | k in w'.r.requests ensures DeliveredAt(w', k) {
      assert LinkedRequest(w, k, router) && DeliveredAt(w, k);
    }
  }

  lemma FulfilDelivers(w: World, id: ProviderId, proofValid: bool, delivered: bool, router: Address)
    requires Inv(w, router) && Delivered(w) && Settle(w.c, id, proofValid).Some?
    ensures Delivered(Apply(w, Fulfil(id, proofValid, delivered), router))
  {
    var w1 := w.(c := Settle(w.c, id, proofValid).value);
    SettleKeeps(w, id, router);
    OthersDeliver(w, w1, router);
    DeliverDelivers(w1, id, delivered, router);
  }

  /** The steps that touch neither a routed request nor a delivery. */
  predicate Aside(s: Step) {
    s.DirectRequest? || s.RefundAtCoordinator? || s.WithdrawAtCoordinator? || s.WithdrawAtRouter? || s.Donate?
  }

  lemma AsideDelivers(w: World, s: Step, router: Address)
    requires Inv(w, router) && Delivered(w) && Aside(s)
    ensures Delivered(Apply(w, s, router))
  {
    var w' := Apply(w, s, router);
    AsideFlags(w, s, router);
    OthersDeliver(w, w', router);
  }

  lemma AsideFlags(w: World, s: Step, router: Address)
    requires ProviderSound(w.c) && Aside(s)
    ensures var w' := Apply(w, s, router);
      && w'.r.requests == w.r.requests
      && forall id :: id in w.c.requests ==>
           id in w'.c.requests && w'.c.requests[id].callbackSucceeded == w.c.requests[id].callbackSucceeded
  {
    if s.DirectRequest? { FreshProvider(w.c, s.sender, s.key.keyHash); }
  }

  lemma ApplyDelivers(w: World, s: Step, router: Address)
    requires Inv(w, router) && Delivered(w)
    ensures Delivered(Apply(w, s, router))
  {
    if Aside(s) {
      AsideDelivers(w, s, router);
    } else {
      match s {
        case RoutedRequestStep(sender, key, value, numWords, block) =>
          if Routed(w, sender, key, value, numWords, block, router).Some? {
            RequestDelivers(w, sender, key, value, numWords, block, router);
          }
        case Fulfil(id, proofValid, delivered) =>
          if Settle(w.c, id, proofValid).Some? { FulfilDelivers(w, id, proofValid, delivered, router); }
        case RetryCallback(id, delivered) =>
          if id in w.c.requests { DeliverDelivers(w, id, delivered, router); }
        case RefundAtRouter(id, block) =>
          if RoutedRefund(w, id, block, router).Some? { RefundDelivers(w, id, block, router); }
      }
    }
  }

  lemma {:induction false} RunDelivers(w: World, steps: seq<Step>, router: Address)
    requires Inv(w, router) && Delivered(w)
    ensures Delivered(After(w, steps, router))
    decreases |steps|
  {
    if steps != [] {
      ApplyDelivers(w, steps[0], router);
      ApplyKeeps(w, steps[0], router);
      RunDelivers(Apply(w, steps[0], router), steps[1..], router);
    }
  }

  /** In every run a routed request is ready if and only if the provider's callback to the router succeeded. */
  lemma ReadyWhenDelivered(steps: seq<Step>, router: Address, id: RouterId)
    requires id in After(Deployed(), steps, router).r.requests
    ensures DeliveredAt(After(Deployed(), steps, router), id)
  {
    RunDelivers(Deployed(), steps, router);
  }
}
