/** contracts/ProofVRFCoordinator.sol and contracts/ProofVRFRouter.sol: two contracts whose balances must agree.
    Neither writes its books after handing control to application code, so a re-entrant call is a later step. */
module RouterV1 {
  import opened Outcomes
  import opened MapSums

  type Address = nat

  const BLOCKHASH_WINDOW: nat := 256

  /** Keccak is injective: ids are what they hash. */
  datatype ProviderId = ProviderId(consumer: Address, nonce: nat, keyHash: nat)

  datatype RouterId = RouterId(nonce: nat, consumer: Address, provider: ProviderId)

  datatype ProviderRequest = ProviderRequest(
    consumer: Address, operator: Address, requestBlock: nat, numWords: nat, feePaid: nat,
    fulfilled: bool, refunded: bool, callbackSucceeded: bool)

  datatype RoutedRequest = RoutedRequest(
    consumer: Address, provider: ProviderId, feePaid: nat, numWords: nat, ready: bool, refunded: bool)

  /** The key a request names, as configured at that moment. */
  datatype Key = Key(keyHash: nat, operator: Address, fee: nat, active: bool)

  datatype Coordinator = Coordinator(
    ether: nat, nonce: nat, requests: map<ProviderId, ProviderRequest>, credits: map<Address, nat>)

  datatype Router = Router(
    ether: nat, nonce: nat, requests: map<RouterId, RoutedRequest>, byProvider: map<ProviderId, RouterId>,
    credits: map<Address, nat>)

  function Credit(m: map<Address, nat>, a: Address): nat { if a in m then m[a] else 0 }

  // -------------------------------------------------------------- the coordinator

  predicate Open(r: ProviderRequest) { !r.fulfilled && !r.refunded }

  function Ask(c: Coordinator, sender: Address, key: Key, value: nat, numWords: nat,
               block: nat): Option<(Coordinator, ProviderId)> {
    if !key.active || value != key.fee then None
    else
      var id := ProviderId(sender, c.nonce + 1, key.keyHash);
      var r := ProviderRequest(sender, key.operator, block, numWords, key.fee, false, false, false);
      Some((Coordinator(c.ether + value, c.nonce + 1, c.requests[id := r], c.credits), id))
  }

  /** fulfillRandomWords up to its callback: the operator is credited. */
  function Settle(c: Coordinator, id: ProviderId, proofValid: bool): Option<Coordinator> {
    if id !in c.requests || !Open(c.requests[id]) || !proofValid then None
    else
      var r := c.requests[id];
      Some(c.(requests := c.requests[id := r.(fulfilled := true)],
              credits := c.credits[r.operator := Credit(c.credits, r.operator) + r.feePaid]))
  }

  function MarkDelivered(c: Coordinator, id: ProviderId): Coordinator
    requires id in c.requests
  {
    c.(requests := c.requests[id := c.requests[id].(callbackSucceeded := true)])
  }

  /** refundExpired: idempotent. */
  function Refund(c: Coordinator, id: ProviderId, block: nat): Option<Coordinator> {
    if id !in c.requests || c.requests[id].fulfilled then None
    else if c.requests[id].refunded then Some(c)
    else if block <= c.requests[id].requestBlock + BLOCKHASH_WINDOW then None
    else
      var r := c.requests[id];
      Some(c.(requests := c.requests[id := r.(refunded := true)],
              credits := c.credits[r.consumer := Credit(c.credits, r.consumer) + r.feePaid]))
  }

  function Withdraw(c: Coordinator, sender: Address, amount: nat): Option<Coordinator> {
    if amount > Credit(c.credits, sender) || c.ether < amount then None
    else Some(c.(ether := c.ether - amount, credits := c.credits[sender := Credit(c.credits, sender) - amount]))
  }

  // ------------------------------------------------------------------- the router

  function Record(r: Router, id: ProviderId, numWords: nat): Option<Router> {
    if id !in r.byProvider || r.byProvider[id] !in r.requests then None
    else
      var q := r.requests[r.byProvider[id]];
      if q.ready || q.refunded || numWords != q.numWords then None
      else Some(r.(requests := r.requests[r.byProvider[id] := q.(ready := true)]))
  }

  function Credited(r: Router, id: RouterId): Router
    requires id in r.requests
  {
    var q := r.requests[id];
    r.(requests := r.requests[id := q.(refunded := true)],
       credits := r.credits[q.consumer := Credit(r.credits, q.consumer) + q.feePaid])
  }

  function PayOut(r: Router, sender: Address, amount: nat): Option<Router> {
    if amount > Credit(r.credits, sender) || r.ether < amount then None
    else Some(r.(ether := r.ether - amount, credits := r.credits[sender := Credit(r.credits, sender) - amount]))
  }

  // ------------------------------------------------------------------ both together

  datatype World = World(c: Coordinator, r: Router)

  datatype Step =
    | DirectRequest(sender: Address, key: Key, value: nat, numWords: nat, block: nat)
    | RoutedRequestStep(sender: Address, key: Key, value: nat, numWords: nat, block: nat)
    | Fulfil(id: ProviderId, proofValid: bool, delivered: bool)
    | RetryCallback(id: ProviderId, delivered: bool)
    | RefundAtCoordinator(id: ProviderId, block: nat)
    | WithdrawAtCoordinator(sender: Address, amount: nat, toRouter: bool)
    | RefundAtRouter(routed: RouterId, block: nat)
    | WithdrawAtRouter(sender: Address, amount: nat)
    | Donate(amount: nat)

  /** The coordinator's callback: the router records words, an application does what it likes. */
  function Deliver(w: World, id: ProviderId, delivered: bool, router: Address): World
    requires id in w.c.requests
  {
    if !delivered then w
    else if w.c.requests[id].consumer != router then w.(c := MarkDelivered(w.c, id))
    else
      match Record(w.r, id, w.c.requests[id].numWords)
      case None => w
      case Some(r) => World(MarkDelivered(w.c, id), r)
  }

  function Routed(w: World, sender: Address, key: Key, value: nat, numWords: nat, block: nat,
                  router: Address): Option<World> {
    match Ask(w.c, router, key, value, numWords, block)
    case None => None
    case Some((c, provider)) =>
      var id := RouterId(w.r.nonce + 1, sender, provider);
      if provider in w.r.byProvider then None
      else
        var q := RoutedRequest(sender, provider, value, numWords, false, false);
        Some(World(c, w.r.(nonce := w.r.nonce + 1, requests := w.r.requests[id := q],
                           byProvider := w.r.byProvider[provider := id])))
  }

  /** refundExpired of the router: refund at the provider, withdraw exactly the fee, credit the consumer. */
  function RoutedRefund(w: World, id: RouterId, block: nat, router: Address): Option<World> {
    if id !in w.r.requests || w.r.requests[id].ready || w.r.requests[id].refunded then None
    else
      var q := w.r.requests[id];
      match Refund(w.c, q.provider, block)
      case None => None
      case Some(c1) =>
        match Withdraw(c1, router, q.feePaid)
        case None => None
        case Some(c2) => Some(World(c2, Credited(w.r.(ether := w.r.ether + q.feePaid), id)))
  }

  function Apply(w: World, s: Step, router: Address): World {
    match s
    case DirectRequest(sender, key, value, numWords, block) =>
      var r := if sender == router then None else Ask(w.c, sender, key, value, numWords, block);
      if r.None? then w else w.(c := r.value.0)
    case RoutedRequestStep(sender, key, value, numWords, block) =>
      var r := Routed(w, sender, key, value, numWords, block, router);
      if r.None? then w else r.value
    case Fulfil(id, proofValid, delivered) =>
      var c := Settle(w.c, id, proofValid);
      if c.None? then w else Deliver(w.(c := c.value), id, delivered, router)
    case RetryCallback(id, delivered) =>
      if id !in w.c.requests || !w.c.requests[id].fulfilled || w.c.requests[id].callbackSucceeded then w
      else Deliver(w, id, delivered, router)
    case RefundAtCoordinator(id, block) =>
      var c := Refund(w.c, id, block);
      if c.None? then w else w.(c := c.value)
    case WithdrawAtCoordinator(sender, amount, toRouter) =>
      var c := if sender == router then None else Withdraw(w.c, sender, amount);
      if c.None? then w
      else World(c.value, if toRouter then w.r.(ether := w.r.ether + amount) else w.r)
    case RefundAtRouter(id, block) =>
      var r := RoutedRefund(w, id, block, router);
      if r.None? then w else r.value
    case WithdrawAtRouter(sender, amount) =>
      var r := PayOut(w.r, sender, amount);
      if r.None? then w else w.(r := r.value)
    case Donate(amount) => w.(r := w.r.(ether := w.r.ether + amount))
  }

  function After(w: World, steps: seq<Step>, router: Address): World
    decreases |steps|
  {
    if steps == [] then w else After(Apply(w, steps[0], router), steps[1..], router)
  }

  function Deployed(): World {
    World(Coordinator(0, 0, map[], map[]), Router(0, 0, map[], map[], map[]))
  }

  // ------------------------------------------------------------------- the books

  ghost function CreditWeight(): (Address, nat) -> int { (a, n) => n }

  ghost function OpenWeight(): (ProviderId, ProviderRequest) -> int {
    (id, r: ProviderRequest) => if Open(r) then r.feePaid else 0
  }

  /** Fees the router earned as an operator. */
  ghost function EarnedWeight(router: Address): (ProviderId, ProviderRequest) -> int {
    (id, r: ProviderRequest) => if r.fulfilled && r.operator == router then r.feePaid else 0
  }

  /** A routed request is paid out at the router. */
  predicate PaidOut(r: Router, id: ProviderId) {
    id in r.byProvider && r.byProvider[id] in r.requests && r.requests[r.byProvider[id]].refunded
  }

  /** Refunded at the provider, not yet at the router. */
  ghost function UnsettledWeight(r: Router, router: Address): (ProviderId, ProviderRequest) -> int {
    (id, q: ProviderRequest) => if q.consumer == router && q.refunded && !PaidOut(r, id) then q.feePaid else 0
  }

  ghost function OpenFees(c: Coordinator): int { SumMap(c.requests, OpenWeight()) }

  ghost function Earned(c: Coordinator, router: Address): int { SumMap(c.requests, EarnedWeight(router)) }

  ghost function Unsettled(w: World, router: Address): int { SumMap(w.c.requests, UnsettledWeight(w.r, router)) }

  /** A coordinator request is never both fulfilled and refunded, and was numbered. */
  predicate ProviderSound(c: Coordinator) {
    forall id :: id in c.requests ==>
      !(c.requests[id].fulfilled && c.requests[id].refunded) && id.consumer == c.requests[id].consumer && id.nonce <= c.nonce
  }

  predicate LinkedRequest(w: World, id: RouterId, router: Address)
    requires id in w.r.requests
  {
    var q := w.r.requests[id];
    && id.provider == q.provider && q.provider in w.r.byProvider && w.r.byProvider[q.provider] == id
    && q.provider in w.c.requests && w.c.requests[q.provider].consumer == router
    && w.c.requests[q.provider].feePaid == q.feePaid && w.c.requests[q.provider].numWords == q.numWords
    && (q.ready ==> w.c.requests[q.provider].fulfilled) && (q.refunded ==> w.c.requests[q.provider].refunded)
  }

  predicate Linked(w: World, router: Address) {
    && (forall id :: id in w.r.requests ==> LinkedRequest(w, id, router) && id.nonce <= w.r.nonce)
    && (forall id :: id in w.r.byProvider ==> w.r.byProvider[id] in w.r.requests && w.r.byProvider[id].provider == id)
    && (forall id :: id in w.c.requests && w.c.requests[id].consumer == router ==> id in w.r.byProvider)
  }

  ghost predicate Balanced(w: World, router: Address) {
    && w.c.ether == SumMap(w.c.credits, CreditWeight()) + OpenFees(w.c)
    && Credit(w.c.credits, router) == Unsettled(w, router) + Earned(w.c, router)
    && w.r.ether >= SumMap(w.r.credits, CreditWeight())
  }

  ghost predicate Inv(w: World, router: Address) { ProviderSound(w.c) && Linked(w, router) && Balanced(w, router) }

  lemma CreditMoves(m: map<Address, nat>, a: Address, n: nat)
    ensures SumMap(m[a := n], CreditWeight()) == SumMap(m, CreditWeight()) - Credit(m, a) + n
  {
    SumUpdate(m, CreditWeight(), a, n);
  }

  function OpenAt(c: Coordinator, id: ProviderId): int {
    if id in c.requests && Open(c.requests[id]) then c.requests[id].feePaid else 0
  }

  function EarnedAt(c: Coordinator, id: ProviderId, router: Address): int {
    if id in c.requests && c.requests[id].fulfilled && c.requests[id].operator == router then c.requests[id].feePaid else 0
  }

  function UnsettledAt(w: World, id: ProviderId, router: Address): int {
    if id in w.c.requests && w.c.requests[id].consumer == router && w.c.requests[id].refunded && !PaidOut(w.r, id)
    then w.c.requests[id].feePaid else 0
  }

  /** A step that touches one provider request moves the three sums by that request alone. */
  lemma SumsAt(w: World, w': World, id: ProviderId, router: Address)
    requires w.c.requests - {id} == w'.c.requests - {id}
    requires forall k :: k != id ==> (PaidOut(w.r, k) <==> PaidOut(w'.r, k))
    ensures OpenFees(w'.c) - OpenAt(w'.c, id) == OpenFees(w.c) - OpenAt(w.c, id)
    ensures Earned(w'.c, router) - EarnedAt(w'.c, id, router) == Earned(w.c, router) - EarnedAt(w.c, id, router)
    ensures Unsettled(w', router) - UnsettledAt(w', id, router) == Unsettled(w, router) - UnsettledAt(w, id, router)
  {
    SumsMove(w.c.requests, w'.c.requests, id, OpenWeight(), OpenWeight());
    SumsMove(w.c.requests, w'.c.requests, id, EarnedWeight(router), EarnedWeight(router));
    SumsMove(w.c.requests, w'.c.requests, id, UnsettledWeight(w.r, router), UnsettledWeight(w'.r, router));
  }

  /** A request that moved forward: same terms, and a final flag stays. */
  predicate Forward(q: ProviderRequest, q': ProviderRequest) {
    && q'.consumer == q.consumer && q'.feePaid == q.feePaid && q'.numWords == q.numWords
    && (q.fulfilled ==> q'.fulfilled) && (q.refunded ==> q'.refunded)
  }

  /** The router's books stay linked while provider requests only move forward. */
  lemma LinksKept(w: World, w': World, router: Address)
    requires Linked(w, router) && w'.r.requests == w.r.requests && w'.r.byProvider == w.r.byProvider
    requires w'.r.nonce == w.r.nonce && w.c.requests.Keys <= w'.c.requests.Keys
    requires forall id :: id in w.c.requests ==> Forward(w.c.requests[id], w'.c.requests[id])
    requires forall id :: id in w'.c.requests && id !in w.c.requests ==> w'.c.requests[id].consumer != router
    ensures Linked(w', router)
  {
    forall k | k in w'.r.requests
      ensures LinkedRequest(w', k, router)
    {
      assert LinkedRequest(w, k, router);
    }
  }

  // -------------------------------------------------------------------- the steps

  lemma FreshProvider(c: Coordinator, sender: Address, keyHash: nat)
    requires ProviderSound(c)
    ensures ProviderId(sender, c.nonce + 1, keyHash) !in c.requests
  {
  }

  lemma AskKeeps(w: World, sender: Address, key: Key, value: nat, numWords: nat, block: nat, router: Address)
    requires Inv(w, router) && sender != router && Ask(w.c, sender, key, value, numWords, block).Some?
    ensures Inv(w.(c := Ask(w.c, sender, key, value, numWords, block).value.0), router)
  {
    var (c, id) := Ask(w.c, sender, key, value, numWords, block).value;
    var w' := w.(c := c);
    FreshProvider(w.c, sender, key.keyHash);
    SumsAt(w, w', id, router);
    LinksKept(w, w', router);
  }

  lemma RoutedKeeps(w: World, sender: Address, key: Key, value: nat, numWords: nat, block: nat, router: Address)
    requires Inv(w, router) && Routed(w, sender, key, value, numWords, block, router).Some?
    ensures Inv(Routed(w, sender, key, value, numWords, block, router).value, router)
  {
    var w' := Routed(w, sender, key, value, numWords, block, router).value;
    var (c, provider) := Ask(w.c, router, key, value, numWords, block).value;
    FreshProvider(w.c, router, key.keyHash);
    var id := RouterId(w.r.nonce + 1, sender, provider);
    assert id !in w.r.requests;
    SumsAt(w, w', provider, router);
    forall k | k in w'.r.requests
      ensures LinkedRequest(w', k, router)
    {
      if k != id { assert LinkedRequest(w, k, router); }
    }
  }

  lemma SettleKeeps(w: World, id: ProviderId, router: Address)
    requires Inv(w, router) && Settle(w.c, id, true).Some?
    ensures Inv(w.(c := Settle(w.c, id, true).value), router)
  {
    var w' := w.(c := Settle(w.c, id, true).value);
    var r := w.c.requests[id];
    SumsAt(w, w', id, router);
    CreditMoves(w.c.credits, r.operator, Credit(w.c.credits, r.operator) + r.feePaid);
    LinksKept(w, w', router);
  }

  lemma MarkBalances(w: World, w': World, id: ProviderId, router: Address)
    requires Balanced(w, router) && id in w.c.requests && w'.c == MarkDelivered(w.c, id)
    requires w'.r.ether == w.r.ether && w'.r.credits == w.r.credits
    requires forall k :: PaidOut(w.r, k) <==> PaidOut(w'.r, k)
    ensures Balanced(w', router)
  {
    SumsAt(w, w', id, router);
  }

  lemma RecordLinks(w: World, id: ProviderId, router: Address)
    requires Linked(w, router) && id in w.c.requests && w.c.requests[id].fulfilled
    requires Record(w.r, id, w.c.requests[id].numWords).Some?
    ensures var w' := World(MarkDelivered(w.c, id), Record(w.r, id, w.c.requests[id].numWords).value);
      Linked(w', router) && forall k :: PaidOut(w.r, k) <==> PaidOut(w'.r, k)
  {
    var w' := World(MarkDelivered(w.c, id), Record(w.r, id, w.c.requests[id].numWords).value);
    forall k | k in w'.r.requests
      ensures LinkedRequest(w', k, router)
    {
      assert LinkedRequest(w, k, router);
    }
  }

  lemma DeliverKeeps(w: World, id: ProviderId, delivered: bool, router: Address)
    requires Inv(w, router) && id in w.c.requests && w.c.requests[id].fulfilled
    ensures Inv(Deliver(w, id, delivered, router), router)
  {
    var w' := Deliver(w, id, delivered, router);
    if w' != w {
      if w.c.requests[id].consumer != router {
        LinksKept(w, w', router);
      } else {
        RecordLinks(w, id, router);
      }
      MarkBalances(w, w', id, router);
    }
  }

  lemma RefundKeeps(w: World, id: ProviderId, block: nat, router: Address)
    requires Inv(w, router) && Refund(w.c, id, block).Some?
    ensures Inv(w.(c := Refund(w.c, id, block).value), router)
  {
    var w' := w.(c := Refund(w.c, id, block).value);
    var r := w.c.requests[id];
    if !r.refunded {
      LinksKept(w, w', router);
      RefundBalances(w, w', id, router);
    }
  }

  lemma RefundBalances(w: World, w': World, id: ProviderId, router: Address)
    requires Inv(w, router) && id in w.c.requests && Open(w.c.requests[id])
    requires var r := w.c.requests[id];
      w' == w.(c := w.c.(requests := w.c.requests[id := r.(refunded := true)],
                         credits := w.c.credits[r.consumer := Credit(w.c.credits, r.consumer) + r.feePaid]))
    ensures Balanced(w', router)
  {
    var r := w.c.requests[id];
    NotPaidOut(w, id, router);
    SumsAt(w, w', id, router);
    CreditMoves(w.c.credits, r.consumer, Credit(w.c.credits, r.consumer) + r.feePaid);
  }

  lemma NotPaidOut(w: World, id: ProviderId, router: Address)
    requires Linked(w, router) && id in w.c.requests && !w.c.requests[id].refunded
    ensures !PaidOut(w.r, id)
  {
    assert forall k :: k in w.r.requests ==> LinkedRequest(w, k, router);
  }

  lemma WithdrawKeeps(w: World, sender: Address, amount: nat, toRouter: bool, router: Address)
    requires Inv(w, router) && sender != router && Withdraw(w.c, sender, amount).Some?
    ensures Inv(Apply(w, WithdrawAtCoordinator(sender, amount, toRouter), router), router)
  {
    var w' := Apply(w, WithdrawAtCoordinator(sender, amount, toRouter), router);
    CreditMoves(w.c.credits, sender, Credit(w.c.credits, sender) - amount);
    SameSums(w, w', router);
    LinksKept(w, w', router);
  }

  lemma SameSums(w: World, w': World, router: Address)
    requires w'.c.requests == w.c.requests && w'.r.requests == w.r.requests && w'.r.byProvider == w.r.byProvider
    ensures OpenFees(w'.c) == OpenFees(w.c) && Earned(w'.c, router) == Earned(w.c, router)
    ensures Unsettled(w', router) == Unsettled(w, router)
  {
    assert forall k :: PaidOut(w.r, k) <==> PaidOut(w'.r, k);
    SumAgree(w.c.requests, UnsettledWeight(w.r, router), UnsettledWeight(w'.r, router));
  }

  lemma PayOutKeeps(w: World, sender: Address, amount: nat, router: Address)
    requires Inv(w, router) && PayOut(w.r, sender, amount).Some?
    ensures Inv(w.(r := PayOut(w.r, sender, amount).value), router)
  {
    var w' := w.(r := PayOut(w.r, sender, amount).value);
    CreditMoves(w.r.credits, sender, Credit(w.r.credits, sender) - amount);
    SameSums(w, w', router);
    LinksKept(w, w', router);
  }

  /** After the provider refund, the router's credit and the coordinator's ether cover this request's fee. */
  lemma RefundIsCovered(w: World, id: RouterId, router: Address)
    requires Inv(w, router) && id in w.r.requests && !w.r.requests[id].refunded
    requires w.c.requests[w.r.requests[id].provider].refunded
    ensures Withdraw(w.c, router, w.r.requests[id].feePaid).Some?
  {
    var q := w.r.requests[id];
    assert LinkedRequest(w, id, router);
    SumNonnegative(w.c.requests, UnsettledWeight(w.r, router));
    SumNonnegative(w.c.requests, EarnedWeight(router));
    SumNonnegative(w.c.requests, OpenWeight());
    SumNonnegative(w.c.credits, CreditWeight());
    assert UnsettledWeight(w.r, router)(q.provider, w.c.requests[q.provider]) == q.feePaid;
    assert Credit(w.c.credits, router) >= q.feePaid;
    if router in w.c.credits { assert CreditWeight()(router, w.c.credits[router]) == w.c.credits[router]; }
  }

  function Paid(w: World, id: RouterId, router: Address): World
    requires id in w.r.requests && Withdraw(w.c, router, w.r.requests[id].feePaid).Some?
  {
    var fee := w.r.requests[id].feePaid;
    World(Withdraw(w.c, router, fee).value, Credited(w.r.(ether := w.r.ether + fee), id))
  }

  lemma PaidLinks(w: World, id: RouterId, router: Address)
    requires Linked(w, router) && id in w.r.requests && w.c.requests[w.r.requests[id].provider].refunded
    requires Withdraw(w.c, router, w.r.requests[id].feePaid).Some?
    ensures Linked(Paid(w, id, router), router)
    ensures forall k :: k != w.r.requests[id].provider ==> (PaidOut(w.r, k) <==> PaidOut(Paid(w, id, router).r, k))
  {
    var w' := Paid(w, id, router);
    forall k | k in w'.r.requests
      ensures LinkedRequest(w', k, router)
    {
      assert LinkedRequest(w, k, router);
    }
    assert LinkedRequest(w, id, router);
  }

  lemma PaidSums(w: World, id: RouterId, router: Address)
    requires Linked(w, router) && id in w.r.requests && !w.r.requests[id].refunded
    requires w.c.requests[w.r.requests[id].provider].refunded
    requires Withdraw(w.c, router, w.r.requests[id].feePaid).Some?
    ensures var w' := Paid(w, id, router);
      && OpenFees(w'.c) == OpenFees(w.c) && Earned(w'.c, router) == Earned(w.c, router)
      && Unsettled(w', router) == Unsettled(w, router) - w.r.requests[id].feePaid
  {
    assert LinkedRequest(w, id, router);
    PaidLinks(w, id, router);
    UnsettledBecomesPaid(w, id, router);
    SumsAt(w, Paid(w, id, router), w.r.requests[id].provider, router);
  }

  lemma PaidMoney(w: World, id: RouterId, router: Address)
    requires id in w.r.requests && Withdraw(w.c, router, w.r.requests[id].feePaid).Some?
    ensures var w', fee := Paid(w, id, router), w.r.requests[id].feePaid;
      && w'.c.ether == w.c.ether - fee && Credit(w'.c.credits, router) == Credit(w.c.credits, router) - fee
      && SumMap(w'.c.credits, CreditWeight()) == SumMap(w.c.credits, CreditWeight()) - fee
      && w'.r.ether == w.r.ether + fee
      && SumMap(w'.r.credits, CreditWeight()) == SumMap(w.r.credits, CreditWeight()) + fee
  {
    var q := w.r.requests[id];
    WithdrawSums(w.c, router, q.feePaid);
    CreditMoves(w.r.credits, q.consumer, Credit(w.r.credits, q.consumer) + q.feePaid);
  }

  lemma PaidBalances(w: World, id: RouterId, router: Address)
    requires Balanced(w, router) && Linked(w, router) && id in w.r.requests && !w.r.requests[id].refunded
    requires w.c.requests[w.r.requests[id].provider].refunded
    requires Withdraw(w.c, router, w.r.requests[id].feePaid).Some?
    ensures Balanced(Paid(w, id, router), router)
  {
    PaidSums(w, id, router);
    PaidMoney(w, id, router);
  }

  lemma WithdrawSums(c: Coordinator, sender: Address, amount: nat)
    requires Withdraw(c, sender, amount).Some?
    ensures var c' := Withdraw(c, sender, amount).value;
      && SumMap(c'.credits, CreditWeight()) == SumMap(c.credits, CreditWeight()) - amount
      && c'.ether == c.ether - amount && Credit(c'.credits, sender) == Credit(c.credits, sender) - amount
      && c'.requests == c.requests
  {
    CreditMoves(c.credits, sender, Credit(c.credits, sender) - amount);
  }

  /** The paid request leaves the unsettled ones; no other sum changes. */
  lemma UnsettledBecomesPaid(w: World, id: RouterId, router: Address)
    requires Linked(w, router) && id in w.r.requests && !w.r.requests[id].refunded
    requires w.c.requests[w.r.requests[id].provider].refunded
    requires Withdraw(w.c, router, w.r.requests[id].feePaid).Some?
    ensures var k, w' := w.r.requests[id].provider, Paid(w, id, router);
      && UnsettledAt(w, k, router) == w.r.requests[id].feePaid && UnsettledAt(w', k, router) == 0
      && OpenAt(w'.c, k) == OpenAt(w.c, k) && EarnedAt(w'.c, k, router) == EarnedAt(w.c, k, router)
  {
    assert LinkedRequest(w, id, router);
  }

  /** What the router's refund can do. */
  predicate Refundable(w: World, id: RouterId, block: nat)
  {
    && id in w.r.requests && !w.r.requests[id].ready && !w.r.requests[id].refunded
    && w.r.requests[id].provider in w.c.requests
    && var p := w.c.requests[w.r.requests[id].provider];
       !p.fulfilled && (p.refunded || block > p.requestBlock + BLOCKHASH_WINDOW)
  }

  lemma RefundMarks(c: Coordinator, id: ProviderId, block: nat)
    requires Refund(c, id, block).Some?
    ensures id in Refund(c, id, block).value.requests && Refund(c, id, block).value.requests[id].refunded
  {
  }

  /** A routed refund never lacks credit: it succeeds exactly when the request is open at the router, unfulfilled at
      the provider, and refunded there already or past its window. */
  lemma RoutedRefundSucceeds(w: World, id: RouterId, block: nat, router: Address)
    requires Inv(w, router)
    ensures RoutedRefund(w, id, block, router).Some? <==> Refundable(w, id, block)
    ensures RoutedRefund(w, id, block, router).Some? ==> Inv(RoutedRefund(w, id, block, router).value, router)
  {
    if id in w.r.requests { assert LinkedRequest(w, id, router); }
    if Refundable(w, id, block) { RefundableSucceeds(w, id, block, router); }
  }

  lemma RefundableSucceeds(w: World, id: RouterId, block: nat, router: Address)
    requires Inv(w, router) && Refundable(w, id, block)
    ensures RoutedRefund(w, id, block, router).Some? && Inv(RoutedRefund(w, id, block, router).value, router)
  {
    var provider := w.r.requests[id].provider;
    RefundKeeps(w, provider, block, router);
    RefundMarks(w.c, provider, block);
    var w1 := w.(c := Refund(w.c, provider, block).value);
    PaidInv(w1, id, router);
    RoutedRefundIs(w, id, block, router);
  }

  lemma RoutedRefundIs(w: World, id: RouterId, block: nat, router: Address)
    requires id in w.r.requests && !w.r.requests[id].ready && !w.r.requests[id].refunded
    requires Refund(w.c, w.r.requests[id].provider, block).Some?
    requires Withdraw(Refund(w.c, w.r.requests[id].provider, block).value, router, w.r.requests[id].feePaid).Some?
    ensures RoutedRefund(w, id, block, router)
         == Some(Paid(w.(c := Refund(w.c, w.r.requests[id].provider, block).value), id, router))
  {
  }

  /** The second half of a routed refund, once the provider has refunded. */
  lemma PaidInv(w: World, id: RouterId, router: Address)
    requires Inv(w, router) && id in w.r.requests && !w.r.requests[id].refunded
    requires w.c.requests[w.r.requests[id].provider].refunded
    ensures Withdraw(w.c, router, w.r.requests[id].feePaid).Some? && Inv(Paid(w, id, router), router)
  {
    RefundIsCovered(w, id, router);
    PaidLinks(w, id, router);
    PaidBalances(w, id, router);
    PaidSound(w, id, router);
  }

  lemma PaidSound(w: World, id: RouterId, router: Address)
    requires ProviderSound(w.c) && id in w.r.requests && Withdraw(w.c, router, w.r.requests[id].feePaid).Some?
    ensures ProviderSound(Paid(w, id, router).c)
  {
  }

  // -------------------------------------------------------------------------- runs

  lemma ApplyKeeps(w: World, s: Step, router: Address)
    requires Inv(w, router)
    ensures Inv(Apply(w, s, router), router)
  {
    match s {
      case DirectRequest(sender, key, value, numWords, block) =>
        if sender != router && Ask(w.c, sender, key, value, numWords, block).Some? {
          AskKeeps(w, sender, key, value, numWords, block, router);
        }
      case RoutedRequestStep(sender, key, value, numWords, block) =>
        if Routed(w, sender, key, value, numWords, block, router).Some? {
          RoutedKeeps(w, sender, key, value, numWords, block, router);
        }
      case Fulfil(id, proofValid, delivered) =>
        if Settle(w.c, id, proofValid).Some? {
          SettleKeeps(w, id, router);
          DeliverKeeps(w.(c := Settle(w.c, id, true).value), id, delivered, router);
        }
      case RetryCallback(id, delivered) =>
        if id in w.c.requests && w.c.requests[id].fulfilled { DeliverKeeps(w, id, delivered, router); }
      case RefundAtCoordinator(id, block) =>
        if Refund(w.c, id, block).Some? { RefundKeeps(w, id, block, router); }
      case WithdrawAtCoordinator(sender, amount, toRouter) =>
        if sender != router && Withdraw(w.c, sender, amount).Some? { WithdrawKeeps(w, sender, amount, toRouter, router); }
      case RefundAtRouter(id, block) => RoutedRefundSucceeds(w, id, block, router);
      case WithdrawAtRouter(sender, amount) =>
        if PayOut(w.r, sender, amount).Some? { PayOutKeeps(w, sender, amount, router); }
      case Donate(amount) =>
        var w' := w.(r := w.r.(ether := w.r.ether + amount));
        LinksKept(w, w', router);
        SameSums(w, w', router);
    }
  }

  lemma {:induction false} RunKeeps(w: World, steps: seq<Step>, router: Address)
    requires Inv(w, router)
    ensures Inv(After(w, steps, router), router)
    decreases |steps|
  {
    if steps != [] {
      ApplyKeeps(w, steps[0], router);
      RunKeeps(Apply(w, steps[0], router), steps[1..], router);
    }
  }

  /** In every run of the two contracts: the coordinator's ether is its credits plus the fees of open requests; the
      router's credit there is the fees refunded at the provider but not yet at the router, plus what it earned as an
      operator; and no routed request is both ready and refunded. */
  lemma BooksAgree(steps: seq<Step>, router: Address)
    ensures var w := After(Deployed(), steps, router);
      && w.c.ether == SumMap(w.c.credits, CreditWeight()) + OpenFees(w.c)
      && Credit(w.c.credits, router) == Unsettled(w, router) + Earned(w.c, router)
      && w.r.ether >= SumMap(w.r.credits, CreditWeight())
      && (forall id :: id in w.r.requests ==> !(w.r.requests[id].ready && w.r.requests[id].refunded))
  {
    RunKeeps(Deployed(), steps, router);
    var w := After(Deployed(), steps, router);
    forall id | id in w.r.requests
      ensures !(w.r.requests[id].ready && w.r.requests[id].refunded)
    {
      assert LinkedRequest(w, id, router);
    }
  }

  /** Ether that reaches the router for no request: sent to it, or withdrawn to it by somebody else. */
  function Gift(w: World, s: Step, router: Address): nat {
    match s
    case Donate(amount) => amount
    case WithdrawAtCoordinator(sender, amount, toRouter) =>
      if toRouter && sender != router && Withdraw(w.c, sender, amount).Some? then amount else 0
    case _ => 0
  }

  function Gifts(w: World, steps: seq<Step>, router: Address): nat
    decreases |steps|
  {
    if steps == [] then 0 else Gift(w, steps[0], router) + Gifts(Apply(w, steps[0], router), steps[1..], router)
  }

  /** What the router holds above what it owes its consumers. */
  ghost function Surplus(w: World): int { w.r.ether - SumMap(w.r.credits, CreditWeight()) }

  lemma ApplySurplus(w: World, s: Step, router: Address)
    ensures Surplus(Apply(w, s, router)) == Surplus(w) + Gift(w, s, router)
  {
    match s {
      case RefundAtRouter(id, block) =>
        if RoutedRefund(w, id, block, router).Some? {
          var q := w.r.requests[id];
          CreditMoves(w.r.credits, q.consumer, Credit(w.r.credits, q.consumer) + q.feePaid);
        }
      case WithdrawAtRouter(sender, amount) =>
        if PayOut(w.r, sender, amount).Some? {
          CreditMoves(w.r.credits, sender, Credit(w.r.credits, sender) - amount);
        }
      case _ =>
    }
  }

  lemma {:induction false} RunSurplus(w: World, steps: seq<Step>, router: Address)
    ensures Surplus(After(w, steps, router)) == Surplus(w) + Gifts(w, steps, router)
    decreases |steps|
  {
    if steps != [] {
      ApplySurplus(w, steps[0], router);
      RunSurplus(Apply(w, steps[0], router), steps[1..], router);
    }
  }

  /** In every run the router's ether is exactly its consumers' credits plus what was given to it. */
  lemma RouterEther(steps: seq<Step>, router: Address)
    ensures var w := After(Deployed(), steps, router);
      w.r.ether == SumMap(w.r.credits, CreditWeight()) + Gifts(Deployed(), steps, router)
  {
    RunSurplus(Deployed(), steps, router);
  }

  /** When the router is nobody's operator, its credit is exactly the refunds it has not passed on. */
  lemma CreditIsUnsettledRefunds(w: World, router: Address)
    requires Inv(w, router) && forall id :: id in w.c.requests ==> w.c.requests[id].operator != router
    ensures Credit(w.c.credits, router) == Unsettled(w, router)
  {
    EarnsNothing(w.c.requests, router);
  }

  lemma {:induction false} EarnsNothing(m: map<ProviderId, ProviderRequest>, router: Address)
    requires forall id :: id in m ==> m[id].operator != router
    ensures SumMap(m, EarnedWeight(router)) == 0
    decreases |m|
  {
    if m != map[] {
      assert m.Keys != {};
      var k :| k in m;
      SumRemove(m, EarnedWeight(router), k);
      EarnsNothing(m - {k}, router);
    }
  }
}
