/** The books of a coordinator: what every subscription, consumer and sponsor owes to its live requests. */
module Books {
  import opened Outcomes
  import opened MapSums
  import opened ServiceBase
  import opened Lifecycle
  import opened Commitments
  import opened BaseInvariants

  /** The request whose callback runs: fulfilled already, but not settled yet. */
  type Flight = Option<RequestId>

  /** What one request holds: its reserve and its pending slots. */
  datatype Claim = Claim(subscriptionId: SubId, consumer: Address, sponsored: bool, reserve: nat)

  function ClaimOf(r: Request): Claim { Claim(r.subscriptionId, r.consumer, r.sponsored, r.reservedPayment) }

  predicate Live(k: RequestId, d: Digest, f: Flight) { d.request.status == Pending || f == Some(k) }

  function ClaimAt(t: Table, k: RequestId, f: Flight): Option<Claim> {
    if k in t && Live(k, t[k], f) then Some(ClaimOf(t[k].request)) else None
  }

  function ReserveShare(c: Option<Claim>, id: SubId): int {
    if c.Some? && c.value.subscriptionId == id then c.value.reserve else 0
  }

  function SlotShare(c: Option<Claim>, id: SubId, a: Address): int {
    if c.Some? && c.value.subscriptionId == id && c.value.consumer == a then 1 else 0
  }

  function SponsorShare(c: Option<Claim>, a: Address): int {
    if c.Some? && c.value.sponsored && c.value.consumer == a then 1 else 0
  }

  function LiveClaim(k: RequestId, d: Digest, f: Flight): Option<Claim> {
    if Live(k, d, f) then Some(ClaimOf(d.request)) else None
  }

  ghost function ReserveWeight(id: SubId, f: Flight): (RequestId, Digest) -> int {
    (k, d) => ReserveShare(LiveClaim(k, d, f), id)
  }

  ghost function SlotWeight(id: SubId, a: Address, f: Flight): (RequestId, Digest) -> int {
    (k, d) => SlotShare(LiveClaim(k, d, f), id, a)
  }

  ghost function SponsorWeight(a: Address, f: Flight): (RequestId, Digest) -> int {
    (k, d) => SponsorShare(LiveClaim(k, d, f), a)
  }

  ghost function Reserved(t: Table, id: SubId, f: Flight): int { SumMap(t, ReserveWeight(id, f)) }

  ghost function Waiting(t: Table, id: SubId, a: Address, f: Flight): int { SumMap(t, SlotWeight(id, a, f)) }

  ghost function SponsoredWaiting(t: Table, a: Address, f: Flight): int { SumMap(t, SponsorWeight(a, f)) }

  /** Every reserve is the sum of the reserves of the live requests, and every pending counter is their number. */
  ghost predicate Booked(b: Base, t: Table, f: Flight) {
    && (forall id :: Sub(b, id).reserved == Reserved(t, id, f))
    && (forall id, a :: Consumer(b, id, a).pendingRequests == Waiting(t, id, a, f))
    && (forall a :: Sponsor(b, a).pendingRequests == SponsoredWaiting(t, a, f))
  }

  // ------------------------------------------------------- changing one request

  predicate FlightsAgreeOff(k: RequestId, f: Flight, f': Flight) {
    f == f' || (f == None && f' == Some(k)) || (f == Some(k) && f' == None)
  }

  lemma ReservedMoves(t: Table, t': Table, k: RequestId, f: Flight, f': Flight, id: SubId)
    requires t - {k} == t' - {k} && FlightsAgreeOff(k, f, f')
    ensures Reserved(t', id, f') - ReserveShare(ClaimAt(t', k, f'), id) == Reserved(t, id, f) - ReserveShare(ClaimAt(t, k, f), id)
  {
    SumsMove(t, t', k, ReserveWeight(id, f), ReserveWeight(id, f'));
  }

  lemma WaitingMoves(t: Table, t': Table, k: RequestId, f: Flight, f': Flight, id: SubId, a: Address)
    requires t - {k} == t' - {k} && FlightsAgreeOff(k, f, f')
    ensures Waiting(t', id, a, f') - SlotShare(ClaimAt(t', k, f'), id, a)
         == Waiting(t, id, a, f) - SlotShare(ClaimAt(t, k, f), id, a)
  {
    SumsMove(t, t', k, SlotWeight(id, a, f), SlotWeight(id, a, f'));
  }

  lemma SponsoredMoves(t: Table, t': Table, k: RequestId, f: Flight, f': Flight, a: Address)
    requires t - {k} == t' - {k} && FlightsAgreeOff(k, f, f')
    ensures SponsoredWaiting(t', a, f') - SponsorShare(ClaimAt(t', k, f'), a)
         == SponsoredWaiting(t, a, f) - SponsorShare(ClaimAt(t, k, f), a)
  {
    SumsMove(t, t', k, SponsorWeight(a, f), SponsorWeight(a, f'));
  }

  /** Storage moved by exactly the difference of two claims. */
  ghost predicate Moved(b: Base, c: Option<Claim>, b': Base, c': Option<Claim>) {
    && (forall id :: Sub(b', id).reserved - ReserveShare(c', id) == Sub(b, id).reserved - ReserveShare(c, id))
    && (forall id, a :: Consumer(b', id, a).pendingRequests - SlotShare(c', id, a)
                     == Consumer(b, id, a).pendingRequests - SlotShare(c, id, a))
    && (forall a :: Sponsor(b', a).pendingRequests - SponsorShare(c', a) == Sponsor(b, a).pendingRequests - SponsorShare(c, a))
  }

  lemma BookedMoves(b: Base, t: Table, f: Flight, b': Base, t': Table, f': Flight, k: RequestId)
    requires Booked(b, t, f) && t - {k} == t' - {k} && FlightsAgreeOff(k, f, f')
    requires Moved(b, ClaimAt(t, k, f), b', ClaimAt(t', k, f'))
    ensures Booked(b', t', f')
  {
    forall id
      ensures Sub(b', id).reserved == Reserved(t', id, f')
    {
      ReservedMoves(t, t', k, f, f', id);
    }
    forall id, a
      ensures Consumer(b', id, a).pendingRequests == Waiting(t', id, a, f')
    {
      WaitingMoves(t, t', k, f, f', id, a);
    }
    forall a
      ensures Sponsor(b', a).pendingRequests == SponsoredWaiting(t', a, f')
    {
      SponsoredMoves(t, t', k, f, f', a);
    }
  }

  /** A live request's claim is covered by the books, so giving it back never underflows. */
  lemma ClaimIsBooked(b: Base, t: Table, f: Flight, k: RequestId)
    requires Booked(b, t, f) && ClaimAt(t, k, f).Some?
    ensures var c := ClaimAt(t, k, f).value;
      && c.reserve <= Sub(b, c.subscriptionId).reserved
      && 1 <= Consumer(b, c.subscriptionId, c.consumer).pendingRequests
      && (c.sponsored ==> 1 <= Sponsor(b, c.consumer).pendingRequests)
  {
    var c := ClaimAt(t, k, f).value;
    SumNonnegative(t, ReserveWeight(c.subscriptionId, f));
    SumNonnegative(t, SlotWeight(c.subscriptionId, c.consumer, f));
    SumNonnegative(t, SponsorWeight(c.consumer, f));
    assert ReserveWeight(c.subscriptionId, f)(k, t[k]) == c.reserve;
    assert SlotWeight(c.subscriptionId, c.consumer, f)(k, t[k]) == 1;
    assert c.sponsored ==> SponsorWeight(c.consumer, f)(k, t[k]) == 1;
  }

  // ------------------------------------------------------------ what the base writes

  function ReleaseClaim(b: Base, c: Claim): Option<Base> { Release(b, c.subscriptionId, c.consumer,
                        c.sponsored, c.reserve) }

  lemma ReleaseMoves(b: Base, c: Claim)
    requires ReleaseClaim(b, c).Some?
    ensures Moved(b, Some(c), ReleaseClaim(b, c).value, None)
  {
  }

  /** Fields a lifecycle step does not write. */
  predicate SameSetup(b: Base, b': Base) {
    && b'.keys == b.keys && b'.pricing == b.pricing && b'.pricingVersion == b.pricingVersion
    && b'.pricingVersions == b.pricingVersions && b'.nextKeyVersion == b.nextKeyVersion
    && b'.keyVersions == b.keyVersions && b'.currentKeyVersions == b.currentKeyVersions
    && b'.nextSubscriptionId == b.nextSubscriptionId && b'.locked == b.locked
  }

  lemma ReleaseFrame(b: Base, c: Claim)
    requires ReleaseClaim(b, c).Some?
    ensures var b' := ReleaseClaim(b, c).value;
      && SameSetup(b, b') && b'.nonces == b.nonces && b'.ether == b.ether
      && b'.operatorCredits == b.operatorCredits && b'.treasuryCredits == b.treasuryCredits
      && b'.subscriptions == b.subscriptions[c.subscriptionId :=
           Sub(b, c.subscriptionId).(reserved := Sub(b, c.subscriptionId).reserved - c.reserve)]
  {
  }
}
