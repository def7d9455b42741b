/** The last guard of a reshare in operator/threshold-dkg.mjs can fire: finalization may be given a dealer roster that lists
    the two selected dealers in the other order, and dealers that follow it pass every other check. */
module DkgGuard {
  import opened Outcomes
  import opened Field
  import opened Polynomial
  import opened ThresholdCrypto
  import opened ThresholdGroup
  import opened Sequences
  import opened ThresholdDkg
  import opened DkgTheorems
  import opened DkgDealing

  /** Dealers 1 and 2 of the previous manifest are selected; the dealer roster numbers them 2 and 1. */
  ghost predicate Crossed(s: Setup, a: Id, b: Id, shareA: nat, shareB: nat, p: nat)
    requires p > 0
  {
    && ReshareSetup(s, p) && s.expected.threshold == 2 && s.expected.selectedDealerIds == [a, b]
    && ValidRoster(s.roster, 2) && ValidDealers(s.dealers)
    && SelectedDealerIndexes(s.previous, [a, b]) == Ok([1, 2])
    && DealerAt(s, a, 2, shareA, p) && DealerAt(s, b, 1, shareB, p)
  }

  ghost predicate DealerAt(s: Setup, id: Id, index: int, share: nat, p: nat)
    requires s.previous.Some?
  {
    var (dealer, member) := (Find(s.dealers, id), FindMember(s.previous.value.members, id));
    && dealer.Some? && dealer.value.index == index && member.Some?
    && Decode(member.value.sharePublicKey, p, false) == Ok(share)
  }

  predicate Ready(s: Setup) {
    && s.expected.ceremony.Reshare? && s.previous.Some? && s.expected.threshold == 2 && ValidRoster(s.roster, 2)
    && SelectedDealerIndexes(s.previous, s.expected.selectedDealerIds) == Ok([1, 2])
  }

  // ------------------------------------------------------------------ the packets

  function Seals(c: seq<nat>, h: Header, roster: seq<Participant>, p: nat): (r: seq<SealedShare>)
    requires p > 0
    ensures |r| == |roster| && forall i :: 0 <= i < |r| ==> r[i] == SealFor(c, h, roster[i], p)
  {
    seq(|roster|, i requires 0 <= i < |roster| => SealFor(c, h, roster[i], p))
  }

  /** The deal of a dealer that follows the dealer roster, with the top coefficient 1. */
  function DealOf(s: Setup, id: Id, index: int, constant: nat, p: nat): Packet<Deal>
    requires p > 0 && Find(s.dealers, id).Some?
  {
    var (e, c) := (s.expected, [constant, 1]);
    var h := Header(e.ceremony, e.sessionId, e.epoch, e.threshold, id, index, e.previousManifestHash, e.selectedDealerIds,
                    CommitmentsFor(c));
    var body := Deal(h, Seals(c, h, s.roster, p));
    Packet(body, SignedBy(Find(s.dealers, id).value.identity, body))
  }

  /** The old share under the weight of the index in the dealer roster. */
  ghost function Constant(share: nat, index: int, p: nat): (r: nat)
    requires IsPrime(p) && p > 31 && 1 <= index <= 2
    ensures r < p
  {
    (share * Lambda([1, 2], index, p)) % p
  }

  function ResponseOf(s: Setup, who: Participant, a: Id, b: Id): Packet<Response> {
    var e := s.expected;
    var body := Response(e.ceremony, e.sessionId, e.epoch, e.threshold, who.id, who.index,
                         [Status(a, true, ""), Status(b, true, "")]);
    Packet(body, SignedBy(who.identity, body))
  }

  function Responses(s: Setup, a: Id, b: Id): (r: seq<Packet<Response>>)
    ensures |r| == |s.roster| && forall i :: 0 <= i < |r| ==> r[i] == ResponseOf(s, s.roster[i], a, b)
  {
    seq(|s.roster|, i requires 0 <= i < |s.roster| => ResponseOf(s, s.roster[i], a, b))
  }

  ghost function DealA(s: Setup, a: Id, share: nat, p: nat): Packet<Deal>
    requires IsPrime(p) && p > 31 && Find(s.dealers, a).Some?
  {
    DealOf(s, a, 2, Constant(share, 2, p), p)
  }

  ghost function DealB(s: Setup, b: Id, share: nat, p: nat): Packet<Deal>
    requires IsPrime(p) && p > 31 && Find(s.dealers, b).Some?
  {
    DealOf(s, b, 1, Constant(share, 1, p), p)
  }

  ghost function Delivered(s: Setup, a: Id, b: Id, shareA: nat, shareB: nat, p: nat): Packets
    requires IsPrime(p) && p > 31 && Find(s.dealers, a).Some? && Find(s.dealers, b).Some?
  {
    Packets([DealA(s, a, shareA, p), DealB(s, b, shareB, p)], Responses(s, a, b), [])
  }

  // -------------------------------------------------------------- they pass every check

  lemma DealPasses(s: Setup, id: Id, index: int, share: nat, responses: seq<Packet<Response>>,
                   deals: seq<Packet<Deal>>, p: nat)
    requires IsPrime(p) && p > 31 && Ready(s)
    requires 1 <= index <= 2 && DealerAt(s, id, index, share, p)
    ensures var packet := DealOf(s, id, index, Constant(share, index, p), p);
      && DealAccepted(packet, s, Packets(deals, responses, []), p)
      && DealsFrom(packet, [Constant(share, index, p), 1], s.roster, p)
  {
    var packet := DealOf(s, id, index, Constant(share, index, p), p);
    assert index in [1, 2];
    HonestDealIsAccepted(packet, [Constant(share, index, p), 1], s, Keystore(id, 0, 0, Some(share), None), p);
  }

  lemma ResponsePasses(s: Setup, a: Id, b: Id, i: nat)
    requires a != b && ValidRoster(s.roster, 2) && i < |s.roster|
    ensures ValidResponse(Responses(s, a, b)[i], s)
  {
    FindIsUnique(s.roster, i, 2);
    assert ValidStatuses([Status(a, true, ""), Status(b, true, "")]);
  }

  lemma ResponsesPass(s: Setup, a: Id, b: Id)
    requires a != b && ValidRoster(s.roster, 2)
    ensures ResponsesValid(Responses(s, a, b), s)
    ensures forall i :: 0 <= i < |Responses(s, a, b)| ==>
      SameIds(Map(Responses(s, a, b)[i].body.statuses, StatusDealer()), [a, b])
  {
    var rs := Responses(s, a, b);
    forall i | 0 <= i < |rs|
      ensures ValidResponse(rs[i], s) && SameIds(Map(rs[i].body.statuses, StatusDealer()), [a, b])
    {
      ResponsePasses(s, a, b, i);
      assert Map(rs[i].body.statuses, StatusDealer()) == [a, b];
    }
    assert forall i :: 0 <= i < |rs| ==> Map(rs, ResponseId())[i] == s.roster[i].id;
  }

  lemma CrossedDistinct(s: Setup, a: Id, b: Id, shareA: nat, shareB: nat, p: nat)
    requires p > 0 && Crossed(s, a, b, shareA, shareB, p)
    ensures a != b
  {
    assert Find(s.dealers, a).value.index != Find(s.dealers, b).value.index;
  }

  lemma TwoDealsAccepted(s: Setup, packets: Packets, x: Packet<Deal>, y: Packet<Deal>, p: nat)
    requires IsPrime(p) && packets.deals == [x, y] && packets.resolutions == []
    requires x.body.header.dealerId != y.body.header.dealerId
    requires DealAccepted(x, s, packets, p) && DealAccepted(y, s, packets, p) && ResponsesValid(packets.responses, s)
    requires forall i :: 0 <= i < |packets.responses| ==>
      SameIds(Map(packets.responses[i].body.statuses, StatusDealer()), [x.body.header.dealerId, y.body.header.dealerId])
    ensures PacketsAccepted(s, packets, p)
  {
    assert DealIds(packets.deals) == [x.body.header.dealerId, y.body.header.dealerId];
  }

  lemma PacketsPass(s: Setup, a: Id, b: Id, shareA: nat, shareB: nat, p: nat)
    requires IsPrime(p) && p > 31 && Crossed(s, a, b, shareA, shareB, p)
    ensures PacketsAccepted(s, Delivered(s, a, b, shareA, shareB, p), p)
  {
    CrossedDistinct(s, a, b, shareA, shareB, p);
    var packets := Delivered(s, a, b, shareA, shareB, p);
    DealPasses(s, a, 2, shareA, packets.responses, packets.deals, p);
    DealPasses(s, b, 1, shareB, packets.responses, packets.deals, p);
    ResponsesPass(s, a, b);
    TwoDealsAccepted(s, packets, DealA(s, a, shareA, p), DealB(s, b, shareB, p), p);
  }

  lemma {:induction false} FilterNone<T>(rs: seq<T>, keep: T -> bool)
    requires forall i :: 0 <= i < |rs| ==> !keep(rs[i])
    ensures Filter(rs, keep) == []
  {
    if rs != [] { FilterNone(rs[1..], keep); }
  }

  lemma {:induction false} FilterEvery<T>(rs: seq<T>, keep: T -> bool)
    requires forall i :: 0 <= i < |rs| ==> keep(rs[i])
    ensures Filter(rs, keep) == rs
  {
    if rs != [] { FilterEvery(rs[1..], keep); }
  }

  lemma Approved(s: Setup, a: Id, b: Id, d: Id)
    requires a != b && (d == a || d == b) && ValidRoster(s.roster, 2)
    ensures Qualifies(d, Responses(s, a, b), [], 2)
  {
    var rs := Responses(s, a, b);
    forall i | 0 <= i < |rs|
      ensures Approves(d)(rs[i]) && !Complains(d)(rs[i])
    {
      assert rs[i].body.statuses[1..] == [Status(b, true, "")];
      assert Verdict([Status(b, true, "")], b) == Some(true);
    }
    FilterNone(rs, Complains(d));
    FilterEvery(rs, Approves(d));
  }

  lemma BothQualify(s: Setup, a: Id, b: Id, shareA: nat, shareB: nat, p: nat)
    requires IsPrime(p) && p > 31 && Crossed(s, a, b, shareA, shareB, p)
    ensures var packets := Delivered(s, a, b, shareA, shareB, p);
      QualifiedDeals(packets, 2) == packets.deals && QuorumQualified(s, packets)
  {
    var packets := Delivered(s, a, b, shareA, shareB, p);
    CrossedDistinct(s, a, b, shareA, shareB, p);
    Approved(s, a, b, a);
    Approved(s, a, b, b);
    FilterEvery(packets.deals, QualifiedBy(packets, 2));
    assert DealIds(packets.deals)[0] == a && DealIds(packets.deals)[1] == b;
  }

  lemma SumOfTwo<T>(x: T, y: T, f: T -> int)
    ensures Sum([x, y], f) == f(x) + f(y)
  {
    assert [x, y][1..] == [y] && [y][1..] == [];
    assert Sum([y], f) == f(y);
  }

  lemma EvalLine(constant: int, slope: int, x: int)
    ensures Eval([constant, slope], x) == constant + slope * x
  {
    assert [constant, slope][1..] == [slope] && [slope][1..] == [];
    assert Eval([slope], x) == slope;
  }

  /** The value of constant + x at 1. */
  function AtOne(constant: nat, p: nat): nat
    requires p > 0
  {
    (constant + 1) % p
  }

  lemma FirstIsServed(s: Setup, id: Id, index: int, share: nat, p: nat)
    requires IsPrime(p) && p > 31 && Ready(s) && 1 <= index <= 2 && DealerAt(s, id, index, share, p)
    requires AtOne(Constant(share, index, p), p) != 0
    ensures Contribution(DealOf(s, id, index, Constant(share, index, p), p), s.roster[0], s.roster[0].transport, [], p)
         == Some(AtOne(Constant(share, index, p), p))
  {
    DealPasses(s, id, index, share, [], [], p);
    HonestDealServesEveryone(DealOf(s, id, index, Constant(share, index, p), p), [Constant(share, index, p), 1],
                             s.roster, 2, [], 0, p);
    EvalLine(Constant(share, index, p), 1, 1);
    assert s.roster[0].index == 1;
  }

  lemma AServed(s: Setup, a: Id, share: nat, p: nat)
    requires IsPrime(p) && p > 31 && Ready(s) && DealerAt(s, a, 2, share, p) && AtOne(Constant(share, 2, p), p) != 0
    ensures Contribution(DealA(s, a, share, p), s.roster[0], s.roster[0].transport, [], p)
         == Some(AtOne(Constant(share, 2, p), p))
  {
    FirstIsServed(s, a, 2, share, p);
  }

  lemma BServed(s: Setup, b: Id, share: nat, p: nat)
    requires IsPrime(p) && p > 31 && Ready(s) && DealerAt(s, b, 1, share, p) && AtOne(Constant(share, 1, p), p) != 0
    ensures Contribution(DealB(s, b, share, p), s.roster[0], s.roster[0].transport, [], p)
         == Some(AtOne(Constant(share, 1, p), p))
  {
    FirstIsServed(s, b, 1, share, p);
  }

  ghost function NewKey(shareA: nat, shareB: nat, p: nat): int
    requires IsPrime(p) && p > 31
  {
    Constant(shareA, 2, p) + Constant(shareB, 1, p)
  }

  lemma SumOfShares(x: Packet<Deal>, y: Packet<Deal>, me: Participant, sx: nat, sy: nat, p: nat)
    requires p > 0 && (sx + sy) % p != 0
    requires Contribution(x, me, me.transport, [], p) == Some(sx) && Contribution(y, me, me.transport, [], p) == Some(sy)
    ensures SharesAvailable([x, y], me, me.transport, [], p)
    ensures Sum([x, y], ContributionOf(me, me.transport, [], p)) % p != 0
  {
    SumOfTwo(x, y, ContributionOf(me, me.transport, [], p));
  }

  // ------------------------------------------------------------------ the two keys

  /** The weights of the indexes 1 and 2 are 2 and -1. */
  lemma Weights(p: nat)
    requires IsPrime(p) && p > 31
    ensures ValidIndexes([1, 2], p)
    ensures Cong(Lambda([1, 2], 1, p), 2, p) && Cong(Lambda([1, 2], 2, p), -1, p)
  {
    var x, y := Lambda([1, 2], 1, p), Lambda([1, 2], 2, p);
    EvalLine(1, 0, 0);
    EvalLine(1, 0, 1);
    EvalLine(1, 0, 2);
    InterpolationAtZero([1, 0], [1, 2], [1, 1], p);
    UnfoldWeights([1, 1], p);
    EvalLine(0, 1, 0);
    EvalLine(0, 1, 1);
    EvalLine(0, 1, 2);
    InterpolationAtZero([0, 1], [1, 2], [1, 2], p);
    UnfoldWeights([1, 2], p);
    assert Cong(x + y, 1, p) && Cong(x + 2 * y, 0, p);
    CongAdd(x + 2 * y, 0, x + y, 1, p);
    CongAdd(x + y, 1, y, -1, p);
  }

  lemma UnfoldWeights(ys: seq<int>, p: nat)
    requires IsPrime(p) && p > 31 && |ys| == 2 && ValidIndexes([1, 2], p)
    ensures WeightedSum([1, 2], ys, 2, p) == ys[0] * Lambda([1, 2], 1, p) + ys[1] * Lambda([1, 2], 2, p)
  {
    assert WeightedSum([1, 2], ys, 0, p) == 0;
    assert WeightedSum([1, 2], ys, 1, p) == ys[0] * Lambda([1, 2], 1, p);
  }

  lemma WeightedShare(share: nat, index: int, weight: int, p: nat)
    requires IsPrime(p) && p > 31 && 1 <= index <= 2 && ValidIndexes([1, 2], p) && Cong(Lambda([1, 2], index, p), weight, p)
    ensures Cong(Constant(share, index, p), share * weight, p)
  {
    CongScale(Lambda([1, 2], index, p), weight, share, p);
    CongMod(share * Lambda([1, 2], index, p), p);
  }

  /** The crossed constants sum to 2 * shareB - shareA. */
  lemma CrossedKey(shareA: nat, shareB: nat, p: nat)
    requires IsPrime(p) && p > 31
    ensures Cong(NewKey(shareA, shareB, p), 2 * shareB - shareA, p)
  {
    Weights(p);
    WeightedShare(shareA, 2, -1, p);
    WeightedShare(shareB, 1, 2, p);
    CongAdd(Constant(shareA, 2, p), shareA * -1, Constant(shareB, 1, p), shareB * 2, p);
  }

  /** The old key is 2 * shareA - shareB. */
  lemma OldKey(s: Setup, a: Id, b: Id, shareA: nat, shareB: nat, p: nat)
    requires IsPrime(p) && p > 31 && Crossed(s, a, b, shareA, shareB, p)
    ensures Cong(s.previous.value.groupPublicKey.log, 2 * shareA - shareB, p)
  {
    var was := s.previous.value;
    Weights(p);
    SelectedAreMembers(s, p);
    SelectedSharesInterpolate(was, [a, b], [1, 2], p);
    assert OldShares(was.members, [a, b]) == [shareA, shareB];
    UnfoldWeights([shareA, shareB], p);
    CongScale(Lambda([1, 2], 1, p), 2, shareA, p);
    CongScale(Lambda([1, 2], 2, p), -1, shareB, p);
    CongAdd(shareA * Lambda([1, 2], 1, p), shareA * 2, shareB * Lambda([1, 2], 2, p), shareB * -1, p);
  }

  lemma KeysDiffer(key: int, newKey: int, shareA: nat, shareB: nat, p: nat)
    requires IsPrime(p) && p > 31 && shareA < p && shareB < p
    requires Cong(key, 2 * shareA - shareB, p) && Cong(newKey, 2 * shareB - shareA, p)
    ensures Cong(newKey, key, p) <==> shareA == shareB
  {
    if Cong(newKey, key, p) {
      CongToZero(2 * shareB - shareA, 2 * shareA - shareB, p);
      assert (2 * shareB - shareA) - (2 * shareA - shareB) == 3 * (shareB - shareA);
      ZeroProduct(3, shareB - shareA, p);
      ModSmall(3, p);
      ModSmall(0, p);
      CongAdd(shareB - shareA, 0, shareA, shareA, p);
      CongSmall(shareB, shareA, p);
    }
  }

  lemma UpToKey(s: Setup, packets: Packets, q: seq<Packet<Deal>>, me: Participant, p: nat)
    requires IsPrime(p) && ValidRoster(s.roster, s.expected.threshold) && ValidDealers(s.dealers)
    requires Find(s.roster, me.id) == Some(me) && PacketsAccepted(s, packets, p) && QuorumQualified(s, packets)
    requires q == QualifiedDeals(packets, s.expected.threshold)
    requires SharesAvailable(q, me, me.transport, packets.resolutions, p)
    requires Sum(q, ContributionOf(me, me.transport, packets.resolutions, p)) % p != 0
    ensures AcceptedUpToKey(s, packets, me.id, me.transport, p)
  {
  }

  lemma FirstSum(x: Packet<Deal>, y: Packet<Deal>, me: Participant, shareA: nat, shareB: nat, p: nat)
    requires IsPrime(p) && p > 31 && FirstServed(shareA, shareB, p)
    requires Contribution(x, me, me.transport, [], p) == Some(AtOne(Constant(shareA, 2, p), p))
    requires Contribution(y, me, me.transport, [], p) == Some(AtOne(Constant(shareB, 1, p), p))
    ensures SharesAvailable([x, y], me, me.transport, [], p)
    ensures Sum([x, y], ContributionOf(me, me.transport, [], p)) % p != 0
  {
    FirstParts(shareA, shareB, p);
    SumOfShares(x, y, me, AtOne(Constant(shareA, 2, p), p), AtOne(Constant(shareB, 1, p), p), p);
  }

  lemma PassesUpToKey(s: Setup, a: Id, b: Id, shareA: nat, shareB: nat, p: nat)
    requires IsPrime(p) && p > 31 && Crossed(s, a, b, shareA, shareB, p) && FirstServed(shareA, shareB, p)
    ensures AcceptedUpToKey(s, Delivered(s, a, b, shareA, shareB, p), s.roster[0].id, s.roster[0].transport, p)
  {
    var x, y := DealA(s, a, shareA, p), DealB(s, b, shareB, p);
    FirstParts(shareA, shareB, p);
    AServed(s, a, shareA, p);
    BServed(s, b, shareB, p);
    FirstSum(x, y, s.roster[0], shareA, shareB, p);
    PacketsPass(s, a, b, shareA, shareB, p);
    BothQualify(s, a, b, shareA, shareB, p);
    FindIsUnique(s.roster, 0, 2);
    UpToKey(s, Delivered(s, a, b, shareA, shareB, p), [x, y], s.roster[0], p);
  }

  /** Neither contribution to the first participant is zero, nor their sum. */
  predicate FirstServed(shareA: nat, shareB: nat, p: nat)
    requires p > 0
  {
    (1 - shareA) % p != 0 && (2 * shareB + 1) % p != 0 && (2 * shareB - shareA + 2) % p != 0
  }

  lemma FirstParts(shareA: nat, shareB: nat, p: nat)
    requires IsPrime(p) && p > 31 && FirstServed(shareA, shareB, p)
    ensures var (x, y) := (AtOne(Constant(shareA, 2, p), p), AtOne(Constant(shareB, 1, p), p));
      x != 0 && y != 0 && (x + y) % p != 0
  {
    Weights(p);
    WeightedShare(shareA, 2, -1, p);
    WeightedShare(shareB, 1, 2, p);
    CongAdd(Constant(shareA, 2, p), shareA * -1, 1, 1, p);
    CongAdd(Constant(shareB, 1, p), shareB * 2, 1, 1, p);
    CrossedKey(shareA, shareB, p);
    CongAdd(NewKey(shareA, shareB, p), 2 * shareB - shareA, 2, 2, p);
    CongMod(Constant(shareA, 2, p) + 1, p);
    CongMod(Constant(shareB, 1, p) + 1, p);
    CongAdd(AtOne(Constant(shareA, 2, p), p), Constant(shareA, 2, p) + 1,
            AtOne(Constant(shareB, 1, p), p), Constant(shareB, 1, p) + 1, p);
  }

  lemma KeyKeptIfEqual(s: Setup, a: Id, b: Id, shareA: nat, shareB: nat, p: nat)
    requires IsPrime(p) && p > 31 && Crossed(s, a, b, shareA, shareB, p)
    ensures var packets := Delivered(s, a, b, shareA, shareB, p);
      KeyKept(s, AggregateCommitments(packets.deals, 2, p)[0]) <==> shareA == shareB
  {
    var deals, key := Delivered(s, a, b, shareA, shareB, p).deals, s.previous.value.groupPublicKey;
    SumOfTwo(DealA(s, a, shareA, p), DealB(s, b, shareB, p), CommitmentLog(0));
    assert Sum(deals, CommitmentLog(0)) == NewKey(shareA, shareB, p);
    CrossedKey(shareA, shareB, p);
    OldKey(s, a, b, shareA, shareB, p);
    KeysDiffer(key.log, NewKey(shareA, shareB, p), shareA, shareB, p);
    ModSmall(key.log, p);
  }

  /** For every old manifest with threshold two whose first two holders are selected, and every dealer roster that crosses
      them: packets that follow the roster pass every check before the last, as long as none of the first participant's
      shares is zero, and the last one passes if and only if the two old shares are equal. */
  lemma CrossedReshare(s: Setup, a: Id, b: Id, shareA: nat, shareB: nat, p: nat)
    requires IsPrime(p) && p > 31 && Crossed(s, a, b, shareA, shareB, p) && FirstServed(shareA, shareB, p)
    ensures var packets := Delivered(s, a, b, shareA, shareB, p);
      && AcceptedUpToKey(s, packets, s.roster[0].id, s.roster[0].transport, p)
      && (Accepted(s, packets, s.roster[0].id, s.roster[0].transport, p) <==> shareA == shareB)
  {
    PassesUpToKey(s, a, b, shareA, shareB, p);
    BothQualify(s, a, b, shareA, shareB, p);
    KeyKeptIfEqual(s, a, b, shareA, shareB, p);
  }

  // ------------------------------------------------------------------- an instance

  function Person(id: nat, index: nat): Participant { Participant(id, index, 10 + id, 20 + id, 30 + id) }

  function Holder(id: nat): Member { Member(Person(id, id), Encoded(5 * id + 1)) }

  /** Three holders of shares of the polynomial 1 + 5 x. No share that the crossed dealers hand out is zero. */
  function Line(): Body {
    Body(Domain("", 0, 0), Dkg, None, 1, 2, Encoded(1), [Encoded(1), Encoded(5)], [Holder(1), Holder(2), Holder(3)])
  }

  function Example(): Setup {
    Setup([Person(1, 1), Person(2, 2), Person(3, 3)], [Person(2, 1), Person(1, 2)],
          Expected(Reshare, 0, 2, 2, Some(Line()), [1, 2]), Some(Line()))
  }

  lemma LineIsValid(p: nat)
    requires p > 31
    ensures ValidBody(Line(), p)
  {
    var b := Line();
    assert Logs(b.coefficients) == [1, 5];
    forall i | 0 <= i < |b.members|
      ensures ShareCommitted(b, i, p)
    {
      EvalLine(1, 5, i + 1);
      ModSmall(5 * i + 6, p);
    }
  }

  lemma LineIndexes()
    ensures SelectedDealerIndexes(Some(Line()), [1, 2]) == Ok([1, 2])
  {
    LineMembers();
    var members, sel: seq<Id> := Line().members, [1, 2];
    assert IndexesOf(members, sel) == [1, 2];
    assert MemberIdsOf(members) == sel + [3];
    FilterEvery(sel, AmongIds(sel));
    FilterAppend(sel, 3, AmongIds(sel));
  }

  lemma LineMembers()
    ensures LastMember(Line().members, 1) == Some(Holder(1)) && LastMember(Line().members, 2) == Some(Holder(2))
  {
    var members := Line().members;
    assert members[..2] == [Holder(1), Holder(2)] && members[..2][..1] == [Holder(1)];
    assert LastMember(members[..2], 2) == Some(Holder(2));
    assert LastMember(members[..2][..1], 1) == Some(Holder(1));
  }

  lemma ExampleDealers(p: nat)
    requires p > 31
    ensures DealerAt(Example(), 1, 2, 6, p) && DealerAt(Example(), 2, 1, 11, p)
  {
    var dealers, members := Example().dealers, Line().members;
    assert dealers[1..] == [Person(1, 2)] && Find(dealers[1..], 1) == Some(Person(1, 2));
    assert FindMember(members, 1) == Some(Holder(1));
    assert members[1..] == [Holder(2), Holder(3)] && FindMember(members[1..], 2) == Some(Holder(2));
  }

  lemma ExampleRosters()
    ensures ValidRoster(Example().roster, 2) && ValidDealers(Example().dealers)
  {
  }

  lemma CrossedFrom(s: Setup, line: Body, p: nat)
    requires p > 31 && s.previous == Some(line) && ValidBody(line, p)
    requires s.expected == Expected(Reshare, 0, 2, 2, Some(line), [1, 2])
    requires ValidRoster(s.roster, 2) && ValidDealers(s.dealers) && SelectedDealerIndexes(Some(line), [1, 2]) == Ok([1, 2])
    requires DealerAt(s, 1, 2, 6, p) && DealerAt(s, 2, 1, 11, p)
    ensures Crossed(s, 1, 2, 6, 11, p)
  {
  }

  lemma CrossedExample(p: nat) returns (s: Setup)
    requires p > 31
    ensures Crossed(s, 1, 2, 6, 11, p)
  {
    s := Example();
    LineIsValid(p);
    LineIndexes();
    ExampleDealers(p);
    ExampleRosters();
    CrossedFrom(s, Line(), p);
  }

  /** The setup is possible, and with it packets that everything but the guard accepts. */
  lemma GuardFires(p: nat) returns (s: Setup, packets: Packets, me: Id, transport: nat)
    requires IsPrime(p) && p > 31
    ensures ReshareSetup(s, p) && AcceptedUpToKey(s, packets, me, transport, p)
    ensures !Accepted(s, packets, me, transport, p) && !SameIndexes(s)
  {
    s := CrossedExample(p);
    packets, me, transport := Delivered(s, 1, 2, 6, 11, p), s.roster[0].id, s.roster[0].transport;
    ModSmall(18, p);
    ModSmall(23, p);
    ModUnique(-5, -1, p - 5, p);
    CrossedReshare(s, 1, 2, 6, 11, p);
    if SameIndexes(s) { ReshareKeepsKey(s, packets, me, transport, p); }
  }
}
