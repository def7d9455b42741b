/** The dealer's side of operator/threshold-dkg.mjs, and the manifest assembled at the end. */
module DkgDealing {
  import opened Outcomes
  import opened Field
  import opened Polynomial
  import opened ThresholdCrypto
  import opened ThresholdGroup
  import opened Sequences
  import opened ThresholdDkg
  import opened DkgTheorems
  import opened DkgQualification

  datatype Keystore = Keystore(participantId: Id, identity: nat, transport: nat, share: Option<nat>, boundTo: Option<Body>)

  ghost predicate DealsFrom(packet: Packet<Deal>, coefficients: seq<nat>, roster: seq<Participant>, p: nat)
    requires p > 0
  {
    var h := packet.body.header;
    && |coefficients| == h.threshold && |coefficients| >= 1
    && (forall i :: 0 <= i < |coefficients| ==> coefficients[i] < p)
    && coefficients[|coefficients| - 1] != 0
    && h.commitments == CommitmentsFor(coefficients)
    && |packet.body.encryptedShares| == |roster|
    && forall i :: 0 <= i < |roster| ==> packet.body.encryptedShares[i] == SealFor(coefficients, h, roster[i], p)
  }

  function SealFor(coefficients: seq<nat>, h: Header, recipient: Participant, p: nat): SealedShare
    requires p > 0
  {
    SealedShare(recipient.id, Sealed(recipient.transport, h, recipient.id, Eval(coefficients, recipient.index) % p))
  }

  /** The constant term a dealer must use: fresh randomness, or its weighted old share. */
  ghost predicate ReshareConstant(constant: nat, dealerIndex: int, e: Expected, previous: Option<Body>,
                                  k: Keystore, p: nat)
    requires IsPrime(p)
  {
    var indexes := SelectedDealerIndexes(previous, e.selectedDealerIds);
    && indexes.Ok? && ValidIndexes(indexes.value, p) && dealerIndex in indexes.value && k.share.Some?
    && constant == (k.share.value * Lambda(indexes.value, dealerIndex, p)) % p
  }

  /** When a dealer may deal in a reshare. */
  ghost predicate MayReshare(dealer: Participant, e: Expected, previous: Option<Body>, k: Keystore, p: nat)
    requires p > 0
  {
    var indexes := SelectedDealerIndexes(previous, e.selectedDealerIds);
    && previous.Some? && ValidBody(previous.value, p) && e.previousManifestHash == previous
    && e.epoch == previous.value.epoch + 1 && dealer.id in e.selectedDealerIds
    && k.share.Some? && 0 < k.share.value < p && k.boundTo == e.previousManifestHash
    && indexes.Ok? && ValidIndexes(indexes.value, p) && dealer.index in indexes.value
  }

  /** Only a selected member of the previous manifest that still holds its share of that very manifest may deal in the
      epoch after it, among at least threshold members selected in the manifest's order. */
  lemma MayReshareExactly(dealer: Participant, e: Expected, previous: Option<Body>, k: Keystore, p: nat)
    requires LargeOrder(p)
    ensures MayReshare(dealer, e, previous, k, p) <==>
      && previous.Some? && ValidBody(previous.value, p) && e.previousManifestHash == previous
      && k.boundTo == previous && k.share.Some? && 0 < k.share.value < p && e.epoch == previous.value.epoch + 1
      && |e.selectedDealerIds| >= previous.value.threshold && dealer.id in e.selectedDealerIds
      && exists ps :: Picks(previous.value.members, ps, e.selectedDealerIds) && PositionAmong(dealer.index, ps)
  {
    if previous.Some? && ValidBody(previous.value, p) {
      SelectedIndexExactly(dealer.index, previous.value, e.selectedDealerIds, p);
    }
  }

  lemma SelectedIndexExactly(index: int, b: Body, selected: seq<Id>, p: nat)
    requires LargeOrder(p) && ValidBody(b, p)
    ensures (var xs := SelectedDealerIndexes(Some(b), selected); xs.Ok? && ValidIndexes(xs.value, p) && index in xs.value) <==>
      |selected| >= b.threshold && exists ps :: Picks(b.members, ps, selected) && PositionAmong(index, ps)
  {
    SelectionExactly(b, selected, [], p);
    if SelectedDealerIndexes(Some(b), selected).Ok? {
      var qs :| Picks(b.members, qs, selected);
      IndexAt(index, b, selected, qs, p);
      forall ps | Picks(b.members, ps, selected)
        ensures PositionAmong(index, ps) <==> index in SelectedDealerIndexes(Some(b), selected).value
      {
        IndexAt(index, b, selected, ps, p);
      }
    }
  }

  lemma IndexAt(index: int, b: Body, selected: seq<Id>, ps: seq<nat>, p: nat)
    requires LargeOrder(p) && ValidBody(b, p) && Picks(b.members, ps, selected)
    requires SelectedDealerIndexes(Some(b), selected).Ok?
    ensures var xs := SelectedDealerIndexes(Some(b), selected).value;
      ValidIndexes(xs, p) && (PositionAmong(index, ps) <==> index in xs)
  {
    SelectionExactly(b, selected, ps, p);
    var xs := SelectedDealerIndexes(Some(b), selected).value;
    assert forall i :: 0 <= i < |ps| ==> xs[i] == ps[i] + 1;
  }

  /** The index, counted from one, is one of these positions. */
  predicate PositionAmong(index: int, ps: seq<nat>) { exists i :: 0 <= i < |ps| && index == ps[i] + 1 }

  method DealConstant(dealer: Participant, e: Expected, previous: Option<Body>, k: Keystore,
                      p: nat) returns (r: Result<nat>)
    requires IsPrime(p) && LargeOrder(p)
    ensures r.Ok? <==> MayReshare(dealer, e, previous, k, p)
    ensures r.Ok? ==> ReshareConstant(r.value, dealer.index, e, previous, k, p) && 0 < r.value < p
  {
    if previous.None? { return Failure; }
    var prepared := NormalizeBody(previous.value, p);
    if prepared.Failure? || e.previousManifestHash != previous { return Failure; }
    if e.epoch != previous.value.epoch + 1 || dealer.id !in e.selectedDealerIds { return Failure; }
    if k.share.None? || k.boundTo != e.previousManifestHash { return Failure; }
    var indexes := SelectedDealerIndexes(previous, e.selectedDealerIds);
    if indexes.Failure? { return Failure; }
    var lambda := LagrangeCoefficientAtZero(dealer.index, indexes.value, p);
    if lambda.Failure? || k.share.value == 0 || k.share.value >= p { return Failure; }
    ModSmall(k.share.value, p);
    ModSmall(lambda.value, p);
    if (k.share.value * lambda.value) % p == 0 { ZeroProduct(k.share.value, lambda.value, p); }
    r := Ok(Mod(k.share.value * lambda.value, p));
  }

  function ApplicableRoster(e: Expected, roster: seq<Participant>, previous: Option<Body>): seq<Participant> {
    match e.ceremony
    case Dkg => roster
    case Reshare => if previous.None? then [] else ParticipantsOf(previous.value.members)
  }

  method SampleCoefficients(constant: nat, threshold: nat, random: nat -> nat, top: nat, p: nat) returns (c: seq<nat>)
    requires threshold >= 2 && constant < p && 0 < top < p && forall i :: random(i) < p
    ensures |c| == threshold && c[0] == constant && c[threshold - 1] != 0
    ensures forall i :: 1 <= i < threshold - 1 ==> c[i] == random(i)
    ensures forall i :: 0 <= i < |c| ==> c[i] < p
  {
    c := [constant];
    while |c| < threshold
      invariant 1 <= |c| <= threshold && c[0] == constant
      invariant forall i :: 1 <= i < |c| ==> c[i] == random(i)
      invariant forall i :: 0 <= i < |c| ==> c[i] < p
      decreases threshold - |c|
    {
      c := c + [random(|c|)];
    }
    if c[|c| - 1] == 0 {
      c := c[|c| - 1 := top];
    }
  }

  /** Fresh randomness in a first ceremony, the weighted old share in a reshare. */
  method ChooseConstant(e: Expected, dealer: Participant, k: Keystore, previous: Option<Body>, seedConstant: nat, p: nat)
    returns (r: Result<nat>)
    requires IsPrime(p) && LargeOrder(p) && 0 < seedConstant < p
    ensures e.ceremony.Dkg? ==> r == Ok(seedConstant)
    ensures e.ceremony.Reshare? ==> (r.Ok? <==> MayReshare(dealer, e, previous, k, p))
    ensures e.ceremony.Reshare? && r.Ok? ==> ReshareConstant(r.value, dealer.index, e, previous, k, p)
    ensures r.Ok? ==> 0 < r.value < p
  {
    if e.ceremony.Dkg? { return Ok(seedConstant); }
    r := DealConstant(dealer, e, previous, k, p);
  }

  /** No sampled coefficient between the constant and the top one is zero: the curve library refuses to commit to it. */
  predicate Committable(random: nat -> nat, threshold: int) { forall i :: 1 <= i < threshold - 1 ==> random(i) != 0 }

  ghost predicate MayDeal(e: Expected, roster: seq<Participant>, k: Keystore, previous: Option<Body>, p: nat)
    requires p > 0
  {
    var dealer := Find(ApplicableRoster(e, roster, previous), k.participantId);
    && ValidRoster(roster, e.threshold) && dealer.Some?
    && (e.ceremony.Reshare? ==> MayReshare(dealer.value, e, previous, k, p))
  }

  method CreateDealBundle(e: Expected, roster: seq<Participant>, k: Keystore, previous: Option<Body>,
                          seedConstant: nat, random: nat -> nat, top: nat, p: nat)
    returns (r: Result<Packet<Deal>>, coefficients: seq<nat>)
    requires IsPrime(p) && LargeOrder(p) && 0 < seedConstant < p && 0 < top < p && forall i :: random(i) < p
    ensures r.Ok? <==> MayDeal(e, roster, k, previous, p) && Committable(random, e.threshold)
    ensures r.Ok? ==> forall i :: 0 <= i < |coefficients| ==> coefficients[i] != 0
    ensures r.Ok? ==> DealsFrom(r.value, coefficients, roster, p) && HeaderExpected(r.value.body.header, e)
    ensures r.Ok? ==>
      var dealer := Find(ApplicableRoster(e, roster, previous), k.participantId);
      && dealer.Some? && r.value.body.header.dealerId == k.participantId
      && r.value.body.header.dealerIndex == dealer.value.index && Verifies(r.value, k.identity)
    ensures r.Ok? && e.ceremony.Dkg? ==> coefficients[0] == seedConstant
    ensures r.Ok? && e.ceremony.Reshare? ==>
      ReshareConstant(coefficients[0], r.value.body.header.dealerIndex, e, previous, k, p)
  {
    coefficients := [];
    if !ValidRoster(roster, e.threshold) { return Failure, []; }
    var dealer := Find(ApplicableRoster(e, roster, previous), k.participantId);
    if dealer.None? { return Failure, []; }
    var constant := ChooseConstant(e, dealer.value, k, previous, seedConstant, p);
    if constant.Failure? { return Failure, []; }
    r, coefficients := DealWith(e, roster, k, dealer.value, constant.value, random, top, p);
  }

  /** The part after the constant is known: only a zero coefficient can make it throw. */
  method DealWith(e: Expected, roster: seq<Participant>, k: Keystore, dealer: Participant, constant: nat,
                  random: nat -> nat, top: nat, p: nat)
    returns (r: Result<Packet<Deal>>, coefficients: seq<nat>)
    requires p > 1 && ValidRoster(roster, e.threshold) && 0 < constant < p && 0 < top < p && forall i :: random(i) < p
    ensures r.Ok? <==> Committable(random, e.threshold)
    ensures r.Ok? ==> DealsFrom(r.value, coefficients, roster, p) && HeaderExpected(r.value.body.header, e)
    ensures r.Ok? ==> forall i :: 0 <= i < |coefficients| ==> coefficients[i] != 0
    ensures r.Ok? ==> r.value.body.header.dealerId == dealer.id && r.value.body.header.dealerIndex == dealer.index
    ensures r.Ok? ==> Verifies(r.value, k.identity) && coefficients[0] == constant
  {
    coefficients := SampleCoefficients(constant, e.threshold, random, top, p);
    if i :| 0 <= i < |coefficients| && coefficients[i] == 0 {
      assert random(i) == 0;
      return Failure, coefficients;
    }
    assert Committable(random, e.threshold) by {
      assert forall i :: 1 <= i < e.threshold - 1 ==> coefficients[i] == random(i);
    }
    var packet := SignDeal(e, dealer, coefficients, roster, k.identity, p);
    r := Ok(packet);
  }

  method SignDeal(e: Expected, dealer: Participant, coefficients: seq<nat>, roster: seq<Participant>,
                  identity: nat, p: nat)
    returns (packet: Packet<Deal>)
    requires p > 1 && ValidRoster(roster, e.threshold) && |coefficients| == e.threshold
    requires forall i :: 0 <= i < |coefficients| ==> coefficients[i] < p
    requires coefficients[|coefficients| - 1] != 0
    ensures DealsFrom(packet, coefficients, roster, p) && HeaderExpected(packet.body.header, e)
    ensures packet.body.header.dealerId == dealer.id && packet.body.header.dealerIndex == dealer.index
    ensures Verifies(packet, identity)
  {
    var h := Header(e.ceremony, e.sessionId, e.epoch, e.threshold, dealer.id, dealer.index,
                    e.previousManifestHash, e.selectedDealerIds, CommitmentsFor(coefficients));
    var shares := SealShares(coefficients, h, roster, p);
    var body := Deal(h, shares);
    packet := Packet(body, SignedBy(identity, body));
  }

  method SealShares(coefficients: seq<nat>, h: Header, roster: seq<Participant>,
                    p: nat) returns (shares: seq<SealedShare>)
    requires p > 1 && forall i :: 0 <= i < |roster| ==> roster[i].index >= 0
    ensures |shares| == |roster|
    ensures forall i :: 0 <= i < |roster| ==> shares[i] == SealFor(coefficients, h, roster[i], p)
  {
    shares := [];
    var i := 0;
    while i < |roster|
      invariant 0 <= i <= |roster| && |shares| == i
      invariant forall j :: 0 <= j < i ==> shares[j] == SealFor(coefficients, h, roster[j], p)
    {
      var share := PolynomialAt(coefficients, roster[i].index, p);
      shares := shares + [SealedShare(roster[i].id, Sealed(roster[i].transport, h, roster[i].id, share))];
      i := i + 1;
    }
  }

  lemma DealIsDecodable(coefficients: seq<nat>, p: nat)
    requires forall i :: 0 <= i < |coefficients| ==> coefficients[i] < p
    ensures Decodable(CommitmentsFor(coefficients), p)
    ensures Logs(CommitmentsFor(coefficients)) == coefficients
  {
  }

  lemma {:induction false} SealedForFirst(shares: seq<SealedShare>, i: nat)
    requires i < |shares| && forall j :: 0 <= j < i ==> shares[j].recipientId != shares[i].recipientId
    ensures SealedFor(shares, shares[i].recipientId) == Some(shares[i])
  {
    if i > 0 { SealedForFirst(shares[1..], i - 1); }
  }

  /** A deal made by createDealBundle gives every recipient at whose index the polynomial is not zero its committed share,
      without any resolution. The others have nothing unless a resolution reveals it. */
  lemma HonestDealServesEveryone(packet: Packet<Deal>, coefficients: seq<nat>, roster: seq<Participant>, threshold: int,
                                 resolutions: seq<Packet<Resolution>>, i: nat, p: nat)
    requires p > 0 && ValidRoster(roster, threshold) && DealsFrom(packet, coefficients, roster, p) && i < |roster|
    ensures var (share, got) := (Eval(coefficients, roster[i].index) % p,
                                 Contribution(packet, roster[i], roster[i].transport, resolutions, p));
      && (share != 0 ==> got == Some(share))
      && (share == 0 && FindResolution(resolutions, packet.body.header.dealerId).None? ==> got == None)
  {
    DealIsDecodable(coefficients, p);
    var shares := packet.body.encryptedShares;
    forall j | 0 <= j < i ensures shares[j].recipientId != shares[i].recipientId {
      assert roster[j].id != roster[i].id;
    }
    SealedForFirst(shares, i);
  }

  /** And no resolution that reveals a zero share is accepted: such a recipient is never served. */
  lemma ZeroShareIsNeverServed(d: Packet<Deal>, coefficients: seq<nat>, s: Setup, packets: Packets, me: Participant,
                               transport: nat, p: nat)
    requires IsPrime(p) && DealAccepted(d, s, packets, p) && DealsFrom(d, coefficients, s.roster, p)
    requires Find(s.roster, me.id) == Some(me) && Eval(coefficients, me.index) % p == 0
    ensures Contribution(d, me, transport, packets.resolutions, p).None?
  {
    DealIsDecodable(coefficients, p);
    var h := d.body.header;
    var r := FindResolution(packets.resolutions, h.dealerId);
    if r.Some? {
      assert ValidResolution(r.value, Find(s.dealers, h.dealerId).value, d.body, s, packets.responses, p);
    }
  }

  /** Such a deal passes every check of finalization, including the resharing constant. */
  lemma HonestDealIsAccepted(packet: Packet<Deal>, coefficients: seq<nat>, s: Setup, k: Keystore, p: nat)
    requires IsPrime(p) && LargeOrder(p) && ValidRoster(s.roster, s.expected.threshold)
    requires DealsFrom(packet, coefficients, s.roster, p) && HeaderExpected(packet.body.header, s.expected)
    requires Find(s.dealers, packet.body.header.dealerId).Some?
    requires Find(s.dealers, packet.body.header.dealerId).value.index == packet.body.header.dealerIndex
    requires Verifies(packet, Find(s.dealers, packet.body.header.dealerId).value.identity)
    ensures ValidDeal(packet, s, p)
    ensures s.expected.ceremony.Reshare? && s.previous.Some?
            && ReshareConstant(coefficients[0], packet.body.header.dealerIndex, s.expected, s.previous, k, p)
            && (var m := FindMember(s.previous.value.members, packet.body.header.dealerId);
                m.Some? && Decode(m.value.sharePublicKey, p, false) == Ok(k.share.value))
            ==> ConstantMatches(packet.body.header, packet.body.header.dealerIndex, s, p)
  {
    DealIsDecodable(coefficients, p);
    assert Map(packet.body.encryptedShares, SealedId()) == Map(s.roster, RosterId());
  }

  // ------------------------------------------------------------- resolutions

  function RevealShare(coefficients: seq<nat>, p: nat): Packet<Response> -> Revealed
    requires p > 0
  {
    (r: Packet<Response>) =>
      Revealed(r.body.recipientId, r.body.recipientIndex, Eval(coefficients, r.body.recipientIndex) % p)
  }

  function ByRecipient(): (Revealed, Revealed) -> bool { (a: Revealed, b: Revealed) => a.recipientIndex <= b.recipientIndex }

  method CollectComplaints(coefficients: seq<nat>, dealer: Id, responses: seq<Packet<Response>>, s: Setup, p: nat)
    returns (complaints: seq<Revealed>)
    requires p > 1 && ValidRoster(s.roster, s.expected.threshold)
    requires forall i :: 0 <= i < |responses| ==> ValidResponse(responses[i], s)
    ensures complaints == Map(Filter(responses, Complains(dealer)), RevealShare(coefficients, p))
  {
    var complains, publish := Complains(dealer), RevealShare(coefficients, p);
    complaints := [];
    var i := 0;
    while i < |responses|
      invariant 0 <= i <= |responses|
      invariant complaints == Map(Filter(responses[..i], complains), publish)
    {
      var response := responses[i];
      assert responses[..i + 1] == responses[..i] + [response];
      FilterAppend(responses[..i], response, complains);
      if complains(response) {
        RecipientIndexIsPositive(response, s, s.expected.threshold);
        var share := PolynomialAt(coefficients, response.body.recipientIndex, p);
        complaints := complaints + [Revealed(response.body.recipientId, response.body.recipientIndex, share)];
      }
      i := i + 1;
    }
    assert responses[..i] == responses;
  }

  method CreateResolutionBundle(k: Keystore, coefficients: seq<nat>, dealt: Deal, deal: Packet<Deal>,
                                responses: seq<Packet<Response>>, s: Setup, p: nat) returns (r: Result<Packet<Resolution>>)
    requires p > 1
    ensures r.Ok? <==>
      && ValidRoster(s.roster, deal.body.header.threshold) && ValidDealers(s.dealers)
      && dealt == deal.body && HeaderExpected(deal.body.header, s.expected) && ValidDeal(deal, s, p)
      && deal.body.header.dealerId == k.participantId
      && ResponsesValid(responses, s)
      && |Filter(responses, Complains(k.participantId))| < deal.body.header.threshold
    ensures r.Ok? ==>
      var b := r.value.body;
      && Verifies(r.value, k.identity) && b.dealerId == k.participantId
      && b.ceremony == s.expected.ceremony && b.sessionId == s.expected.sessionId
      && b.epoch == s.expected.epoch && b.threshold == s.expected.threshold
      && b.complaints == Sort(Map(Filter(responses, Complains(k.participantId)), RevealShare(coefficients, p)), ByRecipient())
  {
    if !ValidRoster(s.roster, deal.body.header.threshold) || !ValidDealers(s.dealers) { return Failure; }
    if dealt != deal.body || !HeaderExpected(deal.body.header, s.expected) || !ValidDeal(deal, s, p) { return Failure; }
    if deal.body.header.dealerId != k.participantId { return Failure; }
    var responsesOk := CheckResponses(responses, s);
    if !responsesOk { return Failure; }
    var complaints := CollectComplaints(coefficients, k.participantId, responses, s, p);
    if |complaints| >= deal.body.header.threshold { return Failure; }
    var h := deal.body.header;
    var body := Resolution(h.ceremony, h.sessionId, h.epoch, h.threshold, k.participantId, Sort(complaints, ByRecipient()));
    r := Ok(Packet(body, SignedBy(k.identity, body)));
  }

  lemma RecipientIndexIsPositive(r: Packet<Response>, s: Setup, threshold: int)
    requires ValidRoster(s.roster, threshold) && ValidResponse(r, s)
    ensures 1 <= r.body.recipientIndex <= |s.roster|
    ensures exists i :: 0 <= i < |s.roster| && s.roster[i].id == r.body.recipientId && i + 1 == r.body.recipientIndex
  {
    var recipient := Find(s.roster, r.body.recipientId).value;
    var i :| 0 <= i < |s.roster| && s.roster[i] == recipient;
  }

  // ------------------------------------------------- what a resolution hides

  ghost predicate Agrees(g: seq<int>, f: seq<int>, xs: seq<int>, p: nat)
    requires p > 0
  {
    forall k :: 0 <= k < |xs| ==> Cong(Eval(g, xs[k]), Eval(f, xs[k]), p)
  }

  /** g could be the dealer's polynomial: right length, the candidate constant, the revealed shares. */
  ghost predicate Fits(g: seq<int>, candidate: int, f: seq<int>, xs: seq<int>, p: nat)
    requires p > 0
  {
    |g| == |f| && g != [] && Cong(g[0], candidate, p) && Agrees(g, f, xs, p)
  }

  function Values(f: seq<int>, xs: seq<int>): (ys: seq<int>)
    ensures |ys| == |xs| && forall k :: 0 <= k < |xs| ==> ys[k] == Eval(f, xs[k])
  {
    seq(|xs|, k requires 0 <= k < |xs| => Eval(f, xs[k]))
  }

  lemma WithZeroDistinct(xs: seq<int>, p: nat)
    requires p > 0 && ValidIndexes(xs, p)
    ensures DistinctMod([0] + xs, p)
  {
    IndexesDistinct(xs, p);
    var zs := [0] + xs;
    forall i, j | 0 <= i < j < |zs|
      ensures !Cong(zs[i], zs[j], p)
    {
      if i == 0 {
        assert zs[j] == xs[j - 1];
        if Cong(0, xs[j - 1], p) { CongSmall(0, xs[j - 1], p); }
      } else {
        assert zs[i] == xs[i - 1] && zs[j] == xs[j - 1];
      }
    }
  }

  /** Every constant term is still possible below the threshold. */
  lemma EveryConstantFits(f: seq<int>, xs: seq<int>, candidate: int, p: nat) returns (g: seq<int>)
    requires IsPrime(p) && ValidIndexes(xs, p) && |xs| < |f|
    ensures Fits(g, candidate, f, xs, p)
    ensures forall k :: |xs| < k < |g| ==> g[k] == 0
  {
    WithZeroDistinct(xs, p);
    var zs, ys := [0] + xs, [candidate] + Values(f, xs);
    var h := InterpolantExists(zs, ys, p);
    g := h + seq(|f| - |h|, _ => 0);
    forall k | 0 <= k < |zs| ensures Cong(Eval(g, zs[k]), ys[k], p) {
      EvalPad(h, |f| - |h|, zs[k]);
    }
    assert Cong(Eval(g, zs[0]), ys[0], p);
    EvalAtZero(g);
    forall k | 0 <= k < |xs| ensures Cong(Eval(g, xs[k]), Eval(f, xs[k]), p) {
      assert zs[k + 1] == xs[k] && ys[k + 1] == Eval(f, xs[k]);
      assert Cong(Eval(g, zs[k + 1]), ys[k + 1], p);
    }
  }

  /** X^m * f. */
  function ShiftBy(f: seq<int>, m: nat): (h: seq<int>)
    ensures |h| == |f| + m
  {
    if m == 0 then f else [0] + ShiftBy(f, m - 1)
  }

  lemma {:induction false} ShiftVanishes(f: seq<int>, m: nat, x: int)
    requires Eval(f, x) == 0
    ensures Eval(ShiftBy(f, m), x) == 0
  {
    if m > 0 {
      ShiftVanishes(f, m - 1, x);
      assert ShiftBy(f, m)[1..] == ShiftBy(f, m - 1);
      assert x * 0 == 0;
    }
  }

  lemma {:induction false} ShiftTop(f: seq<int>, m: nat)
    requires f != []
    ensures ShiftBy(f, m)[|f| + m - 1] == f[|f| - 1]
  {
    if m > 0 { ShiftTop(f, m - 1); }
  }

  lemma {:induction false} OthersTop(xs: seq<int>, a: int)
    ensures OthersPoly(xs, a)[|OthersPoly(xs, a)| - 1] == 1
  {
    if xs != [] {
      var n := |xs| - 1;
      OthersTop(xs[..n], a);
      if xs[n] != a { MulLinearTop(OthersPoly(xs[..n], a), xs[n]); }
    }
  }

  lemma MulLinearTop(f: seq<int>, a: int)
    requires f != []
    ensures MulLinear(f, a)[|MulLinear(f, a)| - 1] == f[|f| - 1]
  {
  }

  /** A polynomial of t coefficients with top coefficient 1 that vanishes at zero and at fewer than t - 1 indexes. */
  lemma Blinder(xs: seq<int>, t: nat, p: nat) returns (b: seq<int>)
    requires p > 0 && ValidIndexes(xs, p) && |xs| + 1 < t
    ensures |b| == t && b[t - 1] == 1 && b[0] == 0
    ensures forall k :: 0 <= k < |xs| ==> Eval(b, xs[k]) == 0
  {
    OthersCountMember(xs, 0);
    var o := OthersPoly(xs, 0);
    OthersTop(xs, 0);
    var m := t - |o|;
    b := ShiftBy(o, m);
    ShiftTop(o, m);
    forall k | 0 <= k < |xs| ensures Eval(b, xs[k]) == 0 {
      EvalOthers(xs, 0, xs[k]);
      OthersZero(xs, 0, xs[k]);
      ShiftVanishes(o, m, xs[k]);
    }
  }

  lemma {:induction false} QuotientTop(f: seq<int>, a: int)
    requires |f| >= 2
    ensures Quotient(f, a)[|f| - 2] == f[|f| - 1]
  {
    if |f| == 2 {
      assert f[1..] == [f[1]];
      assert Eval(f[1..], a) == f[1] + a * Eval(f[1..][1..], a);
      assert a * 0 == 0;
    } else {
      QuotientTop(f[1..], a);
    }
  }

  /** As many distinct roots as coefficients leave no top coefficient. */
  lemma {:induction false} RootsKillTop(f: seq<int>, xs: seq<int>, p: nat)
    requires IsPrime(p) && 1 <= |f| <= |xs| && DistinctMod(xs, p) && Vanishes(f, xs, p)
    ensures f[|f| - 1] % p == 0
    decreases |f|
  {
    var n := |xs| - 1;
    if |f| == 1 {
      assert f[1..] == [] && xs[n] * 0 == 0;
      assert Eval(f, xs[n]) == f[0];
    } else {
      QuotientVanishes(f, xs, p);
      RootsKillTop(Quotient(f, xs[n]), xs[..n], p);
      QuotientTop(f, xs[n]);
    }
  }

  lemma QuotientVanishes(f: seq<int>, xs: seq<int>, p: nat)
    requires IsPrime(p) && xs != [] && DistinctMod(xs, p) && Vanishes(f, xs, p)
    ensures Vanishes(Quotient(f, xs[|xs| - 1]), xs[..|xs| - 1], p)
  {
    var n := |xs| - 1;
    var a, q := xs[n], Quotient(f, xs[n]);
    forall i | 0 <= i < n
      ensures Eval(q, xs[..n][i]) % p == 0
    {
      var b := xs[i];
      Division(f, a, b);
      ModSmall(0, p);
      CongAdd(Eval(f, b), 0, Eval(f, a), 0, p);
      DifferenceNonzero(b, a, p);
      ZeroProduct(b - a, Eval(q, b), p);
    }
  }

  /** With the dealer's rule that the top coefficient is nonzero, exactly one constant term can be excluded, and
      only when one share short of the threshold is public: the value those shares interpolate to. */
  lemma ConstantsLeftOpen(f: seq<int>, xs: seq<int>, candidate: int, p: nat)
    requires IsPrime(p) && ValidIndexes(xs, p) && |xs| < |f|
    ensures (exists g: seq<int> :: Fits(g, candidate, f, xs, p) && g[|g| - 1] % p != 0)
       <==> !(|xs| == |f| - 1 && Cong(candidate, WeightedSum(xs, Values(f, xs), |xs|, p), p))
  {
    if |xs| == |f| - 1 && Cong(candidate, WeightedSum(xs, Values(f, xs), |xs|, p), p) {
      forall g: seq<int> | Fits(g, candidate, f, xs, p)
        ensures g[|g| - 1] % p == 0
      {
        ExcludedConstant(g, candidate, f, xs, p);
      }
    } else if |xs| == |f| - 1 {
      var g := EveryConstantFits(f, xs, candidate, p);
      if g[|g| - 1] % p == 0 {
        OtherConstant(g, candidate, f, xs, p);
        assert false;
      }
      assert Fits(g, candidate, f, xs, p) && g[|g| - 1] % p != 0;
    } else {
      var g := EveryConstantFits(f, xs, candidate, p);
      var b := Blinder(xs, |f|, p);
      var h := Add(g, b);
      forall k | 0 <= k < |xs| ensures Cong(Eval(h, xs[k]), Eval(f, xs[k]), p) {
        EvalAdd(g, b, xs[k]);
      }
      ModSmall(1, p);
      assert Fits(h, candidate, f, xs, p) && h[|h| - 1] % p != 0;
    }
  }

  lemma ExcludedConstant(g: seq<int>, candidate: int, f: seq<int>, xs: seq<int>, p: nat)
    requires IsPrime(p) && ValidIndexes(xs, p) && |xs| == |f| - 1 && Fits(g, candidate, f, xs, p)
    requires Cong(candidate, WeightedSum(xs, Values(f, xs), |xs|, p), p)
    ensures g[|g| - 1] % p == 0
  {
    IndexesDistinct(xs, p);
    WithZeroDistinct(xs, p);
    var ys := Values(f, xs);
    var h := InterpolantExists(xs, ys, p);
    forall k | 0 <= k < |xs| ensures Cong(ys[k], Eval(h, xs[k]), p) {}
    InterpolationAtZero(h, xs, ys, p);
    EvalAtZero(g);
    var zs, d := [0] + xs, Difference(g, h, |g|);
    forall k | 0 <= k < |zs|
      ensures Eval(d, zs[k]) % p == 0
    {
      EvalDifference(g, h, |g|, zs[k]);
      if k > 0 { assert zs[k] == xs[k - 1]; }
      CongToZero(Eval(g, zs[k]), Eval(h, zs[k]), p);
    }
    RootsKillTop(d, zs, p);
    assert d[|g| - 1] == g[|g| - 1];
  }

  lemma OtherConstant(g: seq<int>, candidate: int, f: seq<int>, xs: seq<int>, p: nat)
    requires IsPrime(p) && ValidIndexes(xs, p) && |xs| == |f| - 1 && Fits(g, candidate, f, xs, p)
    requires g[|g| - 1] % p == 0
    ensures Cong(candidate, WeightedSum(xs, Values(f, xs), |xs|, p), p)
  {
    var n := |xs|;
    var low, g' := g[..n], g[..n] + [0];
    forall i | 0 <= i < |g| ensures Cong(g[i], g'[i], p) { ModSmall(0, p); }
    forall x: int ensures Cong(Eval(g, x), Eval(low, x), p) {
      EvalCoefficientsCong(g, g', x, p);
      EvalPad(low, 1, x);
      assert g' == low + seq(1, _ => 0);
    }
    forall k | 0 <= k < |xs| ensures Cong(Values(f, xs)[k], Eval(low, xs[k]), p) {
      assert Cong(Eval(g, xs[k]), Eval(low, xs[k]), p);
    }
    InterpolationAtZero(low, xs, Values(f, xs), p);
    EvalAtZero(g);
    assert Cong(Eval(g, 0), Eval(low, 0), p);
  }

  function RecipientIndexes(items: seq<Revealed>): (xs: seq<int>)
    ensures |xs| == |items| && forall i :: 0 <= i < |xs| ==> xs[i] == items[i].recipientIndex
  {
    seq(|items|, i requires 0 <= i < |items| => items[i].recipientIndex)
  }

  /** The bundle a dealer publishes names distinct roster indexes, fewer than the threshold, with their true shares:
      by ConstantsLeftOpen it determines no constant term. */
  lemma ResolutionStaysBelowThreshold(coefficients: seq<nat>, dealer: Id, responses: seq<Packet<Response>>, s: Setup,
                                      complaints: seq<Revealed>, p: nat)
    requires LargeOrder(p) && ValidRoster(s.roster, s.expected.threshold) && ResponsesValid(responses, s)
    requires |Filter(responses, Complains(dealer))| < s.expected.threshold
    requires complaints == Sort(Map(Filter(responses, Complains(dealer)), RevealShare(coefficients, p)), ByRecipient())
    ensures |complaints| < s.expected.threshold
    ensures ValidIndexes(RecipientIndexes(complaints), p)
    ensures forall i :: 0 <= i < |complaints| ==> complaints[i].share == Eval(coefficients, complaints[i].recipientIndex) % p
  {
    var filtered := Filter(responses, Complains(dealer));
    var raw := Map(filtered, RevealShare(coefficients, p));
    PermutationMembers(raw, complaints);
    DistinctFromIds(Map(responses, ResponseId()));
    FilterDistinct(responses, Complains(dealer), ResponseId());
    RawComplaints(filtered, coefficients, s, responses, p);
    PermutationDistinct(raw, complaints);
    DistinctRecipients(raw, complaints, p);
  }

  ghost predicate TrueShare(item: Revealed, coefficients: seq<nat>, s: Setup, p: nat)
    requires p > 0
  {
    && 1 <= item.recipientIndex <= |s.roster|
    && s.roster[item.recipientIndex - 1].id == item.recipientId
    && item.share == Eval(coefficients, item.recipientIndex) % p
  }

  lemma RawComplaints(filtered: seq<Packet<Response>>, coefficients: seq<nat>, s: Setup,
                      responses: seq<Packet<Response>>, p: nat)
    requires LargeOrder(p) && ValidRoster(s.roster, s.expected.threshold) && ResponsesValid(responses, s)
    requires (forall r :: r in filtered ==> r in responses) && Distinct(Map(filtered, ResponseId()))
    ensures var raw := Map(filtered, RevealShare(coefficients, p));
      && (forall k :: 0 <= k < |raw| ==> TrueShare(raw[k], coefficients, s, p))
      && Distinct(raw)
      && forall i, j :: 0 <= i < j < |raw| ==> raw[i].recipientIndex != raw[j].recipientIndex
  {
    var raw, ids := Map(filtered, RevealShare(coefficients, p)), Map(filtered, ResponseId());
    forall k | 0 <= k < |raw|
      ensures TrueShare(raw[k], coefficients, s, p)
    {
      assert filtered[k] in responses;
      RecipientIndexIsPositive(filtered[k], s, s.expected.threshold);
    }
    forall i, j | 0 <= i < j < |raw| ensures raw[i].recipientIndex != raw[j].recipientIndex {
      assert ids[i] != ids[j];
      assert TrueShare(raw[i], coefficients, s, p) && TrueShare(raw[j], coefficients, s, p);
    }
  }

  lemma DistinctRecipients(raw: seq<Revealed>, complaints: seq<Revealed>, p: nat)
    requires LargeOrder(p) && Permutation(raw, complaints) && Distinct(complaints)
    requires forall k :: 0 <= k < |raw| ==> 1 <= raw[k].recipientIndex <= 31
    requires forall i, j :: 0 <= i < j < |raw| ==> raw[i].recipientIndex != raw[j].recipientIndex
    ensures ValidIndexes(RecipientIndexes(complaints), p)
    ensures forall i :: 0 <= i < |complaints| ==> complaints[i] in raw
  {
    PermutationMembers(raw, complaints);
    forall i | 0 <= i < |complaints| ensures complaints[i] in raw {
      assert complaints[i] in complaints;
    }
    forall i, j | 0 <= i < j < |complaints| ensures complaints[i].recipientIndex != complaints[j].recipientIndex {
      var u :| 0 <= u < |raw| && raw[u] == complaints[i];
      var v :| 0 <= v < |raw| && raw[v] == complaints[j];
      assert complaints[i] != complaints[j];
    }
  }

  // ---------------------------------------------------------------- assembly

  function FindFinalization(fs: seq<Finalization>, id: Id): (r: Option<Finalization>)
    ensures r.Some? ==> r.value in fs && r.value.participantId == id
  {
    if fs == [] then None
    else if fs[|fs| - 1].participantId == id then Some(fs[|fs| - 1])
    else FindFinalization(fs[..|fs| - 1], id)
  }

  predicate SamePublicResult(a: Finalization, b: Finalization) {
    a.groupPublicKey == b.groupPublicKey && a.coefficients == b.coefficients && a.transcript == b.transcript
  }

  predicate Covers(fs: seq<Finalization>, roster: seq<Participant>) {
    && |fs| == |roster|
    && (forall i, j :: 0 <= i < j < |fs| ==> fs[i].participantId != fs[j].participantId)
    && forall i :: 0 <= i < |roster| ==>
         var f := FindFinalization(fs, roster[i].id);
         f.Some? && f.value.participantIndex == roster[i].index
  }

  function AssembledBody(fs: seq<Finalization>, roster: seq<Participant>, domain: Domain, previous: Option<Body>): Body
    requires fs != [] && Covers(fs, roster)
  {
    var e := fs[0].transcript.expected;
    Body(domain, e.ceremony, previous, e.epoch, e.threshold, Encoded(fs[0].groupPublicKey),
         CommitmentsFor(fs[0].coefficients),
         seq(|roster|, i requires 0 <= i < |roster| =>
           Member(roster[i], Encoded(FindFinalization(fs, roster[i].id).value.sharePublicKey))))
  }

  method AssembleManifest(fs: seq<Finalization>, roster: seq<Participant>, domain: Domain, previous: Option<Body>, p: nat)
    returns (r: Result<Body>)
    requires LargeOrder(p)
    ensures r.Ok? <==> fs != [] && Covers(fs, roster) && (forall i :: 0 <= i < |fs| ==> SamePublicResult(fs[i], fs[0]))
                       && ValidBody(AssembledBody(fs, roster, domain, previous), p)
    ensures r.Ok? ==> r.value == AssembledBody(fs, roster, domain, previous)
  {
    if |fs| != |roster| || fs == [] { return Failure; }
    var k := 0;
    while k < |fs|
      invariant 0 <= k <= |fs| && forall i :: 0 <= i < k ==> SamePublicResult(fs[i], fs[0])
    {
      if !SamePublicResult(fs[k], fs[0]) { return Failure; }
      k := k + 1;
    }
    if !Covers(fs, roster) { return Failure; }
    r := NormalizeBody(AssembledBody(fs, roster, domain, previous), p);
  }

  /** f is what finalizeCeremony returned to one participant of setup s on these packets. */
  ghost predicate FinalizedBy(f: Finalization, s: Setup, packets: Packets, collate: (Id, Id) -> bool, transport: nat, p: nat)
    requires IsPrime(p)
  {
    && Accepted(s, packets, f.participantId, transport, p)
    && var q := QualifiedDeals(packets, s.expected.threshold);
       var self := Find(s.roster, f.participantId).value;
    && f.participantIndex == self.index
    && f.coefficients == AggregateCommitments(q, s.expected.threshold, p)
    && f.groupPublicKey == f.coefficients[0]
    && f.sharePublicKey == Sum(q, ContributionOf(self, transport, packets.resolutions, p)) % p
    && f.transcript == TranscriptOf(s, packets, collate)
  }

  /** One finalization per roster member, each from its own ordering of the same packets. */
  ghost predicate OneCeremony(fs: seq<Finalization>, s: Setup, packets: seq<Packets>, transports: seq<nat>,
                              collate: (Id, Id) -> bool, p: nat)
    requires IsPrime(p)
  {
    && StrictCollation(collate)
    && fs != [] && |packets| == |transports| == |fs| && Covers(fs, s.roster)
    && (forall i :: 0 <= i < |fs| ==> FinalizedBy(fs[i], s, packets[i], collate, transports[i], p))
    && forall i :: 0 <= i < |fs| ==> SamePackets(packets[0], packets[i])
  }

  /** They always agree. */
  lemma FinalizationsAgree(fs: seq<Finalization>, s: Setup, packets: seq<Packets>, transports: seq<nat>,
                           collate: (Id, Id) -> bool, p: nat)
    requires IsPrime(p) && OneCeremony(fs, s, packets, transports, collate, p)
    ensures forall i :: 0 <= i < |fs| ==> SamePublicResult(fs[i], fs[0])
  {
    forall i | 0 <= i < |fs|
      ensures SamePublicResult(fs[i], fs[0])
    {
      assert FinalizedBy(fs[0], s, packets[0], collate, transports[0], p);
      assert FinalizedBy(fs[i], s, packets[i], collate, transports[i], p);
      FinalizersAgree(s, packets[0], packets[i], collate, p);
    }
  }

  lemma CoefficientsAreReduced(f: Finalization, s: Setup, packets: Packets, collate: (Id, Id) -> bool, transport: nat, p: nat)
    requires IsPrime(p) && FinalizedBy(f, s, packets, collate, transport, p)
    ensures forall k :: 0 <= k < |f.coefficients| ==> f.coefficients[k] < p
    ensures |f.coefficients| == s.expected.threshold
  {
  }

  lemma AssembledShare(fs: seq<Finalization>, s: Setup, packets: seq<Packets>, transports: seq<nat>,
                       collate: (Id, Id) -> bool, i: nat, p: nat)
    requires IsPrime(p) && OneCeremony(fs, s, packets, transports, collate, p) && i < |s.roster|
    ensures var share := FindFinalization(fs, s.roster[i].id).value.sharePublicKey;
      0 < share < p && share == Eval(fs[0].coefficients, s.roster[i].index) % p
  {
    FinalizationsAgree(fs, s, packets, transports, collate, p);
    var f := FindFinalization(fs, s.roster[i].id).value;
    var j :| 0 <= j < |fs| && fs[j] == f;
    FinalizedShareIsCommitted(f, s, packets[j], collate, transports[j], fs[0].coefficients, p);
  }

  /** The manifest check accepts every assembled share. */
  lemma AssembledSharesAreAccepted(fs: seq<Finalization>, s: Setup, packets: seq<Packets>, transports: seq<nat>,
                                   collate: (Id, Id) -> bool, domain: Domain, previous: Option<Body>, i: nat, p: nat)
    requires IsPrime(p) && OneCeremony(fs, s, packets, transports, collate, p) && i < |s.roster|
    ensures var b := AssembledBody(fs, s.roster, domain, previous);
      Decodable(b.coefficients, p) && ShareCommitted(b, i, p) && Decode(b.members[i].sharePublicKey, p, false).Ok?
  {
    AssembledShare(fs, s, packets, transports, collate, i, p);
    FirstIsReduced(fs, s, packets, transports, collate, p);
    BodyShareCommitted(fs, s.roster, domain, previous, i, p);
  }

  lemma BodyShareCommitted(fs: seq<Finalization>, roster: seq<Participant>, domain: Domain,
                           previous: Option<Body>, i: nat, p: nat)
    requires p > 0 && fs != [] && Covers(fs, roster) && i < |roster|
    requires forall k :: 0 <= k < |fs[0].coefficients| ==> fs[0].coefficients[k] < p
    requires var share := FindFinalization(fs, roster[i].id).value.sharePublicKey;
      0 < share < p && share == Eval(fs[0].coefficients, roster[i].index) % p
    ensures var b := AssembledBody(fs, roster, domain, previous);
      Decodable(b.coefficients, p) && ShareCommitted(b, i, p) && Decode(b.members[i].sharePublicKey, p, false).Ok?
  {
    DealIsDecodable(fs[0].coefficients, p);
  }

  lemma FirstIsReduced(fs: seq<Finalization>, s: Setup, packets: seq<Packets>, transports: seq<nat>,
                       collate: (Id, Id) -> bool, p: nat)
    requires IsPrime(p) && OneCeremony(fs, s, packets, transports, collate, p)
    ensures forall k :: 0 <= k < |fs[0].coefficients| ==> fs[0].coefficients[k] < p
  {
    CoefficientsAreReduced(fs[0], s, packets[0], collate, transports[0], p);
  }

  lemma FinalizedShareIsCommitted(f: Finalization, s: Setup, packets: Packets, collate: (Id, Id) -> bool,
                                  transport: nat, c: seq<nat>, p: nat)
    requires IsPrime(p) && FinalizedBy(f, s, packets, collate, transport, p) && f.coefficients == c
    ensures f.sharePublicKey == Eval(c, f.participantIndex) % p && 0 < f.sharePublicKey < p
  {
    LocalShareIsCommitted(s, packets, f.participantId, transport, p);
  }

  /** The assembled body is the finalized ceremony's: its epoch, threshold, key and commitments, and every participant
      with the public share of its own finalization. */
  lemma AssembledExactly(fs: seq<Finalization>, roster: seq<Participant>, domain: Domain, previous: Option<Body>,
                         threshold: int, i: nat)
    requires fs != [] && Covers(fs, roster) && ValidRoster(roster, threshold) && i < |roster|
    ensures var (b, e) := (AssembledBody(fs, roster, domain, previous), fs[0].transcript.expected);
      && b.domain == domain && b.previousManifestHash == previous
      && (b.ceremony, b.epoch, b.threshold) == (e.ceremony, e.epoch, e.threshold)
      && b.groupPublicKey == Encoded(fs[0].groupPublicKey) && |b.coefficients| == |fs[0].coefficients|
      && (forall k :: 0 <= k < |b.coefficients| ==> b.coefficients[k] == Encoded(fs[0].coefficients[k]))
      && |b.members| == |roster| && b.members[i].participant == roster[i]
      && exists j :: 0 <= j < |fs| && fs[j].participantId == roster[i].id && fs[j].participantIndex == i + 1
           && b.members[i].sharePublicKey == Encoded(fs[j].sharePublicKey)
  {
    var f := FindFinalization(fs, roster[i].id).value;
    var j :| 0 <= j < |fs| && fs[j] == f;
    assert fs[j].participantId == roster[i].id && fs[j].participantIndex == roster[i].index;
  }
}
