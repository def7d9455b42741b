/** operator/threshold-dkg.mjs: dealing, complaints, resolutions and finalization.
    A sealed share opens for one transport key and one associated-data context, or not at all. */
module ThresholdDkg {
  import opened Outcomes
  import opened Field
  import opened Polynomial
  import opened ThresholdCrypto
  import opened ThresholdGroup
  import opened Sequences

  datatype Header = Header(
    ceremony: Ceremony, sessionId: nat, epoch: int, threshold: int, dealerId: Id, dealerIndex: int,
    previousManifestHash: Option<Body>, selectedDealerIds: seq<Id>, commitments: seq<Wire>)

  datatype Envelope = Garbage | Sealed(transport: nat, context: Header, recipientId: Id, share: nat)

  datatype SealedShare = SealedShare(recipientId: Id, envelope: Envelope)

  datatype Deal = Deal(header: Header, encryptedShares: seq<SealedShare>)

  datatype Status = Status(dealerId: Id, accepted: bool, reason: string)

  datatype Response = Response(
    ceremony: Ceremony, sessionId: nat, epoch: int, threshold: int,
    recipientId: Id, recipientIndex: int, statuses: seq<Status>)

  datatype Revealed = Revealed(recipientId: Id, recipientIndex: int, share: int)

  datatype Resolution = Resolution(
    ceremony: Ceremony, sessionId: nat, epoch: int, threshold: int, dealerId: Id, complaints: seq<Revealed>)

  datatype Packet<B> = Packet(body: B, signature: Signature<B>)

  /** What every packet of one ceremony must agree on. */
  datatype Expected = Expected(
    ceremony: Ceremony, sessionId: nat, epoch: int, threshold: int,
    previousManifestHash: Option<Body>, selectedDealerIds: seq<Id>)

  datatype Setup = Setup(roster: seq<Participant>, dealers: seq<Participant>, expected: Expected, previous: Option<Body>)

  datatype Packets = Packets(
    deals: seq<Packet<Deal>>, responses: seq<Packet<Response>>, resolutions: seq<Packet<Resolution>>)

  predicate Verifies<B(==)>(packet: Packet<B>, identity: nat) {
    packet.signature == SignedBy(identity, packet.body)
  }

  predicate ValidRoster(roster: seq<Participant>, threshold: int) {
    && ValidSize(|roster|, threshold)
    && (forall i :: 0 <= i < |roster| ==> roster[i].index == i + 1)
    && (forall i, j :: 0 <= i < j < |roster| ==>
          && roster[i].id != roster[j].id
          && roster[i].identity != roster[j].identity
          && roster[i].transport != roster[j].transport
          && roster[i].endpoint != roster[j].endpoint)
  }

  predicate ValidDealers(dealers: seq<Participant>) {
    forall i :: 0 <= i < |dealers| ==> dealers[i].index == i + 1
  }

  function Find(ps: seq<Participant>, id: Id): (r: Option<Participant>)
    ensures r.Some? ==> r.value in ps && r.value.id == id
    ensures r.None? ==> forall i :: 0 <= i < |ps| ==> ps[i].id != id
  {
    if ps == [] then None else if ps[0].id == id then Some(ps[0]) else Find(ps[1..], id)
  }

  lemma FindIsUnique(ps: seq<Participant>, i: nat, threshold: int)
    requires ValidRoster(ps, threshold) && i < |ps|
    ensures Find(ps, ps[i].id) == Some(ps[i])
  {
    var r := Find(ps, ps[i].id);
    assert r.Some?;
    var j :| 0 <= j < |ps| && ps[j] == r.value;
  }

  // ------------------------------------------------------------- evaluation

  /** Horner's rule from the highest coefficient down, reduced at every step. */
  method PolynomialAt(coefficients: seq<nat>, index: nat, p: nat) returns (value: nat)
    requires p > 1
    ensures value == Eval(coefficients, index) % p
  {
    value := 0;
    ModSmall(0, p);
    var k := |coefficients|;
    assert coefficients[k..] == [];
    while k > 0
      invariant 0 <= k <= |coefficients|
      invariant 0 <= value < p && Cong(value, Eval(coefficients[k..], index), p)
    {
      k := k - 1;
      assert coefficients[k..][1..] == coefficients[k + 1..];
      var tail := Eval(coefficients[k + 1..], index);
      CongMul(value, tail, index, index, p);
      CongAdd(value * index, tail * index, coefficients[k], coefficients[k], p);
      CongMod(value * index + coefficients[k], p);
      assert tail * index == index * tail;
      value := (value * index + coefficients[k]) % p;
    }
    assert coefficients[0..] == coefficients;
    ModSmall(value, p);
  }

  /** The verifiable-sharing check on one share. A share outside the scalar field makes the original throw, and so does zero,
      by which the curve library refuses to multiply. */
  predicate ShareMatches(share: int, commitments: seq<Wire>, index: int, p: nat)
    requires p > 0
  {
    0 < share < p && Decodable(commitments, p) && share == Eval(Logs(commitments), index) % p
  }

  function CommitmentsFor(coefficients: seq<nat>): (c: seq<Wire>)
    ensures |c| == |coefficients| && forall i :: 0 <= i < |c| ==> c[i] == Encoded(coefficients[i])
  {
    seq(|coefficients|, i requires 0 <= i < |coefficients| => Encoded(coefficients[i]))
  }

  // ---------------------------------------------------------- packet checks

  function DealIds(deals: seq<Packet<Deal>>): (r: seq<Id>)
    ensures |r| == |deals| && forall i :: 0 <= i < |r| ==> r[i] == deals[i].body.header.dealerId
  {
    Map(deals, DealId())
  }

  function DealId(): Packet<Deal> -> Id { (d: Packet<Deal>) => d.body.header.dealerId }

  function ResponseId(): Packet<Response> -> Id { (d: Packet<Response>) => d.body.recipientId }

  function ResolutionId(): Packet<Resolution> -> Id { (d: Packet<Resolution>) => d.body.dealerId }

  function SealedId(): SealedShare -> Id { (s: SealedShare) => s.recipientId }

  function RosterId(): Participant -> Id { (s: Participant) => s.id }

  function RevealedId(): Revealed -> Id { (s: Revealed) => s.recipientId }

  function StatusDealer(): Status -> Id { (s: Status) => s.dealerId }

  /** Two lists that sort alike: the original sorts both and compares. */
  predicate SameIds(a: seq<Id>, b: seq<Id>) { multiset(a) == multiset(b) }

  predicate HeaderExpected(h: Header, e: Expected) {
    && h.ceremony == e.ceremony && h.sessionId == e.sessionId && h.epoch == e.epoch && h.threshold == e.threshold
    && h.previousManifestHash == e.previousManifestHash && h.selectedDealerIds == e.selectedDealerIds
  }

  predicate ValidDeal(packet: Packet<Deal>, s: Setup, p: nat)
    requires p > 0
  {
    var h := packet.body.header;
    var dealer := Find(s.dealers, h.dealerId);
    && HeaderExpected(h, s.expected)
    && dealer.Some? && dealer.value.index == h.dealerIndex && Verifies(packet, dealer.value.identity)
    && |h.commitments| == s.expected.threshold && |h.commitments| >= 1
    && Decodable(h.commitments, p) && h.commitments[|h.commitments| - 1].log != 0
    && SameIds(Map(packet.body.encryptedShares, SealedId()), Map(s.roster, RosterId()))
  }

  predicate ValidStatuses(statuses: seq<Status>) {
    && (forall i :: 0 <= i < |statuses| ==> |statuses[i].reason| <= 160)
    && forall i, j :: 0 <= i < j < |statuses| ==> statuses[i].dealerId != statuses[j].dealerId
  }

  predicate ValidResponse(packet: Packet<Response>, s: Setup) {
    var b, e := packet.body, s.expected;
    var recipient := Find(s.roster, b.recipientId);
    && recipient.Some? && recipient.value.index == b.recipientIndex && Verifies(packet, recipient.value.identity)
    && b.ceremony == e.ceremony && b.sessionId == e.sessionId && b.epoch == e.epoch && b.threshold == e.threshold
    && ValidStatuses(b.statuses)
  }

  function Verdict(statuses: seq<Status>, dealer: Id): Option<bool> {
    if statuses == [] then None
    else if statuses[0].dealerId == dealer then Some(statuses[0].accepted)
    else Verdict(statuses[1..], dealer)
  }

  function Complains(dealer: Id): Packet<Response> -> bool {
    (r: Packet<Response>) => Verdict(r.body.statuses, dealer) == Some(false)
  }

  function Approves(dealer: Id): Packet<Response> -> bool {
    (r: Packet<Response>) => Verdict(r.body.statuses, dealer) == Some(true)
  }

  function ComplainerIds(responses: seq<Packet<Response>>, dealer: Id): seq<Id> {
    Map(Filter(responses, Complains(dealer)), ResponseId())
  }

  predicate ValidRevealed(item: Revealed, commitments: seq<Wire>, roster: seq<Participant>, p: nat)
    requires p > 0
  {
    var recipient := Find(roster, item.recipientId);
    && recipient.Some? && recipient.value.index == item.recipientIndex
    && ShareMatches(item.share, commitments, item.recipientIndex, p)
  }

  predicate ResolutionHeader(packet: Packet<Resolution>, dealer: Participant, e: Expected) {
    var b := packet.body;
    && b.dealerId == dealer.id && Verifies(packet, dealer.identity)
    && b.ceremony == e.ceremony && b.sessionId == e.sessionId && b.epoch == e.epoch && b.threshold == e.threshold
  }

  predicate ResolutionItems(complaints: seq<Revealed>, commitments: seq<Wire>, roster: seq<Participant>, p: nat)
    requires p > 0
  {
    && (forall i :: 0 <= i < |complaints| ==> ValidRevealed(complaints[i], commitments, roster, p))
    && forall i, j :: 0 <= i < j < |complaints| ==> complaints[i].recipientId != complaints[j].recipientId
  }

  predicate ValidResolution(packet: Packet<Resolution>, dealer: Participant, deal: Deal, s: Setup,
                            responses: seq<Packet<Response>>, p: nat)
    requires p > 0
  {
    && ResolutionHeader(packet, dealer, s.expected)
    && |ComplainerIds(responses, dealer.id)| < s.expected.threshold
    && SameIds(Map(packet.body.complaints, RevealedId()), ComplainerIds(responses, dealer.id))
    && ResolutionItems(packet.body.complaints, deal.header.commitments, s.roster, p)
  }

  method ValidateResolution(packet: Packet<Resolution>, dealer: Participant, deal: Deal, s: Setup,
                            responses: seq<Packet<Response>>, p: nat) returns (r: Result<Resolution>)
    requires p > 1 && ValidRoster(s.roster, s.expected.threshold)
    ensures r.Ok? <==> ValidResolution(packet, dealer, deal, s, responses, p)
    ensures r.Ok? ==> r.value == packet.body
  {
    if !ResolutionHeader(packet, dealer, s.expected) { return Failure; }
    var complained := ComplainerIds(responses, dealer.id);
    if |complained| >= s.expected.threshold { return Failure; }
    if !SameIds(Map(packet.body.complaints, RevealedId()), complained) { return Failure; }
    var itemsOk := CheckItems(packet.body.complaints, deal.header.commitments, s.roster, s.expected.threshold, p);
    if !itemsOk { return Failure; }
    r := Ok(packet.body);
  }

  method CheckItems(items: seq<Revealed>, commitments: seq<Wire>, roster: seq<Participant>, ghost threshold: int, p: nat)
    returns (ok: bool)
    requires p > 1 && ValidRoster(roster, threshold)
    ensures ok <==> ResolutionItems(items, commitments, roster, p)
  {
    var seen: seq<Id> := [];
    var k := 0;
    while k < |items|
      invariant 0 <= k <= |items| && seen == Map(items[..k], RevealedId())
      invariant ResolutionItems(items[..k], commitments, roster, p)
    {
      var item := items[k];
      if item.recipientId in seen {
        var i :| 0 <= i < k && seen[i] == item.recipientId;
        assert items[i].recipientId == items[k].recipientId;
        return false;
      }
      var recipient := Find(roster, item.recipientId);
      if recipient.None? || recipient.value.index != item.recipientIndex || item.share <= 0 || item.share >= p {
        assert !ValidRevealed(items[k], commitments, roster, p);
        return false;
      }
      var expected := ExpectedSharePoint(commitments, item.recipientIndex, p);
      if expected.Failure? || expected.value != item.share {
        assert !ValidRevealed(items[k], commitments, roster, p);
        return false;
      }
      NextItem(items, k, seen, commitments, roster, p);
      seen := seen + [item.recipientId];
      k := k + 1;
    }
    assert items[..k] == items;
    ok := true;
  }

  lemma NextItem(items: seq<Revealed>, k: nat, seen: seq<Id>, commitments: seq<Wire>, roster: seq<Participant>, p: nat)
    requires p > 0 && k < |items| && seen == Map(items[..k], RevealedId()) && items[k].recipientId !in seen
    requires ResolutionItems(items[..k], commitments, roster, p) && ValidRevealed(items[k], commitments, roster, p)
    ensures ResolutionItems(items[..k + 1], commitments, roster, p)
    ensures seen + [items[k].recipientId] == Map(items[..k + 1], RevealedId())
  {
    var longer := items[..k + 1];
    assert longer == items[..k] + [items[k]];
    forall i, j | 0 <= i < j < |longer|
      ensures longer[i].recipientId != longer[j].recipientId
    {
      assert longer[i] == items[..k][i];
      assert seen[i] == longer[i].recipientId;
      if j < k { assert longer[j] == items[..k][j]; }
    }
  }

  function FindResolution(resolutions: seq<Packet<Resolution>>, dealer: Id): (r: Option<Packet<Resolution>>)
    ensures r.Some? ==> r.value in resolutions && r.value.body.dealerId == dealer
    ensures r.None? ==> forall i :: 0 <= i < |resolutions| ==> resolutions[i].body.dealerId != dealer
  {
    if resolutions == [] then None
    else if resolutions[0].body.dealerId == dealer then Some(resolutions[0])
    else FindResolution(resolutions[1..], dealer)
  }

  // ------------------------------------------------------------ resharing

  function MemberIdsOf(members: seq<Member>): (r: seq<Id>)
    ensures |r| == |members| && forall i :: 0 <= i < |r| ==> r[i] == members[i].participant.id
  {
    seq(|members|, i requires 0 <= i < |members| => members[i].participant.id)
  }

  function AmongIds(ids: seq<Id>): Id -> bool { (id: Id) => id in ids }

  /** The member a JavaScript Map keeps under an identifier: the last one. */
  function LastMember(members: seq<Member>, id: Id): (r: Option<Member>)
    ensures r.Some? ==> r.value in members && r.value.participant.id == id
    ensures r.None? ==> forall i :: 0 <= i < |members| ==> members[i].participant.id != id
  {
    if members == [] then None
    else if members[|members| - 1].participant.id == id then Some(members[|members| - 1])
    else LastMember(members[..|members| - 1], id)
  }

  function IndexesOf(members: seq<Member>, ids: seq<Id>): (r: seq<int>)
    requires forall i :: 0 <= i < |ids| ==> LastMember(members, ids[i]).Some?
    ensures |r| == |ids|
  {
    seq(|ids|, i requires 0 <= i < |ids| => LastMember(members, ids[i]).value.participant.index)
  }

  function SelectedDealerIndexes(previous: Option<Body>, selected: seq<Id>): Result<seq<int>> {
    if previous.None? then Failure
    else
      var members := previous.value.members;
      if !(forall i :: 0 <= i < |selected| ==> LastMember(members, selected[i]).Some?) then Failure
      else
        var indexes := IndexesOf(members, selected);
        if !(forall i, j :: 0 <= i < j < |indexes| ==> indexes[i] != indexes[j]) then Failure
        else if |indexes| < previous.value.threshold then Failure
        else if Filter(MemberIdsOf(members), AmongIds(selected)) != selected then Failure
        else Ok(indexes)
  }

  /** The first commitment of a reshare deal is the old public share times its weight. */
  ghost predicate ConstantMatches(h: Header, dealerIndex: int, s: Setup, p: nat)
    requires IsPrime(p) && |h.commitments| >= 1
  {
    var indexes := SelectedDealerIndexes(s.previous, s.expected.selectedDealerIds);
    && indexes.Ok? && ValidIndexes(indexes.value, p) && dealerIndex in indexes.value
    && var prior := FindMember(s.previous.value.members, h.dealerId);
    && prior.Some? && Decode(prior.value.sharePublicKey, p, false).Ok?
    && Decode(h.commitments[0], p, true).Ok?
    && h.commitments[0].log == (prior.value.sharePublicKey.log * Lambda(indexes.value, dealerIndex, p)) % p
  }

  method CheckConstant(h: Header, dealerIndex: int, s: Setup, p: nat) returns (ok: bool)
    requires IsPrime(p) && |h.commitments| >= 1
    ensures ok <==> ConstantMatches(h, dealerIndex, s, p)
  {
    var indexes := SelectedDealerIndexes(s.previous, s.expected.selectedDealerIds);
    if indexes.Failure? { return false; }
    var lambda := LagrangeCoefficientAtZero(dealerIndex, indexes.value, p);
    if lambda.Failure? { return false; }
    var prior := FindMember(s.previous.value.members, h.dealerId);
    if prior.None? || Decode(prior.value.sharePublicKey, p, false).Failure? { return false; }
    if Decode(h.commitments[0], p, true).Failure? { return false; }
    ok := h.commitments[0].log == (prior.value.sharePublicKey.log * lambda.value) % p;
  }

  // --------------------------------------------------------- qualification

  function ResolvedIds(resolutions: seq<Packet<Resolution>>, dealer: Id): seq<Id> {
    var r := FindResolution(resolutions, dealer);
    if r.None? then [] else Map(r.value.body.complaints, RevealedId())
  }

  function RecipientAmong(ids: seq<Id>): Packet<Response> -> bool {
    (r: Packet<Response>) => r.body.recipientId in ids
  }

  predicate Qualifies(d: Id, responses: seq<Packet<Response>>, resolutions: seq<Packet<Resolution>>, threshold: int) {
    var complaints := Filter(responses, Complains(d));
    var resolved := ResolvedIds(resolutions, d);
    && |complaints| < threshold
    && Filter(complaints, RecipientAmong(resolved)) == complaints
    && |Filter(responses, Approves(d))| + |Filter(complaints, RecipientAmong(resolved))| >= threshold
  }

  function QualifiedBy(packets: Packets, threshold: int): Packet<Deal> -> bool {
    (d: Packet<Deal>) => Qualifies(d.body.header.dealerId, packets.responses, packets.resolutions, threshold)
  }

  function QualifiedDeals(packets: Packets, threshold: int): seq<Packet<Deal>> {
    Filter(packets.deals, QualifiedBy(packets, threshold))
  }

  // ------------------------------------------------------------ local share

  function Opened(e: Envelope, transport: nat, context: Header, me: Id): Option<nat> {
    if e.Sealed? && e.transport == transport && e.context == context && e.recipientId == me then Some(e.share) else None
  }

  function SealedFor(shares: seq<SealedShare>, me: Id): (r: Option<SealedShare>)
    ensures r.Some? ==> r.value in shares && r.value.recipientId == me
  {
    if shares == [] then None else if shares[0].recipientId == me then Some(shares[0]) else SealedFor(shares[1..], me)
  }

  function RevealedFor(items: seq<Revealed>, me: Id): (r: Option<Revealed>)
    ensures r.Some? ==> r.value in items && r.value.recipientId == me
  {
    if items == [] then None else if items[0].recipientId == me then Some(items[0]) else RevealedFor(items[1..], me)
  }

  function Contribution(d: Packet<Deal>, me: Participant, transport: nat, resolutions: seq<Packet<Resolution>>,
                        p: nat): Option<nat>
    requires p > 0
  {
    var h := d.body.header;
    var item := SealedFor(d.body.encryptedShares, me.id);
    var clear := if item.None? then None else Opened(item.value.envelope, transport, h, me.id);
    if clear.Some? && ShareMatches(clear.value, h.commitments, me.index, p) then clear
    else
      var resolution := FindResolution(resolutions, h.dealerId);
      var revealed := if resolution.None? then None else RevealedFor(resolution.value.body.complaints, me.id);
      if revealed.None? || revealed.value.share < 0 || revealed.value.share >= p then None else Some(revealed.value.share)
  }

  function ContributionOf(me: Participant, transport: nat, resolutions: seq<Packet<Resolution>>,
                          p: nat): Packet<Deal> -> int
    requires p > 0
  {
    (d: Packet<Deal>) => var c := Contribution(d, me, transport, resolutions, p); if c.Some? then c.value else 0
  }

  function CommitmentLog(k: nat): Packet<Deal> -> int {
    (d: Packet<Deal>) =>
      var c := d.body.header.commitments;
      if k < |c| && c[k].Encoded? then c[k].log else 0
  }

  function AggregateCommitments(deals: seq<Packet<Deal>>, threshold: nat, p: nat): (r: seq<nat>)
    requires p > 0
    ensures |r| == threshold
  {
    seq(threshold, k requires 0 <= k < threshold => Sum(deals, CommitmentLog(k)) % p)
  }

  // ----------------------------------------------------------- finalization

  datatype Transcript = Transcript(
    expected: Expected, qualifiedDealerIds: seq<Id>, deals: seq<Packet<Deal>>,
    responses: seq<Packet<Response>>, resolutions: seq<Packet<Resolution>>)

  datatype Finalization = Finalization(
    participantId: Id, participantIndex: int, groupPublicKey: nat, coefficients: seq<nat>,
    sharePublicKey: nat, privateShare: nat, transcript: Transcript)

  function IdOrder(): (Id, Id) -> bool { (a: Id, b: Id) => a <= b }

  function OrderBy<T>(key: T -> Id, collate: (Id, Id) -> bool): (T, T) -> bool {
    (x: T, y: T) => collate(key(x), key(y))
  }

  function TranscriptOf(s: Setup, packets: Packets, collate: (Id, Id) -> bool): Transcript {
    Transcript(
      s.expected,
      Sort(DealIds(QualifiedDeals(packets, s.expected.threshold)), IdOrder()),
      Sort(packets.deals, OrderBy(DealId(), collate)),
      Sort(packets.responses, OrderBy(ResponseId(), collate)),
      Sort(packets.resolutions, OrderBy(ResolutionId(), collate)))
  }

  predicate DistinctIds(ids: seq<Id>) {
    forall i, j :: 0 <= i < j < |ids| ==> ids[i] != ids[j]
  }

  predicate ResponsesValid(responses: seq<Packet<Response>>, s: Setup) {
    && (forall i :: 0 <= i < |responses| ==> ValidResponse(responses[i], s))
    && DistinctIds(Map(responses, ResponseId()))
  }

  ghost predicate DealAccepted(d: Packet<Deal>, s: Setup, packets: Packets, p: nat)
    requires IsPrime(p)
  {
    && ValidDeal(d, s, p)
    && (var dealer := Find(s.dealers, d.body.header.dealerId).value;
        && (var r := FindResolution(packets.resolutions, dealer.id);
            r.Some? ==> ValidResolution(r.value, dealer, d.body, s, packets.responses, p))
        && (s.expected.ceremony.Reshare? ==> ConstantMatches(d.body.header, dealer.index, s, p)))
  }

  ghost predicate PacketsAccepted(s: Setup, packets: Packets, p: nat)
    requires IsPrime(p)
  {
    && ResponsesValid(packets.responses, s)
    && DistinctIds(Map(packets.resolutions, ResolutionId()))
    && (forall i :: 0 <= i < |packets.deals| ==> DealAccepted(packets.deals[i], s, packets, p))
    && DistinctIds(DealIds(packets.deals))
    && (forall i :: 0 <= i < |packets.resolutions| ==> packets.resolutions[i].body.dealerId in DealIds(packets.deals))
    && (forall i :: 0 <= i < |packets.responses| ==>
          SameIds(Map(packets.responses[i].body.statuses, StatusDealer()), DealIds(packets.deals)))
  }

  predicate QuorumQualified(s: Setup, packets: Packets) {
    var q := QualifiedDeals(packets, s.expected.threshold);
    match s.expected.ceremony
    case Dkg => |q| >= s.expected.threshold
    case Reshare =>
      && SelectedDealerIndexes(s.previous, s.expected.selectedDealerIds).Ok?
      && |q| == |s.expected.selectedDealerIds|
      && forall i :: 0 <= i < |s.expected.selectedDealerIds| ==> s.expected.selectedDealerIds[i] in DealIds(q)
  }

  predicate SharesAvailable(q: seq<Packet<Deal>>, me: Participant, transport: nat,
                            resolutions: seq<Packet<Resolution>>, p: nat)
    requires p > 0
  {
    forall i :: 0 <= i < |q| ==> Contribution(q[i], me, transport, resolutions, p).Some?
  }

  /** The last check of a reshare: the summed constants must be the old group key. */
  predicate KeyKept(s: Setup, groupPublicKey: nat) {
    s.expected.ceremony.Reshare? ==> s.previous.Some? && s.previous.value.groupPublicKey == Encoded(groupPublicKey)
  }

  ghost predicate AcceptedUpToKey(s: Setup, packets: Packets, me: Id, transport: nat, p: nat)
    requires IsPrime(p)
  {
    && ValidRoster(s.roster, s.expected.threshold) && ValidDealers(s.dealers)
    && var self := Find(s.roster, me);
    && self.Some?
    && PacketsAccepted(s, packets, p)
    && QuorumQualified(s, packets)
    && var q := QualifiedDeals(packets, s.expected.threshold);
    && SharesAvailable(q, self.value, transport, packets.resolutions, p)
    && Sum(q, ContributionOf(self.value, transport, packets.resolutions, p)) % p != 0
  }

  ghost predicate Accepted(s: Setup, packets: Packets, me: Id, transport: nat, p: nat)
    requires IsPrime(p)
  {
    && AcceptedUpToKey(s, packets, me, transport, p)
    && KeyKept(s, AggregateCommitments(QualifiedDeals(packets, s.expected.threshold), s.expected.threshold, p)[0])
  }

  method CheckResponses(responses: seq<Packet<Response>>, s: Setup) returns (ok: bool)
    ensures ok <==> ResponsesValid(responses, s)
  {
    var seen: seq<Id> := [];
    var k := 0;
    while k < |responses|
      invariant 0 <= k <= |responses| && seen == Map(responses[..k], ResponseId())
      invariant ResponsesValid(responses[..k], s)
    {
      var id := responses[k].body.recipientId;
      if !ValidResponse(responses[k], s) || id in seen {
        if id in seen {
          var i :| 0 <= i < k && seen[i] == id;
          assert Map(responses, ResponseId())[i] == Map(responses, ResponseId())[k];
        }
        return false;
      }
      assert responses[..k + 1] == responses[..k] + [responses[k]];
      seen := seen + [id];
      k := k + 1;
    }
    assert responses[..k] == responses;
    ok := true;
  }

  method CheckDeal(d: Packet<Deal>, s: Setup, packets: Packets, p: nat) returns (ok: bool)
    requires IsPrime(p) && ValidRoster(s.roster, s.expected.threshold)
    ensures ok <==> DealAccepted(d, s, packets, p)
  {
    if !ValidDeal(d, s, p) { return false; }
    var dealer := Find(s.dealers, d.body.header.dealerId).value;
    var r := FindResolution(packets.resolutions, dealer.id);
    if r.Some? {
      var resolution := ValidateResolution(r.value, dealer, d.body, s, packets.responses, p);
      if resolution.Failure? { return false; }
    }
    if s.expected.ceremony.Reshare? {
      var matches := CheckConstant(d.body.header, dealer.index, s, p);
      if !matches { return false; }
    }
    ok := true;
  }

  method CheckPackets(s: Setup, packets: Packets, p: nat) returns (ok: bool)
    requires IsPrime(p) && ValidRoster(s.roster, s.expected.threshold)
    ensures ok <==> PacketsAccepted(s, packets, p)
  {
    var responsesOk := CheckResponses(packets.responses, s);
    if !responsesOk || !DistinctIds(Map(packets.resolutions, ResolutionId())) { return false; }
    var k := 0;
    while k < |packets.deals|
      invariant 0 <= k <= |packets.deals|
      invariant forall i :: 0 <= i < k ==> DealAccepted(packets.deals[i], s, packets, p)
      invariant DistinctIds(DealIds(packets.deals[..k]))
    {
      var accepted := CheckDeal(packets.deals[k], s, packets, p);
      if !accepted { return false; }
      var earlier := DealIds(packets.deals[..k]);
      if packets.deals[k].body.header.dealerId in earlier {
        var i :| 0 <= i < k && earlier[i] == packets.deals[k].body.header.dealerId;
        assert DealIds(packets.deals)[i] == DealIds(packets.deals)[k];
        return false;
      }
      assert packets.deals[..k + 1] == packets.deals[..k] + [packets.deals[k]];
      k := k + 1;
    }
    assert packets.deals[..k] == packets.deals;
    var ids := DealIds(packets.deals);
    ok := (forall i :: 0 <= i < |packets.resolutions| ==> packets.resolutions[i].body.dealerId in ids)
      && (forall i :: 0 <= i < |packets.responses| ==>
            SameIds(Map(packets.responses[i].body.statuses, StatusDealer()), ids));
  }

  method SelectQualified(packets: Packets, threshold: int) returns (qualified: seq<Packet<Deal>>)
    ensures qualified == QualifiedDeals(packets, threshold)
  {
    var keep := QualifiedBy(packets, threshold);
    qualified := [];
    var k := 0;
    while k < |packets.deals|
      invariant 0 <= k <= |packets.deals| && qualified == Filter(packets.deals[..k], keep)
    {
      assert packets.deals[..k + 1] == packets.deals[..k] + [packets.deals[k]];
      FilterAppend(packets.deals[..k], packets.deals[k], keep);
      if keep(packets.deals[k]) { qualified := qualified + [packets.deals[k]]; }
      k := k + 1;
    }
    assert packets.deals[..k] == packets.deals;
  }

  method SumShares(qualified: seq<Packet<Deal>>, me: Participant, transport: nat,
                   resolutions: seq<Packet<Resolution>>, p: nat) returns (r: Result<nat>)
    requires p > 1
    ensures r.Ok? <==> SharesAvailable(qualified, me, transport, resolutions, p)
    ensures r.Ok? ==> r.value == Sum(qualified, ContributionOf(me, transport, resolutions, p)) % p
  {
    var term := ContributionOf(me, transport, resolutions, p);
    var privateShare := 0;
    ModSmall(0, p);
    var k := 0;
    while k < |qualified|
      invariant 0 <= k <= |qualified|
      invariant SharesAvailable(qualified[..k], me, transport, resolutions, p)
      invariant 0 <= privateShare < p && Cong(privateShare, Sum(qualified[..k], term), p)
    {
      var contribution := Contribution(qualified[k], me, transport, resolutions, p);
      if contribution.None? { return Failure; }
      var c := contribution.value;
      assert qualified[..k + 1] == qualified[..k] + [qualified[k]];
      SumAppend(qualified[..k], [qualified[k]], term);
      assert Sum([qualified[k]], term) == c + Sum([qualified[k]][1..], term);
      CongAdd(privateShare, Sum(qualified[..k], term), c, c, p);
      CongMod(privateShare + c, p);
      privateShare := (privateShare + c) % p;
      k := k + 1;
    }
    assert qualified[..k] == qualified;
    ModSmall(privateShare, p);
    r := Ok(privateShare);
  }

  method FinalizeCeremony(s: Setup, packets: Packets, me: Id, transport: nat, collate: (Id, Id) -> bool, p: nat)
    returns (r: Result<Finalization>)
    requires IsPrime(p)
    ensures r.Ok? <==> Accepted(s, packets, me, transport, p)
    ensures r.Ok? ==>
      var q := QualifiedDeals(packets, s.expected.threshold);
      var self := Find(s.roster, me).value;
      && r.value.participantId == me && r.value.participantIndex == self.index
      && r.value.coefficients == AggregateCommitments(q, s.expected.threshold, p)
      && r.value.groupPublicKey == r.value.coefficients[0]
      && r.value.privateShare == Sum(q, ContributionOf(self, transport, packets.resolutions, p)) % p
      && r.value.sharePublicKey == r.value.privateShare
      && r.value.transcript == TranscriptOf(s, packets, collate)
  {
    if !ValidRoster(s.roster, s.expected.threshold) || !ValidDealers(s.dealers) { return Failure; }
    var found := Find(s.roster, me);
    if found.None? { return Failure; }
    var self := found.value;
    var packetsOk := CheckPackets(s, packets, p);
    if !packetsOk { return Failure; }

    var qualified := SelectQualified(packets, s.expected.threshold);
    if !QuorumQualified(s, packets) { return Failure; }
    var sum := SumShares(qualified, self, transport, packets.resolutions, p);
    if sum.Failure? || sum.value == 0 { return Failure; }
    var privateShare := sum.value;
    var coefficients := AggregateCommitments(qualified, s.expected.threshold, p);
    if !KeyKept(s, coefficients[0]) { return Failure; }
    r := Ok(Finalization(me, self.index, coefficients[0], coefficients, privateShare, privateShare,
                         TranscriptOf(s, packets, collate)));
  }
}
