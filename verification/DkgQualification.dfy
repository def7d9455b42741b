/** Whose commitments a finalized ceremony sums, told from the packets alone: which recipients report for and
    against a dealer, and which complaints the dealer answered in public. */
module DkgQualification {
  import opened Outcomes
  import opened Field
  import opened Polynomial
  import opened ThresholdCrypto
  import opened ThresholdGroup
  import opened Sequences
  import opened ThresholdDkg
  import opened DkgTheorems

  /** The response carries this verdict on the dealer. */
  predicate Reports(r: Packet<Response>, dealer: Id, verdict: bool) {
    exists i :: 0 <= i < |r.body.statuses| && r.body.statuses[i].dealerId == dealer && r.body.statuses[i].accepted == verdict
  }

  /** The recipients whose responses carry it. */
  ghost function Reporters(responses: seq<Packet<Response>>, dealer: Id, verdict: bool): set<Id> {
    set r | r in responses && Reports(r, dealer, verdict) :: r.body.recipientId
  }

  /** The dealer signed this item away in public: it names the recipient and its roster index, and it carries the
      value the dealer's commitments have there. */
  ghost predicate RevealsTo(item: Revealed, id: Id, commitments: seq<Wire>, roster: seq<Participant>, p: nat)
    requires p > 0
  {
    && item.recipientId == id
    && (exists j :: 0 <= j < |roster| && roster[j].id == id && item.recipientIndex == roster[j].index == j + 1)
    && (forall k :: 0 <= k < |commitments| ==> commitments[k].Encoded?)
    && 0 < item.share < p && item.share == Eval(Logs(commitments), item.recipientIndex) % p
  }

  /** Some resolution the dealer signed for this session reveals the recipient's committed share. */
  ghost predicate AnsweredTo(d: Packet<Deal>, id: Id, s: Setup, packets: Packets, p: nat)
    requires p > 0
  {
    exists k, i :: 0 <= k < |packets.resolutions| && 0 <= i < |packets.resolutions[k].body.complaints|
      && SignedForDealer(packets.resolutions[k], d.body.header.dealerId, s)
      && RevealsTo(packets.resolutions[k].body.complaints[i], id, d.body.header.commitments, s.roster, p)
  }

  ghost predicate SignedForDealer(r: Packet<Resolution>, dealer: Id, s: Setup) {
    && r.body.dealerId == dealer && r.body.sessionId == s.expected.sessionId
    && exists j :: 0 <= j < |s.dealers| && s.dealers[j].id == dealer && r.signature == SignedBy(s.dealers[j].identity, r.body)
  }

  /** Fewer than threshold complaints, each answered, and approvals and answers together reach the threshold. */
  ghost predicate Stands(d: Packet<Deal>, s: Setup, packets: Packets, p: nat)
    requires p > 0
  {
    var dealer := d.body.header.dealerId;
    var against := Reporters(packets.responses, dealer, false);
    && |against| < s.expected.threshold
    && (forall id :: id in against ==> AnsweredTo(d, id, s, packets, p))
    && |Reporters(packets.responses, dealer, true)| + |against| >= s.expected.threshold
  }

  // ------------------------------------------------------------ verdicts

  lemma {:induction false} VerdictIs(statuses: seq<Status>, dealer: Id, verdict: bool)
    requires ValidStatuses(statuses)
    ensures Verdict(statuses, dealer) == Some(verdict)
      <==> exists i :: 0 <= i < |statuses| && statuses[i].dealerId == dealer && statuses[i].accepted == verdict
  {
    if statuses != [] {
      var rest := statuses[1..];
      VerdictIs(rest, dealer, verdict);
      assert forall i :: 0 < i < |statuses| ==> statuses[i] == rest[i - 1];
      if statuses[0].dealerId == dealer {
        assert forall i :: 0 < i < |statuses| ==> statuses[i].dealerId != dealer;
      } else if Verdict(rest, dealer) == Some(verdict) {
        var i :| 0 <= i < |rest| && rest[i].dealerId == dealer && rest[i].accepted == verdict;
        assert statuses[i + 1] == rest[i];
      }
    }
  }

  function Reporting(dealer: Id, verdict: bool): Packet<Response> -> bool {
    (r: Packet<Response>) => Verdict(r.body.statuses, dealer) == Some(verdict)
  }

  /** One response more: its recipient is new to the reporters, or it carries no such verdict. */
  lemma ReportersStep(responses: seq<Packet<Response>>, dealer: Id, verdict: bool)
    requires responses != [] && DistinctIds(Map(responses, ResponseId()))
    ensures var id := responses[0].body.recipientId;
      && id !in Reporters(responses[1..], dealer, verdict)
      && Reporters(responses, dealer, verdict)
           == Reporters(responses[1..], dealer, verdict) + (if Reports(responses[0], dealer, verdict) then {id} else {})
  {
    var head, rest := responses[0], responses[1..];
    var ids := Map(responses, ResponseId());
    forall r | r in rest ensures r.body.recipientId != head.body.recipientId {
      var j :| 0 <= j < |rest| && rest[j] == r;
      assert ids[0] != ids[j + 1];
    }
    assert forall r :: r in responses <==> r == head || r in rest;
  }

  lemma {:induction false} ReportersCount(responses: seq<Packet<Response>>, dealer: Id, verdict: bool)
    requires forall i :: 0 <= i < |responses| ==> ValidStatuses(responses[i].body.statuses)
    requires DistinctIds(Map(responses, ResponseId()))
    ensures |Filter(responses, Reporting(dealer, verdict))| == |Reporters(responses, dealer, verdict)|
  {
    if responses == [] {
      assert Reporters(responses, dealer, verdict) == {};
    } else {
      assert Map(responses[1..], ResponseId()) == Map(responses, ResponseId())[1..];
      ReportersCount(responses[1..], dealer, verdict);
      VerdictIs(responses[0].body.statuses, dealer, verdict);
      ReportersStep(responses, dealer, verdict);
    }
  }

  lemma FilterByVerdict(responses: seq<Packet<Response>>, dealer: Id)
    ensures Filter(responses, Complains(dealer)) == Filter(responses, Reporting(dealer, false))
    ensures Filter(responses, Approves(dealer)) == Filter(responses, Reporting(dealer, true))
  {
    FilterSame(responses, Complains(dealer), Reporting(dealer, false));
    FilterSame(responses, Approves(dealer), Reporting(dealer, true));
  }

  // ------------------------------------------------------------- answers

  /** An identifier is resolved if and only if the dealer revealed its committed share. */
  lemma ResolvedIsAnswered(d: Packet<Deal>, id: Id, s: Setup, packets: Packets, p: nat)
    requires IsPrime(p) && PacketsAccepted(s, packets, p) && d in packets.deals
    requires ValidRoster(s.roster, s.expected.threshold)
    ensures id in ResolvedIds(packets.resolutions, d.body.header.dealerId) <==> AnsweredTo(d, id, s, packets, p)
  {
    var dealer := d.body.header.dealerId;
    var found := FindResolution(packets.resolutions, dealer);
    if id in ResolvedIds(packets.resolutions, dealer) {
      var items := found.value.body.complaints;
      var i :| 0 <= i < |items| && Map(items, RevealedId())[i] == id;
      var k :| 0 <= k < |packets.resolutions| && packets.resolutions[k] == found.value;
      ResolutionAnswers(d, found.value, i, s, packets, p);
      assert SignedForDealer(packets.resolutions[k], dealer, s);
    }
    if AnsweredTo(d, id, s, packets, p) {
      var k, i :| 0 <= k < |packets.resolutions| && 0 <= i < |packets.resolutions[k].body.complaints|
        && SignedForDealer(packets.resolutions[k], dealer, s)
        && RevealsTo(packets.resolutions[k].body.complaints[i], id, d.body.header.commitments, s.roster, p);
      FindResolutionIs(packets.resolutions, k);
      assert Map(packets.resolutions[k].body.complaints, RevealedId())[i] == id;
    }
  }

  lemma ResolutionIsValid(d: Packet<Deal>, r: Packet<Resolution>, s: Setup, packets: Packets, p: nat)
    requires IsPrime(p) && PacketsAccepted(s, packets, p) && d in packets.deals
    requires FindResolution(packets.resolutions, d.body.header.dealerId) == Some(r)
    ensures Decodable(d.body.header.commitments, p)
    ensures Find(s.dealers, d.body.header.dealerId).Some?
    ensures ValidResolution(r, Find(s.dealers, d.body.header.dealerId).value, d.body, s, packets.responses, p)
  {
    assert DealAccepted(d, s, packets, p);
  }

  lemma ResolutionAnswers(d: Packet<Deal>, r: Packet<Resolution>, i: nat, s: Setup, packets: Packets, p: nat)
    requires IsPrime(p) && PacketsAccepted(s, packets, p) && d in packets.deals
    requires ValidRoster(s.roster, s.expected.threshold)
    requires FindResolution(packets.resolutions, d.body.header.dealerId) == Some(r) && i < |r.body.complaints|
    ensures SignedForDealer(r, d.body.header.dealerId, s)
    ensures RevealsTo(r.body.complaints[i], r.body.complaints[i].recipientId, d.body.header.commitments, s.roster, p)
  {
    ResolutionIsValid(d, r, s, packets, p);
    var dealer := Find(s.dealers, d.body.header.dealerId).value;
    var j :| 0 <= j < |s.dealers| && s.dealers[j] == dealer;
    ItemReveals(r.body.complaints[i], d.body.header.commitments, s.roster, p);
  }

  lemma ItemReveals(item: Revealed, commitments: seq<Wire>, roster: seq<Participant>, p: nat)
    requires p > 0 && Decodable(commitments, p) && ValidRevealed(item, commitments, roster, p)
    requires forall i :: 0 <= i < |roster| ==> roster[i].index == i + 1
    ensures RevealsTo(item, item.recipientId, commitments, roster, p)
  {
    var recipient := Find(roster, item.recipientId).value;
    var j :| 0 <= j < |roster| && roster[j] == recipient;
    assert forall k :: 0 <= k < |commitments| ==> Decode(commitments[k], p, true).Ok?;
  }

  /** A dealer is selected if and only if it stands. */
  lemma QualifiesExactly(d: Packet<Deal>, s: Setup, packets: Packets, p: nat)
    requires IsPrime(p) && PacketsAccepted(s, packets, p) && d in packets.deals
    requires ValidRoster(s.roster, s.expected.threshold)
    ensures d in QualifiedDeals(packets, s.expected.threshold) <==> Stands(d, s, packets, p)
  {
    var t, dealer := s.expected.threshold, d.body.header.dealerId;
    var against := Reporters(packets.responses, dealer, false);
    FilterKeeps(packets.deals, QualifiedBy(packets, t), d);
    assert forall i :: 0 <= i < |packets.responses| ==> ValidResponse(packets.responses[i], s);
    FilterByVerdict(packets.responses, dealer);
    ReportersCount(packets.responses, dealer, false);
    ReportersCount(packets.responses, dealer, true);
    AllAnswered(d, s, packets, p);
  }

  lemma AllAnswered(d: Packet<Deal>, s: Setup, packets: Packets, p: nat)
    requires IsPrime(p) && PacketsAccepted(s, packets, p) && d in packets.deals
    requires ValidRoster(s.roster, s.expected.threshold)
    ensures var dealer := d.body.header.dealerId;
      var complaints := Filter(packets.responses, Complains(dealer));
      (Filter(complaints, RecipientAmong(ResolvedIds(packets.resolutions, dealer))) == complaints)
        <==> (forall id :: id in Reporters(packets.responses, dealer, false) ==> AnsweredTo(d, id, s, packets, p))
  {
    var dealer := d.body.header.dealerId;
    var complaints := Filter(packets.responses, Complains(dealer));
    var among := RecipientAmong(ResolvedIds(packets.resolutions, dealer));
    FilterAll(complaints, among);
    forall r | r in packets.responses
      ensures r in complaints <==> Reports(r, dealer, false)
      ensures among(r) <==> AnsweredTo(d, r.body.recipientId, s, packets, p)
    {
      assert ValidResponse(r, s);
      FilterKeeps(packets.responses, Complains(dealer), r);
      VerdictIs(r.body.statuses, dealer, false);
      ResolvedIsAnswered(d, r.body.recipientId, s, packets, p);
    }
    forall id | id in Reporters(packets.responses, dealer, false)
      ensures exists r :: r in complaints && r.body.recipientId == id
    {
      var r :| r in packets.responses && Reports(r, dealer, false) && r.body.recipientId == id;
      assert r in complaints;
    }
    assert forall r :: r in complaints ==> r.body.recipientId in Reporters(packets.responses, dealer, false);
  }

  // --------------------------------------------------------- what is summed

  ghost function Standing(s: Setup, packets: Packets, p: nat): set<Id>
    requires p > 0
  {
    set d | d in packets.deals && Stands(d, s, packets, p) :: d.body.header.dealerId
  }

  /** What a deal adds to the coefficient of degree k. */
  ghost function StandingLog(k: nat, s: Setup, packets: Packets, p: nat): Packet<Deal> -> int
    requires p > 0
  {
    (d: Packet<Deal>) => if Stands(d, s, packets, p) then CommitmentLog(k)(d) else 0
  }

  lemma {:induction false} SumOfFiltered<T>(xs: seq<T>, keep: T -> bool, f: T -> int, g: T -> int)
    requires forall i :: 0 <= i < |xs| ==> g(xs[i]) == if keep(xs[i]) then f(xs[i]) else 0
    ensures Sum(Filter(xs, keep), f) == Sum(xs, g)
  {
    if xs != [] {
      SumOfFiltered(xs[1..], keep, f, g);
      if keep(xs[0]) {
        assert Filter(xs, keep)[1..] == Filter(xs[1..], keep);
      }
    }
  }

  /** The finalized coefficients are the sums of the commitments of the standing dealers, over all deals. */
  lemma SummedExactly(s: Setup, packets: Packets, me: Id, transport: nat, k: nat, p: nat)
    requires IsPrime(p) && AcceptedUpToKey(s, packets, me, transport, p) && k < s.expected.threshold
    ensures AggregateCommitments(QualifiedDeals(packets, s.expected.threshold), s.expected.threshold, p)[k]
         == Sum(packets.deals, StandingLog(k, s, packets, p)) % p
  {
    var t := s.expected.threshold;
    var keep, f, g := QualifiedBy(packets, t), CommitmentLog(k), StandingLog(k, s, packets, p);
    forall i | 0 <= i < |packets.deals|
      ensures g(packets.deals[i]) == if keep(packets.deals[i]) then f(packets.deals[i]) else 0
    {
      QualifiesExactly(packets.deals[i], s, packets, p);
      FilterKeeps(packets.deals, keep, packets.deals[i]);
    }
    SumOfFiltered(packets.deals, keep, f, g);
  }

  lemma StandingIsQualified(s: Setup, packets: Packets, p: nat)
    requires IsPrime(p) && PacketsAccepted(s, packets, p) && ValidRoster(s.roster, s.expected.threshold)
    ensures var ids := DealIds(QualifiedDeals(packets, s.expected.threshold));
      Distinct(ids) && forall id :: id in Standing(s, packets, p) <==> id in ids
  {
    var q := QualifiedDeals(packets, s.expected.threshold);
    var ids := DealIds(q);
    FilterDistinct(packets.deals, QualifiedBy(packets, s.expected.threshold), DealId());
    forall id | id in Standing(s, packets, p) ensures id in ids {
      var d :| d in packets.deals && Stands(d, s, packets, p) && d.body.header.dealerId == id;
      QualifiesExactly(d, s, packets, p);
      var i :| 0 <= i < |q| && q[i] == d;
      assert ids[i] == id;
    }
    forall i | 0 <= i < |ids| ensures ids[i] in Standing(s, packets, p) {
      assert q[i] in q && q[i] in packets.deals;
      QualifiesExactly(q[i], s, packets, p);
    }
  }

  function Members(ids: seq<Id>): set<Id> { set id | id in ids }

  lemma {:induction false} MembersCount(ids: seq<Id>)
    requires Distinct(ids)
    ensures |Members(ids)| == |ids|
  {
    if ids != [] {
      MembersCount(ids[1..]);
      assert ids == [ids[0]] + ids[1..];
      assert Members(ids) == Members(ids[1..]) + {ids[0]};
      assert ids[0] !in ids[1..];
    }
  }

  /** The condition on the standing dealers: threshold of them for a generation, exactly the preselected ones for
      a reshare. */
  ghost predicate Quorum(standing: set<Id>, s: Setup) {
    match s.expected.ceremony
    case Dkg => |standing| >= s.expected.threshold
    case Reshare =>
      && SelectedDealerIndexes(s.previous, s.expected.selectedDealerIds).Ok?
      && forall id :: id in standing <==> id in s.expected.selectedDealerIds
  }

  lemma QuorumExactly(s: Setup, packets: Packets, p: nat)
    requires IsPrime(p) && PacketsAccepted(s, packets, p) && ValidRoster(s.roster, s.expected.threshold)
    ensures QuorumQualified(s, packets) <==> Quorum(Standing(s, packets, p), s)
  {
    StandingIsQualified(s, packets, p);
    QuorumOf(s, packets, Standing(s, packets, p));
  }

  lemma QuorumOf(s: Setup, packets: Packets, standing: set<Id>)
    requires Distinct(DealIds(QualifiedDeals(packets, s.expected.threshold)))
    requires forall id :: id in standing <==> id in DealIds(QualifiedDeals(packets, s.expected.threshold))
    ensures QuorumQualified(s, packets) <==> Quorum(standing, s)
  {
    var ids := DealIds(QualifiedDeals(packets, s.expected.threshold));
    MembersCount(ids);
    assert standing == Members(ids);
    if s.expected.ceremony.Reshare? && SelectedDealerIndexes(s.previous, s.expected.selectedDealerIds).Ok? {
      SelectedQuorum(s, ids);
    }
  }

  lemma SelectedQuorum(s: Setup, ids: seq<Id>)
    requires SelectedDealerIndexes(s.previous, s.expected.selectedDealerIds).Ok? && Distinct(ids)
    ensures var sel := s.expected.selectedDealerIds;
      (|ids| == |sel| && forall i :: 0 <= i < |sel| ==> sel[i] in ids) <==> (forall id :: id in ids <==> id in sel)
  {
    var sel := s.expected.selectedDealerIds;
    var indexes := SelectedDealerIndexes(s.previous, sel).value;
    forall i, j | 0 <= i < j < |sel| ensures sel[i] != sel[j] {
      assert indexes[i] != indexes[j];
    }
    MembersCount(ids);
    MembersCount(sel);
    var (all, chosen) := (Members(ids), Members(sel));
    if |ids| == |sel| && forall i :: 0 <= i < |sel| ==> sel[i] in ids {
      assert chosen <= all;
      assert all == chosen + (all - chosen);
      forall id ensures id in ids <==> id in sel { assert id in all <==> id in chosen; }
    }
    if forall id :: id in ids <==> id in sel {
      assert all == chosen;
    }
  }

  // ----------------------------------------------------- which packets count

  /** The participant of the roster that holds this identifier and this index signed the packet. */
  ghost predicate SignedByMember<B>(packet: Packet<B>, id: Id, index: int, roster: seq<Participant>) {
    exists j :: 0 <= j < |roster| && roster[j].id == id && roster[j].index == index
      && packet.signature == SignedBy(roster[j].identity, packet.body)
  }

  lemma FindSigner<B>(packet: Packet<B>, id: Id, index: int, roster: seq<Participant>, threshold: int)
    requires ValidRoster(roster, threshold)
    ensures SignedByMember(packet, id, index, roster) <==>
      var m := Find(roster, id); m.Some? && m.value.index == index && Verifies(packet, m.value.identity)
  {
    var m := Find(roster, id);
    if m.Some? {
      var j :| 0 <= j < |roster| && roster[j] == m.value;
    }
    if SignedByMember(packet, id, index, roster) {
      var j :| 0 <= j < |roster| && roster[j].id == id && roster[j].index == index
        && packet.signature == SignedBy(roster[j].identity, packet.body);
      FindIsUnique(roster, j, threshold);
    }
  }

  /** A response counts if and only if the recipient it names signed it for this session, under its roster index,
      with at most one short verdict on each dealer. */
  lemma ResponseExactly(r: Packet<Response>, s: Setup)
    requires ValidRoster(s.roster, s.expected.threshold)
    ensures ValidResponse(r, s) <==>
      && SignedByMember(r, r.body.recipientId, r.body.recipientIndex, s.roster)
      && (r.body.ceremony, r.body.sessionId) == (s.expected.ceremony, s.expected.sessionId)
      && (r.body.epoch, r.body.threshold) == (s.expected.epoch, s.expected.threshold)
      && (forall x :: x in r.body.statuses ==> |x.reason| <= 160)
      && (forall i, j :: 0 <= i < j < |r.body.statuses| ==> r.body.statuses[i].dealerId != r.body.statuses[j].dealerId)
  {
    FindSigner(r, r.body.recipientId, r.body.recipientIndex, s.roster, s.expected.threshold);
  }

  ghost predicate EachRevealed(items: seq<Revealed>, commitments: seq<Wire>, roster: seq<Participant>, p: nat)
    requires p > 0
  {
    forall i :: 0 <= i < |items| ==> RevealsTo(items[i], items[i].recipientId, commitments, roster, p)
  }

  lemma RevealedExactly(item: Revealed, commitments: seq<Wire>, roster: seq<Participant>, threshold: int, p: nat)
    requires p > 0 && ValidRoster(roster, threshold) && Decodable(commitments, p)
    ensures ValidRevealed(item, commitments, roster, p) <==> RevealsTo(item, item.recipientId, commitments, roster, p)
  {
    assert forall k :: 0 <= k < |commitments| ==> Decode(commitments[k], p, true).Ok?;
    if exists j :: 0 <= j < |roster| && roster[j].id == item.recipientId && item.recipientIndex == roster[j].index {
      var j :| 0 <= j < |roster| && roster[j].id == item.recipientId && item.recipientIndex == roster[j].index;
      FindIsUnique(roster, j, threshold);
    }
    var m := Find(roster, item.recipientId);
    if m.Some? {
      var j :| 0 <= j < |roster| && roster[j] == m.value;
    }
  }

  /** A resolution of an acceptable deal counts if and only if its dealer signed it for this session, fewer than
      threshold recipients complain, and it reveals the committed share of each of them, once, and of nobody else. */
  lemma ResolutionExactly(r: Packet<Resolution>, dealer: Participant, deal: Deal, s: Setup,
                          responses: seq<Packet<Response>>, p: nat)
    requires p > 0 && ValidRoster(s.roster, s.expected.threshold) && ResponsesValid(responses, s)
    requires Decodable(deal.header.commitments, p)
    ensures ValidResolution(r, dealer, deal, s, responses, p) <==>
      && (r.body.dealerId, r.signature) == (dealer.id, SignedBy(dealer.identity, r.body))
      && (r.body.ceremony, r.body.sessionId) == (s.expected.ceremony, s.expected.sessionId)
      && (r.body.epoch, r.body.threshold) == (s.expected.epoch, s.expected.threshold)
      && |Reporters(responses, dealer.id, false)| < s.expected.threshold
      && Distinct(Map(r.body.complaints, RevealedId()))
      && (forall id :: id in Map(r.body.complaints, RevealedId()) <==> id in Reporters(responses, dealer.id, false))
      && EachRevealed(r.body.complaints, deal.header.commitments, s.roster, p)
  {
    var items := r.body.complaints;
    forall i | 0 <= i < |items|
      ensures ValidRevealed(items[i], deal.header.commitments, s.roster, p)
        <==> RevealsTo(items[i], items[i].recipientId, deal.header.commitments, s.roster, p)
    {
      RevealedExactly(items[i], deal.header.commitments, s.roster, s.expected.threshold, p);
    }
    ItemsDistinct(items);
    ComplainersAre(dealer.id, s, responses);
    SameIdsExactly(Map(items, RevealedId()), ComplainerIds(responses, dealer.id));
    FilterByVerdict(responses, dealer.id);
    ReportersCount(responses, dealer.id, false);
  }

  lemma ItemsDistinct(items: seq<Revealed>)
    ensures Distinct(Map(items, RevealedId()))
      <==> forall i, j :: 0 <= i < j < |items| ==> items[i].recipientId != items[j].recipientId
  {
    var ids := Map(items, RevealedId());
    assert forall i :: 0 <= i < |ids| ==> ids[i] == items[i].recipientId;
  }

  lemma ComplainersAre(dealer: Id, s: Setup, responses: seq<Packet<Response>>)
    requires ResponsesValid(responses, s)
    ensures var ids := ComplainerIds(responses, dealer);
      Distinct(ids) && forall id :: id in ids <==> id in Reporters(responses, dealer, false)
  {
    var filtered := Filter(responses, Complains(dealer));
    var ids := Map(filtered, ResponseId());
    DistinctFromIds(Map(responses, ResponseId()));
    FilterDistinct(responses, Complains(dealer), ResponseId());
    forall id | id in Reporters(responses, dealer, false) ensures id in ids {
      var r :| r in responses && Reports(r, dealer, false) && r.body.recipientId == id;
      assert ValidResponse(r, s);
      VerdictIs(r.body.statuses, dealer, false);
      FilterKeeps(responses, Complains(dealer), r);
      var i :| 0 <= i < |filtered| && filtered[i] == r;
      assert ids[i] == id;
    }
    forall i | 0 <= i < |ids| ensures ids[i] in Reporters(responses, dealer, false) {
      assert filtered[i] in filtered && ValidResponse(filtered[i], s);
      VerdictIs(filtered[i].body.statuses, dealer, false);
    }
  }

  lemma SameIdsExactly(a: seq<Id>, b: seq<Id>)
    requires Distinct(b)
    ensures SameIds(a, b) <==> Distinct(a) && forall id :: id in a <==> id in b
  {
    if SameIds(a, b) {
      PermutationMembers(a, b);
      PermutationDistinct(b, a);
    }
    if Distinct(a) && forall id :: id in a <==> id in b {
      DistinctSameMembers(a, b);
    }
  }

  /** Every accepted deal was signed by a dealer under its index, commits to a polynomial of exactly threshold
      coefficients with a nonzero top one, and seals one share to each participant and to nobody else; every
      accepted response gives every deal one verdict, and no other. */
  lemma AcceptedPacketsBind(s: Setup, packets: Packets, d: Packet<Deal>, p: nat)
    requires IsPrime(p) && PacketsAccepted(s, packets, p) && d in packets.deals
    requires ValidRoster(s.roster, s.expected.threshold)
    ensures SignedByMember(d, d.body.header.dealerId, d.body.header.dealerIndex, s.dealers)
    ensures d.body.header.ceremony == s.expected.ceremony && d.body.header.sessionId == s.expected.sessionId
    ensures d.body.header.epoch == s.expected.epoch && d.body.header.threshold == s.expected.threshold
    ensures d.body.header.previousManifestHash == s.expected.previousManifestHash
    ensures d.body.header.selectedDealerIds == s.expected.selectedDealerIds
    ensures var c := d.body.header.commitments;
      && |c| == s.expected.threshold && c[|c| - 1].log != 0
      && forall k :: 0 <= k < |c| ==> c[k].Encoded? && c[k].log < p
    ensures |d.body.encryptedShares| == |s.roster|
    ensures forall j :: 0 <= j < |s.roster| ==> SealedTo(d.body.encryptedShares, s.roster[j].id)
    ensures forall r :: r in packets.responses ==>
      Reports(r, d.body.header.dealerId, true) != Reports(r, d.body.header.dealerId, false)
    ensures forall d' :: d' in packets.deals && d'.body.header.dealerId == d.body.header.dealerId ==> d' == d
  {
    OneDealEach(packets.deals, d);
    assert ValidDeal(d, s, p);
    var dealer := Find(s.dealers, d.body.header.dealerId).value;
    var j :| 0 <= j < |s.dealers| && s.dealers[j] == dealer;
    var c := d.body.header.commitments;
    assert forall k :: 0 <= k < |c| ==> Decode(c[k], p, true).Ok?;
    SealedToAll(d.body.encryptedShares, s.roster);
    forall r | r in packets.responses
      ensures Reports(r, d.body.header.dealerId, true) != Reports(r, d.body.header.dealerId, false)
    {
      OneVerdict(r, s, packets, d.body.header.dealerId);
    }
  }

  lemma OneDealEach(deals: seq<Packet<Deal>>, d: Packet<Deal>)
    requires DistinctIds(DealIds(deals)) && d in deals
    ensures forall d' :: d' in deals && d'.body.header.dealerId == d.body.header.dealerId ==> d' == d
  {
    var i :| 0 <= i < |deals| && deals[i] == d;
    forall d' | d' in deals && d'.body.header.dealerId == d.body.header.dealerId ensures d' == d {
      var j :| 0 <= j < |deals| && deals[j] == d';
      assert DealIds(deals)[i] == DealIds(deals)[j];
    }
  }

  /** Every accepted resolution answers for one accepted deal, and each dealer resolves at most once. */
  lemma AcceptedResolutionsBind(s: Setup, packets: Packets, r: Packet<Resolution>, p: nat) returns (d: Packet<Deal>)
    requires IsPrime(p) && PacketsAccepted(s, packets, p) && r in packets.resolutions
    requires ValidRoster(s.roster, s.expected.threshold)
    ensures d in packets.deals && d.body.header.dealerId == r.body.dealerId
    ensures SignedForDealer(r, r.body.dealerId, s)
    ensures forall r' :: r' in packets.resolutions && r'.body.dealerId == r.body.dealerId ==> r' == r
    ensures |r.body.complaints| < s.expected.threshold
    ensures EachRevealed(r.body.complaints, d.body.header.commitments, s.roster, p)
  {
    var k :| 0 <= k < |packets.resolutions| && packets.resolutions[k] == r;
    var ids := DealIds(packets.deals);
    var i :| 0 <= i < |ids| && ids[i] == r.body.dealerId;
    d := packets.deals[i];
    FindResolutionIs(packets.resolutions, k);
    forall r' | r' in packets.resolutions && r'.body.dealerId == r.body.dealerId ensures r' == r {
      var j :| 0 <= j < |packets.resolutions| && packets.resolutions[j] == r';
      FindResolutionIs(packets.resolutions, j);
    }
    ResolutionCounts(d, r, s, packets, p);
    forall j | 0 <= j < |r.body.complaints|
      ensures RevealsTo(r.body.complaints[j], r.body.complaints[j].recipientId, d.body.header.commitments, s.roster, p)
    {
      ResolutionAnswers(d, r, j, s, packets, p);
    }
  }

  lemma ResolutionCounts(d: Packet<Deal>, r: Packet<Resolution>, s: Setup, packets: Packets, p: nat)
    requires IsPrime(p) && PacketsAccepted(s, packets, p) && d in packets.deals
    requires FindResolution(packets.resolutions, d.body.header.dealerId) == Some(r)
    ensures |r.body.complaints| < s.expected.threshold && SignedForDealer(r, d.body.header.dealerId, s)
  {
    ResolutionIsValid(d, r, s, packets, p);
    var dealer := Find(s.dealers, d.body.header.dealerId).value;
    PermutationMembers(Map(r.body.complaints, RevealedId()), ComplainerIds(packets.responses, dealer.id));
    var j :| 0 <= j < |s.dealers| && s.dealers[j] == dealer;
  }

  predicate SealedTo(shares: seq<SealedShare>, id: Id) {
    exists i :: 0 <= i < |shares| && shares[i].recipientId == id
  }

  lemma SealedToAll(shares: seq<SealedShare>, roster: seq<Participant>)
    requires SameIds(Map(shares, SealedId()), Map(roster, RosterId()))
    ensures |shares| == |roster|
    ensures forall j :: 0 <= j < |roster| ==> SealedTo(shares, roster[j].id)
  {
    var a, b := Map(shares, SealedId()), Map(roster, RosterId());
    PermutationMembers(a, b);
    forall j | 0 <= j < |roster|
      ensures SealedTo(shares, roster[j].id)
    {
      assert b[j] in b;
      var i :| 0 <= i < |a| && a[i] == b[j];
      assert shares[i].recipientId == roster[j].id;
    }
  }

  lemma OneVerdict(r: Packet<Response>, s: Setup, packets: Packets, dealer: Id)
    requires r in packets.responses && ValidResponse(r, s) && dealer in DealIds(packets.deals)
    requires SameIds(Map(r.body.statuses, StatusDealer()), DealIds(packets.deals))
    ensures Reports(r, dealer, true) != Reports(r, dealer, false)
  {
    var ids := Map(r.body.statuses, StatusDealer());
    PermutationMembers(ids, DealIds(packets.deals));
    var i :| 0 <= i < |ids| && ids[i] == dealer;
    assert r.body.statuses[i].dealerId == dealer;
  }

  // ------------------------------------------------------ transcript and selection

  /** A transcript fixes what was agreed on and every packet that was finalized, the order of arrival apart; its dealers
      are the standing ones. */
  lemma TranscriptBinds(s: Setup, a: Packets, s': Setup, b: Packets, collate: (Id, Id) -> bool, p: nat)
    requires IsPrime(p) && PacketsAccepted(s, a, p) && ValidRoster(s.roster, s.expected.threshold)
    ensures forall id :: id in TranscriptOf(s, a, collate).qualifiedDealerIds <==> id in Standing(s, a, p)
    ensures TranscriptOf(s, a, collate) == TranscriptOf(s', b, collate) ==> s.expected == s'.expected && SamePackets(a, b)
  {
    StandingIsQualified(s, a, p);
    PermutationMembers(DealIds(QualifiedDeals(a, s.expected.threshold)), TranscriptOf(s, a, collate).qualifiedDealerIds);
  }

  /** Ascending positions in a roster. */
  predicate Positions(ps: seq<nat>, n: nat) {
    (forall i :: 0 <= i < |ps| ==> ps[i] < n) && forall i, j :: 0 <= i < j < |ps| ==> ps[i] < ps[j]
  }

  /** The selected identifiers are those of the members at these positions. */
  predicate Picks(members: seq<Member>, ps: seq<nat>, selected: seq<Id>) {
    && |ps| == |selected| && Positions(ps, |members|)
    && forall i :: 0 <= i < |ps| ==> members[ps[i]].participant.id == selected[i]
  }

  lemma {:induction false} KeptPositions(ids: seq<Id>, keep: Id -> bool) returns (ps: seq<nat>)
    ensures |ps| == |Filter(ids, keep)| && Positions(ps, |ids|)
    ensures forall i :: 0 <= i < |ps| ==> ids[ps[i]] == Filter(ids, keep)[i]
  {
    ps := [];
    if ids != [] {
      var rest := KeptPositions(ids[1..], keep);
      var later := seq(|rest|, i requires 0 <= i < |rest| => rest[i] + 1);
      ps := if keep(ids[0]) then [0] + later else later;
    }
  }

  lemma AllPassed(ps: seq<nat>, n: nat, k: nat)
    requires n <= |ps| && Positions(ps, k) && SplitAtPosition(ps, n, k)
    ensures n == |ps|
  {
    assert |ps| > 0 ==> ps[|ps| - 1] < k;
  }

  lemma {:induction false} PicksAreKept(ids: seq<Id>, ps: seq<nat>, selected: seq<Id>, n: nat, k: nat)
    requires Distinct(ids) && |ps| == |selected| && Positions(ps, |ids|) && k <= |ids| && n <= |ps|
    requires (forall i :: 0 <= i < |ps| ==> ids[ps[i]] == selected[i]) && SplitAtPosition(ps, n, k)
    ensures Filter(ids[k..], AmongIds(selected)) == selected[n..]
    decreases |ids| - k
  {
    if k == |ids| {
      AllPassed(ps, n, k);
    } else {
      PickedExactly(ids, ps, selected, n, k);
      assert ids[k..][1..] == ids[k + 1..];
      if ids[k] in selected {
        PicksAreKept(ids, ps, selected, n + 1, k + 1);
        assert selected[n..] == [selected[n]] + selected[n + 1..];
      } else {
        PicksAreKept(ids, ps, selected, n, k + 1);
      }
    }
  }

  /** The first n positions lie below k, the others not. */
  predicate SplitAtPosition(ps: seq<nat>, n: nat, k: nat)
    requires n <= |ps|
  {
    (forall i :: 0 <= i < n ==> ps[i] < k) && forall i :: n <= i < |ps| ==> ps[i] >= k
  }

  lemma PickedExactly(ids: seq<Id>, ps: seq<nat>, selected: seq<Id>, n: nat, k: nat)
    requires Distinct(ids) && |ps| == |selected| && Positions(ps, |ids|) && k < |ids| && n <= |ps|
    requires (forall i :: 0 <= i < |ps| ==> ids[ps[i]] == selected[i]) && SplitAtPosition(ps, n, k)
    ensures ids[k] in selected <==> n < |ps| && ps[n] == k
    ensures n < |ps| && ps[n] == k ==> selected[n] == ids[k]
  {
    if ids[k] in selected {
      var i :| 0 <= i < |selected| && selected[i] == ids[k];
      assert ids[ps[i]] == ids[k];
      assert ps[i] == k;
      if i > n { assert ps[n] < ps[i]; }
    }
  }

  /** A selection of old dealers is good if and only if it picks at least threshold members of the previous manifest in
      the manifest's own order; its indexes are their positions, counted from one. */
  lemma SelectionExactly(b: Body, selected: seq<Id>, ps: seq<nat>, p: nat)
    requires p > 0 && ValidBody(b, p)
    ensures SelectedDealerIndexes(Some(b), selected).Ok? <==> |selected| >= b.threshold && exists qs :: Picks(b.members, qs, selected)
    ensures SelectedDealerIndexes(Some(b), selected).Ok? && Picks(b.members, ps, selected) ==>
      var xs := SelectedDealerIndexes(Some(b), selected).value;
      |xs| == |ps| && forall i :: 0 <= i < |ps| ==> xs[i] == ps[i] + 1
  {
    var ids := MemberIdsOf(b.members);
    if SelectedDealerIndexes(Some(b), selected).Ok? {
      var qs := KeptPositions(ids, AmongIds(selected));
      assert Picks(b.members, qs, selected);
    }
    if |selected| >= b.threshold && exists qs :: Picks(b.members, qs, selected) {
      var qs :| Picks(b.members, qs, selected);
      PicksSelect(b, selected, qs, p);
    }
    if SelectedDealerIndexes(Some(b), selected).Ok? && Picks(b.members, ps, selected) {
      PicksSelect(b, selected, ps, p);
    }
  }

  lemma PicksSelect(b: Body, selected: seq<Id>, ps: seq<nat>, p: nat)
    requires p > 0 && ValidBody(b, p) && Picks(b.members, ps, selected) && |selected| >= b.threshold
    ensures SelectedDealerIndexes(Some(b), selected).Ok?
    ensures var xs := SelectedDealerIndexes(Some(b), selected).value;
      |xs| == |ps| && forall i :: 0 <= i < |ps| ==> xs[i] == ps[i] + 1
  {
    var members, ids := b.members, MemberIdsOf(b.members);
    forall i | 0 <= i < |selected| ensures LastMember(members, selected[i]) == Some(members[ps[i]]) {
      MemberFinds(members, ps[i], p);
    }
    PicksAreKept(ids, ps, selected, 0, 0);
    assert ids[0..] == ids && selected[0..] == selected;
    var xs := IndexesOf(members, selected);
    forall i | 0 <= i < |xs| ensures xs[i] == ps[i] + 1 {
      assert members[ps[i]].participant.index == ps[i] + 1;
    }
  }
}
