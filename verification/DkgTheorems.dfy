/** What a finalized ceremony guarantees: local shares lie on the summed polynomial, every participant
    computes the same public result, and a reshare keeps the group key. */
module DkgTheorems {
  import opened Outcomes
  import opened Field
  import opened Polynomial
  import opened ThresholdCrypto
  import opened ThresholdGroup
  import opened Sequences
  import opened ThresholdDkg

  // ------------------------------------------------- shares and commitments

  function EvaluationAt(x: int): Packet<Deal> -> int {
    (d: Packet<Deal>) =>
      var c := d.body.header.commitments;
      if forall i :: 0 <= i < |c| ==> c[i].Encoded? then Eval(Logs(c), x) else 0
  }

  function ExactSums(deals: seq<Packet<Deal>>, t: nat): (r: seq<int>)
    ensures |r| == t
  {
    seq(t, k requires 0 <= k < t => Sum(deals, CommitmentLog(k)))
  }

  ghost predicate Committed(deals: seq<Packet<Deal>>, t: nat, p: nat) {
    forall i :: 0 <= i < |deals| ==>
      |deals[i].body.header.commitments| == t && Decodable(deals[i].body.header.commitments, p)
  }

  /** Evaluating the summed commitments is summing the evaluations. */
  lemma {:induction false} EvalOfSums(deals: seq<Packet<Deal>>, t: nat, x: int, p: nat)
    requires Committed(deals, t, p)
    ensures Eval(ExactSums(deals, t), x) == Sum(deals, EvaluationAt(x))
  {
    if deals == [] {
      EvalPad([], t, x);
      assert ExactSums(deals, t) == [] + seq(t, _ => 0);
    } else {
      EvalOfSums(deals[1..], t, x, p);
      var c := deals[0].body.header.commitments;
      assert forall i :: 0 <= i < |c| ==> Decode(c[i], p, true).Ok?;
      var head, tail := Logs(c), ExactSums(deals[1..], t);
      assert ExactSums(deals, t) == Add(head, tail) by {
        forall k | 0 <= k < t
          ensures ExactSums(deals, t)[k] == head[k] + tail[k]
        {
          assert Sum(deals, CommitmentLog(k)) == CommitmentLog(k)(deals[0]) + Sum(deals[1..], CommitmentLog(k));
        }
      }
      EvalAdd(head, tail, x);
      assert EvaluationAt(x)(deals[0]) == Eval(head, x);
    }
  }

  lemma AggregateEval(deals: seq<Packet<Deal>>, t: nat, x: int, p: nat)
    requires p > 0 && Committed(deals, t, p)
    ensures Cong(Eval(AggregateCommitments(deals, t, p), x), Sum(deals, EvaluationAt(x)), p)
  {
    var exact, reduced := ExactSums(deals, t), AggregateCommitments(deals, t, p);
    forall k | 0 <= k < t ensures Cong(reduced[k], exact[k], p) {
      CongMod(Sum(deals, CommitmentLog(k)), p);
    }
    EvalCoefficientsCong(reduced, exact, x, p);
    EvalOfSums(deals, t, x, p);
  }

  lemma {:induction false} SumCong<T>(s: seq<T>, f: T -> int, g: T -> int, p: nat)
    requires p > 0 && forall i :: 0 <= i < |s| ==> Cong(f(s[i]), g(s[i]), p)
    ensures Cong(Sum(s, f), Sum(s, g), p)
  {
    if s != [] {
      SumCong(s[1..], f, g, p);
      CongAdd(f(s[0]), g(s[0]), Sum(s[1..], f), Sum(s[1..], g), p);
    }
  }

  /** However a contribution arrived, decrypted or published by the dealer, it is the committed value. */
  lemma ContributionCommitted(d: Packet<Deal>, s: Setup, packets: Packets, me: Participant, transport: nat, p: nat)
    requires IsPrime(p) && DealAccepted(d, s, packets, p)
    requires Find(s.roster, me.id) == Some(me)
    requires Contribution(d, me, transport, packets.resolutions, p).Some?
    ensures ContributionOf(me, transport, packets.resolutions, p)(d) == EvaluationAt(me.index)(d) % p
  {
    var h := d.body.header;
    assert forall i :: 0 <= i < |h.commitments| ==> Decode(h.commitments[i], p, true).Ok?;
    var c := Contribution(d, me, transport, packets.resolutions, p).value;
    var item := SealedFor(d.body.encryptedShares, me.id);
    var clear := if item.None? then None else Opened(item.value.envelope, transport, h, me.id);
    if !(clear.Some? && ShareMatches(clear.value, h.commitments, me.index, p)) {
      var resolution := FindResolution(packets.resolutions, h.dealerId);
      var dealer := Find(s.dealers, h.dealerId).value;
      assert ValidResolution(resolution.value, dealer, d.body, s, packets.responses, p);
      var items := resolution.value.body.complaints;
      var revealed := RevealedFor(items, me.id).value;
      var i :| 0 <= i < |items| && items[i] == revealed;
      assert ValidRevealed(items[i], h.commitments, s.roster, p);
    }
  }

  lemma QualifiedCommitted(s: Setup, packets: Packets, p: nat)
    requires IsPrime(p) && PacketsAccepted(s, packets, p) && s.expected.threshold >= 0
    ensures Committed(QualifiedDeals(packets, s.expected.threshold), s.expected.threshold, p)
    ensures forall d :: d in QualifiedDeals(packets, s.expected.threshold) ==> DealAccepted(d, s, packets, p)
  {
    var q := QualifiedDeals(packets, s.expected.threshold);
    forall d | d in q
      ensures DealAccepted(d, s, packets, p)
    {
      assert d in packets.deals;
    }
    forall i | 0 <= i < |q|
      ensures |q[i].body.header.commitments| == s.expected.threshold && Decodable(q[i].body.header.commitments, p)
    {
      assert q[i] in q;
    }
  }

  /** The share a participant keeps is the summed commitments evaluated at its index. */
  lemma LocalShareIsCommitted(s: Setup, packets: Packets, me: Id, transport: nat, p: nat)
    requires IsPrime(p) && AcceptedUpToKey(s, packets, me, transport, p)
    ensures var q := QualifiedDeals(packets, s.expected.threshold);
      var self := Find(s.roster, me).value;
      Sum(q, ContributionOf(self, transport, packets.resolutions, p)) % p
        == Eval(AggregateCommitments(q, s.expected.threshold, p), self.index) % p
  {
    var q := QualifiedDeals(packets, s.expected.threshold);
    var self := Find(s.roster, me).value;
    var f, g := ContributionOf(self, transport, packets.resolutions, p), EvaluationAt(self.index);
    QualifiedCommitted(s, packets, p);
    forall i | 0 <= i < |q|
      ensures Cong(f(q[i]), g(q[i]), p)
    {
      assert q[i] in q;
      ContributionCommitted(q[i], s, packets, self, transport, p);
      CongMod(g(q[i]), p);
    }
    SumCong(q, f, g, p);
    AggregateEval(q, s.expected.threshold, self.index, p);
  }

  // -------------------------------------------------------------- agreement

  /** The same packets, delivered in any order. */
  ghost predicate SamePackets(a: Packets, b: Packets) {
    Permutation(a.deals, b.deals) && Permutation(a.responses, b.responses) && Permutation(a.resolutions, b.resolutions)
  }

  ghost predicate StrictCollation(collate: (Id, Id) -> bool) {
    TotalPreorder(collate) && forall a, b :: collate(a, b) && collate(b, a) ==> a == b
  }

  lemma DistinctFromIds(ids: seq<Id>)
    requires DistinctIds(ids)
    ensures Distinct(ids)
  {
  }

  lemma {:induction false} FindResolutionIs(resolutions: seq<Packet<Resolution>>, i: nat)
    requires DistinctIds(Map(resolutions, ResolutionId())) && i < |resolutions|
    ensures FindResolution(resolutions, resolutions[i].body.dealerId) == Some(resolutions[i])
  {
    if i > 0 {
      var ids := Map(resolutions, ResolutionId());
      assert ids[0] != ids[i];
      assert Map(resolutions[1..], ResolutionId()) == ids[1..];
      FindResolutionIs(resolutions[1..], i - 1);
    }
  }

  lemma FindResolutionPermuted(a: seq<Packet<Resolution>>, b: seq<Packet<Resolution>>, d: Id)
    requires Permutation(a, b) && DistinctIds(Map(a, ResolutionId())) && DistinctIds(Map(b, ResolutionId()))
    ensures FindResolution(a, d) == FindResolution(b, d)
  {
    PermutationMembers(a, b);
    var r := FindResolution(a, d);
    if r.Some? {
      var i :| 0 <= i < |b| && b[i] == r.value;
      FindResolutionIs(b, i);
    } else {
      forall x | x in b ensures x.body.dealerId != d { assert x in a; }
    }
  }

  lemma {:induction false} FilterAll<T>(s: seq<T>, keep: T -> bool)
    ensures Filter(s, keep) == s <==> forall x :: x in s ==> keep(x)
  {
    if s != [] {
      FilterAll(s[1..], keep);
      if keep(s[0]) {
        assert s == [s[0]] + s[1..];
        assert Filter(s, keep) == [s[0]] + Filter(s[1..], keep);
        assert Filter(s, keep)[1..] == Filter(s[1..], keep);
      } else {
        assert |Filter(s, keep)| < |s|;
      }
    }
  }

  lemma QualifiesPermuted(d: Id, ra: seq<Packet<Response>>, rb: seq<Packet<Response>>,
                          sa: seq<Packet<Resolution>>, sb: seq<Packet<Resolution>>, threshold: int)
    requires Permutation(ra, rb) && FindResolution(sa, d) == FindResolution(sb, d)
    ensures Qualifies(d, ra, sa, threshold) <==> Qualifies(d, rb, sb, threshold)
  {
    var ca, cb := Filter(ra, Complains(d)), Filter(rb, Complains(d));
    var among := RecipientAmong(ResolvedIds(sa, d));
    FilterPermutation(ra, rb, Complains(d));
    FilterPermutation(ra, rb, Approves(d));
    FilterPermutation(ca, cb, among);
    PermutationMembers(ca, cb);
    PermutationMembers(Filter(ra, Approves(d)), Filter(rb, Approves(d)));
    PermutationMembers(Filter(ca, among), Filter(cb, among));
    FilterAll(ca, among);
    FilterAll(cb, among);
  }

  lemma QualifiedPermuted(a: Packets, b: Packets, threshold: int)
    requires SamePackets(a, b)
    requires DistinctIds(Map(a.resolutions, ResolutionId())) && DistinctIds(Map(b.resolutions, ResolutionId()))
    ensures Permutation(QualifiedDeals(a, threshold), QualifiedDeals(b, threshold))
  {
    forall i | 0 <= i < |b.deals|
      ensures QualifiedBy(a, threshold)(b.deals[i]) <==> QualifiedBy(b, threshold)(b.deals[i])
    {
      var d := b.deals[i].body.header.dealerId;
      FindResolutionPermuted(a.resolutions, b.resolutions, d);
      QualifiesPermuted(d, a.responses, b.responses, a.resolutions, b.resolutions, threshold);
    }
    FilterPermutation(a.deals, b.deals, QualifiedBy(a, threshold));
    FilterSame(b.deals, QualifiedBy(a, threshold), QualifiedBy(b, threshold));
  }

  lemma SortById<T(!new)>(s: seq<T>, t: seq<T>, key: T -> Id, collate: (Id, Id) -> bool)
    requires Permutation(s, t) && StrictCollation(collate) && DistinctIds(Map(s, key))
    ensures Sort(s, OrderBy(key, collate)) == Sort(t, OrderBy(key, collate))
  {
    var le := OrderBy(key, collate);
    forall x, y | x in s && y in s && le(x, y) && le(y, x)
      ensures x == y
    {
      var i :| 0 <= i < |s| && s[i] == x;
      var j :| 0 <= j < |s| && s[j] == y;
      assert Map(s, key)[i] == Map(s, key)[j];
    }
    SortPermutation(s, t, le);
  }

  /** Two participants that accept the same packets, in whatever order each received them, publish the same
      coefficients, group key, qualified set and transcript. */
  lemma FinalizersAgree(s: Setup, a: Packets, b: Packets, collate: (Id, Id) -> bool, p: nat)
    requires IsPrime(p) && s.expected.threshold >= 0 && StrictCollation(collate)
    requires SamePackets(a, b) && PacketsAccepted(s, a, p) && PacketsAccepted(s, b, p)
    ensures AggregateCommitments(QualifiedDeals(a, s.expected.threshold), s.expected.threshold, p)
         == AggregateCommitments(QualifiedDeals(b, s.expected.threshold), s.expected.threshold, p)
    ensures TranscriptOf(s, a, collate) == TranscriptOf(s, b, collate)
  {
    var t := s.expected.threshold;
    QualifiedPermuted(a, b, t);
    var qa, qb := QualifiedDeals(a, t), QualifiedDeals(b, t);
    forall k | 0 <= k < t
      ensures Sum(qa, CommitmentLog(k)) == Sum(qb, CommitmentLog(k))
    {
      SumPermutation(qa, qb, CommitmentLog(k));
    }
    assert AggregateCommitments(qa, t, p) == AggregateCommitments(qb, t, p);
    MapPermutation(qa, qb, DealId());
    assert TotalPreorder(IdOrder());
    SortPermutation(DealIds(qa), DealIds(qb), IdOrder());
    SortById(a.deals, b.deals, DealId(), collate);
    SortById(a.responses, b.responses, ResponseId(), collate);
    SortById(a.resolutions, b.resolutions, ResolutionId(), collate);
  }

  // -------------------------------------------------------------- resharing

  function ParticipantsOf(members: seq<Member>): (r: seq<Participant>)
    ensures |r| == |members| && forall i :: 0 <= i < |r| ==> r[i] == members[i].participant
  {
    seq(|members|, i requires 0 <= i < |members| => members[i].participant)
  }

  /** A reshare of a valid previous manifest, under whatever dealer roster the finalizer was given. */
  ghost predicate ReshareSetup(s: Setup, p: nat)
    requires p > 0
  {
    s.expected.ceremony.Reshare? && s.previous.Some? && ValidBody(s.previous.value, p)
  }

  /** The dealer roster numbers the selected dealers as the previous manifest does. */
  predicate SameIndexes(s: Setup)
    requires s.previous.Some?
  {
    forall i :: 0 <= i < |s.expected.selectedDealerIds| ==>
      var id := s.expected.selectedDealerIds[i];
      var (dealer, member) := (Find(s.dealers, id), FindMember(s.previous.value.members, id));
      dealer.Some? && member.Some? ==> dealer.value.index == member.value.participant.index
  }

  /** The command line passes the participants of the previous manifest, which are so numbered. */
  lemma PreviousRosterFits(s: Setup, p: nat)
    requires LargeOrder(p) && ReshareSetup(s, p) && s.dealers == ParticipantsOf(s.previous.value.members)
    ensures SameIndexes(s)
  {
    var members := s.previous.value.members;
    forall i | 0 <= i < |s.expected.selectedDealerIds|
      ensures var id := s.expected.selectedDealerIds[i];
        Find(s.dealers, id).Some? && FindMember(members, id).Some? ==>
          Find(s.dealers, id).value.index == FindMember(members, id).value.participant.index
    {
      var id := s.expected.selectedDealerIds[i];
      var dealer := Find(s.dealers, id);
      if dealer.Some? {
        var k :| 0 <= k < |s.dealers| && s.dealers[k] == dealer.value;
        MemberFinds(members, k, p);
      }
    }
  }

  lemma {:induction false} MemberFinds(members: seq<Member>, i: nat, p: nat)
    requires ValidMembers(members, p) && i < |members|
    ensures FindMember(members, members[i].participant.id) == Some(members[i])
    ensures LastMember(members, members[i].participant.id) == Some(members[i])
    ensures Find(ParticipantsOf(members), members[i].participant.id) == Some(members[i].participant)
  {
    FindMemberAt(members, i);
    var id := members[i].participant.id;
    var r := LastMember(members, id);
    assert r.Some?;
    var j :| 0 <= j < |members| && members[j] == r.value;
    var ps := ParticipantsOf(members);
    var f := Find(ps, id);
    assert ps[i].id == id;
    var k :| 0 <= k < |ps| && ps[k] == f.value;
  }

  /** The weighted old public share of one selected dealer. */
  ghost function OldTerm(members: seq<Member>, indexes: seq<int>, p: nat): Id -> int
    requires IsPrime(p) && ValidIndexes(indexes, p)
  {
    (id: Id) =>
      var m := FindMember(members, id);
      if m.Some? && m.value.sharePublicKey.Encoded? && ValidIndex(m.value.participant.index, p)
      then m.value.sharePublicKey.log * Lambda(indexes, m.value.participant.index, p)
      else 0
  }

  /** The same share under the weight of the index that the dealer roster gives. */
  ghost function DealerTerm(s: Setup, indexes: seq<int>, p: nat): Id -> int
    requires IsPrime(p) && ValidIndexes(indexes, p) && s.previous.Some?
  {
    (id: Id) =>
      var (m, dealer) := (FindMember(s.previous.value.members, id), Find(s.dealers, id));
      if m.Some? && m.value.sharePublicKey.Encoded? && dealer.Some? && ValidIndex(dealer.value.index, p)
      then m.value.sharePublicKey.log * Lambda(indexes, dealer.value.index, p)
      else 0
  }

  function OldShares(members: seq<Member>, ids: seq<Id>): (r: seq<int>)
    ensures |r| == |ids|
  {
    seq(|ids|, i requires 0 <= i < |ids| =>
      var m := FindMember(members, ids[i]);
      if m.Some? && m.value.sharePublicKey.Encoded? then m.value.sharePublicKey.log else 0)
  }

  ghost predicate SelectedMembers(members: seq<Member>, ids: seq<Id>, indexes: seq<int>, p: nat) {
    && |ids| == |indexes|
    && forall i :: 0 <= i < |ids| ==>
         var m := FindMember(members, ids[i]);
         m.Some? && m.value.sharePublicKey.Encoded? && m.value.participant.index == indexes[i]
  }

  lemma {:induction false} OldTermsSum(members: seq<Member>, ids: seq<Id>, indexes: seq<int>, n: nat, p: nat)
    requires IsPrime(p) && ValidIndexes(indexes, p) && SelectedMembers(members, ids, indexes, p) && n <= |ids|
    ensures Sum(ids[..n], OldTerm(members, indexes, p)) == WeightedSum(indexes, OldShares(members, ids), n, p)
  {
    if n > 0 {
      OldTermsSum(members, ids, indexes, n - 1, p);
      var f := OldTerm(members, indexes, p);
      assert ids[..n] == ids[..n - 1] + [ids[n - 1]];
      SumAppend(ids[..n - 1], [ids[n - 1]], f);
      assert Sum([ids[n - 1]], f) == f(ids[n - 1]) + Sum([ids[n - 1]][1..], f);
    }
  }

  lemma DistinctCover(a: seq<Id>, b: seq<Id>)
    requires Distinct(a) && Distinct(b) && |a| == |b| && forall x :: x in a ==> x in b
    ensures Permutation(a, b)
  {
    forall x: Id
      ensures multiset(a)[x] <= multiset(b)[x]
    {
      DistinctCount(a, x);
      DistinctCount(b, x);
    }
    assert multiset(a) <= multiset(b);
    assert multiset(b) == multiset(a) + (multiset(b) - multiset(a));
    assert |multiset(b)| == |multiset(a)| + |multiset(b) - multiset(a)|;
  }

  lemma SelectedAreMembers(s: Setup, p: nat)
    requires LargeOrder(p) && ReshareSetup(s, p)
    requires SelectedDealerIndexes(s.previous, s.expected.selectedDealerIds).Ok?
    ensures ValidIndexes(SelectedDealerIndexes(s.previous, s.expected.selectedDealerIds).value, p)
    ensures var sel := s.expected.selectedDealerIds;
      var indexes := SelectedDealerIndexes(s.previous, sel).value;
      && Distinct(sel) && SelectedMembers(s.previous.value.members, sel, indexes, p)
      && |sel| >= s.previous.value.threshold
  {
    var sel := s.expected.selectedDealerIds;
    var members := s.previous.value.members;
    var indexes := IndexesOf(members, sel);
    forall i | 0 <= i < |sel|
      ensures FindMember(members, sel[i]).Some? && FindMember(members, sel[i]).value.sharePublicKey.Encoded?
      ensures FindMember(members, sel[i]).value.participant.index == indexes[i]
      ensures 1 <= indexes[i] <= |members|
    {
      var m := LastMember(members, sel[i]).value;
      var k :| 0 <= k < |members| && members[k] == m;
      MemberFinds(members, k, p);
    }
    forall i, j | 0 <= i < j < |sel|
      ensures sel[i] != sel[j]
    {
      assert indexes[i] != indexes[j];
    }
  }

  lemma ConstantIsDealerTerm(d: Packet<Deal>, s: Setup, packets: Packets, p: nat)
    requires IsPrime(p) && ReshareSetup(s, p) && DealAccepted(d, s, packets, p)
    ensures SelectedDealerIndexes(s.previous, s.expected.selectedDealerIds).Ok?
    ensures ValidIndexes(SelectedDealerIndexes(s.previous, s.expected.selectedDealerIds).value, p)
    ensures Find(s.dealers, d.body.header.dealerId).Some?
    ensures CommitmentLog(0)(d) ==
      DealerTerm(s, SelectedDealerIndexes(s.previous, s.expected.selectedDealerIds).value, p)(d.body.header.dealerId) % p
  {
    var h := d.body.header;
    var dealer := Find(s.dealers, h.dealerId).value;
    assert ConstantMatches(h, dealer.index, s, p);
    var indexes := SelectedDealerIndexes(s.previous, s.expected.selectedDealerIds).value;
    var k :| 0 <= k < |indexes| && indexes[k] == dealer.index;
  }

  lemma SelectedTermsSum(s: Setup, p: nat)
    requires IsPrime(p) && LargeOrder(p) && ReshareSetup(s, p)
    requires SelectedDealerIndexes(s.previous, s.expected.selectedDealerIds).Ok?
    ensures ValidIndexes(SelectedDealerIndexes(s.previous, s.expected.selectedDealerIds).value, p)
    ensures Cong(
      Sum(s.expected.selectedDealerIds,
          OldTerm(s.previous.value.members, SelectedDealerIndexes(s.previous, s.expected.selectedDealerIds).value, p)),
      s.previous.value.groupPublicKey.log, p)
  {
    var sel, b := s.expected.selectedDealerIds, s.previous.value;
    SelectedAreMembers(s, p);
    var indexes := SelectedDealerIndexes(s.previous, sel).value;
    assert sel[..|sel|] == sel;
    OldTermsSum(b.members, sel, indexes, |sel|, p);
    SelectedSharesInterpolate(b, sel, indexes, p);
  }

  /** What the constants of accepted packets sum to, under any dealer roster. */
  lemma ConstantsSum(s: Setup, packets: Packets, p: nat)
    requires IsPrime(p) && LargeOrder(p) && ReshareSetup(s, p) && s.expected.threshold >= 0
    requires PacketsAccepted(s, packets, p) && QuorumQualified(s, packets)
    ensures ValidIndexes(SelectedDealerIndexes(s.previous, s.expected.selectedDealerIds).value, p)
    ensures Cong(
      Sum(QualifiedDeals(packets, s.expected.threshold), CommitmentLog(0)),
      Sum(s.expected.selectedDealerIds,
          DealerTerm(s, SelectedDealerIndexes(s.previous, s.expected.selectedDealerIds).value, p)), p)
  {
    var q := QualifiedDeals(packets, s.expected.threshold);
    QualifiedCommitted(s, packets, p);
    SelectedAreMembers(s, p);
    var term := DealerTerm(s, SelectedDealerIndexes(s.previous, s.expected.selectedDealerIds).value, p);
    SumOfConstants(q, s, packets, p);
    QualifiedIdsAreSelected(s, packets, p);
    SumPermutation(s.expected.selectedDealerIds, DealIds(q), term);
  }

  /** For every old manifest and selected set, the constants that pass the checks sum to the old group key. */
  lemma ConstantsSumToKey(s: Setup, packets: Packets, p: nat)
    requires IsPrime(p) && LargeOrder(p) && ReshareSetup(s, p) && SameIndexes(s) && s.expected.threshold >= 0
    requires PacketsAccepted(s, packets, p) && QuorumQualified(s, packets)
    ensures Cong(Sum(QualifiedDeals(packets, s.expected.threshold), CommitmentLog(0)),
                 s.previous.value.groupPublicKey.log, p)
  {
    ConstantsSum(s, packets, p);
    SelectedTermsSum(s, p);
    SameTermsSum(s, packets, p);
  }

  lemma SameTermsSum(s: Setup, packets: Packets, p: nat)
    requires IsPrime(p) && LargeOrder(p) && ReshareSetup(s, p) && SameIndexes(s) && s.expected.threshold >= 0
    requires PacketsAccepted(s, packets, p) && QuorumQualified(s, packets)
    requires ValidIndexes(SelectedDealerIndexes(s.previous, s.expected.selectedDealerIds).value, p)
    ensures var sel := s.expected.selectedDealerIds;
      var indexes := SelectedDealerIndexes(s.previous, sel).value;
      Cong(Sum(sel, DealerTerm(s, indexes, p)), Sum(sel, OldTerm(s.previous.value.members, indexes, p)), p)
  {
    var sel := s.expected.selectedDealerIds;
    var indexes := SelectedDealerIndexes(s.previous, sel).value;
    var f, g := DealerTerm(s, indexes, p), OldTerm(s.previous.value.members, indexes, p);
    forall i | 0 <= i < |sel|
      ensures Cong(f(sel[i]), g(sel[i]), p)
    {
      SameTermAt(s, packets, i, p);
    }
    SumCong(sel, f, g, p);
  }

  lemma SameTermAt(s: Setup, packets: Packets, i: nat, p: nat)
    requires IsPrime(p) && LargeOrder(p) && ReshareSetup(s, p) && SameIndexes(s) && s.expected.threshold >= 0
    requires PacketsAccepted(s, packets, p) && QuorumQualified(s, packets) && i < |s.expected.selectedDealerIds|
    requires ValidIndexes(SelectedDealerIndexes(s.previous, s.expected.selectedDealerIds).value, p)
    ensures var sel := s.expected.selectedDealerIds;
      var indexes := SelectedDealerIndexes(s.previous, sel).value;
      Cong(DealerTerm(s, indexes, p)(sel[i]), OldTerm(s.previous.value.members, indexes, p)(sel[i]), p)
  {
    var sel := s.expected.selectedDealerIds;
    var q := QualifiedDeals(packets, s.expected.threshold);
    QualifiedCommitted(s, packets, p);
    assert sel[i] in DealIds(q);
    var k :| 0 <= k < |q| && DealIds(q)[k] == sel[i];
    assert q[k] in q;
    ConstantIsDealerTerm(q[k], s, packets, p);
  }

  /** When the last guard of a reshare that passes every earlier check lets it through: exactly when the public old shares,
      weighted by the indexes of the dealer roster, sum to the old key. */
  lemma KeyGuardExactly(s: Setup, packets: Packets, me: Id, transport: nat, p: nat)
    requires IsPrime(p) && LargeOrder(p) && ReshareSetup(s, p) && AcceptedUpToKey(s, packets, me, transport, p)
    ensures SelectedDealerIndexes(s.previous, s.expected.selectedDealerIds).Ok?
    ensures ValidIndexes(SelectedDealerIndexes(s.previous, s.expected.selectedDealerIds).value, p)
    ensures Accepted(s, packets, me, transport, p) <==>
      Cong(Sum(s.expected.selectedDealerIds,
               DealerTerm(s, SelectedDealerIndexes(s.previous, s.expected.selectedDealerIds).value, p)),
           s.previous.value.groupPublicKey.log, p)
  {
    ConstantsSum(s, packets, p);
    ModSmall(s.previous.value.groupPublicKey.log, p);
  }

  /** Whenever the dealer roster keeps the numbering, the constants of a completed reshare sum to the old group key: the
      last guard cannot fire. */
  lemma ReshareKeepsKey(s: Setup, packets: Packets, me: Id, transport: nat, p: nat)
    requires IsPrime(p) && LargeOrder(p) && ReshareSetup(s, p) && SameIndexes(s)
    requires AcceptedUpToKey(s, packets, me, transport, p)
    ensures Accepted(s, packets, me, transport, p)
    ensures Encoded(AggregateCommitments(QualifiedDeals(packets, s.expected.threshold), s.expected.threshold, p)[0])
         == s.previous.value.groupPublicKey
  {
    ConstantsSumToKey(s, packets, p);
    ModSmall(s.previous.value.groupPublicKey.log, p);
  }

  lemma QualifiedIdsAreSelected(s: Setup, packets: Packets, p: nat)
    requires IsPrime(p) && LargeOrder(p) && ReshareSetup(s, p) && PacketsAccepted(s, packets, p) && QuorumQualified(s, packets)
    ensures Permutation(s.expected.selectedDealerIds, DealIds(QualifiedDeals(packets, s.expected.threshold)))
  {
    var q := QualifiedDeals(packets, s.expected.threshold);
    SelectedAreMembers(s, p);
    DistinctFromIds(DealIds(packets.deals));
    FilterDistinct(packets.deals, QualifiedBy(packets, s.expected.threshold), DealId());
    DistinctCover(s.expected.selectedDealerIds, DealIds(q));
  }

  lemma SumOfConstants(q: seq<Packet<Deal>>, s: Setup, packets: Packets, p: nat)
    requires IsPrime(p) && ReshareSetup(s, p)
    requires SelectedDealerIndexes(s.previous, s.expected.selectedDealerIds).Ok?
    requires ValidIndexes(SelectedDealerIndexes(s.previous, s.expected.selectedDealerIds).value, p)
    requires forall d :: d in q ==> DealAccepted(d, s, packets, p)
    ensures Cong(
      Sum(q, CommitmentLog(0)),
      Sum(DealIds(q), DealerTerm(s, SelectedDealerIndexes(s.previous, s.expected.selectedDealerIds).value, p)), p)
  {
    var term := DealerTerm(s, SelectedDealerIndexes(s.previous, s.expected.selectedDealerIds).value, p);
    var g := (d: Packet<Deal>) => term(d.body.header.dealerId);
    forall i | 0 <= i < |q|
      ensures Cong(CommitmentLog(0)(q[i]), g(q[i]), p)
    {
      assert q[i] in q;
      ConstantIsDealerTerm(q[i], s, packets, p);
      CongMod(g(q[i]), p);
    }
    SumCong(q, CommitmentLog(0), g, p);
    SumMap(q, DealId(), term, g);
  }

  lemma SelectedSharesInterpolate(b: Body, sel: seq<Id>, indexes: seq<int>, p: nat)
    requires IsPrime(p) && ValidBody(b, p) && ValidIndexes(indexes, p) && SelectedMembers(b.members, sel, indexes, p)
    requires |sel| >= b.threshold
    ensures Cong(WeightedSum(indexes, OldShares(b.members, sel), |sel|, p), b.groupPublicKey.log, p)
  {
    var f, ys := Logs(b.coefficients), OldShares(b.members, sel);
    forall k | 0 <= k < |indexes|
      ensures Cong(ys[k], Eval(f, indexes[k]), p)
    {
      var m := FindMember(b.members, sel[k]).value;
      var i :| 0 <= i < |b.members| && b.members[i] == m;
      assert ShareCommitted(b, i, p);
      CongMod(Eval(f, indexes[k]), p);
    }
    InterpolationAtZero(f, indexes, ys, p);
    EvalAtZero(f);
  }

  /** Any new threshold of new shares recovers the secret behind the old group key, in every reshare that finalizes. */
  lemma NewSharesKeepSecret(s: Setup, packets: Packets, ids: seq<Id>, transports: seq<nat>, xs: seq<int>,
                            ys: seq<int>, p: nat)
    requires IsPrime(p) && s.expected.ceremony.Reshare?
    requires |ids| == |transports| == |xs| == |ys| && |xs| >= s.expected.threshold >= 1 && ValidIndexes(xs, p)
    requires forall k :: 0 <= k < |ids| ==> Accepted(s, packets, ids[k], transports[k], p)
    requires forall k :: 0 <= k < |ids| ==>
      && Find(s.roster, ids[k]).Some?
      && xs[k] == Find(s.roster, ids[k]).value.index
      && ys[k] == Sum(QualifiedDeals(packets, s.expected.threshold),
                      ContributionOf(Find(s.roster, ids[k]).value, transports[k], packets.resolutions, p)) % p
    ensures s.previous.Some? && s.previous.value.groupPublicKey.Encoded?
    ensures Cong(WeightedSum(xs, ys, |xs|, p), s.previous.value.groupPublicKey.log, p)
  {
    var t := s.expected.threshold;
    var f := AggregateCommitments(QualifiedDeals(packets, t), t, p);
    forall k | 0 <= k < |xs|
      ensures Cong(ys[k], Eval(f, xs[k]), p)
    {
      LocalShareIsCommitted(s, packets, ids[k], transports[k], p);
      CongMod(Eval(f, xs[k]), p);
    }
    InterpolationAtZero(f, xs, ys, p);
    EvalAtZero(f);
    assert KeyKept(s, f[0]);
  }
}
