/** Which manifests are accepted, told from their contents: what a roster and a committed key must be, and how many
    of whose participants must have signed. */
module ThresholdQuorums {
  import opened Outcomes
  import opened Field
  import opened Polynomial
  import opened ThresholdCrypto
  import opened ThresholdGroup

  /** The positions of a roster whose participants signed this body. */
  ghost function Signers(attestations: seq<Attestation>, members: seq<Member>, body: Body): set<nat> {
    set i | 0 <= i < |members| && HasSigned(attestations, members, i, body)
  }

  predicate HasSigned(attestations: seq<Attestation>, members: seq<Member>, i: nat, body: Body)
    requires i < |members|
  {
    exists k :: 0 <= k < |attestations| && SignedAt(attestations[k], members, i, body)
  }

  predicate SignedAt(a: Attestation, members: seq<Member>, i: nat, body: Body)
    requires i < |members|
  {
    a.participantId == members[i].participant.id && a.signature == SignedBy(members[i].participant.identity, body)
  }

  predicate SignedIn(a: Attestation, members: seq<Member>, body: Body) {
    exists i :: 0 <= i < |members| && SignedAt(a, members, i, body)
  }

  /** Every signature is a participant's on this body, and none of them signs twice. */
  ghost predicate SignaturesHold(attestations: seq<Attestation>, members: seq<Member>, body: Body) {
    && (forall k :: 0 <= k < |attestations| ==> SignedIn(attestations[k], members, body))
    && (forall j, k :: 0 <= j < k < |attestations| ==> attestations[j].participantId != attestations[k].participantId)
  }

  lemma AttestsExactly(a: Attestation, members: seq<Member>, body: Body)
    requires forall i, j :: 0 <= i < j < |members| ==> members[i].participant.id != members[j].participant.id
    ensures Attests(a, members, body) <==> SignedIn(a, members, body)
  {
    var m := FindMember(members, a.participantId);
    if m.Some? {
      var i :| 0 <= i < |members| && members[i] == m.value;
      assert Attests(a, members, body) ==> SignedAt(a, members, i, body);
    }
    if SignedIn(a, members, body) {
      var i :| 0 <= i < |members| && SignedAt(a, members, i, body);
      FindMemberAt(members, i);
    }
  }

  /** One signature more is one signer more. */
  lemma SignersStep(attestations: seq<Attestation>, members: seq<Member>, body: Body, i: nat)
    requires forall i, j :: 0 <= i < j < |members| ==> members[i].participant.id != members[j].participant.id
    requires attestations != [] && SignaturesHold(attestations, members, body)
    requires i < |members| && SignedAt(attestations[|attestations| - 1], members, i, body)
    ensures var front := attestations[..|attestations| - 1];
      i !in Signers(front, members, body)
      && Signers(attestations, members, body) == Signers(front, members, body) + {i}
  {
    var n := |attestations| - 1;
    var front := attestations[..n];
    forall k | 0 <= k < n ensures !SignedAt(front[k], members, i, body) {
      assert attestations[k].participantId != attestations[n].participantId;
    }
    forall j | 0 <= j < |members|
      ensures HasSigned(attestations, members, j, body) <==> HasSigned(front, members, j, body) || j == i
    {
      if HasSigned(front, members, j, body) {
        var k :| 0 <= k < n && SignedAt(front[k], members, j, body);
        assert SignedAt(attestations[k], members, j, body);
      }
      if HasSigned(attestations, members, j, body) {
        var k :| 0 <= k < |attestations| && SignedAt(attestations[k], members, j, body);
        if k < n { assert SignedAt(front[k], members, j, body); }
      }
    }
  }

  /** As many participants signed as there are signatures. */
  lemma {:induction false} SignersCount(attestations: seq<Attestation>, members: seq<Member>, body: Body)
    requires forall i, j :: 0 <= i < j < |members| ==> members[i].participant.id != members[j].participant.id
    requires SignaturesHold(attestations, members, body)
    ensures |Signers(attestations, members, body)| == |attestations|
  {
    if attestations == [] {
      assert Signers(attestations, members, body) == {};
    } else {
      var n := |attestations| - 1;
      assert forall k :: 0 <= k < n ==> attestations[..n][k] == attestations[k];
      SignersCount(attestations[..n], members, body);
      assert SignedIn(attestations[n], members, body);
      var i :| 0 <= i < |members| && SignedAt(attestations[n], members, i, body);
      SignersStep(attestations, members, body, i);
    }
  }

  lemma QuorumExactly(attestations: seq<Attestation>, members: seq<Member>, required: int, body: Body)
    requires forall i, j :: 0 <= i < j < |members| ==> members[i].participant.id != members[j].participant.id
    ensures ValidAttestations(attestations, members, required, body) <==>
      SignaturesHold(attestations, members, body) && |Signers(attestations, members, body)| >= required
  {
    forall k | 0 <= k < |attestations|
      ensures Attests(attestations[k], members, body) <==> SignedIn(attestations[k], members, body)
    {
      AttestsExactly(attestations[k], members, body);
    }
    if SignaturesHold(attestations, members, body) {
      SignersCount(attestations, members, body);
    }
  }

  // ------------------------------------------------------------------ the body

  /** A point of the group, other than the identity. */
  predicate Point(w: Wire, p: nat) { w.Encoded? && 0 < w.log < p }

  /** Three to thirty-one participants, a strict majority of which is needed. */
  predicate Majority(n: nat, threshold: int) { 3 <= n <= 31 && 2 <= threshold <= n < 2 * threshold }

  /** Exactly threshold commitments, the first of them the group key and the last not zero. */
  predicate Commits(b: Body, p: nat) {
    && |b.coefficients| == b.threshold && b.threshold >= 2 && Point(b.groupPublicKey, p)
    && b.coefficients[0] == b.groupPublicKey && Point(b.coefficients[b.threshold - 1], p)
    && forall k :: 0 <= k < b.threshold ==> b.coefficients[k].Encoded? && b.coefficients[k].log < p
  }

  /** The i-th participant holds the committed polynomial's share at i + 1, which is not zero. */
  predicate Holds(b: Body, i: nat, p: nat)
    requires i < |b.members| && p > 0 && Commits(b, p)
  {
    && b.members[i].participant.index == i + 1 && Point(b.members[i].sharePublicKey, p)
    && b.members[i].sharePublicKey.log == Eval(Logs(b.coefficients), i + 1) % p
  }

  predicate Apart(a: Member, b: Member) {
    && a.participant.id != b.participant.id && a.participant.identity != b.participant.identity
    && a.participant.transport != b.participant.transport && a.participant.endpoint != b.participant.endpoint
    && a.sharePublicKey != b.sharePublicKey
  }

  /** The contents of an acceptable body. */
  predicate Consistent(b: Body, p: nat)
    requires p > 0
  {
    && (if b.ceremony.Dkg? then b.epoch == 1 && b.previousManifestHash == None
        else b.epoch >= 2 && b.previousManifestHash != None)
    && Majority(|b.members|, b.threshold) && Commits(b, p)
    && (forall i :: 0 <= i < |b.members| ==> Holds(b, i, p))
    && (forall i :: 0 <= i < |b.members| ==>
          b.members[i].participant.identity != 0 && b.members[i].participant.transport != 0)
    && (forall i, j :: 0 <= i < j < |b.members| ==> Apart(b.members[i], b.members[j]))
  }

  lemma ConsistentIsValid(b: Body, p: nat)
    requires p > 0 && Consistent(b, p)
    ensures ValidBody(b, p)
  {
    forall k | 0 <= k < |b.coefficients| ensures Decode(b.coefficients[k], p, true).Ok? {}
    forall i | 0 <= i < |b.members|
      ensures ShareCommitted(b, i, p) && Decode(b.members[i].sharePublicKey, p, false).Ok?
      ensures b.members[i].participant.index == i + 1
    {
      assert Holds(b, i, p);
    }
    MembersApart(b.members, p);
  }

  lemma MembersApart(members: seq<Member>, p: nat)
    requires forall i :: 0 <= i < |members| ==> members[i].participant.index == i + 1
    requires forall i :: 0 <= i < |members| ==> Decode(members[i].sharePublicKey, p, false).Ok?
    requires forall i :: 0 <= i < |members| ==> members[i].participant.identity != 0 && members[i].participant.transport != 0
    requires forall i, j :: 0 <= i < j < |members| ==> Apart(members[i], members[j])
    ensures ValidMembers(members, p)
  {
    forall i, j | 0 <= i < j < |members|
      ensures members[i].participant.id != members[j].participant.id
        && members[i].participant.identity != members[j].participant.identity
        && members[i].participant.transport != members[j].participant.transport
        && members[i].participant.endpoint != members[j].participant.endpoint
        && members[i].sharePublicKey != members[j].sharePublicKey
    {
      assert Apart(members[i], members[j]);
    }
  }

  lemma ValidIsConsistent(b: Body, p: nat)
    requires p > 0 && ValidBody(b, p)
    ensures Consistent(b, p)
  {
    forall k | 0 <= k < |b.coefficients| ensures b.coefficients[k].Encoded? && b.coefficients[k].log < p {
      assert Decode(b.coefficients[k], p, true).Ok?;
    }
    assert Commits(b, p);
    forall i | 0 <= i < |b.members| ensures Holds(b, i, p) {
      assert ShareCommitted(b, i, p);
    }
  }

  lemma BodyExactly(b: Body, p: nat)
    requires p > 0
    ensures ValidBody(b, p) <==> Consistent(b, p)
  {
    if Consistent(b, p) {
      ConsistentIsValid(b, p);
    }
    if ValidBody(b, p) {
      ValidIsConsistent(b, p);
    }
  }

  /** A manifest is accepted if and only if its body is consistent, threshold of its own participants signed it, and a
      reshare was also signed by the old threshold of the trusted predecessor it continues. */
  lemma ManifestExactly(m: Manifest, previous: Option<Body>, trustedHash: Option<Body>, p: nat)
    requires p > 0
    ensures ValidManifest(m, previous, trustedHash, p) <==>
      && Consistent(m.body, p) && SignaturesHold(m.attestations, m.body.members, m.body)
      && |Signers(m.attestations, m.body.members, m.body)| >= m.body.threshold
      && (m.body.ceremony.Dkg? ==> m.handoffs == [])
      && (m.body.ceremony.Reshare? ==> Continues(m, previous, trustedHash, p))
  {
    BodyExactly(m.body, p);
    if Consistent(m.body, p) {
      assert forall i, j :: 0 <= i < j < |m.body.members| ==> Apart(m.body.members[i], m.body.members[j]);
      QuorumExactly(m.attestations, m.body.members, m.body.threshold, m.body);
    }
    if m.body.ceremony.Reshare? && previous.Some? {
      BodyExactly(previous.value, p);
      if Consistent(previous.value, p) {
        assert forall i, j :: 0 <= i < j < |previous.value.members| ==>
          Apart(previous.value.members[i], previous.value.members[j]);
        QuorumExactly(m.handoffs, previous.value.members, previous.value.threshold, m.body);
      }
    }
  }

  ghost predicate Continues(m: Manifest, previous: Option<Body>, trustedHash: Option<Body>, p: nat)
    requires p > 0
  {
    && previous.Some? && trustedHash == previous && m.body.previousManifestHash == previous
    && var prior := previous.value;
    && Consistent(prior, p) && m.body.domain == prior.domain && m.body.groupPublicKey == prior.groupPublicKey
    && m.body.epoch == prior.epoch + 1
    && SignaturesHold(m.handoffs, prior.members, m.body)
    && |Signers(m.handoffs, prior.members, m.body)| >= prior.threshold
  }
}
