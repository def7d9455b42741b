/** operator/threshold-group.mjs: the group manifest, its chain and its attestations.
    A hash is modelled by the value it binds, a signature by its key and message. */
module ThresholdGroup {
  import opened Outcomes
  import opened Field
  import opened Polynomial
  import opened ThresholdCrypto

  /** Participant identifiers, numbered in code-unit order. */
  type Id = nat

  datatype Ceremony = Dkg | Reshare

  datatype Participant = Participant(id: Id, index: int, identity: nat, transport: nat, endpoint: nat)

  datatype Member = Member(participant: Participant, sharePublicKey: Wire)

  /** Network, chain and verifier adapter. */
  datatype Domain = Domain(network: string, chainId: nat, adapter: nat)

  datatype Body = Body(
    domain: Domain, ceremony: Ceremony, previousManifestHash: Option<Body>, epoch: int, threshold: int,
    groupPublicKey: Wire, coefficients: seq<Wire>, members: seq<Member>)

  datatype Signature<M> = Unsigned | SignedBy(key: nat, message: M)

  datatype Attestation = Attestation(participantId: Id, signature: Signature<Body>)

  datatype Manifest = Manifest(body: Body, attestations: seq<Attestation>, handoffs: seq<Attestation>)

  predicate ValidHistory(b: Body) {
    match b.ceremony
    case Dkg => b.epoch == 1 && b.previousManifestHash.None?
    case Reshare => b.epoch >= 2 && b.previousManifestHash.Some?
  }

  predicate ValidSize(n: nat, threshold: int) {
    3 <= n <= 31 && 2 <= threshold <= n && threshold * 2 > n
  }

  predicate ValidKeys(b: Body, p: nat) {
    && Decode(b.groupPublicKey, p, false).Ok?
    && |b.coefficients| == b.threshold && b.threshold >= 2
    && Decodable(b.coefficients, p)
    && b.coefficients[0] == b.groupPublicKey
    && b.coefficients[|b.coefficients| - 1].log != 0
  }

  predicate ValidMembers(members: seq<Member>, p: nat) {
    && (forall i :: 0 <= i < |members| ==> members[i].participant.index == i + 1)
    && (forall i :: 0 <= i < |members| ==> Decode(members[i].sharePublicKey, p, false).Ok?)
    && (forall i :: 0 <= i < |members| ==> members[i].participant.identity != 0 && members[i].participant.transport != 0)
    && (forall i, j :: 0 <= i < j < |members| ==>
          && members[i].participant.id != members[j].participant.id
          && members[i].participant.identity != members[j].participant.identity
          && members[i].participant.transport != members[j].participant.transport
          && members[i].participant.endpoint != members[j].participant.endpoint
          && members[i].sharePublicKey != members[j].sharePublicKey)
  }

  predicate ShareCommitted(b: Body, i: nat, p: nat)
    requires i < |b.members| && p > 0 && Decodable(b.coefficients, p)
  {
    && b.members[i].sharePublicKey.Encoded?
    && b.members[i].sharePublicKey.log == Eval(Logs(b.coefficients), b.members[i].participant.index) % p
  }

  predicate ValidBody(b: Body, p: nat)
    requires p > 0
  {
    && ValidHistory(b) && ValidKeys(b, p) && ValidSize(|b.members|, b.threshold) && ValidMembers(b.members, p)
    && forall i :: 0 <= i < |b.members| ==> ShareCommitted(b, i, p)
  }

  /** The scalar order exceeds every roster index. */
  predicate LargeOrder(p: nat) { p > 31 }

  method NormalizeBody(b: Body, p: nat) returns (r: Result<Body>)
    requires LargeOrder(p)
    ensures r.Ok? <==> ValidBody(b, p)
    ensures r.Ok? ==> r.value == b
  {
    if !ValidHistory(b) || !ValidKeys(b, p) || !ValidSize(|b.members|, b.threshold) || !ValidMembers(b.members, p) {
      return Failure;
    }
    var i := 0;
    while i < |b.members|
      invariant 0 <= i <= |b.members|
      invariant forall j :: 0 <= j < i ==> ShareCommitted(b, j, p)
    {
      var member := b.members[i];
      var matches := VerifyPublicShareCommitment(member.participant.index, member.sharePublicKey, b.coefficients, p);
      if !matches.value {
        assert !ShareCommitted(b, i, p);
        return Failure;
      }
      i := i + 1;
    }
    r := Ok(b);
  }

  function FindMember(members: seq<Member>, id: Id): (r: Option<Member>)
    ensures r.Some? <==> exists i :: 0 <= i < |members| && members[i].participant.id == id
    ensures r.Some? ==> r.value in members && r.value.participant.id == id
  {
    if members == [] then None
    else if members[0].participant.id == id then Some(members[0])
    else FindMember(members[1..], id)
  }

  lemma {:induction false} FindMemberAt(members: seq<Member>, i: nat)
    requires i < |members|
    requires forall i, j :: 0 <= i < j < |members| ==> members[i].participant.id != members[j].participant.id
    ensures FindMember(members, members[i].participant.id) == Some(members[i])
  {
    if i > 0 {
      FindMemberAt(members[1..], i - 1);
    }
  }

  // ------------------------------------------------------------ attestations

  predicate Attests(a: Attestation, members: seq<Member>, hash: Body) {
    var m := FindMember(members, a.participantId);
    m.Some? && a.signature == SignedBy(m.value.participant.identity, hash)
  }

  function AttesterIds(attestations: seq<Attestation>): set<Id> {
    set i | 0 <= i < |attestations| :: attestations[i].participantId
  }

  predicate AllAttest(attestations: seq<Attestation>, members: seq<Member>, hash: Body) {
    forall i :: 0 <= i < |attestations| ==> Attests(attestations[i], members, hash)
  }

  predicate DistinctAttesters(attestations: seq<Attestation>) {
    forall i, j :: 0 <= i < j < |attestations| ==> attestations[i].participantId != attestations[j].participantId
  }

  predicate ValidAttestations(attestations: seq<Attestation>, members: seq<Member>, required: int, hash: Body) {
    && AllAttest(attestations, members, hash)
    && DistinctAttesters(attestations)
    && |attestations| >= required
  }

  lemma AttesterIdsNext(attestations: seq<Attestation>, k: nat)
    requires k < |attestations|
    ensures AttesterIds(attestations[..k + 1]) == AttesterIds(attestations[..k]) + {attestations[k].participantId}
  {
    var prefix, longer := attestations[..k], attestations[..k + 1];
    forall x: Id
      ensures x in AttesterIds(longer) <==> x in AttesterIds(prefix) + {attestations[k].participantId}
    {
      if x == attestations[k].participantId { assert longer[k].participantId == x; }
      if x in AttesterIds(prefix) {
        var i :| 0 <= i < |prefix| && prefix[i].participantId == x;
        assert longer[i].participantId == x;
      }
      if x in AttesterIds(longer) {
        var i :| 0 <= i < |longer| && longer[i].participantId == x;
        if i < k { assert prefix[i].participantId == x; }
      }
    }
  }

  lemma RepeatedAttester(attestations: seq<Attestation>, k: nat)
    requires k < |attestations| && attestations[k].participantId in AttesterIds(attestations[..k])
    ensures !DistinctAttesters(attestations)
  {
    var i :| 0 <= i < k && attestations[..k][i].participantId == attestations[k].participantId;
    assert attestations[i].participantId == attestations[k].participantId;
  }

  lemma FreshAttester(attestations: seq<Attestation>, k: nat)
    requires k < |attestations| && attestations[k].participantId !in AttesterIds(attestations[..k])
    requires DistinctAttesters(attestations[..k])
    ensures DistinctAttesters(attestations[..k + 1])
  {
    var prefix, longer := attestations[..k], attestations[..k + 1];
    forall i, j | 0 <= i < j < |longer|
      ensures longer[i].participantId != longer[j].participantId
    {
      assert longer[i] == prefix[i];
      assert prefix[i].participantId in AttesterIds(prefix);
      if j < k { assert longer[j] == prefix[j]; }
    }
  }

  method ValidateAttestations(attestations: seq<Attestation>, members: seq<Member>, required: int, hash: Body)
    returns (r: Result<set<Id>>)
    ensures r.Ok? <==> ValidAttestations(attestations, members, required, hash)
    ensures r.Ok? ==> r.value == AttesterIds(attestations) && |r.value| >= required
  {
    var attesters: set<Id> := {};
    var position := 0;
    while position < |attestations|
      invariant 0 <= position <= |attestations|
      invariant attesters == AttesterIds(attestations[..position]) && |attesters| == position
      invariant AllAttest(attestations[..position], members, hash)
      invariant DistinctAttesters(attestations[..position])
    {
      var attestation := attestations[position];
      var member := FindMember(members, attestation.participantId);
      if member.None? || attestation.signature != SignedBy(member.value.participant.identity, hash) {
        assert !Attests(attestation, members, hash);
        return Failure;
      }
      if attestation.participantId in attesters {
        RepeatedAttester(attestations, position);
        return Failure;
      }
      AttesterIdsNext(attestations, position);
      FreshAttester(attestations, position);
      attesters := attesters + {attestation.participantId};
      position := position + 1;
    }
    assert attestations[..position] == attestations;
    if |attesters| < required { return Failure; }
    r := Ok(attesters);
  }

  predicate Succeeds(b: Body, previous: Body) {
    && b.previousManifestHash == Some(previous)
    && b.domain == previous.domain
    && b.groupPublicKey == previous.groupPublicKey
    && b.epoch == previous.epoch + 1
  }

  predicate ValidManifest(m: Manifest, previous: Option<Body>, trustedHash: Option<Body>, p: nat)
    requires p > 0
  {
    && ValidBody(m.body, p)
    && ValidAttestations(m.attestations, m.body.members, m.body.threshold, m.body)
    && match m.body.ceremony
       case Dkg => m.handoffs == []
       case Reshare =>
         && previous.Some? && trustedHash == previous && ValidBody(previous.value, p)
         && Succeeds(m.body, previous.value)
         && ValidAttestations(m.handoffs, previous.value.members, previous.value.threshold, m.body)
  }

  method ValidateGroupManifest(m: Manifest, previous: Option<Body>, trustedHash: Option<Body>, p: nat)
    returns (r: Result<Body>)
    requires LargeOrder(p)
    ensures r.Ok? <==> ValidManifest(m, previous, trustedHash, p)
    ensures r.Ok? ==> r.value == m.body
  {
    var body := NormalizeBody(m.body, p);
    if body.Failure? { return Failure; }
    var attesters := ValidateAttestations(m.attestations, m.body.members, m.body.threshold, m.body);
    if attesters.Failure? { return Failure; }
    if m.body.ceremony.Dkg? {
      if m.handoffs != [] { return Failure; }
    } else {
      if previous.None? || trustedHash.None? { return Failure; }
      var prepared := NormalizeBody(previous.value, p);
      if prepared.Failure? { return Failure; }
      if previous.value != trustedHash.value || m.body.previousManifestHash != previous { return Failure; }
      if m.body.domain != previous.value.domain || m.body.groupPublicKey != previous.value.groupPublicKey { return Failure; }
      if m.body.epoch != previous.value.epoch + 1 { return Failure; }
      var handoffs := ValidateAttestations(m.handoffs, previous.value.members, previous.value.threshold, m.body);
      if handoffs.Failure? { return Failure; }
    }
    r := Ok(m.body);
  }

  // ------------------------------------------------------ quorum intersection

  lemma {:induction false} DistinctIdsCount(attestations: seq<Attestation>)
    requires DistinctAttesters(attestations)
    ensures |AttesterIds(attestations)| == |attestations|
  {
    if attestations != [] {
      var n := |attestations| - 1;
      var rest := attestations[..n];
      DistinctIdsCount(rest);
      AttesterIdsNext(attestations, n);
      assert attestations[..n + 1] == attestations;
      assert attestations[n].participantId !in AttesterIds(rest);
    }
  }

  function MemberIds(members: seq<Member>): set<Id> {
    set i | 0 <= i < |members| :: members[i].participant.id
  }

  lemma {:induction false} MemberIdsCount(members: seq<Member>)
    ensures |MemberIds(members)| <= |members|
  {
    if members != [] {
      var n := |members| - 1;
      MemberIdsCount(members[..n]);
      assert MemberIds(members) == MemberIds(members[..n]) + {members[n].participant.id} by {
        forall x: Id ensures x in MemberIds(members) <==> x in MemberIds(members[..n]) + {members[n].participant.id} {
          if x in MemberIds(members) {
            var i :| 0 <= i < |members| && members[i].participant.id == x;
            if i < n { assert members[..n][i].participant.id == x; }
          }
          if x in MemberIds(members[..n]) {
            var i :| 0 <= i < n && members[..n][i].participant.id == x;
            assert members[i].participant.id == x;
          }
        }
      }
    }
  }

  lemma Overlap(a: set<Id>, b: set<Id>, all: set<Id>)
    requires a <= all && b <= all && |a| + |b| > |all|
    ensures a * b != {}
  {
    if a * b == {} {
      assert |a + b| == |a| + |b|;
      Subset(a + b, all);
      assert false;
    }
  }

  lemma Subset(a: set<Id>, b: set<Id>)
    requires a <= b
    ensures |a| <= |b|
  {
    assert b == a + (b - a);
  }

  lemma AttestersAreMembers(attestations: seq<Attestation>, members: seq<Member>, required: int, hash: Body)
    requires ValidAttestations(attestations, members, required, hash)
    ensures AttesterIds(attestations) <= MemberIds(members)
  {
    forall x | x in AttesterIds(attestations)
      ensures x in MemberIds(members)
    {
      var i :| 0 <= i < |attestations| && attestations[i].participantId == x;
      assert Attests(attestations[i], members, hash);
      var j :| 0 <= j < |members| && members[j].participant.id == x;
      assert members[j].participant.id in MemberIds(members);
    }
  }

  /** One participant's valid signatures never name two different bodies. */
  ghost predicate SignsOnce(m1: Manifest, m2: Manifest) {
    forall i, j, k ::
      && 0 <= i < |m1.handoffs| && 0 <= j < |m2.handoffs| && m1.handoffs[i].signature == SignedBy(k, m1.body)
      && m2.handoffs[j].signature == SignedBy(k, m2.body)
      ==> m1.body == m2.body
  }

  /** A trusted manifest has at most one accepted successor as long as no old participant signs two:
      the two handoff quorums are strict majorities of one roster and must share a signer. */
  lemma HandoffCannotFork(m1: Manifest, m2: Manifest, previous: Body, p: nat)
    requires p > 0 && m1.body.ceremony.Reshare? && m2.body.ceremony.Reshare?
    requires ValidManifest(m1, Some(previous), Some(previous), p)
    requires ValidManifest(m2, Some(previous), Some(previous), p)
    requires SignsOnce(m1, m2)
    ensures m1.body == m2.body
  {
    var a, b := AttesterIds(m1.handoffs), AttesterIds(m2.handoffs);
    DistinctIdsCount(m1.handoffs);
    DistinctIdsCount(m2.handoffs);
    MemberIdsCount(previous.members);
    AttestersAreMembers(m1.handoffs, previous.members, previous.threshold, m1.body);
    AttestersAreMembers(m2.handoffs, previous.members, previous.threshold, m2.body);
    Overlap(a, b, MemberIds(previous.members));
    var x :| x in a * b;
    var i :| 0 <= i < |m1.handoffs| && m1.handoffs[i].participantId == x;
    var j :| 0 <= j < |m2.handoffs| && m2.handoffs[j].participantId == x;
    assert Attests(m1.handoffs[i], previous.members, m1.body);
    assert Attests(m2.handoffs[j], previous.members, m2.body);
  }

  /** Manifests each of which was accepted as a reshare with the one before it as the trusted predecessor. */
  ghost predicate Chain(ms: seq<Manifest>, p: nat)
    requires p > 0
  {
    forall i :: 0 < i < |ms| ==>
      ms[i].body.ceremony.Reshare? && ValidManifest(ms[i], Some(ms[i - 1].body), Some(ms[i - 1].body), p)
  }

  /** Along such a chain the first one's group key and domain stay, and the epoch counts up. */
  lemma {:induction false} ChainKeepsKey(ms: seq<Manifest>, i: nat, p: nat)
    requires p > 0 && Chain(ms, p) && i < |ms|
    ensures ms[i].body.groupPublicKey == ms[0].body.groupPublicKey
    ensures ms[i].body.domain == ms[0].body.domain && ms[i].body.epoch == ms[0].body.epoch + i
  {
    if i > 0 { ChainKeepsKey(ms, i - 1, p); }
  }

  /** Two chains from one manifest are one chain, as far as both go, as long as no participant signs two successors. */
  lemma {:induction false} ChainsCannotFork(a: seq<Manifest>, b: seq<Manifest>, i: nat, p: nat)
    requires p > 0 && Chain(a, p) && Chain(b, p) && i < |a| && i < |b| && a[0].body == b[0].body
    requires forall k :: 0 < k < |a| && k < |b| ==> SignsOnce(a[k], b[k])
    ensures a[i].body == b[i].body
  {
    if i > 0 {
      ChainsCannotFork(a, b, i - 1, p);
      HandoffCannotFork(a[i], b[i], a[i - 1].body, p);
    }
  }
}

/** ThresholdProofProvider.prove of operator/proof-provider.mjs, from the replies onwards. */
module ProofProvider {
  import opened Outcomes
  import opened Field
  import opened Polynomial
  import opened ThresholdCrypto
  import opened ThresholdGroup
  import opened Sequences

  /** What one participant's endpoint produced: nothing usable, or a point. */
  type Reply = Option<Wire>

  predicate Usable(message: nat, member: Member, reply: Reply, p: nat)
    requires p > 0
  {
    reply.Some? && VerifyPartialSignature(message, member.sharePublicKey, reply.value, p)
  }

  function Collect(message: nat, members: seq<Member>, replies: seq<Reply>, p: nat): (r: seq<Share>)
    requires p > 0 && |members| == |replies|
  {
    if members == [] then []
    else
      (if Usable(message, members[0], replies[0], p)
       then [Share(members[0].participant.index, members[0].sharePublicKey, replies[0].value)] else [])
      + Collect(message, members[1..], replies[1..], p)
  }

  function ByIndex(): (Share, Share) -> bool {
    (a: Share, b: Share) => a.index <= b.index
  }

  function Chosen(message: nat, b: Body, replies: seq<Reply>, p: nat): (r: seq<Share>)
    requires p > 0 && |replies| == |b.members| && b.threshold >= 0
  {
    var valid := Sort(Collect(message, b.members, replies, p), ByIndex());
    if |valid| < b.threshold then valid else valid[..b.threshold]
  }

  method Prove(message: nat, b: Body, replies: seq<Reply>, p: nat) returns (r: Result<nat>)
    requires IsPrime(p) && LargeOrder(p) && ValidBody(b, p) && |replies| == |b.members|
    requires message % p != 0
    ensures r.Ok? <==> |Collect(message, b.members, replies, p)| >= b.threshold
    ensures r.Ok? ==> r.value == (message * b.groupPublicKey.log) % p
  {
    var chosen := Chosen(message, b, replies, p);
    ghost var raw := Collect(message, b.members, replies, p);
    assert |raw| == |multiset(raw)|;
    assert |Sort(raw, ByIndex())| == |multiset(Sort(raw, ByIndex()))|;
    if |chosen| < b.threshold { return Failure; }
    ChosenCombines(message, b, replies, p);
    r := AggregateForKey(message, b, chosen, p);
  }

  lemma ChosenCombines(message: nat, b: Body, replies: seq<Reply>, p: nat)
    requires IsPrime(p) && LargeOrder(p) && ValidBody(b, p) && |replies| == |b.members| && message % p != 0
    requires |Chosen(message, b, replies, p)| >= b.threshold
    ensures Combines(message, b.groupPublicKey, b.threshold, Chosen(message, b, replies, p), p)
  {
    var raw := Collect(message, b.members, replies, p);
    var valid := Sort(raw, ByIndex());
    CollectSound(message, b, replies, 0, p);
    CollectIncreasing(message, b, replies, 0, p);
    assert b.members[0..] == b.members && replies[0..] == replies;
    ChosenShares(message, b, raw, valid, Chosen(message, b, replies, p), p);
    var f := Logs(b.coefficients);
    assert f[0] == b.groupPublicKey.log;
    ModSmall(f[0], p);
    AggregateIsUnique(message, f, b.threshold, Chosen(message, b, replies, p), p);
  }

  method AggregateForKey(message: nat, b: Body, chosen: seq<Share>, p: nat) returns (r: Result<nat>)
    requires IsPrime(p) && ValidBody(b, p)
    ensures r.Ok? <==> Combines(message, b.groupPublicKey, b.threshold, chosen, p)
    ensures r.Ok? ==> r.value == (message * b.groupPublicKey.log) % p
  {
    var aggregate := AggregateThresholdShares(message, b.groupPublicKey, b.threshold, chosen, p);
    if aggregate.Failure? { return Failure; }
    r := Ok(aggregate.value.signature);
  }

  ghost predicate SoundShare(message: nat, b: Body, s: Share, p: nat)
    requires p > 0 && ValidBody(b, p)
  {
    && VerifyPartialSignature(message, s.publicKey, s.signature, p)
    && 1 <= s.index <= |b.members|
    && s.publicKey.log == Eval(Logs(b.coefficients), s.index) % p
  }

  lemma {:induction false} CollectSound(message: nat, b: Body, replies: seq<Reply>, k: nat, p: nat)
    requires p > 0 && ValidBody(b, p) && |replies| == |b.members| && k <= |replies|
    ensures forall s :: s in Collect(message, b.members[k..], replies[k..], p) ==>
              SoundShare(message, b, s, p) && s.index > k
    decreases |replies| - k
  {
    if k < |replies| {
      CollectSound(message, b, replies, k + 1, p);
      assert b.members[k..][1..] == b.members[k + 1..] && replies[k..][1..] == replies[k + 1..];
      assert ShareCommitted(b, k, p);
    }
  }

  ghost predicate Increasing(c: seq<Share>) {
    forall i, j :: 0 <= i < j < |c| ==> c[i].index < c[j].index
  }

  lemma IncreasingCons(x: Share, c: seq<Share>)
    requires Increasing(c) && forall s :: s in c ==> x.index < s.index
    ensures Increasing([x] + c)
  {
    var r := [x] + c;
    forall i, j | 0 <= i < j < |r|
      ensures r[i].index < r[j].index
    {
      assert r[j] == c[j - 1] && c[j - 1] in c;
    }
  }

  /** One participant more puts at most its own share in front. */
  lemma CollectNext(message: nat, b: Body, replies: seq<Reply>, k: nat, p: nat)
    requires p > 0 && ValidBody(b, p) && |replies| == |b.members| && k < |replies|
    ensures var rest := Collect(message, b.members[k + 1..], replies[k + 1..], p);
      Collect(message, b.members[k..], replies[k..], p) ==
        if Usable(message, b.members[k], replies[k], p)
        then [Share(k + 1, b.members[k].sharePublicKey, replies[k].value)] + rest else rest
  {
    assert b.members[k..][1..] == b.members[k + 1..] && replies[k..][1..] == replies[k + 1..];
    assert b.members[k].participant.index == k + 1;
  }

  lemma {:induction false} CollectIncreasing(message: nat, b: Body, replies: seq<Reply>, k: nat, p: nat)
    requires p > 0 && ValidBody(b, p) && |replies| == |b.members| && k <= |replies|
    ensures Increasing(Collect(message, b.members[k..], replies[k..], p))
    decreases |replies| - k
  {
    if k < |replies| {
      CollectIncreasing(message, b, replies, k + 1, p);
      CollectNext(message, b, replies, k, p);
      var rest := Collect(message, b.members[k + 1..], replies[k + 1..], p);
      if Usable(message, b.members[k], replies[k], p) {
        forall s | s in rest ensures k + 1 < s.index {
          CollectSound(message, b, replies, k + 1, p);
        }
        IncreasingCons(Share(k + 1, b.members[k].sharePublicKey, replies[k].value), rest);
      }
    }
  }

  lemma ChosenShares(message: nat, b: Body, raw: seq<Share>, valid: seq<Share>, chosen: seq<Share>, p: nat)
    requires p > 31 && ValidBody(b, p) && Permutation(raw, valid) && chosen <= valid
    requires forall s :: s in raw ==> SoundShare(message, b, s, p)
    requires Increasing(raw)
    ensures ValidIndexes(Indexes(chosen), p) && SharesVerify(message, chosen, p)
    ensures forall i :: 0 <= i < |chosen| ==>
      chosen[i].publicKey.log == Eval(Logs(b.coefficients), chosen[i].index) % p
  {
    PermutationMembers(raw, valid);
    assert Distinct(raw);
    PermutationDistinct(raw, valid);
    forall i | 0 <= i < |chosen|
      ensures SoundShare(message, b, chosen[i], p) && chosen[i] in raw
    {
      assert chosen[i] == valid[i] && valid[i] in valid;
    }
    forall i, j | 0 <= i < j < |chosen|
      ensures chosen[i].index != chosen[j].index
    {
      var u :| 0 <= u < |raw| && raw[u] == chosen[i];
      var v :| 0 <= v < |raw| && raw[v] == chosen[j];
      assert valid[i] != valid[j];
    }
  }

  /** The participant's reply is its nonzero signature of the message. */
  predicate Answers(message: nat, members: seq<Member>, replies: seq<Reply>, i: nat, p: nat)
    requires p > 0 && i < |members| && |replies| == |members|
  {
    replies[i].Some? && Signs(Share(members[i].participant.index, members[i].sharePublicKey, replies[i].value), message, p)
  }

  ghost function Answering(message: nat, members: seq<Member>, replies: seq<Reply>, k: nat, p: nat): set<nat>
    requires p > 0 && |replies| == |members|
  {
    set i | k <= i < |members| && Answers(message, members, replies, i, p)
  }

  lemma {:induction false} CollectCount(message: nat, members: seq<Member>, replies: seq<Reply>, k: nat, p: nat)
    requires p > 0 && |replies| == |members| && k <= |members|
    ensures |Collect(message, members[k..], replies[k..], p)| == |Answering(message, members, replies, k, p)|
    decreases |members| - k
  {
    if k == |members| {
      assert Answering(message, members, replies, k, p) == {};
    } else {
      CollectCount(message, members, replies, k + 1, p);
      assert members[k..][1..] == members[k + 1..] && replies[k..][1..] == replies[k + 1..];
      var later := Answering(message, members, replies, k + 1, p);
      if replies[k].Some? {
        SignsExactly(Share(members[k].participant.index, members[k].sharePublicKey, replies[k].value), message, p);
      }
      assert Answering(message, members, replies, k, p)
          == later + if Answers(message, members, replies, k, p) then {k} else {};
    }
  }

  /** There are as many shares to choose from as participants that answered with a signature of their own. */
  lemma CollectedExactly(message: nat, b: Body, replies: seq<Reply>, p: nat)
    requires p > 0 && |replies| == |b.members|
    ensures |Collect(message, b.members, replies, p)| == |Answering(message, b.members, replies, 0, p)|
  {
    CollectCount(message, b.members, replies, 0, p);
    assert b.members[0..] == b.members && replies[0..] == replies;
  }
}
