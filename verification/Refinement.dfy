/** V3 refines V2: a coordinator that keeps only a hash of each request behaves, for callers that bring the
    current witness, exactly as one that keeps the request. `getRequest` is the abstraction function. */
module Refinement {
  import opened Outcomes
  import opened ServiceBase
  import opened Lifecycle
  import opened Coordinator
  import opened BaseInvariants
  import opened Books
  import opened Solvency
  import opened CoordinatorRuns
  import V2 = StoredRequests
  import V3 = Commitments

  /** The commitments V3 would hold for the requests V2 stores. */
  function Views(b: Base, t: V2.Table): V3.Table {
    map k | k in t :: V3.Digest(V2.View(b, t[k]))
  }

  function Compacted(s: State): State {
    match s.store
    case Full(t) => State(s.base, Compact(Views(s.base, t)))
    case Compact(_) => s
  }

  predicate KnownVersions(b: Base, r: V2.StoredRequest) {
    r.keyVersion in b.keyVersions && r.pricingVersion in b.pricingVersions
  }

  /** Stored requests sit under their own id and name versions that exist. */
  ghost predicate Consistent(b: Base, t: V2.Table) {
    forall k :: k in t ==> k == RequestId(t[k].preSeed) && KnownVersions(b, t[k])
  }

  /** The invariant of V2: the books of its views balance, and its versions resolve. */
  ghost predicate SettledFull(s: State) {
    s.store.Full? && Consistent(s.base, s.store.requests) && Settled(Compacted(s))
  }

  // ------------------------------------------------------------------- views

  lemma ViewSame(b: Base, b': Base, r: V2.StoredRequest)
    requires Extends(b, b') && KnownVersions(b, r)
    ensures V2.View(b', r) == V2.View(b, r) && KnownVersions(b', r)
  {
  }

  /** Versions are append-only, so no later price or key change alters what V2 reports. */
  lemma ViewsSame(b: Base, b': Base, t: V2.Table)
    requires Extends(b, b') && Consistent(b, t)
    ensures Views(b', t) == Views(b, t) && Consistent(b', t)
  {
    forall k | k in t
      ensures V2.View(b', t[k]) == V2.View(b, t[k]) && KnownVersions(b', t[k])
    {
      ViewSame(b, b', t[k]);
    }
  }

  lemma ViewsWrite(b: Base, t: V2.Table, r: V2.StoredRequest)
    requires Consistent(b, t) && KnownVersions(b, r)
    ensures Views(b, t[RequestId(r.preSeed) := r]) == V3.Persist(Views(b, t), V2.View(b, r))
    ensures Consistent(b, t[RequestId(r.preSeed) := r])
  {
  }

  /** A witness is accepted exactly when it is what V2 would report for its id. */
  lemma AuthenticWitness(b: Base, t: V2.Table, w: Request)
    requires Consistent(b, t)
    ensures V3.Authenticates(Views(b, t), w) <==> RequestId(w.preSeed) in t && V2.View(b, t[RequestId(w.preSeed)]) == w
  {
  }

  // ------------------------------------------------------------ presenting a request

  function Unknown(k: RequestId): Request {
    Request(0, 0, 0, 0, 0, 0, 0, k.preSeed, 0, 0, 0, 0, 0, 0, 0, 0, 0, 0, 0, 0, 0, 0, 0, Pending, false, false, false)
  }

  /** The witness a V3 caller presents where a V2 caller names an id; a witness means nothing to V2. */
  function Presented(s: State, ref: Ref): Ref
    requires s.store.Full?
  {
    match ref
    case ById(k) => ByWitness(if k in s.store.requests then V2.View(s.base, s.store.requests[k]) else Unknown(k))
    case ByWitness(w) => ById(RequestId(w.preSeed))
  }

  /** The V3 call that stands for a V2 call. Scripts stay as they are: guarded calls in them revert on both. */
  function Translate(s: State, c: Call): Call
    requires s.store.Full?
  {
    match c
    case Fulfil(sender, ref, proof, external) => Fulfil(sender, Presented(s, ref), proof, external)
    case Retry(ref, gasLeft, external) => Retry(Presented(s, ref), gasLeft, external)
    case Expire(ref, block) => Call.Expire(Presented(s, ref), block)
    case Prune(ref, block) => Call.Prune(Presented(s, ref), block)
    case _ => c
  }

  function CompactedResult(r: Option<State>): Option<State> {
    if r.None? then None else Some(Compacted(r.value))
  }

  // --------------------------------------------------------- the steps of one request

  lemma TicketVersions(b: Base, sender: Address, p: Params, chain: Chain)
    requires TakeTicket(b, sender, p, chain).Some?
    ensures var b' := TakeTicket(b, sender, p, chain).value.base;
      SameSetup(b, b') && Extends(b, b') && p.keyHash in b.keys
  {
    TicketWrites(b, sender, p, chain);
  }

  /** What V2 stores at creation reads back as what V3 commits to. */
  lemma CreateAgrees(b: Base, t: V2.Table, sender: Address, p: Params, chain: Chain)
    requires Mirrors(b) && Consistent(b, t)
    ensures V2.Create(b, t, sender, p, chain).Some? <==> V3.Create(b, Views(b, t), sender, p, chain).Some?
    ensures V2.Create(b, t, sender, p, chain).Some? ==>
      (var (b2, t2) := V2.Create(b, t, sender, p, chain).value;
       V3.Create(b, Views(b, t), sender, p, chain) == Some((b2, Views(b2, t2))) && Consistent(b2, t2))
  {
    if V2.Create(b, t, sender, p, chain).Some? {
      var (b2, t2) := V2.Create(b, t, sender, p, chain).value;
      var k := TakeTicket(b, sender, p, chain).value;
      var r := t2[RequestId(k.preSeed)];
      TicketVersions(b, sender, p, chain);
      TicketWrites(b, sender, p, chain);
      assert Mirrored(b, p.keyHash);
      ViewsSame(b, b2, t);
      ViewsWrite(b2, t, r);
      assert V2.View(b2, r) == V3.Create(b, Views(b, t), sender, p, chain).value.1[RequestId(k.preSeed)].request;
    }
  }

  lemma BeginFulfilAgrees(b: Base, t: V2.Table, k: RequestId, sender: Address, proof: Proof)
    requires Consistent(b, t) && k in t
    ensures V2.BeginFulfil(b, t, k, sender, proof).Some?
       <==> V3.BeginFulfil(Views(b, t), V2.View(b, t[k]), sender, proof).Some?
    ensures V2.BeginFulfil(b, t, k, sender, proof).Some? ==>
      (var t2 := V2.BeginFulfil(b, t, k, sender, proof).value;
       && V3.BeginFulfil(Views(b, t), V2.View(b, t[k]), sender, proof) == Some(Views(b, t2)) && Consistent(b, t2)
       && proof.output.Some? && k in t2 && V2.View(b, t2[k]) == V3.Verified(V2.View(b, t[k]), proof.output.value))
  {
    if V2.BeginFulfil(b, t, k, sender, proof).Some? {
      ViewsWrite(b, t, V2.BeginFulfil(b, t, k, sender, proof).value[k]);
    }
  }

  lemma SettleVersions(b: Base, w: Request, proof: Proof)
    requires V3.Settle(b, w, proof).Some?
    ensures Extends(b, V3.Settle(b, w, proof).value)
  {
  }

  /** V2 settles from the pinned versions, V3 from the witness: the same money moves. */
  lemma SettlesAlike(b: Base, t: V2.Table, k: RequestId, w: Request, success: bool, proof: Proof)
    requires k in t && proof.output.Some? && V2.View(b, t[k]) == V3.Verified(w, proof.output.value)
    ensures V2.FinishFulfil(b, t, k, success, proof)
         == if V3.Settle(b, w, proof).None? then None
            else Some((V3.Settle(b, w, proof).value, t[k := V2.AfterCallback(t[k], success)]))
  {
    var r := V2.AfterCallback(t[k], success);
    assert V2.ReservedPayment(b, r) == w.reservedPayment && V2.MinimumFee(b, r) == w.minimumFeeWei;
  }

  lemma FinishFulfilAgrees(b: Base, t: V2.Table, k: RequestId, w: Request, success: bool, proof: Proof)
    requires Consistent(b, t) && k in t && proof.output.Some?
    requires V2.View(b, t[k]) == V3.Verified(w, proof.output.value)
    ensures V2.FinishFulfil(b, t, k, success, proof).Some? <==> V3.FinishFulfil(b, Views(b, t), w, success, proof).Some?
    ensures V2.FinishFulfil(b, t, k, success, proof).Some? ==>
      (var (b2, t2) := V2.FinishFulfil(b, t, k, success, proof).value;
       V3.FinishFulfil(b, Views(b, t), w, success, proof) == Some((b2, Views(b2, t2))) && Consistent(b2, t2))
  {
    SettlesAlike(b, t, k, w, success, proof);
    if V3.Settle(b, w, proof).Some? {
      var t2 := t[k := V2.AfterCallback(t[k], success)];
      ViewsWrite(b, t, t2[k]);
      SettleVersions(b, w, proof);
      ViewsSame(b, V3.Settle(b, w, proof).value, t2);
      assert !success ==> t2 == t;
      assert success ==> V2.View(b, t2[k]) == V3.Verified(w, proof.output.value).(callbackSucceeded := true);
    }
  }

  lemma BeginRetryAgrees(b: Base, t: V2.Table, k: RequestId, gasLeft: nat)
    requires Consistent(b, t) && k in t
    ensures V2.BeginRetry(b, t, k, gasLeft).Some? <==> V3.BeginRetry(Views(b, t), V2.View(b, t[k]), gasLeft).Some?
    ensures V2.BeginRetry(b, t, k, gasLeft).Some? ==>
      (var t2 := V2.BeginRetry(b, t, k, gasLeft).value; var w := V2.View(b, t[k]);
       && V3.BeginRetry(Views(b, t), w, gasLeft) == Some(Views(b, t2)) && Consistent(b, t2)
       && k in t2 && V2.View(b, t2[k]) == w.(callbackAttempts := w.callbackAttempts + 1))
  {
    if V2.BeginRetry(b, t, k, gasLeft).Some? {
      ViewsWrite(b, t, V2.BeginRetry(b, t, k, gasLeft).value[k]);
    }
  }

  lemma FinishRetryAgrees(b: Base, t: V2.Table, k: RequestId, w: Request, success: bool)
    requires Consistent(b, t) && k in t && V2.View(b, t[k]) == w.(callbackAttempts := w.callbackAttempts + 1)
    ensures V2.FinishRetry(t, k, success).Some?
    ensures V3.FinishRetry(Views(b, t), w, success) == Some(Views(b, V2.FinishRetry(t, k, success).value))
    ensures Consistent(b, V2.FinishRetry(t, k, success).value)
  {
    ViewsWrite(b, t, V2.AfterCallback(t[k], success));
    assert !success ==> t[k := t[k]] == t;
  }

  lemma ExpireAgrees(b: Base, t: V2.Table, k: RequestId, block: nat)
    requires Consistent(b, t) && k in t
    ensures V2.Expire(b, t, k, block).Some? <==> V3.Expire(b, Views(b, t), V2.View(b, t[k]), block).Some?
    ensures V2.Expire(b, t, k, block).Some? ==>
      (var (b2, t2) := V2.Expire(b, t, k, block).value;
       V3.Expire(b, Views(b, t), V2.View(b, t[k]), block) == Some((b2, Views(b2, t2))) && Consistent(b2, t2))
  {
    if V2.Expire(b, t, k, block).Some? {
      var (b2, t2) := V2.Expire(b, t, k, block).value;
      ViewsWrite(b, t, t2[k]);
      ReleaseFrame(b, ClaimOf(V2.View(b, t[k])));
      ViewsSame(b, b2, t2);
    }
  }

  lemma PruneAgrees(b: Base, t: V2.Table, k: RequestId, block: nat)
    requires Consistent(b, t) && k in t
    ensures V2.Prune(b, t, k, block).Some? <==> V3.Prune(Views(b, t), V2.View(b, t[k]), block).Some?
    ensures V2.Prune(b, t, k, block).Some? ==>
      (var t2 := V2.Prune(b, t, k, block).value;
       V3.Prune(Views(b, t), V2.View(b, t[k]), block) == Some(Views(b, t2)) && Consistent(b, t2))
  {
    assert Views(b, t - {k}) == Views(b, t) - {k};
  }

  // ---------------------------------------------------------------- transactions

  /** A callback does the same to both stores: nothing, and the same administration to both bases. */
  lemma InterruptedAgrees(s: State, external: External)
    requires s.store.Full? && s.base.locked && Sane(s.base) && Consistent(s.base, s.store.requests)
    ensures Interrupted(Compacted(s), external) == Compacted(Interrupted(s, external))
    ensures Interrupted(s, external).store == s.store && Interrupted(s, external).base.locked
    ensures Extends(s.base, Interrupted(s, external).base)
    ensures Consistent(Interrupted(s, external).base, s.store.requests)
  {
    if external.success {
      LockedRun(s, external.script);
      LockedRun(Compacted(s), external.script);
      AdminRunKeeps(s.base, external.script);
      ViewsSame(s.base, AdminRun(s.base, external.script), s.store.requests);
    }
  }

  lemma LockCommutes(s: State, locked: bool)
    requires s.store.Full? && Consistent(s.base, s.store.requests)
    ensures Compacted(s.(base := s.base.(locked := locked))) == Compacted(s).(base := s.base.(locked := locked))
    ensures Consistent(s.base.(locked := locked), s.store.requests)
  {
    ViewsSame(s.base, s.base.(locked := locked), s.store.requests);
  }

  lemma FulfilCommutes(s: State, sender: Address, k: RequestId, proof: Proof, external: External)
    requires SettledFull(s) && k in s.store.requests
    ensures var w := V2.View(s.base, s.store.requests[k]);
      Exec(Compacted(s), Fulfil(sender, ByWitness(w), proof, external))
      == CompactedResult(Exec(s, Fulfil(sender, ById(k), proof, external)))
    ensures var r := Exec(s, Fulfil(sender, ById(k), proof, external));
      r.Some? ==> r.value.store.Full? && Consistent(r.value.base, r.value.store.requests)
  {
    var w := V2.View(s.base, s.store.requests[k]);
    LockCommutes(s, true);
    var b, t := Lock(s).base, s.store.requests;
    assert V2.View(b, t[k]) == w;
    BeginFulfilAgrees(b, t, k, sender, proof);
    if V2.BeginFulfil(b, t, k, sender, proof).Some? {
      var s1 := State(b, Full(V2.BeginFulfil(b, t, k, sender, proof).value));
      LockSettled(Compacted(s));
      InterruptedAgrees(s1, external);
      FlightCommutes(s1, Interrupted(s1, external), k, w, external.success, proof);
    }
  }

  lemma FlightCommutes(s1: State, s2: State, k: RequestId, w: Request, success: bool, proof: Proof)
    requires s1.store.Full? && s2.store == s1.store && Extends(s1.base, s2.base) && proof.output.Some?
    requires Consistent(s1.base, s1.store.requests) && Consistent(s2.base, s1.store.requests) && k in s1.store.requests
    requires V2.View(s1.base, s1.store.requests[k]) == V3.Verified(w, proof.output.value)
    ensures var r := Unlocked(FinishFulfilStep(s2, ById(k), success, proof));
      && Unlocked(FinishFulfilStep(Compacted(s2), ByWitness(w), success, proof)) == CompactedResult(r)
      && (r.Some? ==> r.value.store.Full? && Consistent(r.value.base, r.value.store.requests))
  {
    ViewSame(s1.base, s2.base, s1.store.requests[k]);
    FinishFulfilAgrees(s2.base, s2.store.requests, k, w, success, proof);
    var r := V2.FinishFulfil(s2.base, s2.store.requests, k, success, proof);
    if r.Some? {
      LockCommutes(State(r.value.0, Full(r.value.1)), false);
    }
  }

  lemma RetryCommutes(s: State, k: RequestId, gasLeft: nat, external: External)
    requires SettledFull(s) && k in s.store.requests
    ensures var w := V2.View(s.base, s.store.requests[k]);
      Exec(Compacted(s), Retry(ByWitness(w), gasLeft, external)) == CompactedResult(Exec(s, Retry(ById(k), gasLeft, external)))
    ensures var r := Exec(s, Retry(ById(k), gasLeft, external));
      r.Some? ==> r.value.store.Full? && Consistent(r.value.base, r.value.store.requests)
  {
    var w := V2.View(s.base, s.store.requests[k]);
    LockCommutes(s, true);
    var b, t := Lock(s).base, s.store.requests;
    assert V2.View(b, t[k]) == w;
    BeginRetryAgrees(b, t, k, gasLeft);
    if V2.BeginRetry(b, t, k, gasLeft).Some? {
      var s1 := State(b, Full(V2.BeginRetry(b, t, k, gasLeft).value));
      LockSettled(Compacted(s));
      InterruptedAgrees(s1, external);
      RetryFlightCommutes(s1, Interrupted(s1, external), k, w, external.success);
    }
  }

  lemma RetryFlightCommutes(s1: State, s2: State, k: RequestId, w: Request, success: bool)
    requires s1.store.Full? && s2.store == s1.store && Extends(s1.base, s2.base)
    requires Consistent(s1.base, s1.store.requests) && Consistent(s2.base, s1.store.requests) && k in s1.store.requests
    requires V2.View(s1.base, s1.store.requests[k]) == w.(callbackAttempts := w.callbackAttempts + 1)
    ensures var r := Unlocked(FinishRetryStep(s2, ById(k), success));
      && Unlocked(FinishRetryStep(Compacted(s2), ByWitness(w), success)) == CompactedResult(r)
      && (r.Some? ==> r.value.store.Full? && Consistent(r.value.base, r.value.store.requests))
  {
    ViewSame(s1.base, s2.base, s1.store.requests[k]);
    FinishRetryAgrees(s2.base, s2.store.requests, k, w, success);
    LockCommutes(State(s2.base, Full(V2.FinishRetry(s2.store.requests, k, success).value)), false);
  }

  lemma WithdrawCommutes(s: State, sender: Address, source: Source, recipient: Address, external: External)
    requires SettledFull(s)
    ensures var c := Withdraw(sender, source, recipient, external);
      Exec(Compacted(s), c) == CompactedResult(Exec(s, c))
      && (Exec(s, c).Some? ==> Exec(s, c).value.store == s.store && Consistent(Exec(s, c).value.base, s.store.requests))
  {
    if Debit(s.base, sender, source, recipient).Some? && external.success {
      DebitKeeps(s.base, sender, source, recipient, Compacted(s).store.commitments);
      var (b, amount) := Debit(s.base, sender, source, recipient).value;
      var s1 := s.(base := SendEther(b, amount).value);
      DebitVersions(s.base, sender, source, recipient);
      ViewsSame(s.base, s1.base, s.store.requests);
      LockCommutes(s1, true);
      LockKeeps(s1.base, Compacted(s).store.commitments, None, true);
      InterruptedAgrees(Lock(s1), external);
      LockCommutes(Interrupted(Lock(s1), external), false);
    }
  }

  lemma DebitVersions(b: Base, sender: Address, source: Source, recipient: Address)
    requires Debit(b, sender, source, recipient).Some? && SendEther(Debit(b, sender, source, recipient).value.0,
                                                                    Debit(b, sender, source, recipient).value.1).Some?
    ensures Extends(b, SendEther(Debit(b, sender, source, recipient).value.0,
                                 Debit(b, sender, source, recipient).value.1).value)
  {
  }

  lemma PlainCommutes(s: State, b: Base)
    requires SettledFull(s) && Extends(s.base, b)
    ensures Compacted(s.(base := b)) == Compacted(s).(base := b) && Consistent(b, s.store.requests)
  {
    ViewsSame(s.base, b, s.store.requests);
  }

  /** The call names a request V2 has never stored, or names it in the other contract's way. */
  predicate Misdirected(s: State, c: Call)
    requires s.store.Full?
  {
    match c
    case Fulfil(_, ref, _, _) => ref.ByWitness? || ref.id !in s.store.requests
    case Retry(ref, _, _) => ref.ByWitness? || ref.id !in s.store.requests
    case Expire(ref, _) => ref.ByWitness? || ref.id !in s.store.requests
    case Prune(ref, _) => ref.ByWitness? || ref.id !in s.store.requests
    case _ => false
  }

  lemma MisdirectedReverts(s: State, c: Call)
    requires s.store.Full? && Misdirected(s, c)
    ensures Exec(s, c) == None && Exec(Compacted(s), Translate(s, c)) == None
  {
  }

  /** One transaction: V3 given the current witness does what V2 does given the id, and both keep the invariant. */
  lemma ExecCommutes(s: State, c: Call)
    requires SettledFull(s)
    ensures Exec(Compacted(s), Translate(s, c)) == CompactedResult(Exec(s, c))
    ensures Exec(s, c).Some? ==> SettledFull(Exec(s, c).value)
  {
    ExecAgrees(s, c);
    if Exec(s, c).Some? {
      ExecSettled(Compacted(s), Translate(s, c));
    }
  }

  lemma ExecAgrees(s: State, c: Call)
    requires SettledFull(s)
    ensures Exec(Compacted(s), Translate(s, c)) == CompactedResult(Exec(s, c))
    ensures Exec(s, c).Some? ==> Exec(s, c).value.store.Full?
                                 && Consistent(Exec(s, c).value.base, Exec(s, c).value.store.requests)
  {
    var b, t := s.base, s.store.requests;
    if Misdirected(s, c) {
      MisdirectedReverts(s, c);
    } else {
      match c {
        case Admin(sender, op) =>
          if AdminStep(b, sender, op).Some? {
            AdminKeeps(b, sender, op);
            PlainCommutes(s, AdminStep(b, sender, op).value);
          }
        case Fund(id, amount) =>
          if FundStep(b, id, amount).Some? {
            PlainCommutes(s, FundStep(b, id, amount).value);
          }
        case Withdraw(sender, source, recipient, external) => WithdrawCommutes(s, sender, source, recipient, external);
        case RequestWords(sender, p, chain) => CreateAgrees(b, t, sender, p, chain);
        case Fulfil(sender, ref, proof, external) => FulfilCommutes(s, sender, ref.id, proof, external);
        case Retry(ref, gasLeft, external) => RetryCommutes(s, ref.id, gasLeft, external);
        case Expire(ref, block) => ExpireAgrees(b, t, ref.id, block);
        case Prune(ref, block) => PruneAgrees(b, t, ref.id, block);
      }
    }
  }

  // ------------------------------------------------------------------------ runs

  /** The V3 run that stands for a V2 run: each call presents the witness of its moment. */
  function TranslateRun(s: State, calls: seq<Call>): seq<Call>
    requires s.store.Full?
    decreases calls
  {
    if calls == [] then []
    else
      var s1 := Exec(s, calls[0]);
      [Translate(s, calls[0])]
      + TranslateRun(if s1.Some? && s1.value.store.Full? then s1.value else s, calls[1..])
  }

  /** Whole runs: the two contracts go through the same balances, reserves, counters, credits and requests. */
  lemma {:induction false} RunCommutes(s: State, calls: seq<Call>)
    requires SettledFull(s)
    ensures Run(Compacted(s), TranslateRun(s, calls)) == Compacted(Run(s, calls))
    ensures SettledFull(Run(s, calls))
    decreases calls
  {
    if calls != [] {
      ExecCommutes(s, calls[0]);
      var s1 := Exec(s, calls[0]);
      var next := if s1.Some? then s1.value else s;
      RunCommutes(next, calls[1..]);
      assert TranslateRun(s, calls)[1..] == TranslateRun(next, calls[1..]);
    }
  }

  /** The other direction: what V3 accepts is a V2 transaction on the id of the witness. */
  function ToFull(c: Call): Call {
    match c
    case Fulfil(sender, ByWitness(w), proof, external) => Fulfil(sender, ById(RequestId(w.preSeed)), proof, external)
    case Retry(ByWitness(w), gasLeft, external) => Retry(ById(RequestId(w.preSeed)), gasLeft, external)
    case Expire(ByWitness(w), block) => Call.Expire(ById(RequestId(w.preSeed)), block)
    case Prune(ByWitness(w), block) => Call.Prune(ById(RequestId(w.preSeed)), block)
    case _ => c
  }

  lemma PresentedWitness(s: State, w: Request)
    requires SettledFull(s) && V3.Authenticates(Compacted(s).store.commitments, w)
    ensures Presented(s, ById(RequestId(w.preSeed))) == ByWitness(w)
  {
    AuthenticWitness(s.base, s.store.requests, w);
  }

  /** What a call accepted by V3 names authenticates. */
  lemma AcceptedAuthenticates(s: State, c: Call)
    requires SettledFull(s) && Exec(Compacted(s), c).Some? && (c.Fulfil? || c.Retry? || c.Expire? || c.Prune?)
    ensures c.ref.ByWitness? && V3.Authenticates(Compacted(s).store.commitments, c.ref.request)
  {
  }

  lemma AcceptedWitness(s: State, c: Call)
    requires SettledFull(s) && Exec(Compacted(s), c).Some?
    ensures Translate(s, ToFull(c)) == c
  {
    if c.Fulfil? || c.Retry? || c.Expire? || c.Prune? {
      AcceptedAuthenticates(s, c);
      PresentedWitness(s, c.ref.request);
    }
  }

  lemma V3StepIsV2Step(s: State, c: Call)
    requires SettledFull(s) && Exec(Compacted(s), c).Some?
    ensures Exec(s, ToFull(c)).Some? && Compacted(Exec(s, ToFull(c)).value) == Exec(Compacted(s), c).value
    ensures SettledFull(Exec(s, ToFull(c)).value)
  {
    AcceptedWitness(s, c);
    ExecCommutes(s, ToFull(c));
  }

  /** The V2 run behind a V3 run: the rejected calls drop out. */
  function Behind(s: State, calls: seq<Call>): seq<Call>
    decreases calls
  {
    if calls == [] then []
    else
      var s1 := Exec(s, calls[0]);
      if s1.Some? then [ToFull(calls[0])] + Behind(s1.value, calls[1..]) else Behind(s, calls[1..])
  }

  /** V3 refines V2: every run of V3, with whatever witnesses, is a run of V2 seen through getRequest. */
  lemma {:induction false} V3RefinesV2(s: State, calls: seq<Call>)
    requires SettledFull(s)
    ensures Compacted(Run(s, Behind(Compacted(s), calls))) == Run(Compacted(s), calls)
    ensures SettledFull(Run(s, Behind(Compacted(s), calls)))
    decreases calls
  {
    if calls != [] {
      var s3 := Exec(Compacted(s), calls[0]);
      if s3.Some? {
        V3StepIsV2Step(s, calls[0]);
        var s2 := Exec(s, ToFull(calls[0])).value;
        V3RefinesV2(s2, calls[1..]);
        assert Behind(Compacted(s), calls)[1..] == Behind(s3.value, calls[1..]);
      } else {
        V3RefinesV2(s, calls[1..]);
      }
    }
  }

  /** Both constructors start alike. */
  lemma DeployAgrees(owner: Address, guardian: Address, linked: bool, pricing: PricingConfig, key: AdminCall)
    ensures Deploy(true, owner, guardian, linked, pricing, key)
         == CompactedResult(Deploy(false, owner, guardian, linked, pricing, key))
    ensures Deploy(false, owner, guardian, linked, pricing, key).Some?
        ==> SettledFull(Deploy(false, owner, guardian, linked, pricing, key).value)
  {
    if Deploy(false, owner, guardian, linked, pricing, key).Some? {
      var s := Deploy(false, owner, guardian, linked, pricing, key).value;
      assert Views(s.base, map[]) == map[];
      DeploySettled(owner, guardian, linked, pricing, key);
    }
  }

  /** The callback of a V2 fulfilment, seen as the one of V3. */
  lemma CallbackCommutes(s: State, sender: Address, k: RequestId, proof: Proof, script: seq<Call>)
    requires SettledFull(s) && k in s.store.requests && BeginFulfilStep(Lock(s), ById(k), sender, proof).Some?
    ensures var s2 := Run(BeginFulfilStep(Lock(s), ById(k), sender, proof).value, script);
      && s2.store.Full? && MidCallback(Compacted(s2), Some(k))
  {
    var w := V2.View(s.base, s.store.requests[k]);
    LockCommutes(s, true);
    var b, t := Lock(s).base, s.store.requests;
    assert V2.View(b, t[k]) == w;
    BeginFulfilAgrees(b, t, k, sender, proof);
    var s1 := State(b, Full(V2.BeginFulfil(b, t, k, sender, proof).value));
    LockSettled(Compacted(s));
    FulfilFlight(Compacted(s), sender, w, proof, External(script, true));
    InterruptedAgrees(s1, External(script, true));
  }

  /** V2 is as solvent as V3: from deployment through every run, and inside every fulfilment callback, the requests it
      reports are what its books are about. */
  lemma V2SolventThroughReentry(owner: Address, guardian: Address, linked: bool, pricing: PricingConfig, key: AdminCall,
                                calls: seq<Call>, sender: Address, k: RequestId, proof: Proof, script: seq<Call>)
    requires Deploy(false, owner, guardian, linked, pricing, key).Some?
    ensures var s := Run(Deploy(false, owner, guardian, linked, pricing, key).value, calls);
      && s.store.Full? && Solvent(s.base) && Covered(s.base) && Booked(s.base, Views(s.base, s.store.requests), None)
      && var s1 := BeginFulfilStep(Lock(s), ById(k), sender, proof);
      s1.Some? ==>
        (var s2 := Run(s1.value, script);
         && s2.store.Full? && Solvent(s2.base) && Covered(s2.base)
         && Booked(s2.base, Views(s2.base, s2.store.requests), Some(k)))
  {
    DeployAgrees(owner, guardian, linked, pricing, key);
    var s0 := Deploy(false, owner, guardian, linked, pricing, key).value;
    RunCommutes(s0, calls);
    var s := Run(s0, calls);
    if BeginFulfilStep(Lock(s), ById(k), sender, proof).Some? {
      CallbackCommutes(s, sender, k, proof, script);
    }
  }

  /** The reserve and the expiry V2 recomputes are the ones of creation, in every later state that still stores
      the request. */
  lemma PinnedReserve(s: State, calls: seq<Call>, k: RequestId)
    requires SettledFull(s) && k in s.store.requests
    ensures Run(s, calls).store.Full?
    ensures var s' := Run(s, calls);
      k in s'.store.requests ==>
        && V2.ReservedPayment(s'.base, s'.store.requests[k]) == V2.ReservedPayment(s.base, s.store.requests[k])
        && V2.ExpiresAt(s'.base, s'.store.requests[k]) == V2.ExpiresAt(s.base, s.store.requests[k])
        && Later(V2.View(s.base, s.store.requests[k]), V2.View(s'.base, s'.store.requests[k]))
  {
    RunCommutes(s, calls);
    RunProgress(Compacted(s), TranslateRun(s, calls));
    assert WellFormed(s.base, k, V2.View(s.base, s.store.requests[k])) by {
      assert k in Compacted(s).store.commitments;
    }
    assert Issued(s.base, k);
    var s' := Run(s, calls);
    if k in s'.store.requests {
      assert k in Compacted(s').store.commitments;
    }
  }

  /** The measured gas and the L1 cost stay within what the pinned versions provide for. */
  predicate WithinLimits(b: Base, r: V2.StoredRequest, proof: Proof) {
    var key, config := V2.KeyAt(b, r.keyVersion), V2.PricingAt(b, r.pricingVersion);
    && proof.gasUsed <= key.verificationGasLimit + r.callbackGasLimit + config.perWordGas * r.numWords
    && proof.l1Cost <= config.l1FeeReserveWei
  }

  /** In every state a run can reach, a fulfilment with a valid proof and costs within its limits goes through, whatever
      prices, keys and sponsors became since creation and whatever its callback does. */
  lemma WithinLimitsAlwaysSettles(s: State, sender: Address, k: RequestId, proof: Proof, external: External)
    requires SettledFull(s) && k in s.store.requests
    requires V2.BeginFulfil(s.base, s.store.requests, k, sender, proof).Some?
    requires WithinLimits(s.base, s.store.requests[k], proof)
    ensures Exec(s, Fulfil(sender, ById(k), proof, external)).Some?
  {
    var r := s.store.requests[k];
    var w := V2.View(s.base, r);
    var key, config := V2.KeyAt(s.base, r.keyVersion), V2.PricingAt(s.base, r.pricingVersion);
    ReserveSuffices(key.verificationGasLimit, key.maxGasPriceWei, r.callbackGasLimit, r.numWords, r.premiumBps,
                    r.waiveMinimumFee, config, proof);
    assert ChargeOf(w, proof) <= w.reservedPayment;
    BeginFulfilAgrees(s.base, s.store.requests, k, sender, proof);
    FulfilRevertsOnlyOnPrice(Compacted(s), sender, w, proof, external);
    FulfilCommutes(s, sender, k, proof, external);
  }
}
