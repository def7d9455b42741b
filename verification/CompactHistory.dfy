/** operator/compact-protocol.mjs: what a client accepts as the history of one V3 request, and why that is
    exactly what the contract can have emitted. */
module CompactHistory {
  import opened Outcomes
  import opened ServiceBase
  import opened Lifecycle
  import opened Commitments
  import opened Coordinator
  import opened Books
  import opened Solvency
  import opened CoordinatorRuns
  import Sequences

  /** The 23 immutable fields: a request with the other four cleared. */
  predicate Cleared(r: Request) {
    r.status == Pending && r.randomness == 0 && r.callbackAttempts == 0 && !r.callbackSucceeded
  }

  function Clear(r: Request): (c: Request)
    ensures Cleared(c) && Pinned(r, c)
  {
    r.(status := Pending, randomness := 0, callbackAttempts := 0, callbackSucceeded := false)
  }

  /** A normalized witness off the wire: its status is any byte. */
  datatype Witness = Witness(terms: Request, status: nat, randomness: nat, callbackAttempts: nat, callbackSucceeded: bool)

  function Code(s: Status): nat {
    match s
    case Pending => 1
    case Fulfilled => 2
    case Expired => 3
  }

  function Encode(r: Request): Witness {
    Witness(Clear(r), Code(r.status), r.randomness, r.callbackAttempts, r.callbackSucceeded)
  }

  /** The hash of a witness, as on chain. */
  datatype Hash = Hash(hashed: Witness)

  // ------------------------------------------------------------- the transition check

  predicate IsCreation(w: Witness) {
    w.status == 1 && w.randomness == 0 && w.callbackAttempts == 0 && !w.callbackSucceeded
  }

  predicate IsTransition(previous: Witness, next: Witness) {
    || (previous.status == 1 && next.status == 2 && next.callbackAttempts == 1)
    || (previous.status == 1 && next.status == 3 && next.callbackAttempts == 0 && next.randomness == 0
        && !next.callbackSucceeded)
    || (previous.status == 2 && !previous.callbackSucceeded && next.status == 2
        && next.randomness == previous.randomness && next.callbackAttempts == previous.callbackAttempts + 1)
  }

  predicate Accepted(ws: seq<Witness>) {
    && ws != [] && IsCreation(ws[0])
    && forall i :: 1 <= i < |ws| ==> ws[i].terms == ws[0].terms && IsTransition(ws[i - 1], ws[i])
  }

  method ValidateCompactTransitions(values: seq<Witness>) returns (last: Option<Witness>)
    ensures last.Some? <==> Accepted(values)
    ensures last.Some? ==> last.value == values[|values| - 1]
  {
    if |values| == 0 || !IsCreation(values[0]) { return None; }
    var first := values[0];
    var i := 1;
    while i < |values|
      invariant 1 <= i <= |values|
      invariant Accepted(values[..i])
    {
      var previous, next := values[i - 1], values[i];
      if next.terms != first.terms { return None; }
      var fulfilled := previous.status == 1 && next.status == 2 && next.callbackAttempts == 1;
      var expired := previous.status == 1 && next.status == 3 && next.callbackAttempts == 0
                     && next.randomness == 0 && !next.callbackSucceeded;
      var retried := previous.status == 2 && !previous.callbackSucceeded && next.status == 2
                     && next.randomness == previous.randomness && next.callbackAttempts == previous.callbackAttempts + 1;
      if !fulfilled && !expired && !retried { return None; }
      assert values[..i + 1] == values[..i] + [next];
      i := i + 1;
    }
    assert values[..i] == values;
    last := Some(values[|values| - 1]);
  }

  // --------------------------------------------------------- the machine of one request

  /** One event of the contract after another, for the same request. */
  predicate Steps(r: Request, r': Request) {
    || (r.status == Pending && r' == Called(Verified(r, r'.randomness), r'.callbackSucceeded))
    || (r.status == Pending && r' == r.(status := Expired))
    || (r.status == Status.Fulfilled && !r.callbackSucceeded
        && r' == Called(r.(callbackAttempts := r.callbackAttempts + 1), r'.callbackSucceeded))
  }

  predicate Linked(rs: seq<Request>) {
    forall i :: 1 <= i < |rs| ==> Steps(rs[i - 1], rs[i])
  }

  /** A history from creation. */
  predicate History(rs: seq<Request>) { rs != [] && Cleared(rs[0]) && Linked(rs) }

  function EncodeAll(rs: seq<Request>): (ws: seq<Witness>)
    ensures |ws| == |rs| && forall i :: 0 <= i < |rs| ==> ws[i] == Encode(rs[i])
  {
    seq(|rs|, i requires 0 <= i < |rs| => Encode(rs[i]))
  }

  /** Where in its history a state can only be. */
  function Rank(r: Request): nat {
    if r.status == Expired then 1 else r.callbackAttempts
  }

  lemma {:induction false} HistoryRanks(rs: seq<Request>, i: nat)
    requires History(rs) && i < |rs|
    ensures Rank(rs[i]) == i && Pinned(rs[0], rs[i]) && (rs[i].status == Pending <==> i == 0)
    ensures rs[i].status == Status.Fulfilled <==> rs[i].callbackAttempts > 0
    ensures rs[i].status != Status.Fulfilled ==> rs[i].randomness == 0 && !rs[i].callbackSucceeded
  {
    if i > 0 {
      HistoryRanks(rs, i - 1);
      assert Steps(rs[i - 1], rs[i]);
    }
  }

  lemma StepEncodes(r: Request, r': Request)
    requires Steps(r, r') && (r.status == Pending ==> Cleared(r))
    ensures IsTransition(Encode(r), Encode(r')) && Clear(r') == Clear(r)
  {
  }

  /** Every history of the machine is accepted. */
  lemma {:induction false} HistoryAccepted(rs: seq<Request>)
    requires History(rs)
    ensures Accepted(EncodeAll(rs))
  {
    forall i | 1 <= i < |rs|
      ensures Encode(rs[i]).terms == Encode(rs[0]).terms && IsTransition(Encode(rs[i - 1]), Encode(rs[i]))
    {
      HistoryRanks(rs, i - 1);
      HistoryRanks(rs, i);
      assert Steps(rs[i - 1], rs[i]);
      StepEncodes(rs[i - 1], rs[i]);
    }
  }

  function Decode(w: Witness): Request {
    w.terms.(status := if w.status == 1 then Pending else if w.status == 2 then Status.Fulfilled else Expired,
             randomness := w.randomness, callbackAttempts := w.callbackAttempts, callbackSucceeded := w.callbackSucceeded)
  }

  function DecodeAll(ws: seq<Witness>): (rs: seq<Request>)
    ensures |rs| == |ws| && forall i :: 0 <= i < |ws| ==> rs[i] == Decode(ws[i])
  {
    seq(|ws|, i requires 0 <= i < |ws| => Decode(ws[i]))
  }

  lemma {:induction false} AcceptedDecodes(ws: seq<Witness>, i: nat)
    requires Accepted(ws) && Cleared(ws[0].terms) && i < |ws|
    ensures Encode(Decode(ws[i])) == ws[i] && ws[i].terms == ws[0].terms && (ws[i].status == 1 ==> i == 0)
    ensures i > 0 ==> Steps(Decode(ws[i - 1]), Decode(ws[i]))
  {
    if i > 0 {
      AcceptedDecodes(ws, i - 1);
      assert IsTransition(ws[i - 1], ws[i]);
    }
  }

  /** The check is exact: it accepts a list if and only if the list is a history of the contract's machine. */
  lemma AcceptedIsHistory(ws: seq<Witness>)
    requires ws != [] ==> Cleared(ws[0].terms)
    ensures Accepted(ws) <==> exists rs :: History(rs) && EncodeAll(rs) == ws
  {
    if Accepted(ws) {
      var rs := DecodeAll(ws);
      forall i | 0 <= i < |ws|
        ensures Encode(rs[i]) == ws[i] && (i > 0 ==> Steps(rs[i - 1], rs[i]))
      {
        AcceptedDecodes(ws, i);
      }
      assert EncodeAll(rs) == ws && History(rs);
    }
    if exists rs :: History(rs) && EncodeAll(rs) == ws {
      var rs :| History(rs) && EncodeAll(rs) == ws;
      HistoryAccepted(rs);
    }
  }

  // --------------------------------------------------------- what the contract emits

  /** The CompactRequestState event of a successful call. */
  function EventOf(s: State, c: Call): Option<Request>
    requires s.store.Compact? && Exec(s, c).Some?
  {
    match c
    case RequestWords(sender, p, chain) =>
      Some(NewWitness(s.base, sender, p, chain, TakeTicket(s.base, sender, p, chain).value))
    case Fulfil(_, ref, proof, external) => Some(Called(Verified(ref.request, proof.output.value), external.success))
    case Retry(ref, _, external) =>
      Some(Called(ref.request.(callbackAttempts := ref.request.callbackAttempts + 1), external.success))
    case Expire(ref, _) => Some(ref.request.(status := Expired))
    case _ => None
  }

  function Next(s: State, c: Call): State {
    var s1 := Exec(s, c);
    if s1.Some? then s1.value else s
  }

  function EventsOf(s: State, c: Call, k: RequestId): seq<Request>
    requires s.store.Compact?
  {
    if Exec(s, c).Some? && EventOf(s, c).Some? && RequestId(EventOf(s, c).value.preSeed) == k
    then [EventOf(s, c).value] else []
  }

  /** The events of request `k` along a run. */
  function Trace(s: State, calls: seq<Call>, k: RequestId): seq<Request>
    decreases calls
  {
    if calls == [] || !s.store.Compact? then [] else EventsOf(s, calls[0], k) + Trace(Next(s, calls[0]), calls[1..], k)
  }

  function StateOf(s: State, k: RequestId): Option<Request>
    requires s.store.Compact?
  {
    if k in s.store.commitments then Some(s.store.commitments[k].request) else None
  }

  /** What one call does to one request: nothing, prune it, or one step whose event is what is stored. */
  ghost predicate Moves(s: State, c: Call, k: RequestId, s': State)
    requires s.store.Compact?
  {
    && s'.store.Compact?
    && var r, r', es := StateOf(s, k), StateOf(s', k), EventsOf(s, c, k);
    if es == [] then r' == r || r' == None
    else r' == Some(es[0])
         && (if r.Some? then Steps(r.value, es[0]) else Cleared(es[0]) && !Issued(s.base, k))
  }

  lemma FulfilMoves(s: State, sender: Address, w: Request, proof: Proof, external: External, k: RequestId)
    requires Settled(s) && Exec(s, Fulfil(sender, ByWitness(w), proof, external)).Some?
    ensures Moves(s, Fulfil(sender, ByWitness(w), proof, external), k,
                  Exec(s, Fulfil(sender, ByWitness(w), proof, external)).value)
  {
    FulfilResult(s, sender, w, proof, external);
  }

  lemma RetryMoves(s: State, w: Request, gasLeft: nat, external: External, k: RequestId)
    requires Settled(s) && Exec(s, Retry(ByWitness(w), gasLeft, external)).Some?
    ensures Moves(s, Retry(ByWitness(w), gasLeft, external), k, Exec(s, Retry(ByWitness(w), gasLeft, external)).value)
  {
    RetryResult(s, w, gasLeft, external);
  }

  lemma CreateMoves(s: State, sender: Address, p: Params, chain: Chain, k: RequestId)
    requires Settled(s) && Exec(s, RequestWords(sender, p, chain)).Some?
    ensures Moves(s, RequestWords(sender, p, chain), k, Exec(s, RequestWords(sender, p, chain)).value)
  {
    TicketWrites(s.base, sender, p, chain);
    var ticket := TakeTicket(s.base, sender, p, chain).value;
    FreshId(s.base, s.store.commitments, ticket.preSeed);
  }

  lemma WithdrawMoves(s: State, c: Call, k: RequestId)
    requires Settled(s) && c.Withdraw? && Exec(s, c).Some?
    ensures Moves(s, c, k, Exec(s, c).value)
  {
    DebitKeeps(s.base, c.sender, c.source, c.recipient, s.store.commitments);
    var (b, amount) := Debit(s.base, c.sender, c.source, c.recipient).value;
    LockKeeps(SendEther(b, amount).value, s.store.commitments, None, true);
    CallbackKeeps(Lock(s.(base := SendEther(b, amount).value)), None, c.external.script);
  }

  lemma ExecMoves(s: State, c: Call, k: RequestId)
    requires Settled(s) && Exec(s, c).Some?
    ensures Moves(s, c, k, Exec(s, c).value)
  {
    match c {
      case Withdraw(_, _, _, _) => WithdrawMoves(s, c, k);
      case RequestWords(sender, p, chain) => CreateMoves(s, sender, p, chain, k);
      case Fulfil(sender, ref, proof, external) => FulfilMoves(s, sender, ref.request, proof, external, k);
      case Retry(ref, gasLeft, external) => RetryMoves(s, ref.request, gasLeft, external, k);
      case _ =>
    }
  }

  /** A state in front of its later events. */
  function Onward(r: Option<Request>, events: seq<Request>): seq<Request> {
    if r.Some? then [r.value] + events else events
  }

  lemma LinkedCons(r: Request, rest: seq<Request>)
    requires Linked(rest) && (rest != [] ==> Steps(r, rest[0]))
    ensures Linked([r] + rest)
  {
    var all := [r] + rest;
    forall i | 1 <= i < |all|
      ensures Steps(all[i - 1], all[i])
    {
      assert i > 1 ==> Steps(rest[i - 2], rest[i - 1]);
    }
  }

  /** One more call in front of a run. */
  lemma TraceJoin(r: Option<Request>, now: seq<Request>, r1: Option<Request>, rest: seq<Request>)
    requires Linked(Onward(r1, rest)) && |now| <= 1
    requires now == [] ==> r1 == r || (r1 == None && rest == [])
    requires now != [] ==> r1 == Some(now[0]) && (r.Some? ==> Steps(r.value, now[0]))
    ensures Linked(Onward(r, now + rest))
    ensures r1.Some? || rest != [] ==>
      (Onward(r, now + rest) != []
       && Onward(r, now + rest)[|Onward(r, now + rest)| - 1] == Onward(r1, rest)[|Onward(r1, rest)| - 1])
  {
    if now == [] {
      assert now + rest == rest;
    } else {
      assert Onward(r1, rest) == now + rest;
      if r.Some? {
        LinkedCons(r.value, now + rest);
      }
    }
  }

  /** Every run emits, for every request, a linked continuation of what is stored, and stores what it emitted last. */
  lemma {:induction false} TraceLinked(s: State, calls: seq<Call>, k: RequestId)
    requires Settled(s)
    ensures var es := Onward(StateOf(s, k), Trace(s, calls, k));
      && Linked(es)
      && (StateOf(s, k).None? && es != [] ==> Cleared(es[0]) && !Issued(s.base, k))
      && Run(s, calls).store.Compact?
      && (StateOf(Run(s, calls), k).Some? ==> es != [] && StateOf(Run(s, calls), k).value == es[|es| - 1])
    decreases calls
  {
    if calls != [] {
      var c, s1 := calls[0], Next(s, calls[0]);
      CallIssues(s, c, k);
      TraceLinked(s1, calls[1..], k);
      TraceJoin(StateOf(s, k), EventsOf(s, c, k), StateOf(s1, k), Trace(s1, calls[1..], k));
    }
  }

  /** One call, seen from one request: ids stay issued, so nothing is emitted for a pruned request. */
  lemma CallIssues(s: State, c: Call, k: RequestId)
    requires Settled(s)
    ensures var s1 := Next(s, c);
      && Settled(s1)
      && (Issued(s.base, k) ==> Issued(s1.base, k))
      && (StateOf(s, k).Some? ==> Issued(s.base, k)) && (StateOf(s1, k).Some? ==> Issued(s1.base, k))
      && Moves(s, c, k, s1)
  {
    var s1 := Next(s, c);
    if Exec(s, c).Some? {
      ExecSettled(s, c);
      ExecMoves(s, c, k);
      ExecProgress(s, c);
      assert Nonce(s.base, k.preSeed.subscriptionId, k.preSeed.consumer)
          <= Nonce(s1.base, k.preSeed.subscriptionId, k.preSeed.consumer);
    }
    if StateOf(s, k).Some? { assert WellFormed(s.base, k, StateOf(s, k).value); }
    if StateOf(s1, k).Some? { assert WellFormed(s1.base, k, StateOf(s1, k).value); }
  }

  /** Everything the contract can emit for a request since deployment, pruned or not, is accepted, and while
      the request is stored its last event is what is stored. */
  lemma EmittedIsAccepted(owner: Address, guardian: Address, linked: bool, pricing: PricingConfig, key: AdminCall,
                          calls: seq<Call>, k: RequestId)
    requires Deploy(true, owner, guardian, linked, pricing, key).Some?
    ensures var s0 := Deploy(true, owner, guardian, linked, pricing, key).value;
      var es, s := Trace(s0, calls, k), Run(s0, calls);
      && (es == [] || (History(es) && Accepted(EncodeAll(es)))) && s.store.Compact?
      && (k in s.store.commitments ==> es != [] && s.store.commitments[k] == Digest(es[|es| - 1]))
  {
    var s0 := Deploy(true, owner, guardian, linked, pricing, key).value;
    DeploySettled(owner, guardian, linked, pricing, key);
    TraceLinked(s0, calls, k);
    var es := Trace(s0, calls, k);
    if es != [] {
      HistoryAccepted(es);
    }
  }

  // -------------------------------------------------- accepted lists can be emitted

  /** A call that takes a stored request one step. */
  function CallFor(r: Request, r': Request): Call {
    if r'.status == Expired then Call.Expire(ByWitness(r), r.expiresAtBlock + 1)
    else
      var external := External([], r'.callbackSucceeded);
      var gas := MinimumCallbackGas(r.callbackGasLimit, r.fulfillmentOverheadGas);
      if r.status == Pending then
        Fulfil(r.fulfiller, ByWitness(r),
               Proof(r.expiresAtBlock, true, r.proofDataLength, true, 0, r.verifierCodeHash, true,
                     Some(r'.randomness), gas, 0, 0),
               external)
      else Retry(ByWitness(r), gas, external)
  }

  lemma CallForRuns(s: State, r: Request, r': Request)
    requires Settled(s) && Authenticates(s.store.commitments, r) && Steps(r, r')
    ensures Exec(s, CallFor(r, r')).Some? && EventOf(s, CallFor(r, r')) == Some(r')
    ensures r'.preSeed == r.preSeed
  {
    assert WellFormed(s.base, RequestId(r.preSeed), r);
    var c := CallFor(r, r');
    if r'.status == Expired {
      ExpiryAlwaysCloses(s, r, r.expiresAtBlock + 1);
    } else if r.status == Pending {
      assert ApplyPrice(0, r.premiumBps, r.minimumFeeWei) == r.minimumFeeWei;
      assert BeginFulfilStep(Lock(s), ByWitness(r), r.fulfiller, c.proof).Some?;
      FulfilRevertsOnlyOnPrice(s, r.fulfiller, r, c.proof, c.external);
    }
  }

  /** Every accepted continuation of a stored request is emitted by some run. */
  lemma {:induction false} AcceptedIsEmitted(s: State, rs: seq<Request>) returns (calls: seq<Call>)
    requires Settled(s) && rs != [] && Linked(rs) && Authenticates(s.store.commitments, rs[0])
    ensures Trace(s, calls, RequestId(rs[0].preSeed)) == rs[1..]
    decreases |rs|
  {
    var k := RequestId(rs[0].preSeed);
    if |rs| == 1 {
      calls := [];
    } else {
      assert Steps(rs[0], rs[1]);
      var c := CallFor(rs[0], rs[1]);
      CallForRuns(s, rs[0], rs[1]);
      ExecSettled(s, c);
      ExecMoves(s, c, k);
      var s1 := Next(s, c);
      assert Linked(rs[1..]) by {
        forall i | 1 <= i < |rs[1..]|
          ensures Steps(rs[1..][i - 1], rs[1..][i])
        {
          assert Steps(rs[i], rs[i + 1]);
        }
      }
      var rest := AcceptedIsEmitted(s1, rs[1..]);
      calls := [c] + rest;
      assert calls[1..] == rest;
      assert EventsOf(s, c, k) == [rs[1]];
      assert [rs[1]] + rs[1..][1..] == rs[1..];
    }
  }

  /** And with the creation: whatever a request call emits, every accepted list that starts with it is the whole trace of
      some run that starts with that call. */
  lemma AcceptedFromCreation(s: State, c: Call, rs: seq<Request>) returns (calls: seq<Call>)
    requires Settled(s) && c.RequestWords? && Exec(s, c).Some?
    requires rs != [] && Linked(rs) && EventsOf(s, c, RequestId(rs[0].preSeed)) == [rs[0]]
    ensures calls != [] && calls[0] == c && Trace(s, calls, RequestId(rs[0].preSeed)) == rs
  {
    var k := RequestId(rs[0].preSeed);
    ExecSettled(s, c);
    ExecMoves(s, c, k);
    var rest := AcceptedIsEmitted(Next(s, c), rs);
    calls := [c] + rest;
    assert calls[1..] == rest;
    assert [rs[0]] + rs[1..] == rs;
  }

  // ------------------------------------------------------------------ recovery

  /** A log entry at its place on the chain. */
  datatype Event = Event(block: nat, index: nat, state: Witness)

  predicate Earlier(a: Event, b: Event) { a.block < b.block || (a.block == b.block && a.index < b.index) }

  predicate NotLater(a: Event, b: Event) { a.block < b.block || (a.block == b.block && a.index <= b.index) }

  function Order(): (Event, Event) -> bool { (a, b) => NotLater(a, b) }

  function Witnesses(es: seq<Event>): (ws: seq<Witness>)
    ensures |ws| == |es| && forall i :: 0 <= i < |es| ==> ws[i] == es[i].state
  {
    seq(|es|, i requires 0 <= i < |es| => es[i].state)
  }

  /** One provider's logs, in any order, as a checked history. */
  function ReadHistory(logs: seq<Event>): (r: Option<seq<Event>>)
    ensures r.Some? ==> Accepted(Witnesses(r.value)) && multiset(r.value) == multiset(logs)
  {
    var es := Sequences.Sort(logs, Order());
    if (exists i :: 1 <= i < |es| && es[i].block == es[i - 1].block && es[i].index == es[i - 1].index) then None
    else if !Accepted(Witnesses(es)) then None
    else Some(es)
  }

  function ReadAll(logs: seq<seq<Event>>): (r: seq<Option<seq<Event>>>)
    ensures |r| == |logs| && forall j :: 0 <= j < |logs| ==> r[j] == ReadHistory(logs[j])
  {
    seq(|logs|, j requires 0 <= j < |logs| => ReadHistory(logs[j]))
  }

  predicate All<T(==)>(xs: seq<T>, x: T) { forall j :: 0 <= j < |xs| ==> xs[j] == x }

  method AllEqual<T(==)>(xs: seq<T>, x: T) returns (ok: bool)
    ensures ok == All(xs, x)
  {
    var j := 0;
    while j < |xs|
      invariant 0 <= j <= |xs| && All(xs[..j], x)
    {
      if xs[j] != x { return false; }
      j := j + 1;
    }
    assert xs[..j] == xs;
    ok := true;
  }

  /** What recoverCompactRequest accepts: one history from every provider, and from every provider the
      commitment of its last state. */
  predicate Recovers(histories: seq<Option<seq<Event>>>, committed: seq<Option<Hash>>, h: seq<Event>) {
    h != [] && All(histories, Some(h)) && All(committed, Some(Hash(h[|h| - 1].state)))
  }

  method RecoverCompactRequest(logs: seq<seq<Event>>, committed: seq<Option<Hash>>) returns (r: Option<seq<Event>>)
    requires |logs| == |committed| >= 2
    ensures r.Some? ==> Recovers(ReadAll(logs), committed, r.value)
    ensures r == None ==> forall h :: !Recovers(ReadAll(logs), committed, h)
  {
    var histories := ReadAll(logs);
    r := histories[0];
    assert forall h :: Recovers(histories, committed, h) ==> histories[0] == Some(h);
    if r.Some? {
      var h := r.value;
      assert h != [] by { assert r == ReadHistory(logs[0]); }
      var agreed := AllEqual(histories, r);
      var authentic := AllEqual(committed, Some(Hash(h[|h| - 1].state)));
      if !agreed || !authentic { r := None; }
    }
  }

  lemma OrderIsTotal()
    ensures Sequences.TotalPreorder(Order())
  {
    assert forall x, y :: Order()(x, y) == NotLater(x, y);
  }

  lemma SortedLogs(logs: seq<Event>)
    ensures var es := Sequences.Sort(logs, Order());
      Sequences.Sorted(es, Order()) && forall e :: e in es <==> e in logs
  {
    OrderIsTotal();
    Sequences.SortSorted(logs, Order());
    Sequences.PermutationMembers(logs, Sequences.Sort(logs, Order()));
  }

  /** The located history of the chain: witnesses of a history, each at a later place than the one before. */
  predicate Located(chain: seq<Event>, rs: seq<Request>) {
    && Witnesses(chain) == EncodeAll(rs)
    && forall i :: 1 <= i < |chain| ==> Earlier(chain[i - 1], chain[i])
  }

  lemma {:induction false} LocatedOrder(chain: seq<Event>, rs: seq<Request>, i: nat, j: nat)
    requires Located(chain, rs) && i < j < |chain|
    ensures Earlier(chain[i], chain[j])
    decreases j
  {
    assert Earlier(chain[j - 1], chain[j]);
    if i < j - 1 {
      LocatedOrder(chain, rs, i, j - 1);
    }
  }

  function WireRank(w: Witness): nat { if w.status == 3 then 1 else w.callbackAttempts }

  lemma {:induction false} AcceptedRanks(ws: seq<Witness>, i: nat)
    requires Accepted(ws) && i < |ws|
    ensures WireRank(ws[i]) == i
    ensures ws[i].status == 2 || (ws[i].status == 1 && i == 0) || (ws[i].status == 3 && i == 1)
  {
    if i > 0 {
      AcceptedRanks(ws, i - 1);
      assert IsTransition(ws[i - 1], ws[i]);
    }
  }

  /** Each state fits one place: whatever genuine events pass the check are a prefix of the history. */
  lemma GenuineIsPrefix(chain: seq<Event>, rs: seq<Request>, es: seq<Event>, i: nat)
    requires History(rs) && Located(chain, rs) && Accepted(Witnesses(es)) && i < |es|
    requires forall e :: e in es ==> e in chain
    ensures i < |chain| && es[i] == chain[i]
  {
    assert es[i] in es;
    var j :| 0 <= j < |chain| && chain[j] == es[i];
    HistoryRanks(rs, j);
    assert Witnesses(chain)[j] == Encode(rs[j]);
    AcceptedRanks(Witnesses(es), i);
    assert WireRank(Encode(rs[j])) == Rank(rs[j]);
  }

  /** Recovery is complete: if one provider returns only genuine logs, however few and in whatever order, and one
      reports the commitment the chain holds, then what comes back is the whole history and the current state. */
  lemma RecoveredIsWhole(chain: seq<Event>, rs: seq<Request>, logs: seq<seq<Event>>, committed: seq<Option<Hash>>,
                         honest: nat, truthful: nat, h: seq<Event>)
    requires History(rs) && Located(chain, rs)
    requires |logs| == |committed| && honest < |logs| && truthful < |logs|
    requires forall e :: e in logs[honest] ==> e in chain
    requires committed[truthful] == Some(Hash(Encode(rs[|rs| - 1])))
    requires Recovers(ReadAll(logs), committed, h)
    ensures h == chain && h[|h| - 1].state == Encode(rs[|rs| - 1])
  {
    assert ReadAll(logs)[honest] == Some(h);
    forall e | e in h
      ensures e in chain
    {
      assert e in multiset(logs[honest]);
    }
    assert committed[truthful] == Some(Hash(h[|h| - 1].state));
    GenuineIsWhole(chain, rs, h);
  }

  lemma GenuineIsWhole(chain: seq<Event>, rs: seq<Request>, h: seq<Event>)
    requires History(rs) && Located(chain, rs) && Accepted(Witnesses(h)) && h != []
    requires forall e :: e in h ==> e in chain
    requires h[|h| - 1].state == Encode(rs[|rs| - 1])
    ensures h == chain
  {
    forall i | 0 <= i < |h|
      ensures i < |chain| && h[i] == chain[i]
    {
      GenuineIsPrefix(chain, rs, h, i);
    }
    AcceptedRanks(Witnesses(h), |h| - 1);
    HistoryRanks(rs, |rs| - 1);
    assert WireRank(Encode(rs[|rs| - 1])) == |rs| - 1;
    assert |chain| == |EncodeAll(rs)| == |rs|;
  }

  lemma LocatedSorted(chain: seq<Event>, rs: seq<Request>)
    requires Located(chain, rs)
    ensures Sequences.Sorted(chain, Order()) && Sequences.TieFree(chain, Order())
  {
    forall i, j | 0 <= i < j < |chain|
      ensures Order()(chain[i], chain[j]) && Earlier(chain[i], chain[j])
    {
      LocatedOrder(chain, rs, i, j);
    }
    forall x, y | x in chain && y in chain && Order()(x, y) && Order()(y, x)
      ensures x == y
    {
      var i, j :| 0 <= i < |chain| && 0 <= j < |chain| && chain[i] == x && chain[j] == y;
    }
  }

  /** And nothing is lost by arrival order: all the genuine logs, in any order, are read as the history. */
  lemma WholeIsRead(chain: seq<Event>, rs: seq<Request>, logs: seq<Event>)
    requires History(rs) && Located(chain, rs) && Sequences.Permutation(chain, logs)
    ensures ReadHistory(logs) == Some(chain)
  {
    OrderIsTotal();
    SortedLogs(logs);
    LocatedSorted(chain, rs);
    Sequences.SortedUnique(chain, Sequences.Sort(logs, Order()), Order());
    HistoryAccepted(rs);
    ReadsInOrder(chain, rs, logs);
  }

  lemma ReadsInOrder(chain: seq<Event>, rs: seq<Request>, logs: seq<Event>)
    requires Located(chain, rs) && Sequences.Sort(logs, Order()) == chain && Accepted(EncodeAll(rs))
    ensures ReadHistory(logs) == Some(chain)
  {
    assert forall i :: 1 <= i < |chain| ==> Earlier(chain[i - 1], chain[i]);
  }

  /** End to end: for a stored request of a running V3 contract, recovery from one provider with genuine logs and one
      with the true commitment returns every event the contract emitted and the state it stores. */
  lemma RecoveryFindsTheContract(s0: State, calls: seq<Call>, k: RequestId, chain: seq<Event>, logs: seq<seq<Event>>,
                                 committed: seq<Option<Hash>>, honest: nat, truthful: nat, h: seq<Event>)
    requires Settled(s0) && s0.store.commitments == map[] && !Issued(s0.base, k)
    requires Run(s0, calls).store.Compact? && k in Run(s0, calls).store.commitments
    requires Located(chain, Trace(s0, calls, k))
    requires |logs| == |committed| && honest < |logs| && truthful < |logs|
    requires forall e :: e in logs[honest] ==> e in chain
    requires committed[truthful] == Some(Hash(Encode(Run(s0, calls).store.commitments[k].request)))
    requires Recovers(ReadAll(logs), committed, h)
    ensures h == chain && h[|h| - 1].state == Encode(Run(s0, calls).store.commitments[k].request)
  {
    TraceLinked(s0, calls, k);
    RecoveredIsWhole(chain, Trace(s0, calls, k), logs, committed, honest, truthful, h);
  }
}
