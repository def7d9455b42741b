/** The coordinator contracts as state machines. One machine serves both: its store is the compact
    records of V2 or the commitments of V3, and every lifecycle step dispatches on it. */
module Coordinator {
  import opened Outcomes
  import opened ServiceBase
  import opened Lifecycle
  import V2 = StoredRequests
  import V3 = Commitments

  datatype Store = Full(requests: V2.Table) | Compact(commitments: V3.Table)

  datatype State = State(base: Base, store: Store)

  /** How a caller names a request: V2 takes its id, V3 its full witness. */
  datatype Ref = ById(id: RequestId) | ByWitness(request: Request)

  datatype Source =
    | Balance(id: SubId, amount: nat)
    | Cancellation(id: SubId)
    | OperatorCredits(amount: nat)
    | Treasury(amount: nat)

  /** What untrusted code does during an external call: any calls back into the contract, then
      success or failure. */
  datatype External = External(script: seq<Call>, success: bool)

  datatype Call =
    | Admin(sender: Address, op: AdminCall)
    | Fund(id: SubId, amount: nat)
    | Withdraw(sender: Address, source: Source, recipient: Address, external: External)
    | RequestWords(sender: Address, params: Params, chain: Chain)
    | Fulfil(sender: Address, ref: Ref, proof: Proof, external: External)
    | Retry(ref: Ref, gasLeft: nat, external: External)
    | Expire(ref: Ref, block: nat)
    | Prune(ref: Ref, block: nat)

  // ----------------------------------------------------------- dispatch on the store

  function WithFull(r: Option<(Base, V2.Table)>): Option<State> {
    if r.None? then None else Some(State(r.value.0, Full(r.value.1)))
  }

  function WithCompact(r: Option<(Base, V3.Table)>): Option<State> {
    if r.None? then None else Some(State(r.value.0, Compact(r.value.1)))
  }

  function KeepBase<T>(b: Base, t: Option<T>): Option<(Base, T)> {
    if t.None? then None else Some((b, t.value))
  }

  function CreateStep(s: State, sender: Address, p: Params, chain: Chain): Option<State> {
    match s.store
    case Full(t) => WithFull(V2.Create(s.base, t, sender, p, chain))
    case Compact(t) => WithCompact(V3.Create(s.base, t, sender, p, chain))
  }

  function BeginFulfilStep(s: State, ref: Ref, sender: Address, proof: Proof): Option<State> {
    match (s.store, ref)
    case (Full(t), ById(id)) => WithFull(KeepBase(s.base, V2.BeginFulfil(s.base, t, id, sender, proof)))
    case (Compact(t), ByWitness(w)) => WithCompact(KeepBase(s.base, V3.BeginFulfil(t, w, sender, proof)))
    case _ => None
  }

  function FinishFulfilStep(s: State, ref: Ref, success: bool, proof: Proof): Option<State> {
    match (s.store, ref)
    case (Full(t), ById(id)) => WithFull(V2.FinishFulfil(s.base, t, id, success, proof))
    case (Compact(t), ByWitness(w)) => WithCompact(V3.FinishFulfil(s.base, t, w, success, proof))
    case _ => None
  }

  function BeginRetryStep(s: State, ref: Ref, gasLeft: nat): Option<State> {
    match (s.store, ref)
    case (Full(t), ById(id)) => WithFull(KeepBase(s.base, V2.BeginRetry(s.base, t, id, gasLeft)))
    case (Compact(t), ByWitness(w)) => WithCompact(KeepBase(s.base, V3.BeginRetry(t, w, gasLeft)))
    case _ => None
  }

  function FinishRetryStep(s: State, ref: Ref, success: bool): Option<State> {
    match (s.store, ref)
    case (Full(t), ById(id)) => WithFull(KeepBase(s.base, V2.FinishRetry(t, id, success)))
    case (Compact(t), ByWitness(w)) => WithCompact(KeepBase(s.base, V3.FinishRetry(t, w, success)))
    case _ => None
  }

  function ExpireStep(s: State, ref: Ref, block: nat): Option<State> {
    match (s.store, ref)
    case (Full(t), ById(id)) => WithFull(V2.Expire(s.base, t, id, block))
    case (Compact(t), ByWitness(w)) => WithCompact(V3.Expire(s.base, t, w, block))
    case _ => None
  }

  function PruneStep(s: State, ref: Ref, block: nat): Option<State> {
    match (s.store, ref)
    case (Full(t), ById(id)) => WithFull(KeepBase(s.base, V2.Prune(s.base, t, id, block)))
    case (Compact(t), ByWitness(w)) => WithCompact(KeepBase(s.base, V3.Prune(t, w, block)))
    case _ => None
  }

  // ------------------------------------------------------------------- money

  function FundStep(b: Base, id: SubId, amount: nat): Option<Base> {
    if !Exists(b, id) || !Sub(b, id).active || amount == 0 then None
    else Some(WithSub(b, id, Sub(b, id).(balance := Sub(b, id).balance + amount)).(ether := b.ether + amount))
  }

  /** The bookkeeping before the ether leaves, and how much leaves. */
  function Debit(b: Base, sender: Address, source: Source, recipient: Address): Option<(Base, nat)> {
    if recipient == 0 then None
    else
      match source
      case Balance(id, amount) =>
        var s := Sub(b, id);
        if !OwnedBy(b, id, sender) || s.balance < s.reserved || amount > s.balance - s.reserved then None
        else Some((WithSub(b, id, s.(balance := s.balance - amount)), amount))
      case Cancellation(id) =>
        var s := Sub(b, id);
        if !OwnedBy(b, id, sender) || s.reserved != 0 then None
        else Some((WithSub(b, id, s.(balance := 0, active := false)), s.balance))
      case OperatorCredits(amount) =>
        if amount > Credits(b, sender) then None
        else Some((b.(operatorCredits := b.operatorCredits[sender := Credits(b, sender) - amount]), amount))
      case Treasury(amount) =>
        if sender != b.owner || amount > b.treasuryCredits then None
        else Some((b.(treasuryCredits := b.treasuryCredits - amount), amount))
  }

  /** Ether leaves with the external call, or the call fails for lack of it. */
  function SendEther(b: Base, amount: nat): Option<Base> {
    if b.ether < amount then None else Some(b.(ether := b.ether - amount))
  }

  // --------------------------------------------------------------- execution

  function Lock(s: State): State { s.(base := s.base.(locked := true)) }

  function Unlock(s: State): State { s.(base := s.base.(locked := false)) }

  function Unlocked(s: Option<State>): Option<State> {
    if s.None? then None else Some(Unlock(s.value))
  }

  /** One call from outside or from a callback; None is a revert. All but the administration calls
      carry the re-entrancy guard. */
  function Exec(s: State, c: Call): Option<State>
    decreases c
  {
    if c.Admin? then
      match AdminStep(s.base, c.sender, c.op)
      case None => None
      case Some(b) => Some(s.(base := b))
    else if s.base.locked then None
    else
      match c
      case Fund(id, amount) =>
        match FundStep(s.base, id, amount) {
          case None => None
          case Some(b) => Some(s.(base := b))
        }
      case Withdraw(sender, source, recipient, external) =>
        match Debit(s.base, sender, source, recipient) {
          case None => None
          case Some((b, amount)) =>
            match SendEther(b, amount)
            case None => None
            case Some(b1) =>
              if !external.success then None else Some(Unlock(Run(Lock(s.(base := b1)), external.script)))
        }
      case RequestWords(sender, params, chain) => CreateStep(s, sender, params, chain)
      case Fulfil(sender, ref, proof, external) =>
        match BeginFulfilStep(Lock(s), ref, sender, proof) {
          case None => None
          case Some(s1) => Unlocked(FinishFulfilStep(Interrupted(s1, external), ref, external.success, proof))
        }
      case Retry(ref, gasLeft, external) =>
        match BeginRetryStep(Lock(s), ref, gasLeft) {
          case None => None
          case Some(s1) => Unlocked(FinishRetryStep(Interrupted(s1, external), ref, external.success))
        }
      case Expire(ref, block) => ExpireStep(s, ref, block)
      case Prune(ref, block) => PruneStep(s, ref, block)
  }

  /** The state an external call leaves: a failed call takes its writes back. */
  function Interrupted(s: State, external: External): State
    decreases external
  {
    if external.success then Run(s, external.script) else s
  }

  /** Calls one after another; a reverted call changes nothing. */
  function Run(s: State, script: seq<Call>): State
    decreases script
  {
    if script == [] then s
    else
      var s1 := Exec(s, script[0]);
      Run(if s1.Some? then s1.value else s, script[1..])
  }

  /** The constructor. */
  function Deploy(compact: bool, owner: Address, guardian: Address, linked: bool, pricing: PricingConfig,
                  key: AdminCall): Option<State>
  {
    if owner == 0 || guardian == 0 || !linked || !ValidPricing(pricing) || !key.RegisterKey? then None
    else
      var empty := Base(owner, 0, guardian, false, pricing, 1, 0, 0, false, map[], map[], map[], map[], map[], map[],
                        map[], 0, 0, map[], map[], map[]);
      match AdminStep(AppendPricing(empty, pricing), owner, key)
      case None => None
      case Some(b) => Some(State(b, if compact then Compact(map[]) else Full(map[])))
  }
}
