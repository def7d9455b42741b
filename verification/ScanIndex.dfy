/** The request index: claimScan, commitScan and releaseScan of operator/postgres-store.mjs, and the file version
    in operator/cli.mjs. Leases expire and change hands; the chain does not reorganize. */
module ScanIndex {
  import opened Outcomes

  type Id = nat

  type Instance = nat

  datatype Row = Row(block: nat, orphaned: bool, leased: bool)

  datatype Event = Event(id: Id, block: nat)

  datatype Range = Range(fromBlock: nat, toBlock: nat)

  /** The table and the scan row. */
  datatype Store = Store(deployment: nat, cursor: nat, owner: Option<Instance>, rows: map<Id, Row>)

  function Min(a: int, b: int): int { if a < b then a else b }

  function Max(a: int, b: int): int { if a < b then b else a }

  function FromBlock(deployment: nat, cursor: nat, latest: nat, lookback: nat): nat {
    Max(deployment, Min(cursor, latest) - lookback)
  }

  function ToBlock(from: nat, latest: nat, rangeSize: nat): int { Min(latest, from + rangeSize - 1) }

  // ------------------------------------------------------------------ table updates

  function MarkOrphans(rows: map<Id, Row>, from: nat): map<Id, Row> {
    map id | id in rows :: if rows[id].block >= from then rows[id].(orphaned := true) else rows[id]
  }

  function UpsertOne(rows: map<Id, Row>, e: Event): map<Id, Row> {
    rows[e.id := Row(e.block, false, e.id in rows && rows[e.id].leased)]
  }

  function Upsert(rows: map<Id, Row>, requested: seq<Event>): map<Id, Row> {
    if requested == [] then rows else UpsertOne(Upsert(rows, requested[..|requested| - 1]), requested[|requested| - 1])
  }

  function DeleteFinalized(rows: map<Id, Row>, finalized: seq<Id>): map<Id, Row> {
    map id | id in rows && id !in finalized :: rows[id]
  }

  function Sweep(rows: map<Id, Row>): map<Id, Row> {
    map id | id in rows && !(rows[id].orphaned && !rows[id].leased) :: rows[id]
  }

  /** The table after one commit. */
  function Refreshed(rows: map<Id, Row>, from: nat, requested: seq<Event>, finalized: seq<Id>): map<Id, Row> {
    Sweep(DeleteFinalized(Upsert(MarkOrphans(rows, from), requested), finalized))
  }

  // -------------------------------------------------------------------- the store

  class ScanStore {
    const deployment: nat
    var cursor: nat
    var owner: Option<Instance>
    var rows: map<Id, Row>

    ghost function Snapshot(): Store
      reads this
    {
      Store(deployment, cursor, owner, rows)
    }

    /** initialize */
    constructor (deployment: nat)
      ensures Snapshot() == Store(deployment, deployment, None, map[])
    {
      this.deployment, cursor, owner, rows := deployment, deployment, None, map[];
    }

    method ClaimScan(instance: Instance, latest: nat, expired: bool, rangeSize: nat,
                     lookback: nat) returns (r: Option<Range>)
      requires rangeSize > 0
      modifies this
      ensures (Snapshot(), r) == Claim(old(Snapshot()), instance, latest, expired, rangeSize, lookback)
    {
      if cursor > latest || !(owner == None || expired || owner == Some(instance)) { return None; }
      owner := Some(instance);
      var from := FromBlock(deployment, cursor, latest, lookback);
      r := Some(Range(from, Max(0, ToBlock(from, latest, rangeSize))));
    }

    method CommitScan(instance: Instance, range: Range, requested: seq<Event>, finalized: seq<Id>) returns (ok: bool)
      modifies this
      ensures ok == (old(owner) == Some(instance))
      ensures Snapshot() == if ok then Commit(old(Snapshot()), range, requested, finalized) else old(Snapshot())
    {
      if owner != Some(instance) { return false; }
      var table := MarkOrphans(rows, range.fromBlock);
      var i := 0;
      while i < |requested|
        invariant 0 <= i <= |requested|
        invariant table == Upsert(MarkOrphans(rows, range.fromBlock), requested[..i])
      {
        var e := requested[i];
        assert requested[..i + 1][..i] == requested[..i];
        table := table[e.id := Row(e.block, false, e.id in table && table[e.id].leased)];
        i := i + 1;
      }
      assert requested[..i] == requested;
      table := DeleteFinalized(table, finalized);
      rows := Sweep(table);
      cursor := Max(cursor, range.toBlock + 1);
      owner := None;
      ok := true;
    }

    method ReleaseScan(instance: Instance)
      modifies this
      ensures Snapshot() == Release(old(Snapshot()), instance)
    {
      if owner == Some(instance) { owner := None; }
    }
  }

  function Claim(s: Store, instance: Instance, latest: nat, expired: bool, rangeSize: nat,
                 lookback: nat): (Store, Option<Range>) {
    if s.cursor > latest || !(s.owner == None || expired || s.owner == Some(instance)) then (s, None)
    else
      var from := FromBlock(s.deployment, s.cursor, latest, lookback);
      (s.(owner := Some(instance)), Some(Range(from, Max(0, ToBlock(from, latest, rangeSize)))))
  }

  function Commit(s: Store, range: Range, requested: seq<Event>, finalized: seq<Id>): Store {
    Store(s.deployment, Max(s.cursor, range.toBlock + 1), None, Refreshed(s.rows, range.fromBlock, requested, finalized))
  }

  function Release(s: Store, instance: Instance): Store {
    if s.owner == Some(instance) then s.(owner := None) else s
  }

  // -------------------------------------------------------------------- progress

  /** A range that reaches the cursor again from where it looks back to. */
  predicate Wide(deployment: nat, cursor: nat, rangeSize: nat, lookback: nat) {
    rangeSize >= Min(lookback, cursor - deployment)
  }

  /** A claimed range starts at or below the cursor. It leaves no block before the cursor unread exactly when it is wide,
      and moves the cursor exactly when its size exceeds what it looks back over. */
  lemma ClaimedRange(deployment: nat, cursor: nat, latest: nat, rangeSize: nat, lookback: nat)
    requires deployment <= cursor <= latest && rangeSize > 0
    ensures var from := FromBlock(deployment, cursor, latest, lookback);
      && deployment <= from <= cursor && from <= ToBlock(from, latest, rangeSize)
      && (ToBlock(from, latest, rangeSize) + 1 >= cursor <==> Wide(deployment, cursor, rangeSize, lookback))
      && (ToBlock(from, latest, rangeSize) + 1 > cursor <==> rangeSize > Min(lookback, cursor - deployment))
  {
  }

  /** The cursor after `k` scans of a chain whose latest block stays where it is. */
  function Scanned(deployment: nat, latest: nat, rangeSize: nat, lookback: nat, k: nat): nat {
    if k == 0 then deployment
    else
      var cursor := Scanned(deployment, latest, rangeSize, lookback, k - 1);
      if cursor > latest then cursor
      else Max(cursor, ToBlock(FromBlock(deployment, cursor, latest, lookback), latest, rangeSize) + 1)
  }

  lemma {:induction false} ScannedAdvances(deployment: nat, latest: nat, rangeSize: nat, lookback: nat, k: nat)
    requires deployment <= latest && rangeSize > 0 && (rangeSize > lookback || latest < deployment + rangeSize)
    ensures Scanned(deployment, latest, rangeSize, lookback, k) >= Min(latest + 1, deployment + k)
  {
    if k > 0 {
      ScannedAdvances(deployment, latest, rangeSize, lookback, k - 1);
      var cursor := Scanned(deployment, latest, rangeSize, lookback, k - 1);
      if cursor <= latest { ClaimedRange(deployment, cursor, latest, rangeSize, lookback); }
    }
  }

  lemma {:induction false} ScannedStalls(deployment: nat, latest: nat, rangeSize: nat, lookback: nat, k: nat)
    requires rangeSize <= lookback && deployment + rangeSize <= latest
    ensures deployment <= Scanned(deployment, latest, rangeSize, lookback, k) <= deployment + rangeSize
  {
    if k > 0 { ScannedStalls(deployment, latest, rangeSize, lookback, k - 1); }
  }

  ghost predicate ReachesHead(deployment: nat, latest: nat, rangeSize: nat, lookback: nat) {
    exists k: nat :: Scanned(deployment, latest, rangeSize, lookback, k) > latest
  }

  /** Scanning from the deployment block passes the latest one if and only if the range exceeds the lookback or covers the
      whole chain at once. Otherwise the index stands still for ever. */
  lemma ReachesHeadExactly(deployment: nat, latest: nat, rangeSize: nat, lookback: nat)
    requires deployment <= latest && rangeSize > 0
    ensures ReachesHead(deployment, latest, rangeSize, lookback) <==>
      rangeSize > lookback || latest < deployment + rangeSize
  {
    if rangeSize > lookback || latest < deployment + rangeSize {
      ScannedAdvances(deployment, latest, rangeSize, lookback, latest + 1 - deployment);
    } else {
      forall k: nat
        ensures Scanned(deployment, latest, rangeSize, lookback, k) <= latest
      {
        ScannedStalls(deployment, latest, rangeSize, lookback, k);
      }
    }
  }

  // ------------------------------------------------------- agreement with the chain

  /** The chain: the block of each request event, and the block of its finalization if it has one. */
  datatype Chain = Chain(requested: map<Id, nat>, finalized: map<Id, nat>)

  predicate Sound(chain: Chain) {
    forall id :: id in chain.finalized && id in chain.requested ==> chain.requested[id] < chain.finalized[id]
  }

  /** What a node answers for a block range. */
  ghost predicate Reports(chain: Chain, range: Range, requested: seq<Event>, finalized: seq<Id>) {
    && (forall e :: e in requested <==>
          e.id in chain.requested && chain.requested[e.id] == e.block && range.fromBlock <= e.block <= range.toBlock)
    && (forall id :: id in finalized <==> id in chain.finalized && range.fromBlock <= chain.finalized[id] <= range.toBlock)
  }

  predicate Covered(chain: Chain, s: Store, id: Id) {
    id in chain.requested && s.deployment <= chain.requested[id] < s.cursor
  }

  predicate Closed(chain: Chain, s: Store, id: Id) {
    id in chain.finalized && s.deployment <= chain.finalized[id] < s.cursor
  }

  /** The live rows are covered requests with no covered finalization, and below `bound` all of them, but for those a
      worker completed. */
  ghost predicate AgreesBelow(chain: Chain, s: Store, completed: set<Id>, bound: nat) {
    && s.deployment <= s.cursor
    && (forall id :: id in s.rows ==> !s.rows[id].orphaned && Covered(chain, s, id) && s.rows[id].block == chain.requested[id])
    && (forall id :: id in s.rows ==> !Closed(chain, s, id))
    && (forall id :: Covered(chain, s, id) && !Closed(chain, s, id) && id !in completed && chain.requested[id] < bound ==>
          id in s.rows)
  }

  /** The live rows are the covered requests with no covered finalization, but for those a worker completed. */
  ghost predicate Agrees(chain: Chain, s: Store, completed: set<Id>) { AgreesBelow(chain, s, completed, s.cursor) }

  lemma {:induction false} UpsertAt(rows: map<Id, Row>, requested: seq<Event>, id: Id)
    ensures id in Upsert(rows, requested) <==> id in rows || exists e :: e in requested && e.id == id
    ensures id in Upsert(rows, requested) ==>
      ((exists e :: e in requested && e.id == id && !Upsert(rows, requested)[id].orphaned
                    && Upsert(rows, requested)[id].block == e.block)
       || (id in rows && Upsert(rows, requested)[id] == rows[id] && forall e :: e in requested ==> e.id != id))
  {
    if requested != [] {
      var front, last := requested[..|requested| - 1], requested[|requested| - 1];
      UpsertAt(rows, front, id);
      assert requested == front + [last];
      if id == last.id {
        assert last in requested;
      }
    }
  }

  /** What becomes of a request: rows below the range stay, rows in it are what the chain says, rows above it go, unless
      a worker holds them: those stay as orphans. */
  lemma RefreshedAt(chain: Chain, rows: map<Id, Row>, range: Range, requested: seq<Event>, finalized: seq<Id>, id: Id)
    requires Reports(chain, range, requested, finalized)
    requires id in rows ==> !rows[id].orphaned && id in chain.requested && rows[id].block == chain.requested[id]
    requires range.fromBlock <= range.toBlock
    ensures var t := Refreshed(rows, range.fromBlock, requested, finalized);
      && (id in t <==>
            && id !in finalized
            && ((id in rows && rows[id].block < range.fromBlock)
                || (id in chain.requested && range.fromBlock <= chain.requested[id] <= range.toBlock)
                || (id in rows && range.toBlock < rows[id].block && rows[id].leased)))
      && (id in t ==> id in chain.requested && t[id].block == chain.requested[id]
                      && (t[id].orphaned <==> chain.requested[id] > range.toBlock))
  {
    UpsertAt(MarkOrphans(rows, range.fromBlock), requested, id);
    if id in chain.requested && range.fromBlock <= chain.requested[id] <= range.toBlock {
      assert Event(id, chain.requested[id]) in requested;
    }
  }

  /** From at or below the cursor, to at least the block before it. */
  predicate Spans(s: Store,
                  r: Range) { s.deployment <= r.fromBlock <= s.cursor <= r.toBlock + 1 && r.fromBlock <= r.toBlock }

  /** A commit of a range that reaches the cursor brings the index into agreement, even if it had lost rows at or above the
      range. */
  lemma CommitAgrees(chain: Chain, s: Store, completed: set<Id>, range: Range, requested: seq<Event>, finalized: seq<Id>)
    requires Sound(chain) && Spans(s, range) && AgreesBelow(chain, s, completed, range.fromBlock)
    requires Reports(chain, range, requested, finalized)
    ensures Agrees(chain, Commit(s, range, requested, finalized), completed)
    ensures Commit(s, range, requested, finalized).cursor == range.toBlock + 1
  {
    var s' := Commit(s, range, requested, finalized);
    forall id
      ensures id in s'.rows ==>
        !s'.rows[id].orphaned && Covered(chain, s', id) && s'.rows[id].block == chain.requested[id] && !Closed(chain, s', id)
      ensures Covered(chain, s', id) && !Closed(chain, s', id) && id !in completed ==> id in s'.rows
    {
      RefreshedAt(chain, s.rows, range, requested, finalized, id);
    }
  }

  /** Rows above the range are gone for good reason: their requests were completed. */
  predicate NothingLost(s: Store, range: Range, completed: set<Id>) {
    forall id :: id in s.rows && s.rows[id].block > range.toBlock ==> id in completed && !s.rows[id].leased
  }

  /** No request of the range was finalized between the range and the cursor. */
  predicate NothingReopened(chain: Chain, s: Store, range: Range) {
    forall id :: id in chain.requested && id in chain.finalized && range.fromBlock <= chain.requested[id] <= range.toBlock ==>
      !(range.toBlock < chain.finalized[id] < s.cursor)
  }

  lemma AgreementNeeds(chain: Chain, s: Store, completed: set<Id>, range: Range, requested: seq<Event>,
                       finalized: seq<Id>)
    requires Sound(chain) && Agrees(chain, s, completed) && Reports(chain, range, requested, finalized)
    requires s.deployment <= range.fromBlock <= s.cursor && range.fromBlock <= range.toBlock
    requires Agrees(chain, Commit(s, range, requested, finalized), completed)
    ensures NothingLost(s, range, completed) && NothingReopened(chain, s, range)
  {
    forall id | id in s.rows && s.rows[id].block > range.toBlock
      ensures id in completed && !s.rows[id].leased
    {
      RefreshedAt(chain, s.rows, range, requested, finalized, id);
    }
    forall id | id in chain.requested && id in chain.finalized && range.fromBlock <= chain.requested[id] <= range.toBlock
      ensures !(range.toBlock < chain.finalized[id] < s.cursor)
    {
      RefreshedAt(chain, s.rows, range, requested, finalized, id);
    }
  }

  lemma AgreementFollows(chain: Chain, s: Store, completed: set<Id>, range: Range, requested: seq<Event>,
                         finalized: seq<Id>)
    requires Sound(chain) && Agrees(chain, s, completed) && Reports(chain, range, requested, finalized)
    requires s.deployment <= range.fromBlock <= s.cursor && range.fromBlock <= range.toBlock
    requires NothingLost(s, range, completed) && NothingReopened(chain, s, range)
    ensures Agrees(chain, Commit(s, range, requested, finalized), completed)
  {
    var s' := Commit(s, range, requested, finalized);
    forall id
      ensures id in s'.rows ==>
        !s'.rows[id].orphaned && Covered(chain, s', id) && s'.rows[id].block == chain.requested[id] && !Closed(chain, s', id)
      ensures Covered(chain, s', id) && !Closed(chain, s', id) && id !in completed ==> id in s'.rows
    {
      RefreshedAt(chain, s.rows, range, requested, finalized, id);
    }
  }

  /** For every range: the commit keeps the agreement if and only if it loses no row above the range and reopens no
      request finalized above it. */
  lemma CommitExactly(chain: Chain, s: Store, completed: set<Id>, range: Range, requested: seq<Event>, finalized: seq<Id>)
    requires Sound(chain) && Agrees(chain, s, completed) && Reports(chain, range, requested, finalized)
    requires s.deployment <= range.fromBlock <= s.cursor && range.fromBlock <= range.toBlock
    ensures Agrees(chain, Commit(s, range, requested, finalized), completed) <==>
      NothingLost(s, range, completed) && NothingReopened(chain, s, range)
  {
    if Agrees(chain, Commit(s, range, requested, finalized), completed) {
      AgreementNeeds(chain, s, completed, range, requested, finalized);
    }
    if NothingLost(s, range, completed) && NothingReopened(chain, s, range) {
      AgreementFollows(chain, s, completed, range, requested, finalized);
    }
  }

  ghost predicate AlwaysAgrees(deployment: nat, cursor: nat, range: Range) {
    forall chain, s: Store, completed, requested, finalized |
      s.deployment == deployment && s.cursor == cursor && Sound(chain) && Agrees(chain, s, completed)
      && Reports(chain, range, requested, finalized) ::
      Agrees(chain, Commit(s, range, requested, finalized), completed)
  }

  /** An open request between a short range and the cursor is dropped. */
  lemma DropsOpenRequest(deployment: nat, cursor: nat, range: Range)
    requires deployment <= range.fromBlock <= range.toBlock && range.toBlock + 1 < cursor
    ensures !AlwaysAgrees(deployment, cursor, range)
  {
    var block := range.toBlock + 1;
    var chain, s := Chain(map[0 := block], map[]), Store(deployment, cursor, None, map[0 := Row(block, false, false)]);
    assert Covered(chain, s, 0) && Agrees(chain, s, {}) && Reports(chain, range, [], []);
    CommitExactly(chain, s, {}, range, [], []);
    assert 0 in s.rows && !NothingLost(s, range, {});
  }

  /** And a request that was closed there comes back to life. */
  lemma ReopensClosedRequest(deployment: nat, cursor: nat, range: Range)
    requires deployment <= range.fromBlock <= range.toBlock && range.toBlock + 1 < cursor
    ensures var chain := Chain(map[0 := range.toBlock], map[0 := range.toBlock + 1]);
      var s := Store(deployment, cursor, None, map[]);
      var s' := Commit(s, range, [Event(0, range.toBlock)], []);
      && Reports(chain, range, [Event(0, range.toBlock)], []) && Agrees(chain, s, {})
      && 0 in s'.rows && !s'.rows[0].orphaned && Closed(chain, s', 0)
  {
    var chain, s := Chain(map[0 := range.toBlock], map[0 := range.toBlock + 1]), Store(deployment, cursor, None, map[]);
    RefreshedAt(chain, s.rows, range, [Event(0, range.toBlock)], [], 0);
  }

  /** On every chain, whatever the index holds, a claimed range is safe to commit if and only if its size is at least what
      it looks back over. */
  lemma SafeExactly(deployment: nat, cursor: nat, latest: nat, rangeSize: nat, lookback: nat)
    requires deployment <= cursor <= latest && rangeSize > 0
    ensures var from := FromBlock(deployment, cursor, latest, lookback);
      AlwaysAgrees(deployment, cursor, Range(from, Max(0, ToBlock(from, latest, rangeSize)))) <==>
      Wide(deployment, cursor, rangeSize, lookback)
  {
    ClaimedRange(deployment, cursor, latest, rangeSize, lookback);
    var from := FromBlock(deployment, cursor, latest, lookback);
    var range := Range(from, Max(0, ToBlock(from, latest, rangeSize)));
    if Wide(deployment, cursor, rangeSize, lookback) {
      forall chain, s: Store, completed, requested, finalized |
        s.deployment == deployment && s.cursor == cursor && Sound(chain) && Agrees(chain, s, completed)
        && Reports(chain, range, requested, finalized)
        ensures Agrees(chain, Commit(s, range, requested, finalized), completed)
      {
        CommitAgrees(chain, s, completed, range, requested, finalized);
      }
    } else {
      DropsOpenRequest(deployment, cursor, range);
    }
  }

  // ------------------------------------------------------------------------ runs

  /** The store and what each running instance believes it has claimed. */
  datatype World = World(store: Store, claims: map<Instance, Range>, completed: set<Id>)

  /** Every instance has its own configuration. */
  datatype Step =
    | ClaimStep(instance: Instance, latest: nat, expired: bool, rangeSize: nat, lookback: nat)
    | CommitStep(instance: Instance, requested: seq<Event>, finalized: seq<Id>)
    | ReleaseStep(instance: Instance)
    | Crash(instance: Instance)
    | WorkerLease(id: Id, leased: bool)
    | WorkerComplete(id: Id)

  function Apply(w: World, step: Step): World {
    match step
    case ClaimStep(instance, latest, expired, rangeSize, lookback) =>
      var (s, r) := Claim(w.store, instance, latest, expired, rangeSize, lookback);
      if r.None? then w else World(s, w.claims[instance := r.value], w.completed)
    case CommitStep(instance, requested, finalized) =>
      if instance !in w.claims then w
      else if w.store.owner != Some(instance) then w.(claims := w.claims - {instance})
      else World(Commit(w.store, w.claims[instance], requested, finalized), w.claims - {instance}, w.completed)
    case ReleaseStep(instance) => w.(store := Release(w.store, instance), claims := w.claims - {instance})
    case Crash(instance) => w.(claims := w.claims - {instance})
    case WorkerLease(id, leased) =>
      if id !in w.store.rows then w
      else w.(store := w.store.(rows := w.store.rows[id := w.store.rows[id].(leased := leased)]))
    case WorkerComplete(id) =>
      w.(store := w.store.(rows := w.store.rows - {id}), completed := w.completed + {id})
  }

  /** Commits report what the chain holds for their range. */
  ghost predicate Honest(chain: Chain, w: World, step: Step) {
    step.CommitStep? && step.instance in w.claims ==> Reports(chain, w.claims[step.instance], step.requested, step.finalized)
  }

  predicate WideClaim(w: World, step: Step) {
    step.ClaimStep? ==>
      step.rangeSize > 0 && Wide(w.store.deployment, w.store.cursor, step.rangeSize, step.lookback)
  }

  function Empty(deployment: nat): World { World(Store(deployment, deployment, None, map[]), map[], {}) }

  function After(deployment: nat, steps: seq<Step>): World {
    if steps == [] then Empty(deployment) else Apply(After(deployment, steps[..|steps| - 1]), steps[|steps| - 1])
  }

  ghost predicate AllHonest(chain: Chain, deployment: nat, steps: seq<Step>) {
    steps == [] ||
    (var front := steps[..|steps| - 1];
     AllHonest(chain, deployment, front) && Honest(chain, After(deployment, front), steps[|steps| - 1]))
  }

  predicate AllWide(deployment: nat, steps: seq<Step>) {
    steps == [] ||
    (var front := steps[..|steps| - 1];
     AllWide(deployment, front) && WideClaim(After(deployment, front), steps[|steps| - 1]))
  }

  /** The holder's claim reaches the present cursor: the lease is what makes a late commit harmless. */
  ghost predicate Consistent(chain: Chain, w: World) {
    && Agrees(chain, w.store, w.completed)
    && (w.store.owner.Some? && w.store.owner.value in w.claims ==> Spans(w.store, w.claims[w.store.owner.value]))
  }

  lemma ApplyConsistent(chain: Chain, w: World, step: Step)
    requires Sound(chain) && Consistent(chain, w) && Honest(chain, w, step) && WideClaim(w, step)
    ensures Consistent(chain, Apply(w, step))
    ensures Apply(w, step).store.cursor >= w.store.cursor
  {
    match step {
      case ClaimStep(instance, latest, expired, rangeSize, lookback) =>
        if w.store.cursor <= latest {
          ClaimedRange(w.store.deployment, w.store.cursor, latest, rangeSize, lookback);
        }
      case CommitStep(instance, requested, finalized) =>
        if instance in w.claims && w.store.owner == Some(instance) {
          CommitAgrees(chain, w.store, w.completed, w.claims[instance], requested, finalized);
        }
      case _ =>
    }
  }

  /** Through any interleaving of instances, expired leases, crashes, workers and configurations, the index is the chain as
      long as every claim is wide: live rows are the covered requests with no covered finalization, short only of what
      workers completed. */
  lemma {:induction false} IndexFollowsChain(chain: Chain, deployment: nat, steps: seq<Step>)
    requires Sound(chain) && AllHonest(chain, deployment, steps) && AllWide(deployment, steps)
    ensures Consistent(chain, After(deployment, steps))
  {
    if steps != [] {
      var front := steps[..|steps| - 1];
      IndexFollowsChain(chain, deployment, front);
      ApplyConsistent(chain, After(deployment, front), steps[|steps| - 1]);
    }
  }

  predicate OneConfiguration(steps: seq<Step>, rangeSize: nat, lookback: nat) {
    forall i :: 0 <= i < |steps| && steps[i].ClaimStep? ==> steps[i].rangeSize == rangeSize && steps[i].lookback == lookback
  }

  /** A configuration that cannot make progress also stays where it is still wide. */
  predicate Parked(w: World, rangeSize: nat) {
    var limit := w.store.deployment + rangeSize;
    && w.store.deployment <= w.store.cursor <= limit
    && forall i :: i in w.claims ==> w.claims[i].toBlock + 1 <= limit
  }

  lemma {:induction false} StaysWide(deployment: nat, steps: seq<Step>, rangeSize: nat, lookback: nat)
    requires rangeSize > 0 && OneConfiguration(steps, rangeSize, lookback)
    ensures AllWide(deployment, steps)
    ensures var w := After(deployment, steps);
      w.store.deployment == deployment && (rangeSize >= lookback || Parked(w, rangeSize))
  {
    if steps != [] {
      StaysWide(deployment, steps[..|steps| - 1], rangeSize, lookback);
    }
  }

  /** While the configuration stays the same the index agrees with the chain whatever it is: a range below the lookback
      stops the scan before it can lose anything. */
  lemma OneConfigurationIsSafe(chain: Chain, deployment: nat, steps: seq<Step>, rangeSize: nat, lookback: nat)
    requires Sound(chain) && AllHonest(chain, deployment, steps)
    requires rangeSize > 0 && OneConfiguration(steps, rangeSize, lookback)
    ensures Consistent(chain, After(deployment, steps))
  {
    StaysWide(deployment, steps, rangeSize, lookback);
    IndexFollowsChain(chain, deployment, steps);
  }

  // ------------------------------------------------------------------ leases

  /** A scan is claimed if and only if blocks are due and nobody else holds a live lease. Its range looks back over the
      whole lookback unless deployment cuts it short, and is full unless the latest block does. */
  lemma ClaimExactly(s: Store, instance: Instance, latest: nat, expired: bool, rangeSize: nat, lookback: nat)
    requires rangeSize > 0 && s.deployment <= s.cursor
    ensures var (s', r) := Claim(s, instance, latest, expired, rangeSize, lookback);
      && (r.Some? <==> s.cursor <= latest && (s.owner.None? || s.owner.value == instance || expired))
      && (r.None? ==> s' == s)
      && (r.Some? ==>
            && s' == s.(owner := Some(instance))
            && var (from, to) := (r.value.fromBlock, r.value.toBlock);
            && s.deployment <= from <= s.cursor <= from + lookback
            && (from == s.deployment || s.cursor == from + lookback)
            && from <= to <= latest && to < from + rangeSize && (to == latest || to + 1 == from + rangeSize))
  {
  }

  function Continued(w: World, steps: seq<Step>): World
    decreases |steps|
  {
    if steps == [] then w else Continued(Apply(w, steps[0]), steps[1..])
  }

  /** The holder neither commits nor releases, and its lease is never seen expired by another claimant. */
  predicate LeaseLives(steps: seq<Step>, holder: Instance) {
    forall i :: 0 <= i < |steps| ==>
      match steps[i]
      case ClaimStep(instance, _, expired, _, _) => instance == holder || !expired
      case CommitStep(instance, _, _) => instance != holder
      case ReleaseStep(instance) => instance != holder
      case _ => true
  }

  /** Rows only left, or changed hands between workers. */
  predicate OnlyWorked(rows: map<Id, Row>, rows': map<Id, Row>) {
    forall id :: id in rows' ==> id in rows && rows'[id].(leased := rows[id].leased) == rows[id]
  }

  /** While a lease lives nobody else takes it, moves the cursor or refreshes the table, whatever the others claim, commit,
      release and however often they crash. */
  lemma {:induction false} LeaseExcludes(w: World, steps: seq<Step>, holder: Instance)
    requires w.store.owner == Some(holder) && LeaseLives(steps, holder)
    ensures var w' := Continued(w, steps);
      && w'.store.owner == Some(holder) && w'.store.cursor == w.store.cursor
      && OnlyWorked(w.store.rows, w'.store.rows)
    decreases |steps|
  {
    if steps != [] {
      var w1 := Apply(w, steps[0]);
      assert w1.store.owner == Some(holder) && w1.store.cursor == w.store.cursor;
      assert OnlyWorked(w.store.rows, w1.store.rows);
      assert LeaseLives(steps[1..], holder);
      LeaseExcludes(w1, steps[1..], holder);
    }
  }

  /** Without completions the live rows are exactly those. */
  lemma ExactWithoutCompletions(chain: Chain, s: Store, id: Id)
    requires Agrees(chain, s, {})
    ensures id in s.rows <==> Covered(chain, s, id) && !Closed(chain, s, id)
  {
  }

  // ------------------------------------------------------------ the file version

  /** scanServiceEvents of operator/cli.mjs: the same scan over a state file, with neither leases nor orphan marks. */
  class FileIndex {
    const deployment: nat
    var cursor: nat
    var requests: map<Id, nat>

    constructor (deployment: nat)
      ensures cursor == deployment && requests == map[] && this.deployment == deployment
    {
      this.deployment, cursor, requests := deployment, deployment, map[];
    }

    /** `answered` says whether the queries succeed; rows to be read again are gone from memory either way. */
    method ScanServiceEvents(latest: nat, rangeSize: nat, lookback: nat, answered: bool, requested: seq<Event>,
                             finalized: seq<Id>)
      requires rangeSize > 0
      modifies this
      ensures Saved(cursor, requests) ==
        var f := old(Saved(cursor, requests));
        if f.cursor > latest || !answered then Forgotten(deployment, f, latest, lookback)
        else ScannedFile(deployment, f, latest, requested, finalized, rangeSize, lookback)
    {
      if cursor > latest { return; }
      var from := FromBlock(deployment, cursor, latest, lookback);
      var toBlock := ToBlock(from, latest, rangeSize);
      var table := map id | id in requests && requests[id] < from :: requests[id];
      if !answered {
        requests := table;
        return;
      }
      var i := 0;
      while i < |requested|
        invariant 0 <= i <= |requested|
        invariant table == Added(map id | id in requests && requests[id] < from :: requests[id], requested[..i])
      {
        assert requested[..i + 1][..i] == requested[..i];
        table := table[requested[i].id := requested[i].block];
        i := i + 1;
      }
      assert requested[..i] == requested;
      i := 0;
      ghost var added := table;
      while i < |finalized|
        invariant 0 <= i <= |finalized|
        invariant table == map id | id in added && id !in finalized[..i] :: added[id]
      {
        table := table - {finalized[i]};
        i := i + 1;
      }
      assert finalized[..i] == finalized;
      requests := table;
      cursor := Max(cursor, toBlock + 1);
    }
  }

  function Added(rows: map<Id, nat>, requested: seq<Event>): map<Id, nat> {
    if requested == [] then rows
    else Added(rows, requested[..|requested| - 1])[requested[|requested| - 1].id := requested[|requested| - 1].block]
  }

  function FileRefreshed(rows: map<Id, nat>, from: nat, requested: seq<Event>, finalized: seq<Id>): map<Id, nat> {
    var kept := map id | id in rows && rows[id] < from :: rows[id];
    var added := Added(kept, requested);
    map id | id in added && id !in finalized :: added[id]
  }

  /** The table of the file index, as unleased live rows. */
  function AsRows(rows: map<Id, nat>): map<Id, Row> { map id | id in rows :: Row(rows[id], false, false) }

  lemma {:induction false} UpsertFile(rows: map<Id, nat>, from: nat, requested: seq<Event>, id: Id)
    ensures var kept := map i | i in rows && rows[i] < from :: rows[i];
      var t := Upsert(MarkOrphans(AsRows(rows), from), requested);
      && (id in Added(kept, requested) <==> id in t && !t[id].orphaned)
      && (id in t ==> !t[id].leased && (!t[id].orphaned ==> t[id].block == Added(kept, requested)[id]))
  {
    if requested != [] {
      UpsertFile(rows, from, requested[..|requested| - 1], id);
      UpsertFile(rows, from, requested[..|requested| - 1], requested[|requested| - 1].id);
    }
  }

  /** Both stores keep the same index. */
  lemma FileMatchesTable(rows: map<Id, nat>, from: nat, requested: seq<Event>, finalized: seq<Id>)
    ensures AsRows(FileRefreshed(rows, from, requested, finalized)) == Refreshed(AsRows(rows), from, requested, finalized)
  {
    forall id
      ensures id in AsRows(FileRefreshed(rows, from, requested, finalized))
         <==> id in Refreshed(AsRows(rows), from, requested, finalized)
      ensures id in FileRefreshed(rows, from, requested, finalized) ==>
        AsRows(FileRefreshed(rows, from, requested, finalized))[id] == Refreshed(AsRows(rows), from, requested, finalized)[id]
    {
      UpsertFile(rows, from, requested, id);
    }
  }

  // ----------------------------------------------------------------- runs of the file version

  datatype Saved = Saved(cursor: nat, requests: map<Id, nat>)

  /** The state in memory, the state file, and what was dropped as done. */
  datatype Operator = Operator(memory: Saved, file: Saved, completed: set<Id>)

  /** A scan whose queries fail has already deleted the rows it was to read again. */
  datatype FileStep =
    | Scan(latest: nat, requested: seq<Event>, finalized: seq<Id>)
    | FailedScan(latest: nat)
    | Done(id: Id, written: bool)
    | Reload

  /** The rows the next scan reads again are deleted before it asks. */
  function Forgotten(deployment: nat, f: Saved, latest: nat, lookback: nat): Saved {
    if f.cursor > latest then f
    else
      var from := FromBlock(deployment, f.cursor, latest, lookback);
      f.(requests := map id | id in f.requests && f.requests[id] < from :: f.requests[id])
  }

  function ScannedFile(deployment: nat, f: Saved, latest: nat, requested: seq<Event>, finalized: seq<Id>,
                       rangeSize: nat, lookback: nat): Saved {
    var from := FromBlock(deployment, f.cursor, latest, lookback);
    Saved(Max(f.cursor, ToBlock(from, latest, rangeSize) + 1), FileRefreshed(f.requests, from, requested, finalized))
  }

  function FileApply(deployment: nat, o: Operator, step: FileStep, rangeSize: nat, lookback: nat): Operator {
    match step
    case Scan(latest, requested, finalized) =>
      if o.memory.cursor > latest then o
      else
        var f := ScannedFile(deployment, o.memory, latest, requested, finalized, rangeSize, lookback);
        Operator(f, f, o.completed)
    case FailedScan(latest) => o.(memory := Forgotten(deployment, o.memory, latest, lookback))
    case Done(id, written) =>
      var f := o.memory.(requests := o.memory.requests - {id});
      Operator(f, if written then f else o.file, o.completed + {id})
    case Reload => o.(memory := o.file)
  }

  function FileAfter(deployment: nat, steps: seq<FileStep>, rangeSize: nat, lookback: nat): Operator {
    if steps == [] then Operator(Saved(deployment, map[]), Saved(deployment, map[]), {})
    else
      FileApply(deployment, FileAfter(deployment, steps[..|steps| - 1], rangeSize, lookback), steps[|steps| - 1],
                rangeSize, lookback)
  }

  /** A scan reports what the chain holds for its range. */
  ghost predicate FileHonest(chain: Chain, deployment: nat, o: Operator, step: FileStep, rangeSize: nat, lookback: nat) {
    step.Scan? && o.memory.cursor <= step.latest ==>
      var from := FromBlock(deployment, o.memory.cursor, step.latest, lookback);
      Reports(chain, Range(from, Max(0, ToBlock(from, step.latest, rangeSize))), step.requested, step.finalized)
  }

  ghost predicate FileAllHonest(chain: Chain, deployment: nat, steps: seq<FileStep>, rangeSize: nat, lookback: nat) {
    steps == [] ||
    (var front := steps[..|steps| - 1];
     && FileAllHonest(chain, deployment, front, rangeSize, lookback)
     && FileHonest(chain, deployment, FileAfter(deployment, front, rangeSize, lookback), steps[|steps| - 1], rangeSize, lookback))
  }

  function AsStore(deployment: nat, f: Saved): Store { Store(deployment, f.cursor, None, AsRows(f.requests)) }

  /** Below where the next scan starts nothing is missing, and that scan will reach the cursor. */
  ghost predicate Recoverable(chain: Chain, deployment: nat, f: Saved, completed: set<Id>, rangeSize: nat,
                              lookback: nat) {
    && deployment <= f.cursor && (rangeSize >= lookback || f.cursor <= deployment + rangeSize)
    && AgreesBelow(chain, AsStore(deployment, f), completed, Max(deployment, f.cursor - lookback))
  }

  /** The file operator scans as the table does. */
  lemma ScanIsCommit(deployment: nat, o: Operator, step: FileStep, rangeSize: nat, lookback: nat)
    requires rangeSize > 0 && step.Scan? && deployment <= o.memory.cursor <= step.latest
    ensures var from := FromBlock(deployment, o.memory.cursor, step.latest, lookback);
      var range := Range(from, Max(0, ToBlock(from, step.latest, rangeSize)));
      AsStore(deployment, FileApply(deployment, o, step, rangeSize, lookback).memory)
        == Commit(AsStore(deployment, o.memory), range, step.requested, step.finalized)
  {
    var from := FromBlock(deployment, o.memory.cursor, step.latest, lookback);
    FileMatchesTable(o.memory.requests, from, step.requested, step.finalized);
  }

  lemma ScanRecovers(chain: Chain, deployment: nat, o: Operator, step: FileStep, rangeSize: nat, lookback: nat)
    requires Sound(chain) && rangeSize > 0 && step.Scan? && o.memory.cursor <= step.latest
    requires Recoverable(chain, deployment, o.memory, o.completed, rangeSize, lookback)
    requires FileHonest(chain, deployment, o, step, rangeSize, lookback)
    ensures var o' := FileApply(deployment, o, step, rangeSize, lookback);
      && Agrees(chain, AsStore(deployment, o'.memory), o'.completed)
      && Recoverable(chain, deployment, o'.memory, o'.completed, rangeSize, lookback)
  {
    var m := o.memory;
    var from := FromBlock(deployment, m.cursor, step.latest, lookback);
    var range := Range(from, Max(0, ToBlock(from, step.latest, rangeSize)));
    ClaimedRange(deployment, m.cursor, step.latest, rangeSize, lookback);
    CommitAgrees(chain, AsStore(deployment, m), o.completed, range, step.requested, step.finalized);
    ScanIsCommit(deployment, o, step, rangeSize, lookback);
  }

  lemma DropRecoverable(chain: Chain, deployment: nat, f: Saved, id: Id, completed: set<Id>, rangeSize: nat,
                        lookback: nat)
    requires Recoverable(chain, deployment, f, completed, rangeSize, lookback)
    ensures Recoverable(chain, deployment, f, completed + {id}, rangeSize, lookback)
    ensures Recoverable(chain, deployment, f.(requests := f.requests - {id}), completed + {id}, rangeSize, lookback)
  {
    var s, s' := AsStore(deployment, f), AsStore(deployment, f.(requests := f.requests - {id}));
    assert forall i :: i in s'.rows <==> i in s.rows && i != id;
    assert forall i :: i in s'.rows ==> s'.rows[i] == s.rows[i];
  }

  lemma ForgetRecoverable(chain: Chain, deployment: nat, f: Saved, latest: nat, completed: set<Id>,
                          rangeSize: nat, lookback: nat)
    requires Recoverable(chain, deployment, f, completed, rangeSize, lookback)
    ensures Recoverable(chain, deployment, Forgotten(deployment, f, latest, lookback), completed, rangeSize, lookback)
  {
    if f.cursor <= latest {
      var from: nat := Max(deployment, f.cursor - lookback);
      var s, s' := AsStore(deployment, f), AsStore(deployment, Forgotten(deployment, f, latest, lookback));
      assert forall i :: i in s'.rows <==> i in s.rows && s.rows[i].block < from;
      assert forall i :: i in s'.rows ==> s'.rows[i] == s.rows[i];
    }
  }

  ghost predicate BothRecoverable(chain: Chain, deployment: nat, o: Operator, rangeSize: nat, lookback: nat) {
    && Recoverable(chain, deployment, o.memory, o.completed, rangeSize, lookback)
    && Recoverable(chain, deployment, o.file, o.completed, rangeSize, lookback)
  }

  lemma FileApplyRecoverable(chain: Chain, deployment: nat, o: Operator, step: FileStep, rangeSize: nat, lookback: nat)
    requires Sound(chain) && rangeSize > 0 && FileHonest(chain, deployment, o, step, rangeSize, lookback)
    requires BothRecoverable(chain, deployment, o, rangeSize, lookback)
    ensures BothRecoverable(chain, deployment, FileApply(deployment, o, step, rangeSize, lookback), rangeSize, lookback)
  {
    match step {
      case Scan(latest, _, _) =>
        if o.memory.cursor <= latest { ScanRecovers(chain, deployment, o, step, rangeSize, lookback); }
      case FailedScan(latest) =>
        ForgetRecoverable(chain, deployment, o.memory, latest, o.completed, rangeSize, lookback);
      case Done(id, _) =>
        DropRecoverable(chain, deployment, o.memory, id, o.completed, rangeSize, lookback);
        DropRecoverable(chain, deployment, o.file, id, o.completed, rangeSize, lookback);
      case Reload =>
    }
  }

  /** The last step was a scan with something to read. */
  predicate JustScanned(deployment: nat, steps: seq<FileStep>, rangeSize: nat, lookback: nat) {
    steps != [] &&
    (var last := steps[|steps| - 1];
     last.Scan? && FileAfter(deployment, steps[..|steps| - 1], rangeSize, lookback).memory.cursor <= last.latest)
  }

  /** The file index follows the chain through failed queries, completions and restarts: at any time only rows the next
      scan reads again may be missing, and after a scan that has something to read none is. */
  lemma {:induction false} FileFollowsChain(chain: Chain, deployment: nat, steps: seq<FileStep>,
                                            rangeSize: nat, lookback: nat)
    requires Sound(chain) && rangeSize > 0 && FileAllHonest(chain, deployment, steps, rangeSize, lookback)
    ensures BothRecoverable(chain, deployment, FileAfter(deployment, steps, rangeSize, lookback), rangeSize, lookback)
    ensures JustScanned(deployment, steps, rangeSize, lookback) ==>
      var o := FileAfter(deployment, steps, rangeSize, lookback); Agrees(chain, AsStore(deployment, o.memory), o.completed)
  {
    if steps != [] {
      var front, step := steps[..|steps| - 1], steps[|steps| - 1];
      FileFollowsChain(chain, deployment, front, rangeSize, lookback);
      var o := FileAfter(deployment, front, rangeSize, lookback);
      FileApplyRecoverable(chain, deployment, o, step, rangeSize, lookback);
      if step.Scan? && o.memory.cursor <= step.latest {
        ScanRecovers(chain, deployment, o, step, rangeSize, lookback);
      }
    }
  }
}
