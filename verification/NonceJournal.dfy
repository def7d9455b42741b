/** The transaction journal of a relayer: recordBroadcast, markMined and resolveNonce of operator/postgres-store.mjs,
    and sendWithReplacement and reconcileRelayerTransactions of operator/cli.mjs. The relayer lock is held
    throughout a send; a crash cuts its effects short anywhere. */
module NonceJournal {
  import opened Outcomes
  import opened Sequences

  /** A signed transaction. Signing is deterministic and its hash injective, so a transaction is its own hash. */
  datatype Tx = Tx(nonce: nat, gasPrice: nat, gasLimit: nat, payload: nat)

  datatype Status = Broadcast | Mined | Replaced | Dropped | Consumed

  datatype Entry = Entry(tx: Tx, status: Status)

  /** The journal in the order of creation. */
  type Journal = seq<Entry>

  predicate Lists(j: Journal, tx: Tx) { exists i :: 0 <= i < |j| && j[i].tx == tx }

  predicate Unresolved(j: Journal, tx: Tx) { exists i :: 0 <= i < |j| && j[i] == Entry(tx, Broadcast) }

  predicate AllResolved(j: Journal) { forall i :: 0 <= i < |j| ==> j[i].status != Broadcast }

  /** The hash is the primary key. */
  predicate Unique(j: Journal) { forall i, k :: 0 <= i < k < |j| ==> j[i].tx != j[k].tx }

  // ------------------------------------------------------------------ journal writes

  function Recorded(j: Journal, tx: Tx): Journal { if Lists(j, tx) then j else j + [Entry(tx, Broadcast)] }

  function WithStatus(e: Entry, status: Status): Entry { Entry(e.tx, status) }

  function MarkedMined(j: Journal, tx: Tx): (r: Journal)
    ensures |r| == |j|
  {
    seq(|j|, i requires 0 <= i < |j| => if j[i].tx == tx then WithStatus(j[i], Mined) else j[i])
  }

  function ResolvedOne(e: Entry, nonce: nat, status: Status): Entry {
    if e.tx.nonce == nonce && e.status == Broadcast then WithStatus(e, status) else e
  }

  function Resolved(j: Journal, nonce: nat, status: Status): (r: Journal)
    ensures |r| == |j|
  {
    seq(|j|, i requires 0 <= i < |j| => ResolvedOne(j[i], nonce, status))
  }

  /** resolveNonce: one transaction. */
  function ResolvedNonce(j: Journal, nonce: nat, status: Status, mined: Option<Tx>): (r: Journal)
    ensures |r| == |j|
  {
    if mined.Some? then MarkedMined(Resolved(j, nonce, status), mined.value) else Resolved(j, nonce, status)
  }

  /** Only a hash that is new, or still unresolved, is unresolved after it is recorded: recording again what an earlier
      reconciliation resolved leaves it resolved. */
  lemma RecordedIsUnresolved(j: Journal, tx: Tx)
    requires Unique(j)
    ensures Unique(Recorded(j, tx)) && Lists(Recorded(j, tx), tx)
    ensures Unresolved(Recorded(j, tx), tx) <==> !Lists(j, tx) || Unresolved(j, tx)
  {
    if !Lists(j, tx) {
      assert Recorded(j, tx)[|j|] == Entry(tx, Broadcast);
    }
  }

  // ---------------------------------------------------------------- reconciliation

  datatype Receipt = Agreed | Absent | Disagreement

  /** What the RPC providers answer, taken together. */
  datatype View = View(receipts: map<Tx, Receipt>, seen: set<Tx>, counts: seq<nat>)

  /** The answers while a nonce is looked at; without an entry there is no provider to ask. */
  function ViewOf(views: map<nat, View>, nonce: nat): View {
    if nonce in views then views[nonce] else View(map[], {}, [])
  }

  function ReceiptOf(v: View, tx: Tx): Receipt { if tx in v.receipts then v.receipts[tx] else Absent }

  predicate InGroup(e: Entry, nonce: nat) { e.status == Broadcast && e.tx.nonce == nonce }

  function Member(nonce: nat): Entry -> bool { (e: Entry) => InGroup(e, nonce) }

  /** The unresolved transactions of a nonce, oldest first. */
  function Group(j: Journal, nonce: nat): seq<Entry> { Filter(j, Member(nonce)) }

  /** The first receipt of a group: throws on disagreement. */
  function FirstMined(group: seq<Entry>, v: View): Result<Option<Tx>> {
    if group == [] then Ok(None)
    else
      match ReceiptOf(v, group[0].tx)
      case Disagreement => Failure
      case Agreed => Ok(Some(group[0].tx))
      case Absent => FirstMined(group[1..], v)
  }

  predicate AnySeen(group: seq<Entry>, v: View) { exists i :: 0 <= i < |group| && group[i].tx in v.seen }

  datatype Verdict = Verdict(status: Status, mined: Option<Tx>)

  /** What the answers decide about one nonce: None is a throw. With no provider every receipt of none counts as agreed, and
      reading the one that is not there throws. */
  function Judge(group: seq<Entry>, nonce: nat, v: View): Option<Verdict> {
    match FirstMined(group, v)
    case Failure => None
    case Ok(Some(tx)) => if v.counts == [] then None else Some(Verdict(Replaced, Some(tx)))
    case Ok(None) =>
      if v.counts == [] || AnySeen(group, v) then None
      else if forall i :: 0 <= i < |v.counts| ==> v.counts[i] > nonce then Some(Verdict(Consumed, None))
      else if forall i :: 0 <= i < |v.counts| ==> v.counts[i] <= nonce then Some(Verdict(Dropped, None))
      else None
  }

  /** One nonce settled: the transactions asked about are those listed at the start, the rows written those of now. */
  function SettleNonce(listed: Journal, j: Journal, nonce: nat, v: View): Option<Journal> {
    var r := Judge(Group(listed, nonce), nonce, v);
    if r.None? then None else Some(ResolvedNonce(j, nonce, r.value.status, r.value.mined))
  }

  /** Into an ascending list, once. */
  function Insert(n: nat, s: seq<nat>): seq<nat> {
    if s == [] || n < s[0] then [n] + s else if n == s[0] then s else [s[0]] + Insert(n, s[1..])
  }

  /** The nonces with an unresolved row, in order: the keys of the map that reconciliation walks. */
  function Nonces(j: Journal): seq<nat> {
    if j == [] then []
    else if j[0].status == Broadcast then Insert(j[0].tx.nonce, Nonces(j[1..])) else Nonces(j[1..])
  }

  predicate Ascending(s: seq<nat>) {
    s == [] || ((forall x :: x in s[1..] ==> s[0] < x) && Ascending(s[1..]))
  }

  lemma {:induction false} InsertMembers(n: nat, s: seq<nat>)
    requires Ascending(s)
    ensures Ascending(Insert(n, s)) && forall x :: x in Insert(n, s) <==> x == n || x in s
  {
    if s != [] {
      assert s == [s[0]] + s[1..];
      if n < s[0] {
        assert ([n] + s)[1..] == s;
      } else if n > s[0] {
        InsertMembers(n, s[1..]);
        assert ([s[0]] + Insert(n, s[1..]))[1..] == Insert(n, s[1..]);
      }
    } else {
      assert Insert(n, s) == [n] && [n][1..] == [];
    }
  }

  lemma {:induction false} AscendingFresh(s: seq<nat>, k: nat)
    requires Ascending(s) && k < |s|
    ensures s[k] !in s[..k]
  {
    if k > 0 {
      AscendingFresh(s[1..], k - 1);
      assert s[..k] == [s[0]] + s[1..][..k - 1];
      assert s[k] == s[1..][k - 1] && s[1..][k - 1] in s[1..];
    }
  }

  lemma {:induction false} NoncesMembers(j: Journal)
    ensures Ascending(Nonces(j))
    ensures forall n :: n in Nonces(j) <==> exists i :: 0 <= i < |j| && InGroup(j[i], n)
  {
    if j != [] {
      NoncesMembers(j[1..]);
      if j[0].status == Broadcast { InsertMembers(j[0].tx.nonce, Nonces(j[1..])); }
      assert j == [j[0]] + j[1..];
      forall n
        ensures n in Nonces(j) <==> exists i :: 0 <= i < |j| && InGroup(j[i], n)
      {
        if i: nat :| i < |j[1..]| && InGroup(j[1..][i], n) {
          assert InGroup(j[i + 1], n);
        }
        if InGroup(j[0], n) {
          assert n in Nonces(j);
        }
      }
    }
  }

  predicate Spent(nonce: nat, v: View) { forall i :: 0 <= i < |v.counts| ==> v.counts[i] > nonce }

  predicate Free(nonce: nat, v: View) { forall i :: 0 <= i < |v.counts| ==> v.counts[i] <= nonce }

  /** What reconciliation may do to a row, given what it had listed. */
  ghost predicate Judged(listed: Journal, before: Entry, after: Entry, v: View) {
    && after.tx == before.tx
    && (after != before ==>
          match after.status
          case Broadcast => false
          case Mined => ReceiptOf(v, before.tx) == Agreed
          case Replaced =>
            before.status == Broadcast
            && exists tx: Tx :: ReceiptOf(v, tx) == Agreed && tx.nonce == before.tx.nonce && tx != before.tx
          case Consumed => before.status == Broadcast && v.counts != [] && Spent(before.tx.nonce, v)
          case Dropped =>
            && before.status == Broadcast && v.counts != [] && Free(before.tx.nonce, v)
            && (before in listed ==> before.tx !in v.seen && ReceiptOf(v, before.tx) == Absent))
  }

  lemma {:induction false} FirstMinedFacts(group: seq<Entry>, v: View)
    ensures FirstMined(group, v) == Ok(None) ==> forall i :: 0 <= i < |group| ==> ReceiptOf(v, group[i].tx) == Absent
    ensures FirstMined(group, v).Ok? && FirstMined(group, v).value.Some? ==>
      (ReceiptOf(v, FirstMined(group, v).value.value) == Agreed
       && exists i :: 0 <= i < |group| && group[i].tx == FirstMined(group, v).value.value)
  {
    if group != [] {
      FirstMinedFacts(group[1..], v);
      assert group == [group[0]] + group[1..];
    }
  }

  /** Settling a nonce leaves none of its rows unresolved, touches no other, and judges each. */
  lemma SettleJudges(listed: Journal, j: Journal, nonce: nat, v: View)
    requires SettleNonce(listed, j, nonce, v).Some?
    ensures var after := SettleNonce(listed, j, nonce, v).value;
      && |after| == |j|
      && forall i :: 0 <= i < |j| ==>
           && Judged(listed, j[i], after[i], v)
           && (if j[i].tx.nonce == nonce then after[i].status != Broadcast else after[i] == j[i])
  {
    var group, after := Group(listed, nonce), SettleNonce(listed, j, nonce, v).value;
    var first := FirstMined(group, v);
    FirstMinedFacts(group, v);
    if first.value.Some? {
      var k :| 0 <= k < |group| && group[k].tx == first.value.value;
      FilterKeeps(listed, Member(nonce), group[k]);
      assert group[k] in group;
    }
    forall i | 0 <= i < |j|
      ensures Judged(listed, j[i], after[i], v)
      ensures if j[i].tx.nonce == nonce then after[i].status != Broadcast else after[i] == j[i]
    {
      FilterKeeps(listed, Member(nonce), j[i]);
      if first.value.Some? {
        assert ReceiptOf(v, first.value.value) == Agreed;
      } else if InGroup(j[i], nonce) && j[i] in listed {
        var k :| 0 <= k < |group| && group[k] == j[i];
      }
    }
  }

  /** The answers about every one of these nonces decide something. */
  predicate Decided(listed: Journal, nonces: seq<nat>, views: map<nat, View>) {
    forall n :: n in nonces ==> Judge(Group(listed, n), n, ViewOf(views, n)).Some?
  }

  ghost predicate AllJudged(listed: Journal, j: Journal, views: map<nat, View>) {
    |j| == |listed| && forall i :: 0 <= i < |j| ==> Judged(listed, listed[i], j[i], ViewOf(views, j[i].tx.nonce))
  }

  /** Reconciliation after it settled the nonces in `done`. */
  ghost predicate SettledSoFar(listed: Journal, j: Journal, done: seq<nat>, views: map<nat, View>) {
    && |j| == |listed|
    && forall i :: 0 <= i < |j| ==>
         if listed[i].tx.nonce in done
         then Judged(listed, listed[i], j[i], ViewOf(views, listed[i].tx.nonce)) && j[i].status != Broadcast
         else j[i] == listed[i]
  }

  lemma SettledNext(listed: Journal, j: Journal, done: seq<nat>, nonce: nat, views: map<nat, View>)
    requires SettledSoFar(listed, j, done, views) && nonce !in done
    requires SettleNonce(listed, j, nonce, ViewOf(views, nonce)).Some?
    ensures SettledSoFar(listed, SettleNonce(listed, j, nonce, ViewOf(views, nonce)).value, done + [nonce], views)
  {
    SettleJudges(listed, j, nonce, ViewOf(views, nonce));
  }

  lemma TakenNext(todo: seq<nat>, k: nat)
    requires Ascending(todo) && k < |todo|
    ensures todo[k] !in todo[..k] && todo[..k + 1] == todo[..k] + [todo[k]] && todo[k..][1..] == todo[k + 1..]
  {
    AscendingFresh(todo, k);
  }

  lemma Undecided(listed: Journal, todo: seq<nat>, k: nat, views: map<nat, View>)
    requires k < |todo| && Judge(Group(listed, todo[k]), todo[k], ViewOf(views, todo[k])).None?
    ensures !Decided(listed, todo, views)
  {
    assert todo[k] in todo;
  }

  lemma SettledPart(listed: Journal, j: Journal, done: seq<nat>, views: map<nat, View>)
    requires SettledSoFar(listed, j, done, views)
    ensures AllJudged(listed, j, views)
    ensures done == Nonces(listed) ==> AllResolved(j)
  {
    NoncesMembers(listed);
    forall i | 0 <= i < |j| && done == Nonces(listed)
      ensures j[i].status != Broadcast
    {
      if j[i].status == Broadcast {
        assert InGroup(listed[i], listed[i].tx.nonce);
      }
    }
  }

  // ------------------------------------------------------------ what the answers decide

  /** The row is one reconciliation asks about. */
  predicate Asked(e: Entry, nonce: nat) { e.status == Broadcast && e.tx.nonce == nonce }

  /** The providers agree on receipts for nothing listed before this row, and do not answer "none" for it. */
  predicate FirstAnswered(listed: Journal, nonce: nat, v: View, i: nat) {
    && i < |listed| && Asked(listed[i], nonce) && ReceiptOf(v, listed[i].tx) != Absent
    && forall k :: 0 <= k < i && Asked(listed[k], nonce) ==> ReceiptOf(v, listed[k].tx) == Absent
  }

  /** No provider knows any of the nonce's transactions, mined or not. */
  predicate NothingKnown(listed: Journal, nonce: nat, v: View) {
    forall k :: 0 <= k < |listed| && Asked(listed[k], nonce) ==>
      ReceiptOf(v, listed[k].tx) == Absent && listed[k].tx !in v.seen
  }

  /** The nonce's unresolved rows got this status, but for the mined transaction; no other row changed. */
  ghost predicate Written(before: Journal, after: Journal, nonce: nat, status: Status, mined: Option<Tx>) {
    && |after| == |before|
    && forall k :: 0 <= k < |before| ==>
         after[k] == if mined == Some(before[k].tx) then Entry(before[k].tx, Mined)
                     else if Asked(before[k], nonce) then Entry(before[k].tx, status)
                     else before[k]
  }

  lemma {:induction false} FirstMinedIs(listed: Journal, nonce: nat, v: View, i: nat)
    requires FirstAnswered(listed, nonce, v, i)
    ensures FirstMined(Group(listed, nonce), v)
         == if ReceiptOf(v, listed[i].tx) == Agreed then Ok(Some(listed[i].tx)) else Failure
  {
    var group := Group(listed, nonce);
    if i == 0 {
      assert group[0] == listed[0];
    } else {
      var rest := listed[1..];
      assert FirstAnswered(rest, nonce, v, i - 1) by {
        forall k | 0 <= k < i - 1 && Asked(rest[k], nonce) ensures ReceiptOf(v, rest[k].tx) == Absent {
          assert rest[k] == listed[k + 1];
        }
      }
      FirstMinedIs(rest, nonce, v, i - 1);
      if InGroup(listed[0], nonce) {
        assert group == [listed[0]] + Group(rest, nonce) && group[1..] == Group(rest, nonce);
      } else {
        assert group == Group(rest, nonce);
      }
    }
  }

  lemma {:induction false} FirstMinedNone(group: seq<Entry>, v: View)
    requires forall e :: e in group ==> ReceiptOf(v, e.tx) == Absent
    ensures FirstMined(group, v) == Ok(None)
  {
    if group != [] {
      FirstMinedNone(group[1..], v);
    }
  }

  /** The first row with receipts decides: agreed ones make its transaction the mined one and every other unresolved row
      of the nonce replaced; disagreement, or no provider at all, is a throw. */
  lemma AnsweredDecides(listed: Journal, j: Journal, nonce: nat, v: View, i: nat)
    requires FirstAnswered(listed, nonce, v, i)
    ensures var r := SettleNonce(listed, j, nonce, v);
      && (r.Some? <==> ReceiptOf(v, listed[i].tx) == Agreed && v.counts != [])
      && (r.Some? ==> Written(j, r.value, nonce, Replaced, Some(listed[i].tx)))
  {
    FirstMinedIs(listed, nonce, v, i);
  }

  /** Without receipts the account's counts decide, if there are any and no provider still sees a transaction: all above
      the nonce, and it was consumed elsewhere; all at or below it, and its transactions were dropped; else a throw. */
  lemma CountsDecide(listed: Journal, j: Journal, nonce: nat, v: View)
    requires forall k :: 0 <= k < |listed| && Asked(listed[k], nonce) ==> ReceiptOf(v, listed[k].tx) == Absent
    ensures var r := SettleNonce(listed, j, nonce, v);
      && (r.Some? <==> NothingKnown(listed, nonce, v) && v.counts != [] && (Spent(nonce, v) || Free(nonce, v)))
      && (r.Some? ==> Written(j, r.value, nonce, if Spent(nonce, v) then Consumed else Dropped, None))
  {
    var group := Group(listed, nonce);
    forall e: Entry ensures e in group <==> e in listed && Asked(e, nonce) {
      FilterKeeps(listed, Member(nonce), e);
    }
    FirstMinedNone(group, v);
    assert AnySeen(group, v) <==> exists e :: e in group && e.tx in v.seen;
  }

  // --------------------------------------------------------------------- sending

  /** What a send makes visible, in order. */
  datatype Effect = Journaled(tx: Tx) | Sent(tx: Tx)

  /** How one attempt ends. A replacement is whatever transaction the chain holds instead, an earlier attempt of the
      same send or one signed elsewhere. */
  datatype Answer = Confirmed | Superseded(other: Tx) | TimedOut | Threw

  function ReceiptFor(tx: Tx, a: Answer): Option<Tx> {
    match a
    case Confirmed => Some(tx)
    case Superseded(other) => Some(other)
    case _ => None
  }

  /** Every transaction sent was journaled before. */
  predicate JournaledFirst(effects: seq<Effect>) {
    forall i :: 0 <= i < |effects| && effects[i].Sent? ==> exists k :: 0 <= k < i && effects[k] == Journaled(effects[i].tx)
  }

  function Bumped(gasPrice: nat): nat { gasPrice * 9 / 8 + 1 }

  /** Only the price differs: it is the least above the last one and an eighth of it. */
  predicate Raised(from: Tx, to: Tx) {
    8 * (to.gasPrice - 1) <= 9 * from.gasPrice < 8 * to.gasPrice && to == from.(gasPrice := to.gasPrice)
  }

  /** The transactions one send signs: one nonce, each price more than an eighth above the last, none above the cap. */
  predicate Ladder(txs: seq<Tx>, nonce: nat, cap: nat) {
    txs == [] ||
    (var last := txs[|txs| - 1];
     && last.nonce == nonce && last.gasPrice <= cap && Ladder(txs[..|txs| - 1], nonce, cap)
     && (|txs| > 1 ==> Raised(txs[|txs| - 2], last)))
  }

  lemma {:induction false} LadderRises(txs: seq<Tx>, nonce: nat, cap: nat, i: nat, k: nat)
    requires Ladder(txs, nonce, cap) && i < k < |txs|
    ensures txs[i].nonce == txs[k].nonce == nonce && 8 * txs[k].gasPrice > 9 * txs[i].gasPrice && txs[k].gasPrice <= cap
  {
    var front := txs[..|txs| - 1];
    if k < |front| {
      LadderRises(front, nonce, cap, i, k);
    } else if i < |front| - 1 {
      LadderRises(front, nonce, cap, i, k - 1);
    } else {
      assert front[i].nonce == nonce;
    }
  }

  function RecordAll(j: Journal, txs: seq<Tx>): Journal {
    if txs == [] then j else Recorded(RecordAll(j, txs[..|txs| - 1]), txs[|txs| - 1])
  }

  function EffectsOf(txs: seq<Tx>): seq<Effect> {
    if txs == [] then [] else EffectsOf(txs[..|txs| - 1]) + [Journaled(txs[|txs| - 1]), Sent(txs[|txs| - 1])]
  }

  /** No attempt is left, or the next price would pass the cap. */
  predicate Exhausted(txs: seq<Tx>, cap: nat, maximumAttempts: nat)
    requires txs != []
  {
    |txs| == maximumAttempts || 9 * txs[|txs| - 1].gasPrice >= 8 * cap
  }

  /** The answer to attempt i; a wait without one times out. */
  function AnswerTo(answers: seq<Answer>, i: nat): Answer { if i < |answers| then answers[i] else TimedOut }

  predicate TimedOutBefore(answers: seq<Answer>, n: int)
    decreases n
  {
    n <= 0 || (AnswerTo(answers, n - 1) == TimedOut && TimedOutBefore(answers, n - 1))
  }

  /** `tx` is the next rung after `txs`. */
  predicate Upcoming(txs: seq<Tx>, tx: Tx, first: Tx, cap: nat) {
    Ladder(txs + [tx], first.nonce, cap) && (txs + [tx])[0] == first
  }

  lemma UpcomingNext(txs: seq<Tx>, tx: Tx, first: Tx, cap: nat)
    requires Upcoming(txs, tx, first, cap) && Bumped(tx.gasPrice) <= cap
    ensures Upcoming(txs + [tx], tx.(gasPrice := Bumped(tx.gasPrice)), first, cap)
  {
    var all := txs + [tx];
    var next := tx.(gasPrice := Bumped(tx.gasPrice));
    assert (all + [next])[..|all|] == all && (all + [next])[|all| - 1] == tx;
  }

  /** How far a send got: `next` is what it signs next, if it goes on. */
  predicate Climbed(txs: seq<Tx>, next: Option<Tx>, first: Tx, cap: nat, answers: seq<Answer>, receipt: Option<Tx>) {
    match next
    case Some(tx) => Upcoming(txs, tx, first, cap) && receipt == None && TimedOutBefore(answers, |txs|)
    case None =>
      && txs != [] && txs[0] == first && Ladder(txs, first.nonce, cap)
      && receipt == ReceiptFor(txs[|txs| - 1], AnswerTo(answers, |txs| - 1)) && TimedOutBefore(answers, |txs| - 1)
  }

  lemma ClimbedNone(first: Tx, cap: nat, answers: seq<Answer>)
    requires first.gasPrice <= cap
    ensures Climbed([], Some(first), first, cap, answers, None)
  {
    assert [] + [first] == [first] && [first][..0] == [];
  }

  lemma ClimbedNext(txs: seq<Tx>, tx: Tx, first: Tx, cap: nat, answers: seq<Answer>, next: Option<Tx>)
    requires Climbed(txs, Some(tx), first, cap, answers, None)
    requires next.Some? ==>
      AnswerTo(answers, |txs|) == TimedOut && Bumped(tx.gasPrice) <= cap && next.value == tx.(gasPrice := Bumped(tx.gasPrice))
    ensures Climbed(txs + [tx], next, first, cap, answers, ReceiptFor(tx, AnswerTo(answers, |txs|)))
  {
    if next.Some? { UpcomingNext(txs, tx, first, cap); }
  }

  /** Everything in `txs` was journaled and sent. */
  predicate SentAll(j: Journal, effects: seq<Effect>, j': Journal, effects': seq<Effect>, txs: seq<Tx>) {
    j' == RecordAll(j, txs) && effects' == effects + EffectsOf(txs)
  }

  lemma SentNext(j: Journal, effects: seq<Effect>, j': Journal, effects': seq<Effect>, txs: seq<Tx>, tx: Tx)
    requires SentAll(j, effects, j', effects', txs)
    ensures SentAll(j, effects, Recorded(j', tx), effects' + [Journaled(tx), Sent(tx)], txs + [tx])
  {
    RecordedNext(j, effects, txs, tx);
  }

  lemma RecordedNext(j: Journal, effects: seq<Effect>, txs: seq<Tx>, tx: Tx)
    ensures RecordAll(j, txs + [tx]) == Recorded(RecordAll(j, txs), tx)
    ensures effects + EffectsOf(txs + [tx]) == effects + EffectsOf(txs) + [Journaled(tx), Sent(tx)]
  {
    assert (txs + [tx])[..|txs + [tx]| - 1] == txs;
  }

  // ----------------------------------------------------- the program, one atomic action at a time

  datatype Stage = ToJournal | ToBroadcast | Awaiting

  /** Where the holder of the relayer lock is. `left` counts the attempts from this one on. */
  datatype Phase =
    | Idle
    | Reconciling(listed: Journal, todo: seq<nat>)
    | Sending(tx: Tx, stage: Stage, cap: nat, left: nat)

  /** The journal, the effects so far, and the receipts that sends returned and whose row may still be marked: that
      happens after the lock is released, or never. */
  datatype Local = Local(journal: Journal, effects: seq<Effect>, phase: Phase, receipts: set<Tx>)

  /** One database statement or transaction, one broadcast, or one answer. Stop is a throw, a lost connection or the death
      of the process, wherever it is. */
  datatype Action =
    | Acquire
    | Settle(v: View)
    | Choose(first: Tx, cap: nat, maximumAttempts: nat)
    | Note
    | Emit
    | TimeOut
    | Receive(tx: Tx)
    | Mark(tx: Tx)
    | Stop

  /** The program counter. */
  predicate Enabled(l: Local, a: Action) {
    match a
    case Acquire => l.phase.Idle?
    case Settle(v) => l.phase.Reconciling? && l.phase.todo != []
    case Choose(first, cap, maximumAttempts) =>
      l.phase.Reconciling? && l.phase.todo == [] && first.gasPrice <= cap && maximumAttempts > 0
    case Note => l.phase.Sending? && l.phase.stage == ToJournal
    case Emit => l.phase.Sending? && l.phase.stage == ToBroadcast
    case TimeOut => l.phase.Sending? && l.phase.stage == Awaiting
    case Receive(tx) => l.phase.Sending? && l.phase.stage == Awaiting
    case Mark(tx) => tx in l.receipts
    case Stop => true
  }

  function Act(l: Local, a: Action): Local
    requires Enabled(l, a)
  {
    match a
    case Acquire => l.(phase := Reconciling(l.journal, Nonces(l.journal)))
    case Settle(v) =>
      var after := SettleNonce(l.phase.listed, l.journal, l.phase.todo[0], v);
      if after.None? then l.(phase := Idle)
      else l.(journal := after.value, phase := l.phase.(todo := l.phase.todo[1..]))
    case Choose(first, cap, maximumAttempts) => l.(phase := Sending(first, ToJournal, cap, maximumAttempts))
    case Note =>
      l.(journal := Recorded(l.journal, l.phase.tx), effects := l.effects + [Journaled(l.phase.tx)],
         phase := l.phase.(stage := ToBroadcast))
    case Emit => l.(effects := l.effects + [Sent(l.phase.tx)], phase := l.phase.(stage := Awaiting))
    case TimeOut =>
      var bumped := Bumped(l.phase.tx.gasPrice);
      if bumped > l.phase.cap || l.phase.left <= 1 then l.(phase := Idle)
      else l.(phase := Sending(l.phase.tx.(gasPrice := bumped), ToJournal, l.phase.cap, l.phase.left - 1))
    case Receive(tx) => l.(phase := Idle, receipts := l.receipts + {tx})
    case Mark(tx) => l.(journal := MarkedMined(l.journal, tx))
    case Stop => l.(phase := Idle)
  }

  /** The program after some actions, if it can take them. */
  function Acts(l: Local, actions: seq<Action>): Option<Local> {
    if actions == [] then Some(l)
    else
      match Acts(l, actions[..|actions| - 1])
      case None => None
      case Some(m) => if Enabled(m, actions[|actions| - 1]) then Some(Act(m, actions[|actions| - 1])) else None
  }

  lemma ActsNext(l: Local, actions: seq<Action>, a: Action)
    requires Acts(l, actions).Some? && Enabled(Acts(l, actions).value, a)
    ensures Acts(l, actions + [a]) == Some(Act(Acts(l, actions).value, a))
  {
    assert (actions + [a])[..|actions + [a]| - 1] == actions;
  }

  lemma AttemptActs(start: Local, actions: seq<Action>, l: Local)
    requires Acts(start, actions) == Some(l) && l.phase.Sending? && l.phase.stage == ToJournal
    ensures Acts(start, actions + [Note] + [Emit]) ==
      Some(Local(Recorded(l.journal, l.phase.tx), l.effects + [Journaled(l.phase.tx), Sent(l.phase.tx)],
                 l.phase.(stage := Awaiting), l.receipts))
  {
    ActsNext(start, actions, Note);
    ActsNext(start, actions + [Note], Emit);
    assert l.effects + [Journaled(l.phase.tx)] + [Sent(l.phase.tx)] == l.effects + [Journaled(l.phase.tx), Sent(l.phase.tx)];
  }

  lemma SettleActs(start: Local, actions: seq<Action>, l: Local, v: View)
    requires Acts(start, actions) == Some(l) && l.phase.Reconciling? && l.phase.todo != []
    ensures var settled := SettleNonce(l.phase.listed, l.journal, l.phase.todo[0], v);
      Acts(start, actions + [Settle(v)]) == Some(
        if settled.None? then l.(phase := Idle)
        else l.(journal := settled.value, phase := l.phase.(todo := l.phase.todo[1..])))
  {
    ActsNext(start, actions, Settle(v));
  }

  lemma RaiseActs(start: Local, actions: seq<Action>, l: Local)
    requires Acts(start, actions) == Some(l) && l.phase.Sending? && l.phase.stage == Awaiting
    ensures var bumped := Bumped(l.phase.tx.gasPrice);
      Acts(start, actions + [TimeOut]) == Some(l.(phase :=
        if bumped > l.phase.cap || l.phase.left <= 1 then Idle
        else Sending(l.phase.tx.(gasPrice := bumped), ToJournal, l.phase.cap, l.phase.left - 1)))
  {
    ActsNext(start, actions, TimeOut);
  }

  lemma ReceiveActs(start: Local, actions: seq<Action>, l: Local, tx: Tx)
    requires Acts(start, actions) == Some(l) && l.phase.Sending? && l.phase.stage == Awaiting
    ensures Acts(start, actions + [Receive(tx)]) == Some(l.(phase := Idle, receipts := l.receipts + {tx}))
  {
    ActsNext(start, actions, Receive(tx));
  }

  lemma StopActs(start: Local, actions: seq<Action>, l: Local)
    requires Acts(start, actions) == Some(l)
    ensures Acts(start, actions + [Stop]) == Some(l.(phase := Idle))
  {
    ActsNext(start, actions, Stop);
  }

  lemma {:induction false} ActsPrefix(l: Local, actions: seq<Action>, n: nat)
    requires Acts(l, actions).Some? && n <= |actions|
    ensures Acts(l, actions[..n]).Some?
  {
    if n < |actions| {
      ActsPrefix(l, actions[..|actions| - 1], n);
      assert actions[..|actions| - 1][..n] == actions[..n];
    } else {
      assert actions[..n] == actions;
    }
  }

  /** A crash may cut any operation after any of its actions. */
  lemma CutAnywhere(l: Local, actions: seq<Action>, n: nat)
    requires Acts(l, actions).Some? && n <= |actions|
    ensures Acts(l, actions[..n]).Some?
    ensures Acts(l, actions[..n] + [Stop]) == Some(Acts(l, actions[..n]).value.(phase := Idle))
  {
    ActsPrefix(l, actions, n);
    ActsNext(l, actions[..n], Stop);
  }

  lemma {:induction false} ActsChained(l: Local, a: seq<Action>, b: seq<Action>)
    requires Acts(l, a).Some?
    ensures Acts(l, a + b) == Acts(Acts(l, a).value, b)
  {
    if b == [] {
      assert a + b == a;
    } else {
      ActsChained(l, a, b[..|b| - 1]);
      assert (a + b)[..|a + b| - 1] == a + b[..|b| - 1];
    }
  }

  // ------------------------------------------------------------------- the operations

  class Relayer {
    var journal: Journal
    var effects: seq<Effect>
    var receipts: set<Tx>

    constructor ()
      ensures At(Idle) == Local([], [], Idle, {})
    {
      journal, effects, receipts := [], [], {};
    }

    ghost function At(phase: Phase): Local
      reads this
    {
      Local(journal, effects, phase, receipts)
    }

    /** recordBroadcast, called before the broadcast. */
    method RecordBroadcast(tx: Tx)
      modifies `journal, `effects
      ensures journal == Recorded(old(journal), tx) && effects == old(effects) + [Journaled(tx)]
    {
      if !Lists(journal, tx) { journal := journal + [Entry(tx, Broadcast)]; }
      effects := effects + [Journaled(tx)];
    }

    /** Journal, then broadcast. */
    method BroadcastOnce(tx: Tx)
      modifies `journal, `effects
      ensures journal == Recorded(old(journal), tx) && effects == old(effects) + [Journaled(tx), Sent(tx)]
    {
      RecordBroadcast(tx);
      effects := effects + [Sent(tx)];
    }

    method MarkMined(tx: Tx)
      modifies `journal
      ensures journal == MarkedMined(old(journal), tx)
    {
      journal := MarkedMined(journal, tx);
    }

    /** reconcileRelayerTransactions: false is a throw. It throws exactly when the answers about some listed nonce decide
        nothing. */
    method Reconcile(views: map<nat, View>) returns (ok: bool, ghost trace: seq<Action>)
      modifies `journal
      ensures ok <==> Decided(old(journal), Nonces(old(journal)), views)
      ensures ok ==> AllResolved(journal)
      ensures AllJudged(old(journal), journal, views)
      ensures Acts(old(At(Idle)), trace) == Some(At(if ok then Reconciling(old(journal), []) else Idle))
    {
      var listed := journal;
      var todo := Nonces(listed);
      NoncesMembers(listed);
      var k := 0;
      trace := [Acquire];
      ActsNext(old(At(Idle)), [], Acquire);
      assert [] + [Acquire] == [Acquire] && todo[0..] == todo;
      while k < |todo|
        invariant 0 <= k <= |todo|
        invariant Decided(listed, todo[..k], views) && SettledSoFar(listed, journal, todo[..k], views)
        invariant Acts(old(At(Idle)), trace) == Some(At(Reconciling(listed, todo[k..])))
      {
        var v := ViewOf(views, todo[k]);
        SettleActs(old(At(Idle)), trace, At(Reconciling(listed, todo[k..])), v);
        trace := trace + [Settle(v)];
        var settled := SettleNonce(listed, journal, todo[k], v);
        if settled.None? {
          Undecided(listed, todo, k, views);
          SettledPart(listed, journal, todo[..k], views);
          return false, trace;
        }
        TakenNext(todo, k);
        SettledNext(listed, journal, todo[..k], todo[k], views);
        journal := settled.value;
        k := k + 1;
      }
      assert todo[..k] == todo && todo[k..] == [];
      SettledPart(listed, journal, todo, views);
      ok := true;
    }

    /** One attempt: journal, broadcast, wait, and on a timeout price the next. */
    method Attempt(tx: Tx, answer: Answer, maxGasPrice: nat, left: nat)
      returns (receipt: Option<Tx>, next: Option<Tx>, ghost trace: seq<Action>)
      modifies this
      ensures journal == Recorded(old(journal), tx) && effects == old(effects) + [Journaled(tx), Sent(tx)]
      ensures receipt == ReceiptFor(tx, answer)
      ensures if receipt.Some? then receipts == old(receipts) + {receipt.value} else receipts == old(receipts)
      ensures next.Some? <==> answer == TimedOut && Bumped(tx.gasPrice) <= maxGasPrice && left > 1
      ensures next.Some? ==> next.value == tx.(gasPrice := Bumped(tx.gasPrice)) && receipt == None
      ensures Acts(old(At(Sending(tx, ToJournal, maxGasPrice, left))), trace) ==
        Some(At(if next.Some? then Sending(next.value, ToJournal, maxGasPrice, left - 1) else Idle))
    {
      ghost var start := At(Sending(tx, ToJournal, maxGasPrice, left));
      AttemptActs(start, [], start);
      BroadcastOnce(tx);
      trace := [] + [Note] + [Emit];
      ghost var now := At(Sending(tx, Awaiting, maxGasPrice, left));
      receipt, next := ReceiptFor(tx, answer), None;
      if receipt.Some? {
        ReceiveActs(start, trace, now, receipt.value);
        trace := trace + [Receive(receipt.value)];
        receipts := receipts + {receipt.value};
      } else if answer == Threw {
        StopActs(start, trace, now);
        trace := trace + [Stop];
      } else {
        RaiseActs(start, trace, now);
        trace := trace + [TimeOut];
        var bumped := Bumped(tx.gasPrice);
        if bumped <= maxGasPrice && left > 1 { next := Some(tx.(gasPrice := bumped)); }
      }
    }

    /** The attempts, the first of them at `first`. */
    method Climb(first: Tx, maxGasPrice: nat, maximumAttempts: nat, answers: seq<Answer>)
      returns (txs: seq<Tx>, receipt: Option<Tx>, ghost trace: seq<Action>)
      requires maximumAttempts > 0 && first.gasPrice <= maxGasPrice
      modifies this
      ensures |txs| <= maximumAttempts && Climbed(txs, None, first, maxGasPrice, answers, receipt)
      ensures AnswerTo(answers, |txs| - 1) == TimedOut ==> Exhausted(txs, maxGasPrice, maximumAttempts)
      ensures SentAll(old(journal), old(effects), journal, effects, txs)
      ensures if receipt.Some? then receipts == old(receipts) + {receipt.value} else receipts == old(receipts)
      ensures Acts(old(At(Sending(first, ToJournal, maxGasPrice, maximumAttempts))), trace) == Some(At(Idle))
    {
      ghost var start := At(Sending(first, ToJournal, maxGasPrice, maximumAttempts));
      txs, receipt, trace := [], None, [];
      var next := Some(first);
      ClimbedNone(first, maxGasPrice, answers);
      while next.Some?
        invariant |txs| <= maximumAttempts && (next.Some? ==> |txs| < maximumAttempts && receipt == None)
        invariant Climbed(txs, next, first, maxGasPrice, answers, receipt)
        invariant next.None? && AnswerTo(answers, |txs| - 1) == TimedOut ==> Exhausted(txs, maxGasPrice, maximumAttempts)
        invariant SentAll(old(journal), old(effects), journal, effects, txs)
        invariant if receipt.Some? then receipts == old(receipts) + {receipt.value} else receipts == old(receipts)
        invariant Acts(start, trace) == Some(At(
                    if next.Some? then Sending(next.value, ToJournal, maxGasPrice, maximumAttempts - |txs|) else Idle))
        decreases maximumAttempts - |txs|
      {
        var tx := next.value;
        ghost var done := trace;
        SentNext(old(journal), old(effects), journal, effects, txs, tx);
        receipt, next, trace := Attempt(tx, AnswerTo(answers, |txs|), maxGasPrice, maximumAttempts - |txs|);
        ActsChained(start, done, trace);
        ClimbedNext(txs, tx, first, maxGasPrice, answers, next);
        trace := done + trace;
        txs := txs + [tx];
      }
    }

    /** sendWithReplacement, after a reconciliation that listed `listed`. Answers are the environment's, one per
        attempt. */
    method SendWithReplacement(nonce: nat, gasLimit: nat, payload: nat, quoted: nat, maxGasPrice: nat,
                               maximumAttempts: nat, answers: seq<Answer>, ghost listed: Journal)
      returns (txs: seq<Tx>, receipt: Option<Tx>, ghost trace: seq<Action>)
      requires maximumAttempts > 0
      modifies this
      ensures quoted > maxGasPrice <==> txs == []
      ensures |txs| <= maximumAttempts && Ladder(txs, nonce, maxGasPrice)
      ensures txs != [] ==> txs[0] == Tx(nonce, quoted, gasLimit, payload)
      ensures SentAll(old(journal), old(effects), journal, effects, txs)
      ensures receipt == if txs == [] then None else ReceiptFor(txs[|txs| - 1], AnswerTo(answers, |txs| - 1))
      ensures TimedOutBefore(answers, |txs| - 1)
      ensures txs != [] && AnswerTo(answers, |txs| - 1) == TimedOut ==> Exhausted(txs, maxGasPrice, maximumAttempts)
      ensures if receipt.Some? then receipts == old(receipts) + {receipt.value} else receipts == old(receipts)
      ensures Acts(old(At(Reconciling(listed, []))), trace) == Some(At(Idle))
    {
      ghost var start := At(Reconciling(listed, []));
      if quoted > maxGasPrice {
        txs, receipt, trace := [], None, [] + [Stop];
        StopActs(start, [], start);
        return;
      }
      var first := Tx(nonce, quoted, gasLimit, payload);
      ghost var chosen := [] + [Choose(first, maxGasPrice, maximumAttempts)];
      ActsNext(start, [], Choose(first, maxGasPrice, maximumAttempts));
      txs, receipt, trace := Climb(first, maxGasPrice, maximumAttempts, answers);
      ActsChained(start, chosen, trace);
      trace := chosen + trace;
    }

    /** sendPostgresTransaction: reconcile and send under the relayer lock, then mark the row of the receipt, unless
        that write fails. */
    method SendTransaction(views: map<nat, View>, nonce: nat, gasLimit: nat, payload: nat, quoted: nat, maxGasPrice: nat,
                           maximumAttempts: nat, answers: seq<Answer>, writable: bool)
      returns (ghost chosen: Journal, txs: seq<Tx>, receipt: Option<Tx>, ghost trace: seq<Action>)
      requires maximumAttempts > 0
      modifies this
      ensures AllJudged(old(journal), chosen, views)
      ensures txs != [] ==> AllResolved(chosen) && Ladder(txs, nonce, maxGasPrice)
      ensures effects == old(effects) + EffectsOf(txs)
      ensures receipt == if txs == [] then None else ReceiptFor(txs[|txs| - 1], AnswerTo(answers, |txs| - 1))
      ensures journal ==
        if receipt.Some? && writable then MarkedMined(RecordAll(chosen, txs), receipt.value) else RecordAll(chosen, txs)
      ensures Acts(old(At(Idle)), trace) == Some(At(Idle))
    {
      ghost var listed := journal;
      var ok;
      ok, trace := Reconcile(views);
      chosen := journal;
      txs, receipt := [], None;
      if !ok { return; }
      ghost var sending;
      txs, receipt, sending :=
        SendWithReplacement(nonce, gasLimit, payload, quoted, maxGasPrice, maximumAttempts, answers, listed);
      ActsChained(old(At(Idle)), trace, sending);
      trace := trace + sending;
      if receipt.Some? && writable {
        ActsNext(old(At(Idle)), trace, Mark(receipt.value));
        MarkMined(receipt.value);
        trace := trace + [Mark(receipt.value)];
      }
    }
  }

  // ------------------------------------------------------------------------- runs

  /** The program and the relayer's transactions on chain, in order. */
  datatype World = World(local: Local, chain: seq<Tx>)

  datatype Step = Do(action: Action) | Mine(tx: Tx)

  /** Providers give receipts only for what the chain holds, and count no more than it holds. They may lag. */
  predicate Honest(chain: seq<Tx>, a: Action) {
    match a
    case Settle(v) =>
      && (forall tx :: tx in v.receipts && v.receipts[tx] == Agreed ==> tx in chain)
      && forall i :: 0 <= i < |v.counts| ==> v.counts[i] <= |chain|
    case Receive(tx) => tx in chain
    case _ => true
  }

  /** The chain takes what was sent, in the order of nonces. */
  predicate Allowed(w: World, s: Step) {
    match s
    case Do(a) => Enabled(w.local, a) && Honest(w.chain, a)
    case Mine(tx) => Sent(tx) in w.local.effects && tx.nonce == |w.chain|
  }

  function Apply(w: World, s: Step): World
    requires Allowed(w, s)
  {
    match s
    case Do(a) => w.(local := Act(w.local, a))
    case Mine(tx) => w.(chain := w.chain + [tx])
  }

  predicate Run(w: World, steps: seq<Step>, w': World)
    decreases |steps|
  {
    if steps == [] then w' == w else Allowed(w, steps[0]) && Run(Apply(w, steps[0]), steps[1..], w')
  }

  /** A new journal for an account that may have sent before. */
  function Deployed(before: seq<Tx>): World { World(Local([], [], Idle, {}), before) }

  predicate Numbered(chain: seq<Tx>) { forall k :: 0 <= k < |chain| ==> chain[k].nonce == k }

  /** No row of another nonce is unresolved. */
  predicate OnlyOpen(j: Journal, nonce: nat) {
    forall i :: 0 <= i < |j| && j[i].status == Broadcast ==> j[i].tx.nonce == nonce
  }

  /** Unresolved rows share their nonce. */
  predicate OneOpen(j: Journal) {
    forall i, k :: 0 <= i < |j| && 0 <= k < |j| && j[i].status == Broadcast && j[k].status == Broadcast ==>
      j[i].tx.nonce == j[k].tx.nonce
  }

  /** What is unresolved is an earlier rung, or this one once it is journaled. */
  predicate Cheaper(j: Journal, tx: Tx, stage: Stage) {
    forall i :: 0 <= i < |j| && j[i].status == Broadcast ==>
      j[i].tx.gasPrice < tx.gasPrice || (stage != ToJournal && j[i].tx.gasPrice == tx.gasPrice)
  }

  predicate PhaseKept(j: Journal, effects: seq<Effect>, phase: Phase) {
    match phase
    case Idle => true
    case Reconciling(_, todo) => forall i :: 0 <= i < |j| && j[i].status == Broadcast ==> j[i].tx.nonce in todo
    case Sending(tx, stage, _, _) =>
      OnlyOpen(j, tx.nonce) && Cheaper(j, tx, stage) && (stage == ToBroadcast ==> Journaled(tx) in effects)
  }

  /** What a row says is so on chain. */
  predicate RowKept(e: Entry, chain: seq<Tx>) {
    match e.status
    case Mined => e.tx in chain
    case Replaced => e.tx.nonce < |chain| && chain[e.tx.nonce] != e.tx
    case Consumed => e.tx.nonce < |chain|
    case _ => true
  }

  predicate EffectsKept(j: Journal, effects: seq<Effect>) {
    && JournaledFirst(effects)
    && forall i :: 0 <= i < |effects| ==> Lists(j, effects[i].tx)
  }

  predicate ChainKept(w: World, before: seq<Tx>) {
    && Numbered(w.chain) && before <= w.chain
    && forall k :: |before| <= k < |w.chain| ==> Sent(w.chain[k]) in w.local.effects
  }

  predicate Kept(w: World, before: seq<Tx>) {
    var l := w.local;
    && Unique(l.journal) && OneOpen(l.journal) && PhaseKept(l.journal, l.effects, l.phase)
    && (forall i :: 0 <= i < |l.journal| ==> RowKept(l.journal[i], w.chain))
    && EffectsKept(l.journal, l.effects) && ChainKept(w, before)
    && forall tx :: tx in l.receipts ==> tx in w.chain
  }

  /** The rows stay, in place, and more may follow. */
  predicate SameRows(j: Journal, j': Journal) { |j| <= |j'| && forall i :: 0 <= i < |j| ==> j'[i].tx == j[i].tx }

  lemma ListsKept(j: Journal, j': Journal, effects: seq<Effect>)
    requires SameRows(j, j') && forall i :: 0 <= i < |effects| ==> Lists(j, effects[i].tx)
    ensures forall i :: 0 <= i < |effects| ==> Lists(j', effects[i].tx)
  {
    forall i | 0 <= i < |effects|
      ensures Lists(j', effects[i].tx)
    {
      var k :| 0 <= k < |j| && j[k].tx == effects[i].tx;
      assert j'[k].tx == effects[i].tx;
    }
  }

  lemma SettleKept(w: World, before: seq<Tx>, v: View)
    requires Kept(w, before) && Enabled(w.local, Settle(v)) && Honest(w.chain, Settle(v))
    ensures Kept(Apply(w, Do(Settle(v))), before)
  {
    var l := w.local;
    var nonce, listed := l.phase.todo[0], l.phase.listed;
    var settled := SettleNonce(listed, l.journal, nonce, v);
    if settled.Some? {
      SettleJudges(listed, l.journal, nonce, v);
      var after := settled.value;
      assert SameRows(l.journal, after);
      ListsKept(l.journal, after, l.effects);
      assert l.phase.todo == [nonce] + l.phase.todo[1..];
      forall i | 0 <= i < |after|
        ensures RowKept(after[i], w.chain)
        ensures after[i].status == Broadcast ==> after[i] == l.journal[i] && after[i].tx.nonce in l.phase.todo[1..]
      {
        if after[i] != l.journal[i] && after[i].status == Replaced {
          var tx: Tx :| ReceiptOf(v, tx) == Agreed && tx.nonce == after[i].tx.nonce && tx != after[i].tx;
          assert tx in w.chain;
        }
        if after[i] != l.journal[i] && after[i].status == Consumed {
          assert v.counts[0] > after[i].tx.nonce;
        }
      }
    }
  }

  lemma EffectAppended(effects: seq<Effect>, e: Effect)
    requires JournaledFirst(effects) && (e.Sent? ==> Journaled(e.tx) in effects)
    ensures JournaledFirst(effects + [e]) && forall x :: x in effects ==> x in effects + [e]
  {
    var all := effects + [e];
    forall i | 0 <= i < |all| && all[i].Sent?
      ensures exists k :: 0 <= k < i && all[k] == Journaled(all[i].tx)
    {
      if i < |effects| {
        var k :| 0 <= k < i && effects[k] == Journaled(effects[i].tx);
        assert all[k] == Journaled(all[i].tx);
      } else {
        var k :| 0 <= k < |effects| && effects[k] == Journaled(e.tx);
        assert all[k] == Journaled(all[i].tx);
      }
    }
  }

  lemma NoteKept(w: World, before: seq<Tx>)
    requires Kept(w, before) && Enabled(w.local, Note)
    ensures Kept(Apply(w, Do(Note)), before)
  {
    var l := w.local;
    var l' := Act(l, Note);
    RecordedIsUnresolved(l.journal, l.phase.tx);
    ListsKept(l.journal, l'.journal, l.effects);
    EffectAppended(l.effects, Journaled(l.phase.tx));
    assert l'.effects[|l.effects|] == Journaled(l.phase.tx);
  }

  lemma EmitKept(w: World, before: seq<Tx>)
    requires Kept(w, before) && Enabled(w.local, Emit)
    ensures Kept(Apply(w, Do(Emit)), before)
  {
    var l := w.local;
    EffectAppended(l.effects, Sent(l.phase.tx));
    var k :| 0 <= k < |l.effects| && l.effects[k] == Journaled(l.phase.tx);
    assert Lists(l.journal, l.effects[k].tx);
  }

  lemma MarkKept(w: World, before: seq<Tx>, tx: Tx)
    requires Kept(w, before) && Enabled(w.local, Mark(tx))
    ensures Kept(Apply(w, Do(Mark(tx))), before)
  {
    var l := w.local;
    var l' := Act(l, Mark(tx));
    assert SameRows(l.journal, l'.journal);
    ListsKept(l.journal, l'.journal, l.effects);
    assert forall i :: 0 <= i < |l.journal| && l'.journal[i].status == Broadcast ==> l'.journal[i] == l.journal[i];
  }

  lemma MineKept(w: World, before: seq<Tx>, tx: Tx)
    requires Kept(w, before) && Allowed(w, Mine(tx))
    ensures Kept(Apply(w, Mine(tx)), before)
  {
    var j, chain' := w.local.journal, w.chain + [tx];
    assert forall t :: t in w.chain ==> t in chain';
    forall i | 0 <= i < |j|
      ensures RowKept(j[i], chain')
    {
      assert RowKept(j[i], w.chain);
    }
  }

  lemma ApplyKept(w: World, s: Step, before: seq<Tx>)
    requires Kept(w, before) && Allowed(w, s)
    ensures Kept(Apply(w, s), before)
  {
    match s {
      case Mine(tx) => MineKept(w, before, tx);
      case Do(Settle(v)) => SettleKept(w, before, v);
      case Do(Note) => NoteKept(w, before);
      case Do(Emit) => EmitKept(w, before);
      case Do(Mark(tx)) => MarkKept(w, before, tx);
      case Do(Acquire) =>
        NoncesMembers(w.local.journal);
        assert forall i :: 0 <= i < |w.local.journal| && w.local.journal[i].status == Broadcast ==>
          InGroup(w.local.journal[i], w.local.journal[i].tx.nonce);
      case _ =>
    }
  }

  lemma {:induction false} RunKept(w: World, steps: seq<Step>, w': World, before: seq<Tx>)
    requires Kept(w, before) && Run(w, steps, w')
    ensures Kept(w', before)
    decreases |steps|
  {
    if steps != [] {
      ApplyKept(w, steps[0], before);
      RunKept(Apply(w, steps[0]), steps[1..], w', before);
    }
  }

  /** At every moment of every run, crashes included, each transaction on the wire was journaled before it. */
  lemma EverySendWasJournaled(before: seq<Tx>, steps: seq<Step>, w: World)
    requires Numbered(before) && Run(Deployed(before), steps, w)
    ensures JournaledFirst(w.local.effects)
    ensures forall tx :: Sent(tx) in w.local.effects ==> Lists(w.local.journal, tx)
    ensures forall k :: |before| <= k < |w.chain| ==> Lists(w.local.journal, w.chain[k])
  {
    RunKept(Deployed(before), steps, w, before);
    forall tx | Sent(tx) in w.local.effects
      ensures Lists(w.local.journal, tx)
    {
      var k :| 0 <= k < |w.local.effects| && w.local.effects[k] == Sent(tx);
      assert Lists(w.local.journal, w.local.effects[k].tx);
    }
  }

  /** When a transaction is journaled, no row of another nonce is unresolved; a nonce enters the journal only when no
      row is unresolved at all. */
  lemma FreshNonceWhenResolved(before: seq<Tx>, steps: seq<Step>, w: World)
    requires Numbered(before) && Run(Deployed(before), steps, w) && Allowed(w, Do(Note))
    ensures OnlyOpen(w.local.journal, w.local.phase.tx.nonce)
    ensures (forall i :: 0 <= i < |w.local.journal| ==> w.local.journal[i].tx.nonce != w.local.phase.tx.nonce) ==>
      AllResolved(w.local.journal)
  {
    RunKept(Deployed(before), steps, w, before);
  }

  /** In every run: what a send journals is unresolved afterwards if and only if it is new to the journal. */
  lemma NotedIsOpenExactly(before: seq<Tx>, steps: seq<Step>, w: World)
    requires Numbered(before) && Run(Deployed(before), steps, w) && Allowed(w, Do(Note))
    ensures var tx := w.local.phase.tx;
      Unresolved(Act(w.local, Note).journal, tx) <==> !Lists(w.local.journal, tx)
  {
    RunKept(Deployed(before), steps, w, before);
    RecordedIsUnresolved(w.local.journal, w.local.phase.tx);
  }

  lemma TwoOpen(j: Journal)
    requires |Nonces(j)| >= 2
    ensures !OneOpen(j)
  {
    NoncesMembers(j);
    var a, b := Nonces(j)[0], Nonces(j)[1];
    assert b == Nonces(j)[1..][0] && b in Nonces(j)[1..];
    assert a in Nonces(j) && b in Nonces(j) && a < b;
    var i :| 0 <= i < |j| && InGroup(j[i], a);
    var k :| 0 <= k < |j| && InGroup(j[k], b);
    assert j[i].tx.nonce != j[k].tx.nonce;
  }

  /** So reconciliation never finds more than one open nonce. */
  lemma AtMostOneOpenNonce(before: seq<Tx>, steps: seq<Step>, w: World)
    requires Numbered(before) && Run(Deployed(before), steps, w)
    ensures |Nonces(w.local.journal)| <= 1
  {
    RunKept(Deployed(before), steps, w, before);
    var j := w.local.journal;
    if |Nonces(j)| >= 2 { TwoOpen(j); }
  }

  /** What the journal says of a nonce is so: at most one of its rows is mined, that one is the chain's, a replaced one is
      not on chain and never will be, and a replaced or consumed nonce is spent. */
  lemma OneMinedPerNonce(before: seq<Tx>, steps: seq<Step>, w: World, i: nat, k: nat)
    requires Numbered(before) && Run(Deployed(before), steps, w)
    requires i < |w.local.journal| && k < |w.local.journal|
    ensures var (a, b) := (w.local.journal[i], w.local.journal[k]);
      && (a.status == Mined ==> a.tx.nonce < |w.chain| && w.chain[a.tx.nonce] == a.tx)
      && (a.status == Mined && b.status == Mined && a.tx.nonce == b.tx.nonce ==> i == k)
      && (a.status == Replaced ==> a.tx.nonce < |w.chain| && a.tx !in w.chain)
      && (a.status == Consumed ==> a.tx.nonce < |w.chain|)
  {
    RunKept(Deployed(before), steps, w, before);
    assert RowKept(w.local.journal[i], w.chain) && RowKept(w.local.journal[k], w.chain);
  }

  // ------------------------------------------------ operations in a world that moves

  function Own(steps: seq<Step>): seq<Action> {
    if steps == [] then []
    else
      var (front, s) := (Own(steps[..|steps| - 1]), steps[|steps| - 1]);
      if s.Do? then front + [s.action] else front
  }

  function ChainAfter(chain: seq<Tx>, steps: seq<Step>): seq<Tx> {
    if steps == [] then chain
    else
      var (front, s) := (ChainAfter(chain, steps[..|steps| - 1]), steps[|steps| - 1]);
      if s.Mine? then front + [s.tx] else front
  }

  /** The environment's part: answers are honest when they are given, and the chain takes only what was sent by then. */
  predicate Fair(w: World, steps: seq<Step>) {
    if steps == [] then true
    else
      var (front, s) := (steps[..|steps| - 1], steps[|steps| - 1]);
      && Fair(w, front)
      && match s
         case Do(a) => Honest(ChainAfter(w.chain, front), a)
         case Mine(tx) =>
           var l := Acts(w.local, Own(front));
           l.Some? && Sent(tx) in l.value.effects && tx.nonce == |ChainAfter(w.chain, front)|
  }

  lemma {:induction false} RunNext(w: World, steps: seq<Step>, w': World, s: Step)
    requires Run(w, steps, w') && Allowed(w', s)
    ensures Run(w, steps + [s], Apply(w', s))
    decreases |steps|
  {
    if steps == [] {
      assert steps + [s] == [s] && [s][1..] == [];
    } else {
      assert (steps + [s])[1..] == steps[1..] + [s];
      RunNext(Apply(w, steps[0]), steps[1..], w', s);
    }
  }

  /** Whatever the operations do, with the chain moving between any two of their actions, is a run. */
  lemma {:induction false} OperationsAreRuns(w: World, steps: seq<Step>)
    requires Acts(w.local, Own(steps)).Some? && Fair(w, steps)
    ensures Run(w, steps, World(Acts(w.local, Own(steps)).value, ChainAfter(w.chain, steps)))
  {
    if steps != [] {
      var front, s := steps[..|steps| - 1], steps[|steps| - 1];
      if s.Do? {
        assert (Own(front) + [s.action])[..|Own(front) + [s.action]| - 1] == Own(front);
      }
      OperationsAreRuns(w, front);
      RunNext(w, front, World(Acts(w.local, Own(front)).value, ChainAfter(w.chain, front)), s);
      assert steps == front + [s];
    }
  }

  // ------------------------------------------------------------ a transaction sent again

  lemma {:induction false} RunChained(a: World, s: seq<Step>, b: World, t: seq<Step>, c: World)
    requires Run(a, s, b) && Run(b, t, c)
    ensures Run(a, s + t, c)
    decreases |s|
  {
    if s == [] {
      assert s + t == t;
    } else {
      assert (s + t)[0] == s[0] && (s + t)[1..] == s[1..] + t;
      RunChained(Apply(a, s[0]), s[1..], b, t, c);
    }
  }

  /** One attempt, cut off while it waits. */
  function SendSteps(tx: Tx): seq<Step> {
    [Do(Acquire), Do(Choose(tx, tx.gasPrice, 1)), Do(Note), Do(Emit), Do(Stop)]
  }

  function AfterSend(w: World, tx: Tx): World {
    var l := w.local;
    w.(local := l.(journal := Recorded(l.journal, tx), effects := l.effects + [Journaled(tx), Sent(tx)]))
  }

  lemma SendRuns(w: World, tx: Tx)
    requires w.local.phase.Idle? && AllResolved(w.local.journal)
    ensures Run(w, SendSteps(tx), AfterSend(w, tx))
  {
    var steps, l := SendSteps(tx), w.local;
    NoncesMembers(l.journal);
    assert Nonces(l.journal) == [] by {
      if Nonces(l.journal) != [] { assert Nonces(l.journal)[0] in Nonces(l.journal); }
    }
    var w1 := Apply(w, Do(Acquire));
    RunNext(w, [], w, Do(Acquire));
    RunNext(w, [Do(Acquire)], w1, steps[1]);
    var w2 := Apply(w1, steps[1]);
    RunNext(w, [Do(Acquire)] + [steps[1]], w2, Do(Note));
    var w3 := Apply(w2, Do(Note));
    RunNext(w, [Do(Acquire)] + [steps[1]] + [Do(Note)], w3, Do(Emit));
    var w4 := Apply(w3, Do(Emit));
    RunNext(w, [Do(Acquire)] + [steps[1]] + [Do(Note)] + [Do(Emit)], w4, Do(Stop));
    assert [] + [Do(Acquire)] == [Do(Acquire)];
    assert [Do(Acquire)] + [steps[1]] + [Do(Note)] + [Do(Emit)] + [Do(Stop)] == steps;
    assert l.effects + [Journaled(tx)] + [Sent(tx)] == l.effects + [Journaled(tx), Sent(tx)];
  }

  /** A reconciliation that is told the nonce is free and knows nothing of the transaction. */
  function DropSteps(chain: seq<Tx>): seq<Step> { [Do(Acquire), Do(Settle(View(map[], {}, [|chain|]))), Do(Stop)] }

  lemma UnknownIsDropped(tx: Tx, v: View)
    requires v.receipts == map[] && v.seen == {} && |v.counts| == 1 && v.counts[0] <= tx.nonce
    ensures var j := [Entry(tx, Broadcast)];
      SettleNonce(j, j, tx.nonce, v) == Some([Entry(tx, Dropped)]) && Nonces(j) == [tx.nonce]
  {
    var j := [Entry(tx, Broadcast)];
    assert j[1..] == [] && Filter(j[1..], Member(tx.nonce)) == [];
    var group := Group(j, tx.nonce);
    assert group == [Entry(tx, Broadcast)];
    assert FirstMined(group[1..], v) == Ok(None);
    assert Resolved(j, tx.nonce, Dropped) == [Entry(tx, Dropped)];
    assert Nonces(j[1..]) == [] && Insert(tx.nonce, []) == [tx.nonce];
  }

  lemma DropRuns(w: World, tx: Tx)
    requires w.local.phase.Idle? && w.local.journal == [Entry(tx, Broadcast)] && |w.chain| <= tx.nonce
    ensures Run(w, DropSteps(w.chain), w.(local := w.local.(journal := [Entry(tx, Dropped)])))
  {
    var v, steps := View(map[], {}, [|w.chain|]), DropSteps(w.chain);
    UnknownIsDropped(tx, v);
    RunNext(w, [], w, Do(Acquire));
    var w1 := Apply(w, Do(Acquire));
    RunNext(w, [Do(Acquire)], w1, Do(Settle(v)));
    var w2 := Apply(w1, Do(Settle(v)));
    RunNext(w, [Do(Acquire)] + [Do(Settle(v))], w2, Do(Stop));
    assert [] + [Do(Acquire)] == [Do(Acquire)];
    assert [Do(Acquire)] + [Do(Settle(v))] + [Do(Stop)] == steps;
  }

  /** The journal forgets what was dropped and then signed again to the same bytes: a run for every such transaction, from
      any account history. At its end the transaction was sent after the verdict, it is not on chain and may still be, no
      row is unresolved, and the next send goes out at once with any other transaction, of another nonce or of the same. */
  lemma ResentIsForgotten(before: seq<Tx>, tx: Tx, other: Tx) returns (steps: seq<Step>, w: World)
    requires Numbered(before) && tx.nonce >= |before|
    ensures Run(Deployed(before), steps, w) && w.chain == before && tx !in w.chain
    ensures w.local.journal == [Entry(tx, Dropped)] && AllResolved(w.local.journal)
    ensures w.local.effects == [Journaled(tx), Sent(tx)] + [Journaled(tx), Sent(tx)]
    ensures tx.nonce == |before| ==> Allowed(w, Mine(tx))
    ensures Run(Deployed(before), steps + SendSteps(other), AfterSend(w, other))
    ensures Sent(other) in AfterSend(w, other).local.effects
  {
    var w0 := Deployed(before);
    var w1 := AfterSend(w0, tx);
    SendRuns(w0, tx);
    assert w1.local.journal == [Entry(tx, Broadcast)];
    DropRuns(w1, tx);
    var w2 := w1.(local := w1.local.(journal := [Entry(tx, Dropped)]));
    SendRuns(w2, tx);
    w := AfterSend(w2, tx);
    assert w2.local.journal[0].tx == tx && Lists(w2.local.journal, tx);
    RunChained(w0, SendSteps(tx), w1, DropSteps(before), w2);
    RunChained(w0, SendSteps(tx) + DropSteps(before), w2, SendSteps(tx), w);
    steps := SendSteps(tx) + DropSteps(before) + SendSteps(tx);
    SendRuns(w, other);
    RunChained(w0, steps, w, SendSteps(other), AfterSend(w, other));
    assert w.local.effects[1] == Sent(tx);
    var e := AfterSend(w, other).local.effects;
    assert e[|e| - 1] == Sent(other);
  }
}
