/** operator/threshold-node.mjs: one share holder. It records what it is about to sign before it signs it, and
    keeps a hash-chained log of what it signed. Processes die between file operations. */
module Signer {
  import opened Outcomes

  /** A requestId as it arrived: one or more decimal digits. */
  type Id = seq<nat>

  type Message = nat

  type Key = nat

  /** A share signature and an identity signature, as what they sign and with which key. */
  datatype Partial = Partial(key: Key, message: Message)

  datatype Body = Body(requestId: Id, message: Message, signature: Partial)

  datatype Signature = Signature(key: Key, body: Body)

  datatype Response = Response(body: Body, identitySignature: Signature)

  datatype Participant = Participant(shareKey: Key, identityKey: Key)

  /** The event hash, injective in the record it covers. */
  datatype Hash = Zero | HashOf(response: Response, signedAt: nat, previous: Hash)

  datatype Record = Record(response: Response, signedAt: nat, previousHash: Hash, eventHash: Hash)

  /** The signing state, in memory and in its file. */
  datatype Signing = Signing(signed: map<Id, Message>, audited: map<Id, Hash>, head: Hash)

  datatype Disk = Disk(state: Option<Signing>, log: seq<Record>)

  // ------------------------------------------------------------------ responses

  function BuildPartialResponse(who: Participant, id: Id, message: Message): Response {
    var body := Body(id, message, Partial(who.shareKey, message));
    Response(body, Signature(who.identityKey, body))
  }

  /** verifyPartialResponse, for the request and message named in the record itself. */
  predicate Verified(who: Participant, r: Response) {
    r.identitySignature == Signature(who.identityKey, r.body) && r.body.signature == Partial(who.shareKey, r.body.message)
  }

  // ------------------------------------------------------------------ the audit log

  function EmptyState(): Signing { Signing(map[], map[], Zero) }

  /** What one log line must satisfy after the lines before it. */
  predicate GoodRecord(who: Participant, signed: map<Id, Message>, audited: map<Id, Hash>, head: Hash, r: Record) {
    var id := r.response.body.requestId;
    && id !in audited && r.previousHash == head && r.eventHash == HashOf(r.response, r.signedAt, r.previousHash)
    && id in signed && signed[id] == r.response.body.message && Verified(who, r.response)
  }

  /** The audited ids and the head that a log restores, if every line is good. */
  function LoadLog(who: Participant, signed: map<Id, Message>, log: seq<Record>): Option<(map<Id, Hash>, Hash)> {
    if log == [] then Some((map[], Zero))
    else
      match LoadLog(who, signed, log[..|log| - 1])
      case None => None
      case Some((audited, head)) =>
        var r := log[|log| - 1];
        if GoodRecord(who, signed, audited, head, r)
        then Some((audited[r.response.body.requestId := r.eventHash], r.eventHash)) else None
  }

  method LoadAuditLog(who: Participant, signed: map<Id, Message>, log: seq<Record>)
    returns (r: Option<(map<Id, Hash>, Hash)>)
    ensures r == LoadLog(who, signed, log)
  {
    var head, audited := Zero, map[];
    var i := 0;
    while i < |log|
      invariant 0 <= i <= |log|
      invariant LoadLog(who, signed, log[..i]) == Some((audited, head))
    {
      var record := log[i];
      assert log[..i + 1][..i] == log[..i];
      if !GoodRecord(who, signed, audited, head, record) {
        LoadFails(who, signed, log, i + 1);
        return None;
      }
      audited := audited[record.response.body.requestId := record.eventHash];
      head := record.eventHash;
      i := i + 1;
    }
    assert log[..i] == log;
    r := Some((audited, head));
  }

  lemma {:induction false} LoadFails(who: Participant, signed: map<Id, Message>, log: seq<Record>, i: nat)
    requires i <= |log| && LoadLog(who, signed, log[..i]) == None
    ensures LoadLog(who, signed, log) == None
  {
    if i == |log| {
      assert log[..i] == log;
    } else {
      assert log[..|log| - 1][..i] == log[..i];
      LoadFails(who, signed, log[..|log| - 1], i);
    }
  }

  // ------------------------------------------------------------------ the process

  /** Where a signing step stops. A crash loses the memory; a throw is a failed file operation, after which the
      process goes on. */
  datatype Stop =
    | Finish
    | CrashBeforeWrite | CrashAfterWrite | CrashAfterAppend | CrashAfterSecondWrite
    | ThrowWrite | ThrowAppend | ThrowSync | ThrowSecondWrite

  datatype Node = Node(memory: Option<Signing>, disk: Disk, emitted: seq<Response>)

  /** Start the process: None when the log is refused. `written` says whether it survives to write the
      restored state back. */
  function Start(who: Participant, n: Node, written: bool): Option<Node> {
    var state := if n.disk.state.Some? then n.disk.state.value else EmptyState();
    if n.disk.log == [] then Some(n.(memory := Some(state)))
    else
      match LoadLog(who, state.signed, n.disk.log)
      case None => None
      case Some((audited, head)) =>
        var restored := state.(audited := audited, head := head);
        if written then Some(n.(memory := Some(restored), disk := n.disk.(state := Some(restored))))
        else Some(n.(memory := None))
  }

  /** The queued signing step for one request whose canonical message is `message`. */
  function Sign(who: Participant, n: Node, id: Id, message: Message, signedAt: nat, stop: Stop): Node
    requires n.memory.Some?
  {
    var m := n.memory.value;
    if id in m.signed && m.signed[id] != message then n
    else
      var m1 := m.(signed := m.signed[id := message]);
      if stop == CrashBeforeWrite then n.(memory := None)
      else if stop == ThrowWrite then n.(memory := Some(m1))
      else
        var disk1 := n.disk.(state := Some(m1));
        var response := BuildPartialResponse(who, id, message);
        if stop == CrashAfterWrite then n.(memory := None, disk := disk1)
        else if id in m1.audited then Node(Some(m1), disk1, n.emitted + [response])
        else
          var r := Record(response, signedAt, m1.head, HashOf(response, signedAt, m1.head));
          var disk2 := disk1.(log := disk1.log + [r]);
          var m2 := m1.(audited := m1.audited[id := r.eventHash], head := r.eventHash);
          match stop
          case ThrowAppend => Node(Some(m1), disk1, n.emitted)
          case ThrowSync => Node(Some(m1), disk2, n.emitted)
          case CrashAfterAppend => Node(None, disk2, n.emitted)
          case ThrowSecondWrite => Node(Some(m2), disk2, n.emitted)
          case CrashAfterSecondWrite => Node(None, disk2.(state := Some(m2)), n.emitted)
          case _ => Node(Some(m2), disk2.(state := Some(m2)), n.emitted + [response])
  }

  /** What happens to a node: it starts, dies while idle, or handles a request. The chain decides which message
      is canonical for a request each time it is asked. */
  datatype Event =
    | Restart(written: bool)
    | Die
    | Handle(id: Id, message: Message, signedAt: nat, stop: Stop)

  function Step(who: Participant, n: Node, e: Event): Node {
    match e
    case Restart(written) =>
      var s := Start(who, n, written);
      if n.memory.None? && s.Some? then s.value else n
    case Die => n.(memory := None)
    case Handle(id, message, signedAt, stop) => if n.memory.None? then n else Sign(who, n, id, message, signedAt, stop)
  }

  function Run(who: Participant, n: Node, events: seq<Event>): Node
    decreases |events|
  {
    if events == [] then n else Run(who, Step(who, n, events[0]), events[1..])
  }

  function Fresh(): Node { Node(None, Disk(None, []), []) }

  /** The node as an object. `stop` is where the environment interrupts it. */
  class ThresholdNode {
    const who: Participant
    var running: bool
    var signed: map<Id, Message>
    var audited: map<Id, Hash>
    var head: Hash
    var file: Option<Signing>
    var log: seq<Record>
    var emitted: seq<Response>

    ghost function Snapshot(): Node
      reads this
    {
      Node(if running then Some(Signing(signed, audited, head)) else None, Disk(file, log), emitted)
    }

    constructor (who: Participant)
      ensures Snapshot() == Fresh() && this.who == who
    {
      this.who := who;
      running, signed, audited, head, file, log, emitted := false, map[], map[], Zero, None, [], [];
    }

    /** A file is replaced by renaming a finished copy over it. */
    method AtomicWrite()
      modifies `file
      ensures file == Some(Signing(signed, audited, head))
    {
      file := Some(Signing(signed, audited, head));
    }

    method StartProcess(written: bool) returns (ok: bool)
      requires !running
      modifies this
      ensures var r := Start(who, old(Snapshot()), written);
        ok == r.Some? && Snapshot() == if ok then r.value else old(Snapshot())
    {
      var state := if file.Some? then file.value else EmptyState();
      if log != [] {
        var restored := LoadAuditLog(who, state.signed, log);
        if restored.None? { return false; }
        state := state.(audited := restored.value.0);
        state := state.(head := restored.value.1);
      }
      ok := true;
      if log != [] && !written { return; }
      signed, audited, head, running := state.signed, state.audited, state.head, true;
      if log != [] { AtomicWrite(); }
    }

    method AppendAuditRecord(response: Response, signedAt: nat, flushed: bool)
      modifies `log, `head, `audited
      ensures var r := Record(response, signedAt, old(head), HashOf(response, signedAt, old(head)));
        && log == old(log) + [r]
        && head == (if flushed then r.eventHash else old(head))
        && audited == (if flushed then old(audited)[response.body.requestId := r.eventHash] else old(audited))
    {
      var record := Record(response, signedAt, head, HashOf(response, signedAt, head));
      log := log + [record];
      if flushed {
        head := record.eventHash;
        audited := audited[response.body.requestId := record.eventHash];
      }
    }

    /** The queued step of the request handler. */
    method SignPartial(id: Id, message: Message, signedAt: nat, stop: Stop)
      requires running
      modifies this
      ensures Snapshot() == Sign(who, old(Snapshot()), id, message, signedAt, stop)
    {
      if id in signed && signed[id] != message { return; }
      signed := signed[id := message];
      if stop == CrashBeforeWrite { running := false; return; }
      if stop == ThrowWrite { return; }
      AtomicWrite();
      if stop == CrashAfterWrite { running := false; return; }
      var response := BuildPartialResponse(who, id, message);
      if id !in audited {
        if stop == ThrowAppend { return; }
        AppendAuditRecord(response, signedAt, stop != ThrowSync);
        if stop == ThrowSync || stop == ThrowSecondWrite { return; }
        if stop == CrashAfterAppend { running := false; return; }
        AtomicWrite();
        if stop == CrashAfterSecondWrite { running := false; return; }
      }
      emitted := emitted + [response];
    }
  }

  // ------------------------------------------------------------ it never equivocates

  predicate Includes(a: map<Id, Message>, b: map<Id, Message>) {
    forall id :: id in a ==> id in b && b[id] == a[id]
  }

  function DiskSigned(n: Node): map<Id, Message> {
    if n.disk.state.Some? then n.disk.state.value.signed else map[]
  }

  /** Whatever was emitted is on disk, and memory never forgets what is on disk. */
  predicate Recorded(n: Node) {
    && (forall i :: 0 <= i < |n.emitted| ==>
          n.emitted[i].body.requestId in DiskSigned(n)
          && DiskSigned(n)[n.emitted[i].body.requestId] == n.emitted[i].body.message)
    && (n.memory.Some? ==> Includes(DiskSigned(n), n.memory.value.signed))
  }

  lemma SignRecorded(who: Participant, n: Node, id: Id, message: Message, signedAt: nat, stop: Stop)
    requires Recorded(n) && n.memory.Some?
    ensures Recorded(Sign(who, n, id, message, signedAt, stop))
    ensures Includes(DiskSigned(n), DiskSigned(Sign(who, n, id, message, signedAt, stop)))
  {
  }

  lemma {:induction false} RunRecorded(who: Participant, n: Node, events: seq<Event>)
    requires Recorded(n)
    ensures Recorded(Run(who, n, events))
    decreases |events|
  {
    if events != [] {
      var e := events[0];
      if e.Handle? && n.memory.Some? {
        SignRecorded(who, n, e.id, e.message, e.signedAt, e.stop);
      }
      RunRecorded(who, Step(who, n, e), events[1..]);
    }
  }

  /** In every run, through every crash and failed write, two partials for one requestId carry one message. */
  lemma NeverEquivocates(who: Participant, events: seq<Event>, i: nat, j: nat)
    requires i < |Run(who, Fresh(), events).emitted| && j < |Run(who, Fresh(), events).emitted|
    requires Run(who, Fresh(), events).emitted[i].body.requestId == Run(who, Fresh(), events).emitted[j].body.requestId
    ensures Run(who, Fresh(), events).emitted[i].body.message == Run(who, Fresh(), events).emitted[j].body.message
  {
    RunRecorded(who, Fresh(), events);
  }

  // --------------------------------------------- the id is a string, the chain's is a number

  function Numeral(id: Id): nat {
    if id == [] then 0 else Numeral(id[..|id| - 1]) * 10 + id[|id| - 1]
  }

  predicate IsDecimal(id: Id) { id != [] && forall i :: 0 <= i < |id| ==> id[i] < 10 }

  /** Written without superfluous zeros. */
  predicate Canonical(id: Id) { IsDecimal(id) && (|id| > 1 ==> id[0] != 0) }

  lemma {:induction false} CanonicalPositive(id: Id)
    requires Canonical(id) && id != [0]
    ensures Numeral(id) > 0
  {
    if |id| > 1 {
      var head := id[..|id| - 1];
      assert head[0] == id[0];
      CanonicalPositive(head);
    } else {
      assert id == [id[0]] && Numeral(id[..0]) == 0;
    }
  }

  lemma {:induction false} CanonicalUnique(a: Id, b: Id)
    requires Canonical(a) && Canonical(b) && Numeral(a) == Numeral(b)
    ensures a == b
  {
    var x, y := a[|a| - 1], b[|b| - 1];
    var p, q := a[..|a| - 1], b[..|b| - 1];
    assert Numeral(p) * 10 + x == Numeral(q) * 10 + y;
    assert x == y && Numeral(p) == Numeral(q);
    if p == [] {
      if q != [] {
        assert q[0] == b[0];
        CanonicalPositive(q);
      }
    } else {
      assert p[0] == a[0];
      CanonicalPositive(p);
      if q != [] {
        assert q[0] == b[0];
        CanonicalUnique(p, q);
      }
    }
    assert a == p + [x] && b == q + [y];
  }

  /** Per number on chain, the promise holds for ids written canonically. */
  lemma OneMessagePerNumber(who: Participant, events: seq<Event>, i: nat, j: nat)
    requires i < |Run(who, Fresh(), events).emitted| && j < |Run(who, Fresh(), events).emitted|
    requires var es := Run(who, Fresh(), events).emitted;
      && Canonical(es[i].body.requestId) && Canonical(es[j].body.requestId)
      && Numeral(es[i].body.requestId) == Numeral(es[j].body.requestId)
    ensures Run(who, Fresh(), events).emitted[i].body.message == Run(who, Fresh(), events).emitted[j].body.message
  {
    var es := Run(who, Fresh(), events).emitted;
    CanonicalUnique(es[i].body.requestId, es[j].body.requestId);
    NeverEquivocates(who, events, i, j);
  }

  lemma RunThree(who: Participant, e0: Event, e1: Event, e2: Event)
    ensures Run(who, Fresh(), [e0, e1, e2]) == Step(who, Step(who, Step(who, Fresh(), e0), e1), e2)
  {
    var n2 := Step(who, Step(who, Fresh(), e0), e1);
    assert [e0, e1, e2][1..] == [e1, e2] && [e1, e2][1..] == [e2] && [e2][1..] == [];
    assert Run(who, n2, [e2]) == Step(who, n2, e2);
  }

  /** The state is keyed by the string: for any two spellings some run gives each its own message. */
  lemma TwoSpellingsTwoMessages(who: Participant, a: Id, b: Id, m: Message, m': Message)
    requires a != b && m != m'
    ensures var es := Run(who, Fresh(), [Restart(true), Handle(a, m, 0, Finish), Handle(b, m', 1, Finish)]).emitted;
      es == [BuildPartialResponse(who, a, m), BuildPartialResponse(who, b, m')]
  {
    RunThree(who, Restart(true), Handle(a, m, 0, Finish), Handle(b, m', 1, Finish));
    var n2 := Step(who, Step(who, Fresh(), Restart(true)), Handle(a, m, 0, Finish));
    assert n2.emitted == [BuildPartialResponse(who, a, m)];
  }

  /** In this run, whatever was emitted for `a` and for `b` carries one message. */
  predicate Agree(es: seq<Response>, a: Id, b: Id) {
    forall i, j :: 0 <= i < |es| && 0 <= j < |es| && es[i].body.requestId == a && es[j].body.requestId == b ==>
      es[i].body.message == es[j].body.message
  }

  ghost predicate AlwaysAgree(who: Participant, a: Id, b: Id) {
    forall events :: Agree(Run(who, Fresh(), events).emitted, a, b)
  }

  /** Two spellings of one on-chain number are safe together exactly when they are one spelling. */
  lemma OneMessagePerSpelling(who: Participant, a: Id, b: Id)
    requires IsDecimal(a) && IsDecimal(b) && Numeral(a) == Numeral(b)
    ensures AlwaysAgree(who, a, b) <==> a == b
  {
    if a == b {
      forall events
        ensures Agree(Run(who, Fresh(), events).emitted, a, b)
      {
        RunRecorded(who, Fresh(), events);
      }
    } else {
      TwoSpellingsTwoMessages(who, a, b, 0, 1);
      var es := Run(who, Fresh(), [Restart(true), Handle(a, 0, 0, Finish), Handle(b, 1, 1, Finish)]).emitted;
      assert es[0].body.requestId == a && es[1].body.requestId == b && es[0].body.message != es[1].body.message;
      assert !Agree(es, a, b);
    }
  }

  /** Every number has other spellings, so the condition is never empty. */
  lemma {:induction false} PaddedSpelling(id: Id)
    requires IsDecimal(id)
    ensures IsDecimal([0] + id) && Numeral([0] + id) == Numeral(id) && [0] + id != id
  {
    NumeralPadded(id);
    assert |[0] + id| == |id| + 1;
  }

  lemma {:induction false} NumeralPadded(id: Id)
    ensures Numeral([0] + id) == Numeral(id)
  {
    if id == [] {
      assert ([0] + id)[..0] == [];
    } else {
      NumeralPadded(id[..|id| - 1]);
      assert ([0] + id)[..|[0] + id| - 1] == [0] + id[..|id| - 1];
    }
  }

  // ------------------------------------------------------------- the log always loads

  /** The log loads against what is on disk, memory agrees with it, and an empty log goes with an empty state. */
  ghost predicate Audited(who: Participant, n: Node) {
    var loaded := LoadLog(who, DiskSigned(n), n.disk.log);
    && loaded.Some?
    && (n.memory.Some? ==> (n.memory.value.audited, n.memory.value.head) == loaded.value)
    && (n.disk.log == [] && n.disk.state.Some? ==> n.disk.state.value.audited == map[] && n.disk.state.value.head == Zero)
  }

  lemma {:induction false} LoadGrows(who: Participant, a: map<Id, Message>, b: map<Id, Message>, log: seq<Record>)
    requires Includes(a, b) && LoadLog(who, a, log).Some?
    ensures LoadLog(who, b, log) == LoadLog(who, a, log)
  {
    if log != [] {
      LoadGrows(who, a, b, log[..|log| - 1]);
    }
  }

  /** Appending is right exactly when the writer's head is the log's head and the request is not in it yet. */
  lemma AppendLoads(who: Participant, signed: map<Id, Message>, log: seq<Record>, id: Id, message: Message,
                    signedAt: nat, head: Hash)
    requires LoadLog(who, signed, log).Some? && id in signed && signed[id] == message
    ensures var response := BuildPartialResponse(who, id, message);
      var r := Record(response, signedAt, head, HashOf(response, signedAt, head));
      var (audited, last) := LoadLog(who, signed, log).value;
      && (LoadLog(who, signed, log + [r]).Some? <==> head == last && id !in audited)
      && (head == last && id !in audited ==> LoadLog(who, signed, log + [r]) == Some((audited[id := r.eventHash], r.eventHash)))
  {
    var response := BuildPartialResponse(who, id, message);
    var r := Record(response, signedAt, head, HashOf(response, signedAt, head));
    assert (log + [r])[..|log + [r]| - 1] == log;
  }

  /** The next record of a node whose memory agrees with its log is good. */
  lemma NextRecordLoads(who: Participant, n: Node, id: Id, message: Message, signedAt: nat)
    requires Recorded(n) && Audited(who, n) && n.memory.Some?
    requires id in n.memory.value.signed ==> n.memory.value.signed[id] == message
    ensures var m := n.memory.value;
      var signed := m.signed[id := message];
      var response := BuildPartialResponse(who, id, message);
      var r := Record(response, signedAt, m.head, HashOf(response, signedAt, m.head));
      && LoadLog(who, signed, n.disk.log) == Some((m.audited, m.head))
      && (id !in m.audited ==>
            LoadLog(who, signed, n.disk.log + [r]) == Some((m.audited[id := r.eventHash], r.eventHash)))
  {
    var m := n.memory.value;
    var signed := m.signed[id := message];
    assert Includes(DiskSigned(n), signed);
    LoadGrows(who, DiskSigned(n), signed, n.disk.log);
    AppendLoads(who, signed, n.disk.log, id, message, signedAt, m.head);
  }

  lemma SignAudited(who: Participant, n: Node, id: Id, message: Message, signedAt: nat, stop: Stop)
    requires Recorded(n) && Audited(who, n) && n.memory.Some? && stop != ThrowSync
    ensures Audited(who, Sign(who, n, id, message, signedAt, stop))
  {
    var m := n.memory.value;
    if !(id in m.signed && m.signed[id] != message) {
      NextRecordLoads(who, n, id, message, signedAt);
      if n.disk.log == [] {
        EmptyLogNothingAudited(who, n);
      }
    }
  }

  lemma EmptyLogNothingAudited(who: Participant, n: Node)
    requires Audited(who, n) && n.memory.Some? && n.disk.log == []
    ensures n.memory.value.audited == map[] && n.memory.value.head == Zero
  {
  }

  lemma StartAudited(who: Participant, n: Node, written: bool)
    requires Recorded(n) && Audited(who, n)
    ensures Start(who, n, written).Some? && Audited(who, Start(who, n, written).value)
    ensures Recorded(Start(who, n, written).value)
  {
  }

  /** The audited set holds exactly the requests in the log, and the head is the last event. */
  lemma {:induction false} LoadedContents(who: Participant, signed: map<Id, Message>, log: seq<Record>)
    requires LoadLog(who, signed, log).Some?
    ensures var (audited, head) := LoadLog(who, signed, log).value;
      && (forall id :: id in audited <==> exists i :: 0 <= i < |log| && log[i].response.body.requestId == id)
      && head == (if log == [] then Zero else log[|log| - 1].eventHash)
  {
    if log != [] {
      var front := log[..|log| - 1];
      LoadedContents(who, signed, front);
      var (audited, head) := LoadLog(who, signed, log).value;
      forall id
        ensures id in audited <==> exists i :: 0 <= i < |log| && log[i].response.body.requestId == id
      {
        assert forall i :: 0 <= i < |front| ==> front[i] == log[i];
        if id == log[|log| - 1].response.body.requestId {
          assert id in audited;
        }
      }
    }
  }

  // -------------------------------------------------------- exactly when it stops loading

  /** The guards a handled request passes before it appends a record. */
  predicate Appends(n: Node, e: Event) {
    && e.Handle? && n.memory.Some?
    && (e.id in n.memory.value.signed ==> n.memory.value.signed[e.id] == e.message)
    && e.id !in n.memory.value.audited
    && !(e.stop in {CrashBeforeWrite, ThrowWrite, CrashAfterWrite, ThrowAppend})
  }

  /** The node before event i. */
  function Before(who: Participant, events: seq<Event>, i: nat): Node
    requires i <= |events|
  {
    Run(who, Fresh(), events[..i])
  }

  /** Event i appends a record whose flush fails, and event j appends again before that process dies. */
  predicate StaleAppend(who: Participant, events: seq<Event>, i: nat, j: nat) {
    && i < j < |events|
    && Appends(Before(who, events, i), events[i]) && events[i].stop == ThrowSync
    && Appends(Before(who, events, j), events[j])
    && forall k :: i < k <= j ==> Before(who, events, k).memory.Some?
  }

  ghost predicate AppendsStale(who: Participant, events: seq<Event>) {
    exists i: nat, j: nat :: StaleAppend(who, events, i, j)
  }

  /** The last append is one memory does not know of: its flush failed in this process. */
  predicate Behind(who: Participant, n: Node) {
    && LoadLog(who, DiskSigned(n), n.disk.log).Some?
    && n.memory.Some? && n.disk.log != [] && n.memory.value.head == n.disk.log[|n.disk.log| - 1].previousHash
  }

  /** Every logged request is signed on disk. */
  predicate LogSigned(n: Node) {
    forall i :: 0 <= i < |n.disk.log| ==>
      n.disk.log[i].response.body.requestId in DiskSigned(n)
      && DiskSigned(n)[n.disk.log[i].response.body.requestId] == n.disk.log[i].response.body.message
  }

  /** A log refused for other reasons than an unsigned request is refused whatever is signed later. */
  lemma {:induction false} RefusalGrows(who: Participant, a: map<Id, Message>, b: map<Id, Message>, log: seq<Record>)
    requires Includes(a, b)
    requires forall i :: 0 <= i < |log| ==>
      log[i].response.body.requestId in a && a[log[i].response.body.requestId] == log[i].response.body.message
    ensures LoadLog(who, b, log) == LoadLog(who, a, log)
  {
    if log != [] {
      RefusalGrows(who, a, b, log[..|log| - 1]);
    }
  }

  predicate Sane(n: Node) { Recorded(n) && LogSigned(n) }

  lemma SignSane(who: Participant, n: Node, id: Id, message: Message, signedAt: nat, stop: Stop)
    requires Sane(n) && n.memory.Some?
    ensures Sane(Sign(who, n, id, message, signedAt, stop))
  {
    SignRecorded(who, n, id, message, signedAt, stop);
    var n' := Sign(who, n, id, message, signedAt, stop);
    assert |n'.disk.log| <= |n.disk.log| + 1;
    assert n'.disk.log[..|n.disk.log|] == n.disk.log;
  }

  lemma StepSane(who: Participant, n: Node, e: Event)
    requires Sane(n)
    ensures Sane(Step(who, n, e))
  {
    if e.Handle? && n.memory.Some? {
      SignSane(who, n, e.id, e.message, e.signedAt, e.stop);
    }
  }

  /** A refused log stays refused, in the process that broke it and in every one after it. */
  lemma StepRefused(who: Participant, n: Node, e: Event)
    requires Sane(n) && LoadLog(who, DiskSigned(n), n.disk.log).None?
    ensures LoadLog(who, DiskSigned(Step(who, n, e)), Step(who, n, e).disk.log).None?
  {
    var n' := Step(who, n, e);
    StepSane(who, n, e);
    if e.Handle? && n.memory.Some? {
      SignRecorded(who, n, e.id, e.message, e.signedAt, e.stop);
    }
    RefusalGrows(who, DiskSigned(n), DiskSigned(n'), n.disk.log);
    assert n'.disk.log[..|n.disk.log|] == n.disk.log;
    LoadFails(who, DiskSigned(n'), n'.disk.log, |n.disk.log|);
  }

  lemma {:induction false} RunRefused(who: Participant, n: Node, events: seq<Event>)
    requires Sane(n) && LoadLog(who, DiskSigned(n), n.disk.log).None?
    ensures LoadLog(who, DiskSigned(Run(who, n, events)), Run(who, n, events).disk.log).None?
    decreases |events|
  {
    if events != [] {
      StepRefused(who, n, events[0]);
      StepSane(who, n, events[0]);
      RunRefused(who, Step(who, n, events[0]), events[1..]);
    }
  }

  lemma {:induction false} HashGrows(r: Response, t: nat, h: Hash)
    ensures HashOf(r, t, h) != h
    decreases h
  {
    if h.HashOf? {
      HashGrows(h.response, h.signedAt, h.previous);
    }
  }

  /** From a node whose memory agrees with its log, an append whose flush fails leaves memory behind, and every other
      step keeps the agreement. */
  lemma StepAudited(who: Participant, n: Node, e: Event)
    requires Sane(n) && Audited(who, n)
    ensures Appends(n, e) && e.stop == ThrowSync ==> Behind(who, Step(who, n, e))
    ensures !(Appends(n, e) && e.stop == ThrowSync) ==> Audited(who, Step(who, n, e))
  {
    if e.Restart? && n.memory.None? {
      StartAudited(who, n, e.written);
    }
    if e.Handle? && n.memory.Some? {
      if e.stop != ThrowSync || !Appends(n, e) {
        SignAudited(who, n, e.id, e.message, e.signedAt, if e.stop == ThrowSync then Finish else e.stop);
      }
      if Appends(n, e) {
        NextRecordLoads(who, n, e.id, e.message, e.signedAt);
      }
    }
  }

  /** A node behind its log breaks it with the next append, is repaired by its death, and stays behind otherwise. */
  lemma StepBehind(who: Participant, n: Node, e: Event)
    requires Sane(n) && Behind(who, n)
    ensures var n' := Step(who, n, e);
      && (Appends(n, e) ==> LoadLog(who, DiskSigned(n'), n'.disk.log).None?)
      && (!Appends(n, e) && n'.memory.Some? ==> Behind(who, n'))
      && (!Appends(n, e) && n'.memory.None? ==> Audited(who, n'))
  {
    if e.Handle? {
      var m := n.memory.value;
      var n' := Sign(who, n, e.id, e.message, e.signedAt, e.stop);
      SignRecorded(who, n, e.id, e.message, e.signedAt, e.stop);
      LoadGrows(who, DiskSigned(n), DiskSigned(n'), n.disk.log);
      if Appends(n, e) {
        var signed := m.signed[e.id := e.message];
        var last := n.disk.log[|n.disk.log| - 1];
        LoadedContents(who, DiskSigned(n'), n.disk.log);
        GoodLast(who, DiskSigned(n'), n.disk.log);
        HashGrows(last.response, last.signedAt, last.previousHash);
        AppendLoads(who, DiskSigned(n'), n.disk.log, e.id, e.message, e.signedAt, m.head);
      }
    }
  }

  lemma GoodLast(who: Participant, signed: map<Id, Message>, log: seq<Record>)
    requires log != [] && LoadLog(who, signed, log).Some?
    ensures var last := log[|log| - 1]; last.eventHash == HashOf(last.response, last.signedAt, last.previousHash)
  {
  }

  lemma {:induction false} RunSnoc(who: Participant, n: Node, events: seq<Event>, e: Event)
    ensures Run(who, n, events + [e]) == Step(who, Run(who, n, events), e)
    decreases |events|
  {
    if events == [] {
      assert [e][1..] == [] && events + [e] == [e];
    } else {
      assert (events + [e])[0] == events[0] && (events + [e])[1..] == events[1..] + [e];
      RunSnoc(who, Step(who, n, events[0]), events[1..], e);
    }
  }

  /** A failed flush of the process that is running now. */
  predicate LostSync(who: Participant, events: seq<Event>, i: nat) {
    && i < |events| && Appends(Before(who, events, i), events[i]) && events[i].stop == ThrowSync
    && forall k :: i < k <= |events| ==> Before(who, events, k).memory.Some?
  }

  lemma StaleGrows(who: Participant, events: seq<Event>, e: Event)
    ensures forall i: nat, j: nat :: j < |events| ==>
      (StaleAppend(who, events + [e], i, j) <==> StaleAppend(who, events, i, j))
    ensures forall i: nat :: StaleAppend(who, events + [e], i, |events|) <==>
      LostSync(who, events, i) && Appends(Run(who, Fresh(), events), e)
    ensures forall i: nat :: i < |events| ==>
      (LostSync(who, events + [e], i) <==> LostSync(who, events, i) && Run(who, Fresh(), events + [e]).memory.Some?)
    ensures LostSync(who, events + [e], |events|) <==>
      Appends(Run(who, Fresh(), events), e) && e.stop == ThrowSync && Run(who, Fresh(), events + [e]).memory.Some?
  {
    var all := events + [e];
    assert all[..|all|] == all && events[..|events|] == events;
    forall k | 0 <= k <= |events|
      ensures Before(who, all, k) == Before(who, events, k)
    {
      assert all[..k] == events[..k];
    }
    assert Before(who, all, |all|) == Run(who, Fresh(), all);
    forall i: nat | i < |events| && LostSync(who, events, i) && Run(who, Fresh(), all).memory.Some?
      ensures LostSync(who, all, i)
    {
      forall k | i < k <= |all|
        ensures Before(who, all, k).memory.Some?
      {
        assert k <= |events| ==> Before(who, all, k) == Before(who, events, k);
      }
    }
    assert forall i: nat :: LostSync(who, all, i) ==> Before(who, all, |all|).memory.Some?;
  }

  ghost predicate LostASync(who: Participant, events: seq<Event>) { exists i: nat :: LostSync(who, events, i) }

  /** Where a run from the start leaves a node: with a log nothing loads, behind its log, or in agreement with it. */
  ghost predicate LeftAs(who: Participant, events: seq<Event>) {
    var n := Run(who, Fresh(), events);
    && Sane(n)
    && (if AppendsStale(who, events) then LoadLog(who, DiskSigned(n), n.disk.log).None?
        else if LostASync(who, events) then Behind(who, n) else Audited(who, n))
  }

  lemma AfterStale(who: Participant, front: seq<Event>, e: Event)
    requires AppendsStale(who, front) && LeftAs(who, front)
    ensures LeftAs(who, front + [e])
  {
    RunSnoc(who, Fresh(), front, e);
    StaleGrows(who, front, e);
    StepSane(who, Run(who, Fresh(), front), e);
    StepRefused(who, Run(who, Fresh(), front), e);
    var i: nat, j: nat :| StaleAppend(who, front, i, j);
    assert StaleAppend(who, front + [e], i, j);
  }

  lemma AfterLost(who: Participant, front: seq<Event>, e: Event)
    requires !AppendsStale(who, front) && LostASync(who, front) && LeftAs(who, front)
    ensures LeftAs(who, front + [e])
  {
    var n := Run(who, Fresh(), front);
    RunSnoc(who, Fresh(), front, e);
    StaleGrows(who, front, e);
    StepSane(who, n, e);
    StepBehind(who, n, e);
    var i: nat :| LostSync(who, front, i);
    if Appends(n, e) {
      assert StaleAppend(who, front + [e], i, |front|);
    } else {
      assert LostSync(who, front + [e], i) <==> Step(who, n, e).memory.Some?;
    }
  }

  lemma AfterClean(who: Participant, front: seq<Event>, e: Event)
    requires !AppendsStale(who, front) && !LostASync(who, front) && LeftAs(who, front)
    ensures LeftAs(who, front + [e])
  {
    var n := Run(who, Fresh(), front);
    RunSnoc(who, Fresh(), front, e);
    StaleGrows(who, front, e);
    StepSane(who, n, e);
    StepAudited(who, n, e);
    if Appends(n, e) && e.stop == ThrowSync {
      assert LostSync(who, front + [e], |front|);
    }
  }

  lemma {:induction false} RunConditions(who: Participant, events: seq<Event>)
    ensures LeftAs(who, events)
    decreases |events|
  {
    if events == [] {
      assert Audited(who, Fresh());
    } else {
      var front, e := events[..|events| - 1], events[|events| - 1];
      assert events == front + [e];
      RunConditions(who, front);
      if AppendsStale(who, front) {
        AfterStale(who, front, e);
      } else if LostASync(who, front) {
        AfterLost(who, front, e);
      } else {
        AfterClean(who, front, e);
      }
    }
  }

  /** A process starts exactly when the log loads. */
  lemma StartsIfLoads(who: Participant, n: Node, written: bool)
    ensures Start(who, n.(memory := None), written).Some? <==> LoadLog(who, DiskSigned(n), n.disk.log).Some?
  {
  }

  /** For every run: the node can start again if and only if no process appended a record after an append of its own
      whose flush had failed. When it starts it has back every signed message, and the audited set and head of its log. */
  lemma RestartRestores(who: Participant, events: seq<Event>)
    ensures var n := Run(who, Fresh(), events).(memory := None);
      var s := Start(who, n, true);
      && (s.Some? <==> !AppendsStale(who, events))
      && (s.Some? ==>
            && s.value.memory.Some? && s.value.memory.value.signed == DiskSigned(n)
            && LoadLog(who, DiskSigned(n), n.disk.log) == Some((s.value.memory.value.audited, s.value.memory.value.head)))
  {
    RunConditions(who, events);
    var n := Run(who, Fresh(), events).(memory := None);
  }

  /** The record after a failed flush, of the same request tried again or of any other, makes the log unreadable to every
      later process, whatever happens in between. */
  lemma LostSyncBreaksTheLog(who: Participant, n: Node, lost: Event, e: Event, later: seq<Event>)
    requires Sane(n) && Audited(who, n) && Appends(n, lost) && lost.stop == ThrowSync
    requires Appends(Step(who, n, lost), e)
    ensures var n1 := Step(who, n, lost);
      && Start(who, n1.(memory := None), true).Some?
      && Start(who, Run(who, Step(who, n1, e), later).(memory := None), true).None?
  {
    var n1 := Step(who, n, lost);
    StepAudited(who, n, lost);
    StepSane(who, n, lost);
    StartsIfLoads(who, n1, true);
    BehindBreaks(who, n1, e, later);
  }

  lemma BehindBreaks(who: Participant, n: Node, e: Event, later: seq<Event>)
    requires Sane(n) && Behind(who, n) && Appends(n, e)
    ensures Start(who, Run(who, Step(who, n, e), later).(memory := None), true).None?
  {
    StepBehind(who, n, e);
    StepSane(who, n, e);
    RunRefused(who, Step(who, n, e), later);
    StartsIfLoads(who, Run(who, Step(who, n, e), later), true);
  }

  /** The client that got an error for the failed flush and asks again is enough. */
  lemma RetryBreaksTheLog(who: Participant, id: Id, message: Message, t: nat, t': nat, later: seq<Event>)
    ensures var n := Run(who, Fresh(), [Restart(true), Handle(id, message, t, ThrowSync), Handle(id, message, t', Finish)]);
      Start(who, Run(who, n, later).(memory := None), true).None?
  {
    RunThree(who, Restart(true), Handle(id, message, t, ThrowSync), Handle(id, message, t', Finish));
    var n := Step(who, Fresh(), Restart(true));
    assert Audited(who, n) && Sane(n);
    LostSyncBreaksTheLog(who, n, Handle(id, message, t, ThrowSync), Handle(id, message, t', Finish), later);
  }

  // ---------------------------------------------------------- what a caller gets

  /** The line continues the hash chain, is the only one for its request, and carries the recorded message under both
      of the participant's keys. */
  predicate LineGood(who: Participant, signed: map<Id, Message>, log: seq<Record>, i: nat)
    requires i < |log|
  {
    var (r, body) := (log[i], log[i].response.body);
    && r.previousHash == (if i == 0 then Zero else log[i - 1].eventHash)
    && r.eventHash == HashOf(r.response, r.signedAt, r.previousHash)
    && (forall j :: 0 <= j < i ==> log[j].response.body.requestId != body.requestId)
    && body.requestId in signed && signed[body.requestId] == body.message
    && body.signature == Partial(who.shareKey, body.message)
    && r.response.identitySignature == Signature(who.identityKey, body)
  }

  /** A log is accepted at start if and only if each of its lines is good, whoever wrote it. */
  lemma {:induction false} LoadsExactly(who: Participant, signed: map<Id, Message>, log: seq<Record>)
    ensures LoadLog(who, signed, log).Some? <==> forall i :: 0 <= i < |log| ==> LineGood(who, signed, log, i)
  {
    if log != [] {
      var n := |log| - 1;
      var front := log[..n];
      LoadsExactly(who, signed, front);
      forall i | 0 <= i < n ensures LineGood(who, signed, log, i) <==> LineGood(who, signed, front, i) {
        assert forall j :: 0 <= j <= i ==> front[j] == log[j];
      }
      if LoadLog(who, signed, front).Some? {
        LoadedContents(who, signed, front);
        var (audited, head) := LoadLog(who, signed, front).value;
        assert forall j :: 0 <= j < n ==> front[j] == log[j];
        assert GoodRecord(who, signed, audited, head, log[n]) <==> LineGood(who, signed, log, n);
      }
    }
  }

  /** An uninterrupted request is refused without effect if another message is recorded for its id, and answered
      otherwise: with one partial on that message under both keys, and one chained log line if the id had none. */
  lemma AnsweredExactly(who: Participant, n: Node, id: Id, message: Message, signedAt: nat)
    requires n.memory.Some?
    ensures var (m, n') := (n.memory.value, Step(who, n, Handle(id, message, signedAt, Finish)));
      if id in m.signed && m.signed[id] != message then n' == n
      else
        var body := Body(id, message, Partial(who.shareKey, message));
        var answer := Response(body, Signature(who.identityKey, body));
        var line := Record(answer, signedAt, m.head, HashOf(answer, signedAt, m.head));
        && n'.emitted == n.emitted + [answer]
        && n'.disk.log == (if id in m.audited then n.disk.log else n.disk.log + [line])
        && n'.memory.Some? && n'.disk.state == n'.memory
        && n'.memory.value.signed == m.signed[id := message]
        && n'.memory.value.head == (if id in m.audited then m.head else line.eventHash)
        && n'.memory.value.audited == (if id in m.audited then m.audited else m.audited[id := line.eventHash])
  {
  }

  predicate Logged(log: seq<Record>, id: Id) { exists k :: 0 <= k < |log| && log[k].response.body.requestId == id }

  /** Whatever is audited, in memory or on file, has its line; whatever was answered is audited. */
  ghost predicate AnswersLogged(n: Node) {
    && (n.memory.Some? ==> forall id :: id in n.memory.value.audited ==> Logged(n.disk.log, id))
    && (n.disk.state.Some? ==> forall id :: id in n.disk.state.value.audited ==> Logged(n.disk.log, id))
    && (forall i :: 0 <= i < |n.emitted| ==> Logged(n.disk.log, n.emitted[i].body.requestId))
    && (n.memory.Some? ==> forall i :: 0 <= i < |n.emitted| ==> n.emitted[i].body.requestId in n.memory.value.audited)
  }

  lemma LoggedGrows(log: seq<Record>, r: Record)
    ensures forall id :: Logged(log, id) ==> Logged(log + [r], id)
    ensures Logged(log + [r], r.response.body.requestId)
  {
    forall id | Logged(log, id) ensures Logged(log + [r], id) {
      var k :| 0 <= k < |log| && log[k].response.body.requestId == id;
      assert (log + [r])[k] == log[k];
    }
    assert (log + [r])[|log|] == r;
  }

  lemma SignLogs(who: Participant, n: Node, id: Id, message: Message, signedAt: nat, stop: Stop)
    requires AnswersLogged(n) && n.memory.Some?
    ensures AnswersLogged(Sign(who, n, id, message, signedAt, stop))
  {
    var response, head := BuildPartialResponse(who, id, message), n.memory.value.head;
    LoggedGrows(n.disk.log, Record(response, signedAt, head, HashOf(response, signedAt, head)));
  }

  lemma StartLogs(who: Participant, n: Node, written: bool)
    requires AnswersLogged(n) && n.memory.None? && Start(who, n, written).Some?
    ensures AnswersLogged(Start(who, n, written).value)
  {
    var state := if n.disk.state.Some? then n.disk.state.value else EmptyState();
    if n.disk.log == [] {
      assert forall id :: !Logged(n.disk.log, id);
    } else {
      LoadedContents(who, state.signed, n.disk.log);
    }
  }

  lemma {:induction false} RunLogs(who: Participant, n: Node, events: seq<Event>)
    requires AnswersLogged(n)
    ensures AnswersLogged(Run(who, n, events))
    decreases |events|
  {
    if events != [] {
      var e := events[0];
      match e {
        case Restart(written) =>
          if n.memory.None? && Start(who, n, written).Some? { StartLogs(who, n, written); }
        case Die =>
        case Handle(id, message, signedAt, stop) =>
          if n.memory.Some? { SignLogs(who, n, id, message, signedAt, stop); }
      }
      RunLogs(who, Step(who, n, e), events[1..]);
    }
  }

  predicate FromMe(who: Participant, es: seq<Response>) {
    forall i :: 0 <= i < |es| ==> es[i] == BuildPartialResponse(who, es[i].body.requestId, es[i].body.message)
  }

  lemma {:induction false} RunFromMe(who: Participant, n: Node, events: seq<Event>)
    requires FromMe(who, n.emitted)
    ensures FromMe(who, Run(who, n, events).emitted)
    decreases |events|
  {
    if events != [] {
      RunFromMe(who, Step(who, n, events[0]), events[1..]);
    }
  }

  /** Whatever happened since, a running node that is asked again for a request it answered gives the same partial
      again without a new log line, and has no partial on any other message for it. */
  lemma AskedAgain(who: Participant, events: seq<Event>, i: nat, message: Message, signedAt: nat, stop: Stop)
    requires i < |Run(who, Fresh(), events).emitted| && Run(who, Fresh(), events).memory.Some?
    ensures var n := Run(who, Fresh(), events);
      var r := n.emitted[i];
      && (var n' := Step(who, n, Handle(r.body.requestId, r.body.message, signedAt, Finish));
          n'.emitted == n.emitted + [r] && n'.disk.log == n.disk.log)
      && (message != r.body.message ==> Step(who, n, Handle(r.body.requestId, message, signedAt, stop)) == n)
  {
    var n := Run(who, Fresh(), events);
    var r := n.emitted[i];
    RunRecorded(who, Fresh(), events);
    RunLogs(who, Fresh(), events);
    RunFromMe(who, Fresh(), events);
    AnsweredExactly(who, n, r.body.requestId, r.body.message, signedAt);
  }
}
