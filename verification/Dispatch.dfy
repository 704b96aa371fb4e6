/** Revision keeping and priority dispatch of the client's listening loop. */
module Dispatch {
  import opened Options

  datatype Operation = Operation(revision: int, kind: int)
  datatype Queue = Kicks | Invitations | Critical | Ordinary
  datatype Sent = Sent(queue: Queue, operation: Operation)

  // ---- Priorities

  predicate UrgentOperation(kind: int) {
    kind == 124 || kind == 133
  }

  predicate CriticalOperation(kind: int) {
    kind in {60, 122, 126}
  }

  /** Which queue an operation belongs in, said operation by operation. */
  function QueueFor(kind: int): Queue {
    match kind
    case 133 => Kicks
    case 124 => Invitations
    case 60 | 122 | 126 => Critical
    case _ => Ordinary
  }

  function Belonging(operations: seq<Operation>, queue: Queue): seq<Sent> {
    if operations == [] then []
    else
      var last := operations[|operations| - 1];
      Belonging(operations[..|operations| - 1], queue)
        + (if QueueFor(last.kind) == queue then [Sent(queue, last)] else [])
  }

  /** Kicks before invitations before critical before ordinary; each in batch order. */
  function SendOrder(operations: seq<Operation>): seq<Sent> {
    Belonging(operations, Kicks) + Belonging(operations, Invitations)
    + Belonging(operations, Critical) + Belonging(operations, Ordinary)
  }

  /** What one queue receives from a log of sends. */
  function Received(log: seq<Sent>, queue: Queue): seq<Operation> {
    if log == [] then []
    else Received(log[..|log| - 1], queue) + (if log[|log| - 1].queue == queue then [log[|log| - 1].operation] else [])
  }

  function Chosen(operations: seq<Operation>, queue: Queue): seq<Operation> {
    if operations == [] then []
    else
      var last := operations[|operations| - 1];
      Chosen(operations[..|operations| - 1], queue) + (if QueueFor(last.kind) == queue then [last] else [])
  }

  lemma {:induction false} ReceivedAppend(a: seq<Sent>, b: seq<Sent>, queue: Queue)
    ensures Received(a + b, queue) == Received(a, queue) + Received(b, queue)
  {
    if b == [] {
      assert a + b == a;
    } else {
      var n := |b| - 1;
      assert (a + b)[..|a + b| - 1] == a + b[..n];
      ReceivedAppend(a, b[..n], queue);
    }
  }

  lemma {:induction false} ReceivedBelonging(operations: seq<Operation>, sent: Queue, queue: Queue)
    ensures Received(Belonging(operations, sent), queue) == if sent == queue then Chosen(operations, queue) else []
  {
    if operations != [] {
      hide QueueFor;
      var n := |operations| - 1;
      ReceivedBelonging(operations[..n], sent, queue);
      var before, s := Belonging(operations[..n], sent), Sent(sent, operations[n]);
      assert (before + [s])[..|before|] == before;
      assert Received(before + [s], queue) == Received(before, queue) + (if sent == queue then [operations[n]] else []);
      assert before + [] == before;
    }
  }

  /** Each queue receives exactly the operations that belong in it, in batch order. */
  lemma EachQueueInOrder(operations: seq<Operation>, queue: Queue)
    ensures Received(SendOrder(operations), queue) == Chosen(operations, queue)
  {
    hide Received, Belonging, Chosen;
    var k, i := Belonging(operations, Kicks), Belonging(operations, Invitations);
    var c, o := Belonging(operations, Critical), Belonging(operations, Ordinary);
    ReceivedAppend(k, i, queue);
    ReceivedAppend(k + i, c, queue);
    ReceivedAppend(k + i + c, o, queue);
    ReceivedBelonging(operations, Kicks, queue);
    ReceivedBelonging(operations, Invitations, queue);
    ReceivedBelonging(operations, Critical, queue);
    ReceivedBelonging(operations, Ordinary, queue);
  }

  /** Every operation of the batch is in exactly one queue, as often as it was in the batch. */
  lemma {:induction false} EachOperationOnce(operations: seq<Operation>, operation: Operation, queue: Queue)
    ensures multiset(Chosen(operations, queue))[operation] ==
            if QueueFor(operation.kind) == queue then multiset(operations)[operation] else 0
  {
    if operations != [] {
      hide QueueFor;
      var n := |operations| - 1;
      EachOperationOnce(operations[..n], operation, queue);
      assert operations == operations[..n] + [operations[n]];
    }
  }

  /** How urgent a kind of operation is, said without queues: 0 goes first. */
  function Urgency(kind: int): nat {
    if kind == 133 then 0 else if kind == 124 then 1 else if kind == 60 || kind == 122 || kind == 126 then 2 else 3
  }

  function Level(queue: Queue): nat {
    match queue
    case Kicks => 0
    case Invitations => 1
    case Critical => 2
    case Ordinary => 3
  }

  lemma {:induction false} BelongingLevel(operations: seq<Operation>, queue: Queue)
    ensures forall s | s in Belonging(operations, queue) :: Urgency(s.operation.kind) == Level(queue)
  {
    if operations != [] {
      BelongingLevel(operations[..|operations| - 1], queue);
    }
  }

  /** Nothing is sent after something less urgent. */
  lemma UrgentFirst(operations: seq<Operation>, i: nat, j: nat)
    requires i < j < |SendOrder(operations)|
    ensures Urgency(SendOrder(operations)[i].operation.kind) <= Urgency(SendOrder(operations)[j].operation.kind)
  {
    hide Belonging, Urgency;
    BelongingLevel(operations, Kicks);
    BelongingLevel(operations, Invitations);
    BelongingLevel(operations, Critical);
    BelongingLevel(operations, Ordinary);
  }

  /** The kinds and their queues, and the order of the whole: kicks (133), then invitations (124), then
      joins, updates of a chat and cancellations (60, 122, 126), then the rest. */
  lemma KindsInOrder(operations: seq<Operation>, i: nat, j: nat)
    requires i <= j < |SendOrder(operations)|
    ensures var a, b := SendOrder(operations)[i], SendOrder(operations)[j];
      && (a.queue == (if a.operation.kind == 133 then Kicks else if a.operation.kind == 124 then Invitations
                      else if a.operation.kind in {60, 122, 126} then Critical else Ordinary))
      && (b.operation.kind == 133 ==> a.operation.kind == 133)
      && (b.operation.kind == 124 ==> a.operation.kind in {133, 124})
      && (b.operation.kind in {60, 122, 126} ==> a.operation.kind in {133, 124, 60, 122, 126})
  {
    if i < j {
      UrgentFirst(operations, i, j);
    }
    BelongingQueue(operations, Kicks);
    BelongingQueue(operations, Invitations);
    BelongingQueue(operations, Critical);
    BelongingQueue(operations, Ordinary);
    hide Belonging;
  }

  lemma {:induction false} BelongingQueue(operations: seq<Operation>, queue: Queue)
    ensures forall s | s in Belonging(operations, queue) :: s.queue == queue == QueueFor(s.operation.kind)
  {
    if operations != [] {
      BelongingQueue(operations[..|operations| - 1], queue);
    }
  }

  function Concat(batches: seq<seq<Operation>>): seq<Operation> {
    if batches == [] then [] else Concat(batches[..|batches| - 1]) + batches[|batches| - 1]
  }

  function SendAll(batches: seq<seq<Operation>>): seq<Sent> {
    if batches == [] then [] else SendAll(batches[..|batches| - 1]) + SendOrder(batches[|batches| - 1])
  }

  lemma {:induction false} ChosenAppend(a: seq<Operation>, b: seq<Operation>, queue: Queue)
    ensures Chosen(a + b, queue) == Chosen(a, queue) + Chosen(b, queue)
  {
    if b == [] {
      assert a + b == a;
    } else {
      hide QueueFor;
      var n := |b| - 1;
      assert (a + b)[..|a + b| - 1] == a + b[..n];
      ChosenAppend(a, b[..n], queue);
    }
  }

  /** Over a whole run of batches each queue holds its operations in the order the server sent them. */
  lemma {:induction false} QueuesOverRuns(batches: seq<seq<Operation>>, queue: Queue)
    ensures Received(SendAll(batches), queue) == Chosen(Concat(batches), queue)
  {
    if batches != [] {
      hide Received, Chosen, SendOrder;
      var n := |batches| - 1;
      QueuesOverRuns(batches[..n], queue);
      ReceivedAppend(SendAll(batches[..n]), SendOrder(batches[n]), queue);
      ChosenAppend(Concat(batches[..n]), batches[n], queue);
      EachQueueInOrder(batches[n], queue);
    } else {
      assert Received([], queue) == [] == Chosen([], queue);
    }
  }

  // ---- The dispatch loops

  /** The test each of the four passes makes. */
  predicate Selected(queue: Queue, kind: int) {
    match queue
    case Kicks => kind == 133
    case Invitations => kind == 124
    case Critical => CriticalOperation(kind)
    case Ordinary => !UrgentOperation(kind) && !CriticalOperation(kind)
  }

  /** The four tests are exclusive and leave nothing out. */
  lemma SelectedByQueueFor(queue: Queue, kind: int)
    ensures Selected(queue, kind) <==> QueueFor(kind) == queue
  {}

  class Queues {
    ghost var log: seq<Sent>
    var sent: nat
    var kicks: seq<Operation>
    var invitations: seq<Operation>
    var critical: seq<Operation>
    var ordinary: seq<Operation>

    ghost predicate Valid()
      reads this
    {
      && sent == |log|
      && kicks == Received(log, Kicks) && invitations == Received(log, Invitations)
      && critical == Received(log, Critical) && ordinary == Received(log, Ordinary)
    }

    constructor ()
      ensures Valid() && log == []
    {
      kicks, invitations, critical, ordinary := [], [], [], [];
      sent, log := 0, [];
    }

    /** A send may lose the race against cancellation; then nothing is queued. */
    method Enqueue(queue: Queue, operation: Operation, accepted: bool)
      requires Valid()
      modifies this
      ensures Valid() && sent == |log| && log == if accepted then old(log) + [Sent(queue, operation)] else old(log)
    {
      if accepted {
        match queue {
          case Kicks => kicks := kicks + [operation];
          case Invitations => invitations := invitations + [operation];
          case Critical => critical := critical + [operation];
          case Ordinary => ordinary := ordinary + [operation];
        }
        assert (log + [Sent(queue, operation)])[..|log|] == log;
        sent, log := sent + 1, log + [Sent(queue, operation)];
      }
    }

    /** One pass over the batch, sending what belongs in one queue; the `k`-th send of the whole run
        is taken while `accepts(k)`. */
    method Pass(operations: seq<Operation>, queue: Queue, accepts: nat -> bool) returns (open: bool)
      requires Valid()
      modifies this
      ensures Valid()
      ensures open ==> log == old(log) + Belonging(operations, queue)
      ensures !open ==> !accepts(|log|) && old(log) <= log < old(log) + Belonging(operations, queue)
      ensures forall k | |old(log)| <= k < |log| :: accepts(k)
    {
      assert sent == |log|;
      hide *;
      ghost var start := log;
      open := true;
      BelongingNone(operations, queue, start);
      for i := 0 to |operations|
        invariant Valid() && sent == |log| && log == start + Belonging(operations[..i], queue)
        invariant |start| <= |log| && forall k | |start| <= k < |log| :: accepts(k)
      {
        BelongingNext(operations, i, queue, start);
        if Selected(queue, operations[i].kind) {
          var accepted := accepts(sent);
          Enqueue(queue, operations[i], accepted);
          if !accepted {
            return false;
          }
        }
      }
    }

    /** The four passes; cancellation cuts the run short at the first send that is not taken. */
    method Dispatch(operations: seq<Operation>, accepts: nat -> bool) returns (open: bool)
      requires Valid()
      modifies this
      ensures Valid() && old(log) <= log <= old(log) + SendOrder(operations)
      ensures open <==> log == old(log) + SendOrder(operations)
      ensures !open ==> !accepts(|log|)
      ensures forall k | |old(log)| <= k < |log| :: accepts(k)
    {
      hide Received, Belonging;
      open := Pass(operations, Kicks, accepts);
      if open {
        open := Pass(operations, Invitations, accepts);
      }
      if open {
        open := Pass(operations, Critical, accepts);
      }
      if open {
        open := Pass(operations, Ordinary, accepts);
      }
    }
  }

  lemma BelongingNone(operations: seq<Operation>, queue: Queue, start: seq<Sent>)
    ensures start == start + Belonging(operations[..0], queue) && operations[..|operations|] == operations
  {}

  /** One step of a pass: what is sent so far, and how much is still to come. */
  lemma BelongingNext(operations: seq<Operation>, i: nat, queue: Queue, start: seq<Sent>)
    requires i < |operations|
    ensures var before := start + Belonging(operations[..i], queue);
            var after := start + Belonging(operations[..i + 1], queue);
            var s := Sent(queue, operations[i]);
            if Selected(queue, operations[i].kind)
            then before + [s] == after && start <= before < start + Belonging(operations, queue)
            else before == after
  {
    BelongingStep(operations, i, queue);
    BelongingPrefix(operations, i + 1, queue);
    SelectedByQueueFor(queue, operations[i].kind);
    hide Selected, QueueFor, Belonging;
    assert start + Belonging(operations[..i + 1], queue) <= start + Belonging(operations, queue);
  }

  lemma BelongingStep(operations: seq<Operation>, i: nat, queue: Queue)
    requires i < |operations|
    ensures Belonging(operations[..i + 1], queue) ==
            Belonging(operations[..i], queue)
              + (if QueueFor(operations[i].kind) == queue then [Sent(queue, operations[i])] else [])
  {
    hide QueueFor;
    assert operations[..i + 1][..i] == operations[..i];
  }

  lemma {:induction false} BelongingPrefix(operations: seq<Operation>, n: nat, queue: Queue)
    requires n <= |operations|
    ensures Belonging(operations[..n], queue) <= Belonging(operations, queue)
    decreases |operations| - n
  {
    if n < |operations| {
      BelongingPrefix(operations, n + 1, queue);
      assert operations[..n + 1][..n] == operations[..n];
    } else {
      assert operations[..n] == operations;
    }
  }

  // ---- Revisions

  datatype SyncState = SyncState(revision: int, globalRevision: int, individualRevision: int)

  /** A reply to a sync request. An operation that cannot be parsed is `None`; so is an absent event record. */
  datatype Reply =
    | Failed
    | Incremental(raw: seq<Option<Operation>>, hasMore: bool, globalEvents: Option<int>, individualEvents: Option<int>)
    | FullSync(revision: int)
    | Other

  function Parsed(raw: seq<Option<Operation>>): seq<Operation> {
    if raw == [] then []
    else Parsed(raw[..|raw| - 1]) + (match raw[|raw| - 1] case Some(operation) => [operation] case None => [])
  }

  /** The running maximum of the revisions seen. */
  function Highest(start: int, operations: seq<Operation>): (r: int)
    ensures r >= start
    ensures forall op | op in operations :: r >= op.revision
    ensures r == start || exists op :: op in operations && r == op.revision
  {
    if operations == [] then start
    else
      var before := Highest(start, operations[..|operations| - 1]);
      var last := operations[|operations| - 1];
      assert operations == operations[..|operations| - 1] + [last];
      assert last in operations;
      if last.revision > before then last.revision else before
  }

  function OrElse(event: Option<int>, previous: int): int {
    match event case Some(revision) => revision case None => previous
  }

  /** The operations a reply delivers. */
  function Delivered(reply: Reply): seq<Operation> {
    if reply.Incremental? then Parsed(reply.raw) else []
  }

  /** What a request that started from `state` writes back. */
  function Synced(state: SyncState, reply: Reply): SyncState {
    match reply
    case Failed => state
    case Incremental(raw, _, globalEvents, individualEvents) =>
      SyncState(Highest(state.revision, Parsed(raw)), OrElse(globalEvents, state.globalRevision),
                OrElse(individualEvents, state.individualRevision))
    case FullSync(revision) => if revision > 0 then state.(revision := revision) else state
    case Other => state
  }

  /** What is written back, field by field; an incremental reply never lowers the revision, and a full one
      without a revision leaves it. */
  lemma SyncedFields(state: SyncState, reply: Reply)
    ensures var s := Synced(state, reply);
      match reply
      case Failed => s == state
      case Other => s == state
      case FullSync(revision) =>
        s == SyncState(if revision >= 1 then revision else state.revision, state.globalRevision,
                       state.individualRevision)
      case Incremental(raw, _, globalEvents, individualEvents) =>
        && s.revision >= state.revision
        && (forall k | 0 <= k < |raw| && raw[k].Some? :: s.revision >= raw[k].value.revision)
        && (s.revision == state.revision
            || exists k :: 0 <= k < |raw| && raw[k].Some? && s.revision == raw[k].value.revision)
        && (if globalEvents.Some? then s.globalRevision == globalEvents.value
            else s.globalRevision == state.globalRevision)
        && (if individualEvents.Some? then s.individualRevision == individualEvents.value
            else s.individualRevision == state.individualRevision)
  {
    if reply.Incremental? {
      ParsedMeans(reply.raw);
      hide Parsed;
    }
  }

  /** The operations that could be parsed, and no others. */
  lemma {:induction false} ParsedMeans(raw: seq<Option<Operation>>)
    ensures forall op :: op in Parsed(raw) <==> Some(op) in raw
  {
    if raw != [] {
      ParsedMeans(raw[..|raw| - 1]);
      assert raw == raw[..|raw| - 1] + [raw[|raw| - 1]];
    }
  }

  lemma {:induction false} HighestAppend(start: int, a: seq<Operation>, b: seq<Operation>)
    ensures Highest(start, a + b) == Highest(Highest(start, a), b)
  {
    if b == [] {
      assert a + b == a;
    } else {
      var n := |b| - 1;
      assert (a + b)[..|a + b| - 1] == a + b[..n];
      HighestAppend(start, a, b[..n]);
    }
  }

  class Client {
    var state: SyncState

    constructor (initial: SyncState)
      ensures state == initial
    {
      state := initial;
    }

    /** One request and its answer. When saving fails the advanced state stays and the batch is lost. */
    method SyncOnce(count: int, reply: Reply, saves: bool) returns (operations: seq<Operation>, hasMore: bool, ok: bool)
      modifies this
      ensures ok <==> count > 0 && !reply.Failed? && saves
      ensures state == if count > 0 then Synced(old(state), reply) else old(state)
      ensures operations == if ok then Delivered(reply) else []
      ensures hasMore == (ok && reply.Incremental? && reply.hasMore)
    {
      hide Parsed, Highest;
      if count <= 0 || reply.Failed? {
        return [], false, false;
      }
      var next := state;
      operations, hasMore := [], false;
      if reply.Incremental? {
        var revision: int;
        operations, revision := ReadOperations(reply.raw, next.revision);
        hasMore := reply.hasMore;
        next := next.(revision := revision);
        if reply.globalEvents.Some? {
          next := next.(globalRevision := reply.globalEvents.value);
        }
        if reply.individualEvents.Some? {
          next := next.(individualRevision := reply.individualEvents.value);
        }
      } else if reply.FullSync? && reply.revision > 0 {
        next := next.(revision := reply.revision);
      }
      state := next;
      if !saves {
        return [], false, false;
      }
      ok := true;
    }

    /** Raises the revision to the server's latest, if the lookup gave one and it is higher. */
    method BootstrapLatestRevision(lookup: Option<int>, saves: bool) returns (previous: int, latest: int, ok: bool)
      modifies this
      ensures previous == old(state).revision
      ensures latest == if lookup.Some? then lookup.value else 0
      ensures ok <==> lookup.Some? && (latest > previous ==> saves)
      ensures state == old(state).(revision := if lookup.Some? && latest > previous then latest else previous)
    {
      previous := state.revision;
      if lookup.None? {
        return previous, 0, false;
      }
      latest, ok := lookup.value, true;
      if latest > previous {
        state := state.(revision := latest);
        ok := saves;
      }
    }
  }

  /** The loop over the raw operations: those that cannot be parsed are skipped. */
  method ReadOperations(raw: seq<Option<Operation>>, start: int) returns (operations: seq<Operation>, revision: int)
    ensures operations == Parsed(raw) && revision == Highest(start, Parsed(raw))
  {
    ParsedStart(raw, start);
    hide Parsed, Highest;
    operations, revision := [], start;
    for i := 0 to |raw|
      invariant operations == Parsed(raw[..i]) && revision == Highest(start, operations)
    {
      ParsedNext(raw, i, start);
      if raw[i].Some? {
        if raw[i].value.revision > revision {
          revision := raw[i].value.revision;
        }
        operations := operations + [raw[i].value];
      }
    }
  }

  lemma ParsedStart(raw: seq<Option<Operation>>, start: int)
    ensures Parsed(raw[..0]) == [] && Highest(start, []) == start && raw[..|raw|] == raw
  {}

  lemma ParsedNext(raw: seq<Option<Operation>>, i: nat, start: int)
    requires i < |raw|
    ensures var before, after := Parsed(raw[..i]), Parsed(raw[..i + 1]);
      if raw[i].None? then after == before
      else
        && after == before + [raw[i].value]
        && Highest(start, after) ==
           (if raw[i].value.revision > Highest(start, before) then raw[i].value.revision else Highest(start, before))
  {
    assert raw[..i + 1][..i] == raw[..i];
    if raw[i].Some? {
      var before := Parsed(raw[..i]);
      hide Parsed;
      assert (before + [raw[i].value])[..|before|] == before;
    }
  }

  // ---- Requests and bootstraps interleaved

  /** The sync lock admits one request at a time; a bootstrap does not take it. */
  datatype Step = Begin | End(reply: Reply) | Bootstrap(latest: int)
  datatype Machine = Machine(stored: SyncState, inFlight: Option<SyncState>)

  predicate Enabled(m: Machine, step: Step) {
    match step
    case Begin => m.inFlight.None?
    case End(_) => m.inFlight.Some?
    case Bootstrap(_) => true
  }

  function Next(m: Machine, step: Step): Machine
    requires Enabled(m, step)
  {
    match step
    case Begin => m.(inFlight := Some(m.stored))
    case End(reply) =>
      Machine(if reply.Failed? then m.stored else Synced(m.inFlight.value, reply), None)
    case Bootstrap(latest) =>
      if latest > m.stored.revision then m.(stored := m.stored.(revision := latest)) else m
  }

  predicate Admissible(m: Machine, steps: seq<Step>)
    decreases |steps|
  {
    steps == [] || (Enabled(m, steps[0]) && Admissible(Next(m, steps[0]), steps[1..]))
  }

  function Run(m: Machine, steps: seq<Step>): Machine
    requires Admissible(m, steps)
    decreases |steps|
  {
    if steps == [] then m else Run(Next(m, steps[0]), steps[1..])
  }

  predicate NoFullSync(steps: seq<Step>) {
    forall s | s in steps :: s.End? ==> !s.reply.FullSync?
  }

  predicate Monotone(m: Machine, steps: seq<Step>)
    requires Admissible(m, steps)
    decreases |steps|
  {
    steps == [] ||
    (m.stored.revision <= Next(m, steps[0]).stored.revision && Monotone(Next(m, steps[0]), steps[1..]))
  }

  predicate BootstrapsOnlyBetween(m: Machine, steps: seq<Step>)
    requires Admissible(m, steps)
    decreases |steps|
  {
    steps == [] ||
    ((steps[0].Bootstrap? && m.inFlight.Some? ==> steps[0].latest <= m.stored.revision)
     && BootstrapsOnlyBetween(Next(m, steps[0]), steps[1..]))
  }

  /** No bootstrap raises the revision during a request: then over every interleaving without full
      syncs the stored revision never decreases. */
  lemma {:induction false} NeverDecreases(m: Machine, steps: seq<Step>)
    requires Admissible(m, steps) && NoFullSync(steps) && BootstrapsOnlyBetween(m, steps)
    requires m.inFlight.Some? ==> m.inFlight.value.revision == m.stored.revision
    ensures Monotone(m, steps) && m.stored.revision <= Run(m, steps).stored.revision
    decreases |steps|
  {
    if steps != [] {
      assert steps[0] in steps;
      assert forall s | s in steps[1..] :: s in steps;
      NeverDecreases(Next(m, steps[0]), steps[1..]);
    }
  }

  function Bootstraps(latests: seq<int>): seq<Step> {
    seq(|latests|, i requires 0 <= i < |latests| => Bootstrap(latests[i]))
  }

  /** The exact condition for one request with any bootstraps during its flight: the revision falls iff
      one of them stored more than what the reply writes. */
  lemma DecreasesIffOverwritten(m: Machine, latests: seq<int>, reply: Reply)
    requires m.inFlight.None? && !reply.Failed? && !reply.FullSync?
    ensures var steps := [Begin] + (Bootstraps(latests) + [End(reply)]);
            && Admissible(m, steps)
            && (Monotone(m, steps) <==> forall l | l in latests :: l <= Highest(m.stored.revision, Delivered(reply)))
  {
    hide Highest, Delivered;
    var rest := Bootstraps(latests) + [End(reply)];
    assert ([Begin] + rest)[1..] == rest;
    WindowFrom(Next(m, Begin), latests, reply);
  }

  lemma SyncedRevision(state: SyncState, reply: Reply)
    requires !reply.FullSync?
    ensures Synced(state, reply).revision == Highest(state.revision, Delivered(reply))
  {
    hide Parsed;
  }

  lemma {:induction false} WindowFrom(m: Machine, latests: seq<int>, reply: Reply)
    requires m.inFlight.Some? && !reply.Failed? && !reply.FullSync?
    ensures var steps := Bootstraps(latests) + [End(reply)];
            var written := Highest(m.inFlight.value.revision, Delivered(reply));
            && Admissible(m, steps)
            && (Monotone(m, steps) <==> m.stored.revision <= written && forall l | l in latests :: l <= written)
    decreases |latests|
  {
    SyncedRevision(m.inFlight.value, reply);
    hide Highest, Delivered, Synced;
    var steps := Bootstraps(latests) + [End(reply)];
    if latests == [] {
      assert steps == [End(reply)] && steps[1..] == [];
    } else {
      var next, rest := Next(m, Bootstrap(latests[0])), Bootstraps(latests[1..]) + [End(reply)];
      WindowFrom(next, latests[1..], reply);
      assert steps[0] == Bootstrap(latests[0]) && steps[1..] == rest;
      assert latests[0] in latests;
      assert forall l :: l in latests <==> l == latests[0] || l in latests[1..];
    }
  }

  /** How the request in flight ends, if it does. */
  function FirstEnd(steps: seq<Step>): Option<Reply>
    decreases |steps|
  {
    if steps == [] then None else if steps[0].End? then Some(steps[0].reply) else FirstEnd(steps[1..])
  }

  /** A revision stored while a request that began at `start` is in flight outlives its reply: there is
      none, or it failed, or what it writes is at least that. */
  predicate Outlives(latest: int, start: int, rest: seq<Step>) {
    match FirstEnd(rest)
    case None => true
    case Some(reply) => reply.Failed? || latest <= Highest(start, Delivered(reply))
  }

  /** Every bootstrap made during a request outlives it. */
  predicate BootstrapsOutlive(m: Machine, steps: seq<Step>)
    requires Admissible(m, steps)
    decreases |steps|
  {
    steps == [] ||
    ((steps[0].Bootstrap? && m.inFlight.Some? ==> Outlives(steps[0].latest, m.inFlight.value.revision, steps[1..]))
     && BootstrapsOutlive(Next(m, steps[0]), steps[1..]))
  }

  /** Over every interleaving without full syncs the stored revision never decreases if and only if no
      bootstrap made during a request exceeds what that request goes on to write. */
  lemma MonotoneIffBootstrapsOutlive(m: Machine, steps: seq<Step>)
    requires Admissible(m, steps) && NoFullSync(steps) && m.inFlight.None?
    ensures Monotone(m, steps) <==> BootstrapsOutlive(m, steps)
  {
    MonotoneFrom(m, steps);
  }

  lemma {:induction false} MonotoneFrom(m: Machine, steps: seq<Step>)
    requires Admissible(m, steps) && NoFullSync(steps)
    ensures Monotone(m, steps) <==>
      (m.inFlight.Some? ==> Outlives(m.stored.revision, m.inFlight.value.revision, steps))
        && BootstrapsOutlive(m, steps)
    decreases |steps|
  {
    if steps != [] {
      assert steps[0] in steps && forall s | s in steps[1..] :: s in steps;
      if steps[0].End? {
        SyncedRevision(m.inFlight.value, steps[0].reply);
      }
      hide Highest, Delivered, Synced;
      MonotoneFrom(Next(m, steps[0]), steps[1..]);
    }
  }

  /** The lost update, concretely: 5 is read, 10 is stored by a bootstrap, 7 is written back. */
  lemma BootstrapCanBeLost(m: Machine)
    requires m.stored.revision == 5 && m.inFlight.None?
    ensures var steps := [Begin, Bootstrap(10), End(Incremental([Some(Operation(7, 26))], false, None, None))];
            Admissible(m, steps) && NoFullSync(steps) && !Monotone(m, steps) && Run(m, steps).stored.revision == 7
  {
    var reply := Incremental([Some(Operation(7, 26))], false, None, None);
    var steps := [Begin, Bootstrap(10), End(reply)];
    var m1 := Next(m, steps[0]);
    var m2 := Next(m1, steps[1]);
    assert steps[1..] == [Bootstrap(10), End(reply)] && steps[1..][1..] == [End(reply)] && steps[1..][1..][1..] == [];
    assert reply.raw[..0] == [] && Parsed(reply.raw) == [Operation(7, 26)];
    assert [Operation(7, 26)][..0] == [];
    assert Highest(5, [Operation(7, 26)]) == 7;
    assert Admissible(m2, [End(reply)]);
    assert Admissible(m1, steps[1..]);
  }

  /** Everything a run of replies delivers. */
  function AllParsed(replies: seq<Reply>): seq<Operation> {
    if replies == [] then []
    else
      var last := replies[|replies| - 1];
      AllParsed(replies[..|replies| - 1]) + Delivered(last)
  }

  function SyncAll(state: SyncState, replies: seq<Reply>): SyncState {
    if replies == [] then state else Synced(SyncAll(state, replies[..|replies| - 1]), replies[|replies| - 1])
  }

  /** A reply that delivers nothing loses one too: the stale state is written back. */
  lemma BootstrapCanBeLostToNothing(m: Machine)
    requires m.stored.revision == 5 && m.inFlight.None?
    ensures var steps := [Begin, Bootstrap(10), End(Other)];
            Admissible(m, steps) && NoFullSync(steps) && !Monotone(m, steps) && Run(m, steps).stored.revision == 5
  {
    var steps := [Begin, Bootstrap(10), End(Other)];
    var m1 := Next(m, steps[0]);
    assert steps[1..] == [Bootstrap(10), End(Other)] && steps[1..][1..] == [End(Other)] && steps[1..][1..][1..] == [];
    assert Admissible(Next(m1, Bootstrap(10)), [End(Other)]);
    assert Admissible(m1, steps[1..]);
  }

  /** Over uninterrupted requests without full syncs the stored revision is the running maximum of
      everything delivered. */
  lemma {:induction false} RunningMaximum(state: SyncState, replies: seq<Reply>)
    requires forall r | r in replies :: !r.FullSync?
    ensures SyncAll(state, replies).revision == Highest(state.revision, AllParsed(replies))
  {
    if replies != [] {
      var n := |replies| - 1;
      assert forall r | r in replies[..n] :: r in replies;
      assert replies[n] in replies;
      RunningMaximum(state, replies[..n]);
      hide Highest;
      HighestAppend(state.revision, AllParsed(replies[..n]), Delivered(replies[n]));
      if !replies[n].Incremental? {
        assert AllParsed(replies[..n]) + [] == AllParsed(replies[..n]);
      }
    }
  }
}
