/** The session protocol as interleaved atomic steps: calls that may fail with an expired token, the
    serialized exchange of tokens, and the single retry. */
module Session {
  import opened Options

  const WORD: int := 0x1_0000_0000_0000_0000

  type Id = nat
  type Token = string
  type Procedure = string

  datatype Tokens = Tokens(access: Token, refresh: Token)

  /** What a request brought back. `body` is what the fields of a decoded message hold. */
  datatype Reply =
    | NotSent
    | HttpError(unauthorized: bool)
    | Undecodable
    | Message(name: string, kind: int, sequence: int, body: Body)

  datatype Body = Result | ServiceError(expired: bool) | Empty | ResultMissing

  datatype Verdict = Accept | Refresh | Reject

  /** How one reply is judged. */
  function Judge(procedure: Procedure, sequence: int, retried: bool, reply: Reply): Verdict {
    match reply
    case NotSent => Reject
    case HttpError(unauthorized) => if unauthorized && !retried then Refresh else Reject
    case Undecodable => Reject
    case Message(name, kind, replySequence, body) =>
      if kind != 2 || name != procedure || replySequence != sequence then Reject
      else match body
        case Result => Accept
        case ServiceError(expired) => if expired && !retried then Refresh else Reject
        case Empty => Accept
        case ResultMissing => Reject
  }

  datatype Phase =
    | Loading
    | Loaded(token: Token)
    | Sequenced(sequence: int)
    | Waiting(failed: Token, force: bool)
    | Holding(failed: Token, force: bool)
    | Exchanging(failed: Token, force: bool, presented: Tokens)
    | Writing(response: Tokens)
    | Returned(newToken: Token)
    | Accepted(sequence: int, reply: Reply)
    | Erred

  /** `procedure` is absent for a caller that only refreshes. `token` is what the last request was sent with. */
  datatype Caller = Caller(procedure: Option<Procedure>, token: Token, retried: bool, phase: Phase)

  datatype Exchange = Exchange(caller: Id, failed: Token, force: bool, presented: Tokens, response: Option<Tokens>)
  datatype Attempt = Attempt(caller: Id, retried: bool)

  /** `cached` is the service's copy of the access token; the two logs are what has been sent so far. */
  datatype State = State(
    session: Tokens, cached: Token, lock: Option<Id>, callers: map<Id, Caller>,
    exchanges: seq<Exchange>, attempts: seq<Attempt>)

  datatype Step =
    | StartCall(id: Id, procedure: Procedure, given: Token)
    | StartRefresh(id: Id, failed: Token, force: bool)
    | Load(id: Id)
    | Take(id: Id)
    | Post(id: Id, reply: Reply)
    | Acquire(id: Id)
    | Read(id: Id)
    | Trade(id: Id, response: Option<Tokens>)
    | Write(id: Id, saves: bool)
    | Resume(id: Id)

  function Initial(session: Tokens): State {
    State(session, session.access, None, map[], [], [])
  }

  predicate Enabled(s: State, step: Step) {
    match step
    case StartCall(id, _, _) => id !in s.callers
    case StartRefresh(id, _, _) => id !in s.callers
    case Load(id) => id in s.callers && s.callers[id].phase.Loading?
    case Take(id) => id in s.callers && s.callers[id].phase.Loaded?
    case Post(id, _) => id in s.callers && s.callers[id].phase.Sequenced? && s.callers[id].procedure.Some?
    case Acquire(id) => id in s.callers && s.callers[id].phase.Waiting? && s.lock.None?
    case Read(id) => id in s.callers && s.callers[id].phase.Holding?
    case Trade(id, response) =>
      id in s.callers && s.callers[id].phase.Exchanging? && (response.Some? ==> response.value.access != "")
    case Write(id, _) => id in s.callers && s.callers[id].phase.Writing?
    case Resume(id) => id in s.callers && s.callers[id].phase.Returned? && s.callers[id].procedure.Some?
  }

  function Put(s: State, id: Id, phase: Phase): State
    requires id in s.callers
  {
    s.(callers := s.callers[id := s.callers[id].(phase := phase)])
  }

  /** A response without a refresh token keeps the old one. */
  function Applied(session: Tokens, response: Tokens): Tokens {
    Tokens(response.access, if response.refresh != "" then response.refresh else session.refresh)
  }

  function ReadSession(s: State, id: Id, failed: Token, force: bool): State
    requires id in s.callers
  {
    if !force && failed != "" && s.session.access != failed then
      Put(s, id, Returned(s.session.access)).(lock := None)
    else if s.session.refresh == "" then Put(s, id, Erred).(lock := None)
    else Put(s, id, Exchanging(failed, force, s.session))
  }

  function Next(s: State, step: Step): State
    requires Enabled(s, step)
  {
    match step
    case StartCall(id, procedure, given) =>
      s.(callers := s.callers[id := Caller(Some(procedure), given, false, Loading)])
    case StartRefresh(id, failed, force) =>
      s.(callers := s.callers[id := Caller(None, failed, false, Waiting(failed, force))])
    case Load(id) =>
      var caller := s.callers[id];
      var token := if s.cached != "" then s.cached else caller.token;
      s.(callers := s.callers[id := caller.(token := token, phase := Loaded(token))])
    case Take(id) =>
      Put(s, id, Sequenced((|s.attempts| + 1) % WORD)).(attempts := s.attempts + [Attempt(id, s.callers[id].retried)])
    case Post(id, reply) =>
      var caller := s.callers[id];
      Put(s, id, match Judge(caller.procedure.value, caller.phase.sequence, caller.retried, reply)
                 case Accept => Accepted(caller.phase.sequence, reply)
                 case Refresh => Waiting(caller.token, false)
                 case Reject => Erred)
    case Acquire(id) =>
      var phase := s.callers[id].phase;
      Put(s, id, Holding(phase.failed, phase.force)).(lock := Some(id))
    case Read(id) => ReadSession(s, id, s.callers[id].phase.failed, s.callers[id].phase.force)
    case Trade(id, response) =>
      var phase := s.callers[id].phase;
      var traded := s.(exchanges := s.exchanges + [Exchange(id, phase.failed, phase.force, phase.presented, response)]);
      (match response
       case Some(tokens) => Put(traded, id, Writing(tokens))
       case None => Put(traded, id, Erred).(lock := None))
    case Write(id, saves) =>
      var response := s.callers[id].phase.response;
      Put(s, id, if saves then Returned(response.access) else Erred)
        .(session := Applied(s.session, response), cached := response.access, lock := None)
    case Resume(id) =>
      var caller := s.callers[id];
      var token := caller.phase.newToken;
      s.(cached := if token != "" then token else s.cached,
         callers := s.callers[id := caller.(token := token, retried := true, phase := Loading)])
  }

  predicate Admissible(s: State, steps: seq<Step>)
    decreases |steps|, 0
  {
    steps == [] ||
    (Admissible(s, steps[..|steps| - 1]) && Enabled(Run(s, steps[..|steps| - 1]), steps[|steps| - 1]))
  }

  function Run(s: State, steps: seq<Step>): State
    requires Admissible(s, steps)
    decreases |steps|, 1
  {
    if steps == [] then s else Next(Run(s, steps[..|steps| - 1]), steps[|steps| - 1])
  }

  // ---- The chain of exchanges

  /** The tokens left by a history of exchanges; a failed one leaves them alone. */
  function After(first: Tokens, exchanges: seq<Exchange>): Tokens {
    if exchanges == [] then first
    else
      var before := After(first, exchanges[..|exchanges| - 1]);
      match exchanges[|exchanges| - 1].response
      case Some(response) => Applied(before, response)
      case None => before
  }

  /** What one exchange may present, given the tokens left by those before it. */
  predicate Justified(exchange: Exchange, left: Tokens) {
    && exchange.presented == left
    && left.refresh != ""
    && (exchange.force || exchange.failed == "" || exchange.failed == left.access)
  }

  ghost predicate Chained(first: Tokens, exchanges: seq<Exchange>) {
    forall i | 0 <= i < |exchanges| :: Justified(exchanges[i], After(first, exchanges[..i]))
  }

  predicate Critical(phase: Phase) {
    phase.Holding? || phase.Exchanging? || phase.Writing?
  }

  /** Exactly the lock holder is between taking and releasing the refresh lock. */
  ghost predicate LockHeld(s: State) {
    && (forall id | id in s.callers :: Critical(s.callers[id].phase) <==> s.lock == Some(id))
    && (s.lock.Some? ==> s.lock.value in s.callers)
  }

  /** The tokens in force once a pending response has been written. */
  function Effective(s: State): Tokens {
    if s.lock.Some? && s.lock.value in s.callers && s.callers[s.lock.value].phase.Writing? then
      Applied(s.session, s.callers[s.lock.value].phase.response)
    else s.session
  }

  /** The holder about to exchange will present what the session still holds, and was entitled to. */
  ghost predicate Entitled(s: State) {
    forall id | id in s.callers && s.callers[id].phase.Exchanging? ::
      var phase := s.callers[id].phase;
      Justified(Exchange(id, phase.failed, phase.force, phase.presented, None), s.session)
  }

  ghost predicate ChainInv(first: Tokens, s: State) {
    LockHeld(s) && Entitled(s) && Effective(s) == After(first, s.exchanges) && Chained(first, s.exchanges)
  }

  lemma ChainedNext(first: Tokens, exchanges: seq<Exchange>, exchange: Exchange)
    requires Chained(first, exchanges) && Justified(exchange, After(first, exchanges))
    ensures Chained(first, exchanges + [exchange])
    ensures After(first, exchanges + [exchange]) ==
      match exchange.response
      case Some(response) => Applied(After(first, exchanges), response)
      case None => After(first, exchanges)
  {
    hide Justified;
    var all := exchanges + [exchange];
    assert all[..|exchanges|] == exchanges;
    forall i | 0 <= i < |all|
      ensures Justified(all[i], After(first, all[..i]))
    {
      if i < |exchanges| {
        assert all[..i] == exchanges[..i];
      }
    }
  }

  lemma StepKeepsLock(s: State, step: Step)
    requires LockHeld(s) && Enabled(s, step)
    ensures LockHeld(Next(s, step))
  {
    hide Judge;
  }

  lemma StepKeepsEntitled(s: State, step: Step)
    requires LockHeld(s) && Entitled(s) && Enabled(s, step)
    ensures Entitled(Next(s, step))
  {
    hide Judge, Applied;
  }

  /** Only an exchange moves the tokens in force, and only as its response says. */
  lemma StepEffective(s: State, step: Step)
    requires LockHeld(s) && Enabled(s, step)
    ensures Effective(Next(s, step)) ==
      if step.Trade? && step.response.Some? then Applied(s.session, step.response.value) else Effective(s)
    ensures step.Trade? ==> Effective(s) == s.session
    ensures !step.Trade? ==> Next(s, step).exchanges == s.exchanges
  {
    hide Judge, Applied;
  }

  lemma StepKeepsChain(first: Tokens, s: State, step: Step)
    requires ChainInv(first, s) && Enabled(s, step)
    ensures ChainInv(first, Next(s, step))
  {
    StepKeepsLock(s, step);
    StepKeepsEntitled(s, step);
    StepEffective(s, step);
    if step.Trade? {
      var phase := s.callers[step.id].phase;
      ChainedNext(first, s.exchanges, Exchange(step.id, phase.failed, phase.force, phase.presented, step.response));
    }
    hide After, Chained, LockHeld, Entitled, Effective;
  }

  /** The theorem on exchanges, for every interleaving of any number of callers: each exchange presents
      exactly the tokens left by the previous ones, and is made only by a caller that forced it, named
      no failed token, or failed with the token then still current. */
  lemma {:induction false} ExchangesFormAChain(first: Tokens, steps: seq<Step>)
    requires Admissible(Initial(first), steps)
    ensures ChainInv(first, Run(Initial(first), steps))
    decreases |steps|
  {
    if steps != [] {
      hide ChainInv;
      var before := steps[..|steps| - 1];
      ExchangesFormAChain(first, before);
      StepKeepsChain(first, Run(Initial(first), before), steps[|steps| - 1]);
    }
  }

  // ---- No token is exchanged twice

  /** After a successful exchange, the token it retired is current again only if reissued later. */
  lemma {:induction false} RetiredUnlessReissued(first: Tokens, exchanges: seq<Exchange>, i: nat, j: nat, token: Token)
    requires i < j <= |exchanges| && exchanges[i].response.Some?
    requires After(first, exchanges[..j]).access == token
    ensures exists k | i <= k < j :: exchanges[k].response.Some? && exchanges[k].response.value.access == token
    decreases j
  {
    assert exchanges[..j][..j - 1] == exchanges[..j - 1];
    if exchanges[j - 1].response.Some? {
      assert exchanges[j - 1].response.value.access == token;
    } else {
      RetiredUnlessReissued(first, exchanges, i, j - 1, token);
    }
  }

  /** However many callers fail with one token at once, it is exchanged successfully at most once,
      unless the server hands that same token out again. */
  lemma OneExchangePerToken(first: Tokens, exchanges: seq<Exchange>, i: nat, j: nat)
    requires Chained(first, exchanges) && i < j < |exchanges|
    requires !exchanges[j].force && exchanges[i].failed == exchanges[j].failed != ""
    requires exchanges[i].response.Some?
    ensures exists k | i <= k < j ::
        exchanges[k].response.Some? && exchanges[k].response.value.access == exchanges[i].failed
  {
    assert Justified(exchanges[j], After(first, exchanges[..j]));
    RetiredUnlessReissued(first, exchanges, i, j, exchanges[j].failed);
  }

  // ---- Attempts and acceptance

  /** Past taking a sequence number in the current attempt. */
  predicate Taken(caller: Caller) {
    caller.procedure.Some? && !caller.phase.Loading? && !caller.phase.Loaded?
  }

  ghost predicate AttemptInv(s: State) {
    && (forall k | 0 <= k < |s.attempts| ::
          var a := s.attempts[k];
          a.caller in s.callers && (if a.retried then s.callers[a.caller].retried && Taken(s.callers[a.caller])
                                else s.callers[a.caller].retried || Taken(s.callers[a.caller])))
    && (forall j, k | 0 <= j < k < |s.attempts| && s.attempts[j].caller == s.attempts[k].caller ::
          !s.attempts[j].retried && s.attempts[k].retried)
  }

  /** A caller's sequence number is that of an attempt of its own. */
  predicate Owns(s: State, id: Id, retried: bool, sequence: int) {
    exists k | 0 <= k < |s.attempts| :: s.attempts[k] == Attempt(id, retried) && sequence == (k + 1) % WORD
  }

  predicate Matches(procedure: Option<Procedure>, sequence: int, reply: Reply) {
    reply.Message? && reply.kind == 2 && procedure == Some(reply.name) && reply.sequence == sequence
    && (reply.body.Result? || reply.body.Empty?)
  }

  ghost predicate AcceptInv(s: State) {
    forall id | id in s.callers ::
      var c := s.callers[id];
      && (c.phase.Sequenced? ==> Owns(s, id, c.retried, c.phase.sequence))
      && (c.phase.Accepted? ==>
            Owns(s, id, c.retried, c.phase.sequence) && Matches(c.procedure, c.phase.sequence, c.phase.reply))
  }

  lemma OwnsGrows(s: State, t: State, id: Id, retried: bool, sequence: int)
    requires s.attempts <= t.attempts && Owns(s, id, retried, sequence)
    ensures Owns(t, id, retried, sequence)
  {
    var k :| 0 <= k < |s.attempts| && s.attempts[k] == Attempt(id, retried) && sequence == (k + 1) % WORD;
    assert t.attempts[k] == Attempt(id, retried);
  }

  /** A caller that only refreshes never sends a request of its own, and a retried one never refreshes. */
  predicate PhaseOk(c: Caller) {
    && (c.procedure.None? ==> !c.phase.Loading? && !c.phase.Loaded? && !c.phase.Sequenced? && !c.phase.Accepted?)
    && (c.retried ==> !Critical(c.phase) && !c.phase.Waiting? && !c.phase.Returned?)
  }

  ghost predicate PhasesOk(s: State) {
    forall id | id in s.callers :: PhaseOk(s.callers[id])
  }

  lemma OthersStay(s: State, step: Step, id: Id)
    requires Enabled(s, step) && step.id != id
    ensures id in s.callers <==> id in Next(s, step).callers
    ensures id in s.callers ==> Next(s, step).callers[id] == s.callers[id]
  {
    hide Judge, Enabled;
  }

  lemma StepKeepsPhases(s: State, step: Step)
    requires PhasesOk(s) && Enabled(s, step)
    ensures PhasesOk(Next(s, step))
  {
    forall id | id in Next(s, step).callers
      ensures PhaseOk(Next(s, step).callers[id])
    {
      if step.id != id {
        OthersStay(s, step, id);
      } else {
        OwnPhaseOk(s, step);
      }
    }
    hide Next, Enabled, PhaseOk;
  }

  lemma OwnPhaseOk(s: State, step: Step)
    requires PhasesOk(s) && Enabled(s, step)
    ensures step.id in Next(s, step).callers && PhaseOk(Next(s, step).callers[step.id])
  {
    if step.Post? {
      var c := s.callers[step.id];
      assert c.retried ==> Judge(c.procedure.value, c.phase.sequence, c.retried, step.reply) != Refresh;
    }
    hide Judge;
  }

  lemma StepKeepsAttempts(s: State, step: Step)
    requires AttemptInv(s) && PhasesOk(s) && Enabled(s, step)
    ensures AttemptInv(Next(s, step))
  {
    var t := Next(s, step);
    forall id | id in s.callers
      ensures id in t.callers && (s.callers[id].retried ==> t.callers[id].retried)
      ensures Taken(s.callers[id]) ==>
                if t.callers[id].retried == s.callers[id].retried then Taken(t.callers[id]) else t.callers[id].retried
    {
      if step.id != id {
        OthersStay(s, step, id);
      } else {
        OwnCall(s, step);
      }
    }
    AttemptTaken(s, step);
    hide Next, Enabled, Taken, PhaseOk;
  }

  /** A call stays taken, except that resuming makes it a retry. */
  lemma OwnCall(s: State, step: Step)
    requires PhasesOk(s) && Enabled(s, step) && step.id in s.callers
    ensures step.id in Next(s, step).callers
    ensures var c, d := s.callers[step.id], Next(s, step).callers[step.id];
            && (c.retried ==> d.retried)
            && (Taken(c) ==> if d.retried == c.retried then Taken(d) else d.retried)
  {
    assert PhaseOk(s.callers[step.id]);
    hide Judge;
  }

  /** Only a call that has not yet done so takes a number, and then it has. */
  lemma AttemptTaken(s: State, step: Step)
    requires PhasesOk(s) && Enabled(s, step)
    ensures var t := Next(s, step);
            if step.Take? then
              && step.id in s.callers && step.id in t.callers
              && !Taken(s.callers[step.id]) && Taken(t.callers[step.id])
              && t.callers[step.id].retried == s.callers[step.id].retried
              && t.attempts == s.attempts + [Attempt(step.id, s.callers[step.id].retried)]
            else t.attempts == s.attempts
  {
    assert step.id in s.callers ==> PhaseOk(s.callers[step.id]);
    hide Judge;
  }

  lemma StepKeepsAccept(s: State, step: Step)
    requires AcceptInv(s) && Enabled(s, step)
    ensures AcceptInv(Next(s, step))
  {
    hide Owns;
    var t := Next(s, step);
    if step.Take? {
      assert t.attempts[|s.attempts|] == Attempt(step.id, s.callers[step.id].retried);
      assert Owns(t, step.id, s.callers[step.id].retried, (|s.attempts| + 1) % WORD) by { TakenIsOwned(s, step); }
    }
    forall id, retried, sequence | Owns(s, id, retried, sequence)
      ensures Owns(t, id, retried, sequence)
    {
      OwnsGrows(s, t, id, retried, sequence);
    }
  }

  lemma TakenIsOwned(s: State, step: Step)
    requires step.Take? && Enabled(s, step)
    ensures Owns(Next(s, step), step.id, s.callers[step.id].retried, (|s.attempts| + 1) % WORD)
  {
    assert Next(s, step).attempts[|s.attempts|] == Attempt(step.id, s.callers[step.id].retried);
  }

  /** For every interleaving: a call takes at most two sequence numbers, the second only as a retry, and
      finishes successfully only on a reply of its own procedure to its own latest number. */
  lemma {:induction false} CallsOverRuns(first: Tokens, steps: seq<Step>)
    requires Admissible(Initial(first), steps)
    ensures var s := Run(Initial(first), steps); AttemptInv(s) && AcceptInv(s) && PhasesOk(s)
    decreases |steps|
  {
    if steps != [] {
      hide AttemptInv, AcceptInv, PhasesOk;
      var before := steps[..|steps| - 1];
      CallsOverRuns(first, before);
      StepKeepsPhases(Run(Initial(first), before), steps[|steps| - 1]);
      StepKeepsAttempts(Run(Initial(first), before), steps[|steps| - 1]);
      StepKeepsAccept(Run(Initial(first), before), steps[|steps| - 1]);
    }
  }

  /** At most two attempts: among any three positions of the log two belong to different callers. */
  lemma AtMostTwoAttempts(s: State, i: nat, j: nat, k: nat)
    requires AttemptInv(s) && i < j < k < |s.attempts|
    ensures !(s.attempts[i].caller == s.attempts[j].caller == s.attempts[k].caller)
  {}

  /** No reply is accepted by two calls while fewer than 2^64 numbers have been taken. */
  lemma NoReplyAcceptedTwice(s: State, a: Id, b: Id)
    requires AcceptInv(s) && |s.attempts| < WORD && a in s.callers && b in s.callers && a != b
    requires s.callers[a].phase.Accepted? && s.callers[b].phase.Accepted?
    ensures s.callers[a].phase.reply != s.callers[b].phase.reply
  {
    var p, q := s.callers[a], s.callers[b];
    var i :| 0 <= i < |s.attempts| && s.attempts[i] == Attempt(a, p.retried) && p.phase.sequence == (i + 1) % WORD;
    var j :| 0 <= j < |s.attempts| && s.attempts[j] == Attempt(b, q.retried) && q.phase.sequence == (j + 1) % WORD;
    DifferentNumbers(i, j);
  }

  lemma DifferentNumbers(i: int, j: int)
    requires 0 <= i < WORD - 1 && 0 <= j < WORD - 1 && i != j
    ensures (i + 1) % WORD != (j + 1) % WORD
  {}
}
