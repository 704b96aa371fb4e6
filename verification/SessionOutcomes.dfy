/** What becomes of each call and each refresh of module Session, over every run: which replies are
    accepted, which lead to a refresh, with what token a request goes out, and what a refresh returns. */
module SessionOutcomes {
  import opened Options
  import opened Session

  /** The number of the caller's last request. */
  ghost predicate Latest(s: State, id: Id, sequence: int) {
    exists k :: 0 <= k < |s.attempts| && s.attempts[k].caller == id && sequence == (k + 1) % 0x1_0000_0000_0000_0000
      && forall j | k < j < |s.attempts| :: s.attempts[j].caller != id
  }

  /** It has sent no other. */
  ghost predicate FirstTry(s: State, id: Id) {
    forall j, k | 0 <= j < k < |s.attempts| :: s.attempts[j].caller != id || s.attempts[k].caller != id
  }

  /** A request that was sent is in the log, and a retry's first request, too. */
  ghost predicate Logged(s: State) {
    forall id | id in s.callers ::
      && (Taken(s.callers[id]) ==> Attempt(id, s.callers[id].retried) in s.attempts)
      && (s.callers[id].retried ==> Attempt(id, false) in s.attempts)
  }

  lemma StepKeepsLogged(s: State, step: Step)
    requires Logged(s) && PhasesOk(s) && Enabled(s, step)
    ensures Logged(Next(s, step))
  {
    var t := Next(s, step);
    AttemptTaken(s, step);
    assert forall a | a in s.attempts :: a in t.attempts;
    forall id | id in t.callers
      ensures Taken(t.callers[id]) ==> Attempt(id, t.callers[id].retried) in t.attempts
      ensures t.callers[id].retried ==> Attempt(id, false) in t.attempts
    {
      if step.id != id {
        OthersStay(s, step, id);
      } else {
        OwnLogged(s, step);
        assert step.Take? ==> t.attempts[|s.attempts|] == Attempt(id, s.callers[id].retried);
      }
    }
    hide Next, Enabled, Taken, PhaseOk;
  }

  lemma OwnLogged(s: State, step: Step)
    requires PhasesOk(s) && Enabled(s, step)
    ensures step.id in Next(s, step).callers
    ensures var d := Next(s, step).callers[step.id];
            if step.id !in s.callers then !Taken(d) && !d.retried
            else
              var c := s.callers[step.id];
              && (step.Take? ==> d.retried == c.retried)
              && (Taken(d) && !step.Take? ==> Taken(c) && d.retried == c.retried)
              && (d.retried ==> c.retried || (Taken(c) && !c.retried))
  {
    assert step.id in s.callers ==> PhaseOk(s.callers[step.id]);
    hide Judge;
  }

  lemma {:induction false} LoggedOverRuns(first: Tokens, steps: seq<Step>)
    requires Admissible(Initial(first), steps)
    ensures Logged(Run(Initial(first), steps))
    decreases |steps|
  {
    if steps != [] {
      hide Logged, PhasesOk, AttemptInv, AcceptInv;
      var before := steps[..|steps| - 1];
      LoggedOverRuns(first, before);
      CallsOverRuns(first, before);
      StepKeepsLogged(Run(Initial(first), before), steps[|steps| - 1]);
    }
  }

  /** The number a caller waits on is that of its last request, and it has sent one before if it retries. */
  lemma WaitsOnLatest(s: State, id: Id)
    requires AttemptInv(s) && AcceptInv(s) && Logged(s) && id in s.callers && s.callers[id].phase.Sequenced?
    requires s.callers[id].procedure.Some?
    ensures forall n :: Latest(s, id, n) <==> n == s.callers[id].phase.sequence
    ensures FirstTry(s, id) <==> !s.callers[id].retried
  {
    var c := s.callers[id];
    var k :| 0 <= k < |s.attempts| && s.attempts[k] == Attempt(id, c.retried)
             && c.phase.sequence == (k + 1) % 0x1_0000_0000_0000_0000;
    forall j | k < j < |s.attempts|
      ensures s.attempts[j].caller != id
    {
    }
    assert Latest(s, id, c.phase.sequence);
    if c.retried {
      var j :| 0 <= j < |s.attempts| && s.attempts[j] == Attempt(id, false);
      assert j < k;
    }
  }

  /** The outcome of every reply in every run. One that answers the caller's last request, and holds a
      result or nothing, is accepted. On the first request a 401, or an answer with an expired-token
      error, leads to a refresh of the token that was sent. Any other reply fails the call. */
  lemma PostOutcome(first: Tokens, steps: seq<Step>, id: Id, reply: Reply)
    requires Admissible(Initial(first), steps) && Enabled(Run(Initial(first), steps), Post(id, reply))
    ensures var s := Run(Initial(first), steps);
      && id in Next(s, Post(id, reply)).callers
      && exists n :: Latest(s, id, n)
           && var answers := reply.Message? && reply.kind == 2 && Some(reply.name) == s.callers[id].procedure
                             && reply.sequence == n;
              var expired := reply == HttpError(true) || (answers && reply.body == ServiceError(true));
              Next(s, Post(id, reply)).callers[id].phase
              == (if answers && (reply.body.Result? || reply.body.Empty?) then Accepted(n, reply)
                  else if expired && FirstTry(s, id) then Waiting(s.callers[id].token, false)
                  else Erred)
  {
    CallsOverRuns(first, steps);
    LoggedOverRuns(first, steps);
    var s := Run(Initial(first), steps);
    WaitsOnLatest(s, id);
    PostStep(s, id, reply);
    hide Run, Admissible, AttemptInv, AcceptInv, Logged, PhasesOk, Latest, FirstTry, Next, Enabled;
    assert Latest(s, id, s.callers[id].phase.sequence);
  }

  lemma PostStep(s: State, id: Id, reply: Reply)
    requires Enabled(s, Post(id, reply))
    ensures var c := s.callers[id];
      var answers := reply.Message? && reply.kind == 2 && Some(reply.name) == c.procedure
                     && reply.sequence == c.phase.sequence;
      var expired := reply == HttpError(true) || (answers && reply.body == ServiceError(true));
      && id in Next(s, Post(id, reply)).callers
      && Next(s, Post(id, reply)).callers[id].phase
         == (if answers && (reply.body.Result? || reply.body.Empty?) then Accepted(c.phase.sequence, reply)
             else if expired && !c.retried then Waiting(c.token, false)
             else Erred)
  {}

  // ---- With what token

  lemma {:induction false} PrefixAdmissible(s: State, steps: seq<Step>, i: nat)
    requires Admissible(s, steps) && i <= |steps|
    ensures Admissible(s, steps[..i])
    decreases |steps|
  {
    hide Enabled;
    if i == |steps| {
      assert steps[..i] == steps;
    } else {
      var before := steps[..|steps| - 1];
      PrefixAdmissible(s, before, i);
      assert before[..i] == steps[..i];
    }
  }

  /** The state the i-th step of a run was made in. */
  ghost function At(first: Tokens, steps: seq<Step>, i: nat): State
    requires Admissible(Initial(first), steps) && i <= |steps|
  {
    PrefixAdmissible(Initial(first), steps, i);
    Run(Initial(first), steps[..i])
  }

  lemma AtBefore(first: Tokens, steps: seq<Step>)
    requires Admissible(Initial(first), steps) && steps != []
    ensures var n := |steps| - 1;
      && Admissible(Initial(first), steps[..n]) && Run(Initial(first), steps[..n]) == At(first, steps, n)
      && Enabled(At(first, steps, n), steps[n])
      && Run(Initial(first), steps) == Next(At(first, steps, n), steps[n])
      && forall i: nat | i <= n :: At(first, steps, i) == At(first, steps[..n], i)
  {
    hide Next, Enabled;
    var n := |steps| - 1;
    forall i: nat | i <= n
      ensures At(first, steps, i) == At(first, steps[..n], i)
    {
      assert steps[..n][..i] == steps[..i];
    }
  }

  /** The token was settled at step i, the caller's last look at the service: the service's own copy, or
      without one what the call was given or its refresh returned. */
  ghost predicate SettledAt(first: Tokens, steps: seq<Step>, id: Id, token: Token, i: nat)
    requires Admissible(Initial(first), steps)
  {
    && i < |steps| && steps[i] == Load(id) && (forall j | i < j < |steps| :: steps[j] != Load(id))
    && id in At(first, steps, i).callers
    && var s := At(first, steps, i);
       token == if s.cached != "" then s.cached else s.callers[id].token
  }

  /** The caller has looked and not been resumed since. */
  predicate Looked(c: Caller) { c.procedure.Some? && !c.phase.Loading? }

  lemma {:induction false} TokenOverRuns(first: Tokens, steps: seq<Step>, id: Id)
    requires Admissible(Initial(first), steps)
    requires id in Run(Initial(first), steps).callers && Looked(Run(Initial(first), steps).callers[id])
    ensures exists i: nat :: SettledAt(first, steps, id, Run(Initial(first), steps).callers[id].token, i)
    ensures var c := Run(Initial(first), steps).callers[id]; c.phase.Loaded? ==> c.phase.token == c.token
    decreases |steps|
  {
    hide Next, Enabled, Run, Admissible, At, Looked;
    if steps == [] {
      RunOfNone(first);
    } else {
      var n := |steps| - 1;
      AtBefore(first, steps);
      var s, step := At(first, steps, n), steps[n];
      TokenStep(s, step, id);
      if step == Load(id) {
        assert SettledAt(first, steps, id, Run(Initial(first), steps).callers[id].token, n);
      } else {
        TokenOverRuns(first, steps[..n], id);
        var i: nat :| SettledAt(first, steps[..n], id, s.callers[id].token, i);
        assert SettledAt(first, steps, id, s.callers[id].token, i);
      }
    }
  }

  lemma RunOfNone(first: Tokens)
    ensures Run(Initial(first), []) == Initial(first)
  {}

  lemma TokenStep(s: State, step: Step, id: Id)
    requires Enabled(s, step) && id in Next(s, step).callers && Looked(Next(s, step).callers[id])
    ensures var d := Next(s, step).callers[id];
      && id in s.callers
      && if step == Load(id) then
           d.token == (if s.cached != "" then s.cached else s.callers[id].token) && d.phase == Loaded(d.token)
         else Looked(s.callers[id]) && d.token == s.callers[id].token
              && (d.phase.Loaded? ==> d.phase == s.callers[id].phase)
  {
    if step.id != id {
      OthersStay(s, step, id);
    } else {
      hide Judge;
    }
  }

  // ---- What a refresh returns

  /** The access token a history of exchanges leaves is the last one handed out. */
  lemma {:induction false} AccessLeft(first: Tokens, exchanges: seq<Exchange>)
    ensures var left := After(first, exchanges).access;
      if forall k | 0 <= k < |exchanges| :: exchanges[k].response.None? then left == first.access
      else exists k :: 0 <= k < |exchanges| && exchanges[k].response.Some?
             && left == exchanges[k].response.value.access
             && forall j | k < j < |exchanges| :: exchanges[j].response.None?
  {
    if exchanges != [] {
      var n := |exchanges| - 1;
      var before := exchanges[..n];
      AccessLeft(first, before);
      assert forall k | 0 <= k < n :: before[k] == exchanges[k];
      LastTokens(first, exchanges);
      hide After, Applied, Renews;
      if exchanges[n].response.None? && exists k :: 0 <= k < n && exchanges[k].response.Some? {
        var k :| 0 <= k < n && before[k].response.Some?
                 && After(first, before).access == before[k].response.value.access
                 && forall j | k < j < n :: before[j].response.None?;
        assert exchanges[k].response.Some?;
      }
    }
  }

  predicate LastRenewal(exchanges: seq<Exchange>, k: nat) {
    k < |exchanges| && Renews(exchanges[k]) && forall j | k < j < |exchanges| :: !Renews(exchanges[j])
  }

  /** And the refresh token is the last one, for not every response carries one. */
  lemma {:induction false} RefreshLeft(first: Tokens, exchanges: seq<Exchange>)
    ensures var left := After(first, exchanges).refresh;
      if forall k | 0 <= k < |exchanges| :: !Renews(exchanges[k]) then left == first.refresh
      else exists k: nat :: LastRenewal(exchanges, k) && left == exchanges[k].response.value.refresh
  {
    if exchanges != [] {
      var n := |exchanges| - 1;
      var before := exchanges[..n];
      RefreshLeft(first, before);
      LastTokens(first, exchanges);
      hide After, Applied;
      if Renews(exchanges[n]) {
        assert LastRenewal(exchanges, n);
      } else if k: nat :| LastRenewal(before, k) && After(first, before).refresh == before[k].response.value.refresh {
        assert before[k] == exchanges[k];
        assert forall j | k < j < n :: exchanges[j] == before[j];
        assert LastRenewal(exchanges, k);
      } else {
        assert forall k | 0 <= k < n :: before[k] == exchanges[k];
      }
    }
  }

  lemma LastTokens(first: Tokens, exchanges: seq<Exchange>)
    requires exchanges != []
    ensures var n := |exchanges| - 1;
      var left, before, e := After(first, exchanges), After(first, exchanges[..n]), exchanges[n];
      && left.access == (if e.response.Some? then e.response.value.access else before.access)
      && left.refresh == (if Renews(e) then e.response.value.refresh else before.refresh)
  {}

  predicate Renews(e: Exchange) { e.response.Some? && e.response.value.refresh != "" }

  /** Who holds the refresh lock finds the tokens the exchanges so far have left. If somebody has replaced
      the token that failed, the new one is returned without asking; otherwise the tokens are exchanged,
      which needs a refresh token. */
  lemma ReadOutcome(first: Tokens, steps: seq<Step>, id: Id)
    requires Admissible(Initial(first), steps) && Enabled(Run(Initial(first), steps), Read(id))
    ensures var s := Run(Initial(first), steps);
      var t, left, p := Next(s, Read(id)), After(first, s.exchanges), s.callers[id].phase;
      && id in t.callers && t.exchanges == s.exchanges && t.session == s.session == left
      && t.callers[id].phase ==
           (if !p.force && p.failed != "" && p.failed != left.access then Returned(left.access)
            else if left.refresh == "" then Erred
            else Exchanging(p.failed, p.force, left))
      && (t.lock.None? <==> !t.callers[id].phase.Exchanging?)
  {
    ExchangesFormAChain(first, steps);
    hide Run, Admissible, Chained, Entitled, After;
    assert Run(Initial(first), steps).lock == Some(id);
  }

  /** A response is recorded for all and its access token returned, unless saving fails; a failed exchange
      changes no token. Either way the lock is free again. */
  lemma WriteOutcome(first: Tokens, steps: seq<Step>, id: Id, saves: bool)
    requires Admissible(Initial(first), steps) && Enabled(Run(Initial(first), steps), Write(id, saves))
    ensures var s := Run(Initial(first), steps);
      var t, left := Next(s, Write(id, saves)), After(first, s.exchanges);
      && id in t.callers && t.session == left && t.cached == left.access && t.lock.None?
      && t.callers[id].phase == (if saves then Returned(left.access) else Erred)
  {
    ExchangesFormAChain(first, steps);
    hide Run, Admissible, Chained, Entitled, After;
    assert Run(Initial(first), steps).lock == Some(id);
  }

  lemma TradeOutcome(first: Tokens, steps: seq<Step>, id: Id, response: Option<Tokens>)
    requires Admissible(Initial(first), steps) && Enabled(Run(Initial(first), steps), Trade(id, response))
    ensures var s := Run(Initial(first), steps);
      var t, left := Next(s, Trade(id, response)), After(first, s.exchanges);
      && id in t.callers && t.session == s.session == left && |t.exchanges| == |s.exchanges| + 1
      && t.exchanges[|s.exchanges|].presented == left && t.exchanges[|s.exchanges|].response == response
      && (if response.Some? then t.callers[id].phase == Writing(response.value) && t.lock == Some(id)
          else t.callers[id].phase == Erred && t.lock.None?)
  {
    ExchangesFormAChain(first, steps);
    hide Run, Admissible, Chained, After;
    assert Run(Initial(first), steps).lock == Some(id);
  }

  /** A refreshed call goes out once more, with the new token in the service's copy. */
  lemma ResumeOutcome(s: State, id: Id)
    requires Enabled(s, Resume(id))
    ensures var t, token := Next(s, Resume(id)), s.callers[id].phase.newToken;
      && id in t.callers && t.callers[id] == Caller(s.callers[id].procedure, token, true, Loading)
      && t.cached == (if token == "" then s.cached else token) && t.session == s.session && t.lock == s.lock
      && t.attempts == s.attempts && t.exchanges == s.exchanges
  {
    hide Judge;
  }
}
