/** The passes of module Fleet, said of every run in terms of its steps: who may be asked in a pass, when
    another pass follows, and where the marks come from. */
module FleetPasses {
  import opened Lists
  import opened Fleet

  lemma {:induction false} PrefixAdmissible(s: State, steps: seq<Step>, i: nat)
    requires Admissible(s, steps) && i <= |steps|
    ensures Admissible(s, steps[..i])
    decreases |steps|
  {
    hide Enabled;
    if i == |steps| {
      assert steps[..i] == steps;
    } else {
      var before := steps[..|steps| - 1];
      PrefixAdmissible(s, before, i);
      assert before[..i] == steps[..i];
    }
  }

  /** The state the i-th step of a run was made in. */
  ghost function At(clock: int, steps: seq<Step>, i: nat): State
    requires Admissible(Initial(clock), steps) && i <= |steps|
  {
    PrefixAdmissible(Initial(clock), steps, i);
    Run(Initial(clock), steps[..i])
  }

  lemma AtBefore(clock: int, steps: seq<Step>)
    requires Admissible(Initial(clock), steps) && steps != []
    ensures var n := |steps| - 1;
      && Admissible(Initial(clock), steps[..n]) && Run(Initial(clock), steps[..n]) == At(clock, steps, n)
      && Enabled(At(clock, steps, n), steps[n])
      && Run(Initial(clock), steps) == Next(At(clock, steps, n), steps[n])
      && forall i: nat | i <= n :: At(clock, steps, i) == At(clock, steps[..n], i)
  {
    hide Next, Enabled;
    var n := |steps| - 1;
    forall i: nat | i <= n
      ensures At(clock, steps, i) == At(clock, steps[..n], i)
    {
      assert steps[..n][..i] == steps[..i];
    }
  }

  // ---- Another pass

  /** At step i a goroutine was turned away because another one was at work. */
  ghost predicate TurnedAway(clock: int, steps: seq<Step>, i: nat)
    requires Admissible(Initial(clock), steps)
  {
    i < |steps| && steps[i].Enter? && At(clock, steps, i).fleetSync
  }

  /** Since then no pass has begun and nobody has left. */
  predicate Unheard(steps: seq<Step>, i: nat) {
    forall j | i < j < |steps| :: !steps[j].StartPass? && !steps[j].Leave?
  }

  lemma {:induction false} DirtyOverRuns(clock: int, steps: seq<Step>)
    requires Admissible(Initial(clock), steps)
    ensures Run(Initial(clock), steps).fleetDirty <==> exists i: nat :: TurnedAway(clock, steps, i) && Unheard(steps, i)
    decreases |steps|
  {
    hide Next, Enabled, Run, Admissible, At;
    if steps == [] {
      RunOfNone(clock);
    } else {
      var n := |steps| - 1;
      var before, step := steps[..n], steps[n];
      AtBefore(clock, steps);
      DirtyOverRuns(clock, before);
      var s := At(clock, steps, n);
      DirtyStep(s, step);
      forall i: nat
        ensures i < n ==> (TurnedAway(clock, steps, i) <==> TurnedAway(clock, before, i))
        ensures i < n ==> (Unheard(steps, i) <==> Unheard(before, i) && !step.StartPass? && !step.Leave?)
      {
        if i < n && Unheard(steps, i) {
          assert forall j | i < j < n :: before[j] == steps[j];
        }
      }
      if s.fleetDirty && !step.StartPass? && !step.Leave? {
        var i: nat :| TurnedAway(clock, before, i) && Unheard(before, i);
        assert TurnedAway(clock, steps, i) && Unheard(steps, i);
      }
      if step.Enter? && s.fleetSync {
        assert TurnedAway(clock, steps, n) && Unheard(steps, n);
      }
      if i: nat :| TurnedAway(clock, steps, i) && Unheard(steps, i) {
        assert i < n ==> TurnedAway(clock, before, i) && Unheard(before, i);
      }
    }
  }

  lemma RunOfNone(clock: int)
    ensures Run(Initial(clock), []) == Initial(clock)
  {}

  lemma DirtyStep(s: State, step: Step)
    requires Enabled(s, step)
    ensures Next(s, step).fleetDirty ==
      (if step.StartPass? || step.Leave? then false else s.fleetDirty || (step.Enter? && s.fleetSync))
  {
    hide MissingBots, Protector, Elements, NoDuplicates, IsPending;
  }

  /** At the end of a pass another one follows if and only if a goroutine was turned away since this one
      began and it was not the fourth. Whoever is turned away after that end is not heard. */
  lemma AnotherPassIff(clock: int, steps: seq<Step>, id: Id)
    requires Admissible(Initial(clock), steps) && Enabled(Run(Initial(clock), steps), Check(id))
    ensures var s := Run(Initial(clock), steps);
            var pass := s.runners[id].phase.pass;
            Next(s, Check(id)).runners[id].phase
            == (if pass < 3 && exists i: nat :: TurnedAway(clock, steps, i) && Unheard(steps, i) then Begin(pass + 1)
                else Leaving)
  {
    hide Run, Admissible, TurnedAway, Unheard;
    DirtyOverRuns(clock, steps);
  }

  lemma {:induction false} LeavingStays(clock: int, steps: seq<Step>, i: nat, id: Id)
    requires Admissible(Initial(clock), steps) && i <= |steps|
    requires id in At(clock, steps, i).runners && At(clock, steps, i).runners[id].phase.Leaving?
    requires forall k | i <= k < |steps| :: !steps[k].Leave?
    ensures id in Run(Initial(clock), steps).runners && Run(Initial(clock), steps).runners[id].phase.Leaving?
    decreases |steps|
  {
    hide Next, Enabled, Run, Admissible;
    if i == |steps| {
      assert steps[..i] == steps;
    } else {
      var n := |steps| - 1;
      AtBefore(clock, steps);
      LeavingStays(clock, steps[..n], i, id);
      LeavingStep(At(clock, steps, n), steps[n], id);
    }
  }

  lemma LeavingStep(s: State, step: Step, id: Id)
    requires Enabled(s, step) && id in s.runners && s.runners[id].phase.Leaving? && !step.Leave?
    ensures id in Next(s, step).runners && Next(s, step).runners[id].phase.Leaving?
  {
    hide MissingBots, Protector, Elements, NoDuplicates, IsPending;
  }

  /** Once the one at work has made its last check, nobody turned away is heard: before any pass begins,
      the section is left and the request forgotten. */
  lemma TooLateToBeHeard(clock: int, steps: seq<Step>, i: nat, id: Id, j: nat)
    requires Admissible(Initial(clock), steps) && TurnedAway(clock, steps, i)
    requires id in At(clock, steps, i).runners && At(clock, steps, i).runners[id].phase.Leaving?
    requires i < j < |steps| && steps[j].StartPass?
    ensures exists k | i < k < j :: steps[k].Leave?
  {
    hide Next, Enabled, Run, Admissible;
    if forall k | i <= k < j :: !steps[k].Leave? {
      var before := steps[..j];
      PrefixAdmissible(Initial(clock), steps, j);
      PrefixAdmissible(Initial(clock), steps, j + 1);
      assert before[..i] == steps[..i];
      LeavingStays(clock, before, i, id);
      InvOverRuns(clock, before);
      StepAt(clock, steps, j);
      NoPassBeside(Run(Initial(clock), before), steps[j], id);
    }
  }

  lemma StepAt(clock: int, steps: seq<Step>, j: nat)
    requires Admissible(Initial(clock), steps) && j < |steps|
    ensures Enabled(At(clock, steps, j), steps[j])
  {
    hide Next, Enabled;
    PrefixAdmissible(Initial(clock), steps, j + 1);
    var upto := steps[..j + 1];
    assert upto[..|upto| - 1] == steps[..j];
  }

  lemma NoPassBeside(s: State, step: Step, id: Id)
    requires Inv(s) && Enabled(s, step) && id in s.runners && s.runners[id].phase.Leaving?
    ensures !step.StartPass?
  {
    hide PhasesOk, TriesOk, NoneFromFuture, SpacingInv;
  }

  // ---- Who may be asked

  /** At step i the goroutine began this pass, and these bots were primaries inside the group. */
  ghost predicate BeganWith(clock: int, steps: seq<Step>, i: nat, id: Id, pass: nat, mids: set<Mid>)
    requires Admissible(Initial(clock), steps)
  {
    && i < |steps| && steps[i] == StartPass(id)
    && mids <= At(clock, steps, i).primaries && mids <= At(clock, steps, i).members
    && id in At(clock, steps, i).runners && At(clock, steps, i).runners[id].phase == Begin(pass)
  }

  /** Those the goroutine may ask in this pass. */
  function Chosen(phase: Phase): set<Mid> {
    match phase
    case Ranking(_, candidates) => candidates
    case Scanning(_, ranked) => Elements(ranked)
    case Inviting(_, ranked, _, _, _) => Elements(ranked)
    case Marking(_, ranked, _, _, _) => Elements(ranked)
    case _ => {}
  }

  predicate InPass(phase: Phase) { phase.Ranking? || phase.Scanning? || phase.Inviting? || phase.Marking? }

  ghost predicate PassesBegan(clock: int, steps: seq<Step>)
    requires Admissible(Initial(clock), steps)
  {
    var s := Run(Initial(clock), steps);
    && (forall id | id in s.runners && InPass(s.runners[id].phase) ::
          exists i: nat :: BeganWith(clock, steps, i, id, s.runners[id].phase.pass, Chosen(s.runners[id].phase)))
    && (forall t | t in s.tries :: exists i: nat :: BeganWith(clock, steps, i, t.runner, t.pass, {t.protector}))
  }

  lemma BeganStays(clock: int, steps: seq<Step>, i: nat, id: Id, pass: nat, mids: set<Mid>, fewer: set<Mid>)
    requires Admissible(Initial(clock), steps) && steps != [] && fewer <= mids
    requires BeganWith(clock, steps[..|steps| - 1], i, id, pass, mids)
    ensures BeganWith(clock, steps, i, id, pass, fewer)
  {
    AtBefore(clock, steps);
    hide Next, Enabled, Run, Admissible, At;
  }

  /** A step of a pass asks no further bots than the pass began with. */
  lemma PassStep(s: State, step: Step, id: Id)
    requires Enabled(s, step) && id in Next(s, step).runners && InPass(Next(s, step).runners[id].phase)
    ensures id in s.runners
    ensures var p, q := s.runners[id].phase, Next(s, step).runners[id].phase;
            if step == StartPass(id) then
              && p == Begin(q.pass) && Chosen(q) <= s.primaries && Chosen(q) <= s.members
            else InPass(p) && p.pass == q.pass && Chosen(q) <= Chosen(p)
  {
    if Ambient(step) || step.id != id {
      OthersStay(s, step, id);
    } else {
      hide MissingBots, Protector, NoDuplicates, IsPending;
    }
  }

  lemma TryStep(s: State, step: Step, t: Try)
    requires Enabled(s, step) && t in Next(s, step).tries
    ensures t in s.tries ||
            (t.runner in s.runners && InPass(s.runners[t.runner].phase) && s.runners[t.runner].phase.pass == t.pass
             && t.protector in Chosen(s.runners[t.runner].phase))
  {
    hide MissingBots, NoDuplicates, IsPending;
  }

  lemma {:induction false} PassesBeganOverRuns(clock: int, steps: seq<Step>)
    requires Admissible(Initial(clock), steps)
    ensures PassesBegan(clock, steps)
    decreases |steps|
  {
    hide Next, Enabled, Run, Admissible, At, BeganWith, Chosen;
    if steps == [] {
      RunOfNone(clock);
    } else {
      var n := |steps| - 1;
      var before, step := steps[..n], steps[n];
      AtBefore(clock, steps);
      PassesBeganOverRuns(clock, before);
      var s, t := At(clock, steps, n), Run(Initial(clock), steps);
      forall id | id in t.runners && InPass(t.runners[id].phase)
        ensures exists i: nat :: BeganWith(clock, steps, i, id, t.runners[id].phase.pass, Chosen(t.runners[id].phase))
      {
        PassStep(s, step, id);
        if step == StartPass(id) {
          BeginsNow(clock, steps, id);
          assert BeganWith(clock, steps, n, id, t.runners[id].phase.pass, Chosen(t.runners[id].phase));
        } else {
          var p := s.runners[id].phase;
          var i: nat :| BeganWith(clock, before, i, id, p.pass, Chosen(p));
          BeganStays(clock, steps, i, id, p.pass, Chosen(p), Chosen(t.runners[id].phase));
        }
      }
      forall u | u in t.tries
        ensures exists i: nat :: BeganWith(clock, steps, i, u.runner, u.pass, {u.protector})
      {
        TryStep(s, step, u);
        if u in s.tries {
          var i: nat :| BeganWith(clock, before, i, u.runner, u.pass, {u.protector});
          BeganStays(clock, steps, i, u.runner, u.pass, {u.protector}, {u.protector});
        } else {
          var p := s.runners[u.runner].phase;
          var i: nat :| BeganWith(clock, before, i, u.runner, p.pass, Chosen(p));
          BeganStays(clock, steps, i, u.runner, p.pass, Chosen(p), {u.protector});
        }
      }
    }
  }

  lemma BeginsNow(clock: int, steps: seq<Step>, id: Id)
    requires Admissible(Initial(clock), steps) && steps != [] && steps[|steps| - 1] == StartPass(id)
    requires id in Run(Initial(clock), steps).runners && InPass(Run(Initial(clock), steps).runners[id].phase)
    ensures var p := Run(Initial(clock), steps).runners[id].phase;
            BeganWith(clock, steps, |steps| - 1, id, p.pass, Chosen(p))
  {
    AtBefore(clock, steps);
    PassStep(At(clock, steps, |steps| - 1), StartPass(id), id);
    hide Next, Enabled, Run, Admissible, At;
  }

  /** Whoever is asked to invite was a primary bot inside the group when the pass began. */
  lemma AskedAreInside(clock: int, steps: seq<Step>, t: Try)
    requires Admissible(Initial(clock), steps) && t in Run(Initial(clock), steps).tries
    ensures exists i: nat :: i < |steps| && steps[i] == StartPass(t.runner)
              && t.runner in At(clock, steps, i).runners
              && At(clock, steps, i).runners[t.runner].phase == Begin(t.pass)
              && t.protector in At(clock, steps, i).primaries && t.protector in At(clock, steps, i).members
  {
    PassesBeganOverRuns(clock, steps);
    hide Run, Admissible, At;
    var i: nat :| BeganWith(clock, steps, i, t.runner, t.pass, {t.protector});
    assert t.protector in {t.protector};
  }

  /** A pass ends before it starts exactly when no primary bot is inside. */
  lemma NobodyToAskIff(clock: int, steps: seq<Step>, id: Id)
    requires Admissible(Initial(clock), steps) && Enabled(Run(Initial(clock), steps), StartPass(id))
    ensures var s := Run(Initial(clock), steps);
            var phase := Next(s, StartPass(id)).runners[id].phase;
            && (phase.Leaving? <==> forall m :: m in s.primaries ==> m !in s.members)
            && (phase.Leaving? || phase.Ranking?)
            && (phase.Ranking? ==> forall m :: m in phase.candidates <==> m in s.primaries && m in s.members)
  {
    hide Run, Admissible;
    var s := Run(Initial(clock), steps);
    assert forall m :: m in s.primaries * s.members <==> m in s.primaries && m in s.members;
  }

  // ---- Where the marks come from

  /** A mark ends three seconds after the step that placed it, which a successful invite preceded. */
  ghost predicate MarkedAt(clock: int, steps: seq<Step>, mid: Mid, until: int, i: nat)
    requires Admissible(Initial(clock), steps)
  {
    && i < |steps| && steps[i].Mark? && until == At(clock, steps, i).clock + 3_000_000_000
    && exists k :: 0 <= k < |At(clock, steps, i).log| && At(clock, steps, i).log[k].Invited?
                   && At(clock, steps, i).log[k].mid == mid
  }

  lemma MarkStep(s: State, step: Step, mid: Mid)
    requires Enabled(s, step) && mid in Next(s, step).pending
    ensures (mid in s.pending && Next(s, step).pending[mid] == s.pending[mid]) ||
            (step.Mark? && Next(s, step).pending[mid] == s.clock + 3_000_000_000 && BeingMarked(s, mid))
  {
    hide MissingBots, Protector, Elements, NoDuplicates;
  }

  /** A bot that is about to be marked has been invited. */
  ghost predicate MarkingInvited(s: State) {
    forall m :: BeingMarked(s, m) ==> exists k :: 0 <= k < |s.log| && s.log[k].Invited? && s.log[k].mid == m
  }

  lemma {:induction false} MarksOverRuns(clock: int, steps: seq<Step>)
    requires Admissible(Initial(clock), steps)
    ensures var s := Run(Initial(clock), steps);
            && (forall m | m in s.pending :: exists i: nat :: MarkedAt(clock, steps, m, s.pending[m], i))
            && MarkingInvited(s)
    decreases |steps|
  {
    hide Next, Enabled, Run, Admissible, At, BeingMarked;
    if steps == [] {
      RunOfNone(clock);
      NobodyMarked(clock);
    } else {
      var n := |steps| - 1;
      var before, step := steps[..n], steps[n];
      AtBefore(clock, steps);
      MarksOverRuns(clock, before);
      var s, t := At(clock, steps, n), Run(Initial(clock), steps);
      MarkingStep(s, step);
      forall m | m in t.pending
        ensures exists i: nat :: MarkedAt(clock, steps, m, t.pending[m], i)
      {
        MarkStep(s, step, m);
        if m in s.pending && t.pending[m] == s.pending[m] {
          var i: nat :| MarkedAt(clock, before, m, s.pending[m], i);
          assert MarkedAt(clock, steps, m, t.pending[m], i);
        } else {
          assert MarkedAt(clock, steps, m, t.pending[m], n);
        }
      }
    }
  }

  lemma NobodyMarked(clock: int)
    ensures MarkingInvited(Initial(clock))
  {}

  lemma MarkingStep(s: State, step: Step)
    requires Enabled(s, step) && MarkingInvited(s)
    ensures MarkingInvited(Next(s, step))
  {
    var t := Next(s, step);
    forall m | BeingMarked(t, m)
      ensures exists k :: 0 <= k < |t.log| && t.log[k].Invited? && t.log[k].mid == m
    {
      var id :| id in t.runners && t.runners[id].phase.Marking?
        && t.runners[id].phase.target < |t.runners[id].phase.missing|
        && t.runners[id].phase.missing[t.runners[id].phase.target] == m;
      LogGrows(s, step);
      if step == Invite(id, Success) {
        assert t.log[|s.log|] == Invited(m, s.clock);
      } else {
        MarkingBefore(s, step, id);
        assert BeingMarked(s, m);
        var k :| 0 <= k < |s.log| && s.log[k].Invited? && s.log[k].mid == m;
        assert t.log[k] == s.log[k];
      }
    }
  }

  lemma LogGrows(s: State, step: Step)
    requires Enabled(s, step)
    ensures |s.log| <= |Next(s, step).log| && s.log == Next(s, step).log[..|s.log|]
  {
    hide MissingBots, Protector, Elements, NoDuplicates, IsPending;
  }

  lemma MarkingBefore(s: State, step: Step, id: Id)
    requires Enabled(s, step) && id in Next(s, step).runners && Next(s, step).runners[id].phase.Marking?
    requires step != Invite(id, Success)
    ensures id in s.runners && s.runners[id] == Next(s, step).runners[id]
  {
    if Ambient(step) || step.id != id {
      OthersStay(s, step, id);
    } else {
      hide MissingBots, Protector, Elements, NoDuplicates, IsPending;
    }
  }
}
