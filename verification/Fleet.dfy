/** Recovery of missing bots, for one group: any number of goroutines, of which one at a time works
    through its passes while the others only leave a dirty mark. Every table of the source is keyed by
    group, so steps for other groups touch nothing here. Times are nanoseconds. */
module Fleet {
  import opened Lists
  import KickAll

  type Id = nat

  const WINDOW: int := 3_000_000_000
  const PASSES: nat := 4

  /** `target` and `attempt` count through `missing` and, from `target` on, around `ranked`. */
  datatype Phase =
    | Outside
    | Begin(pass: nat)
    | Ranking(pass: nat, candidates: set<Mid>)
    | Scanning(pass: nat, ranked: seq<Mid>)
    | Inviting(pass: nat, ranked: seq<Mid>, missing: seq<Mid>, target: nat, attempt: nat)
    | Marking(pass: nat, ranked: seq<Mid>, missing: seq<Mid>, target: nat, attempt: nat)
    | Leaving
    | Done

  /** `begun` counts the passes this goroutine has started. */
  datatype Runner = Runner(phase: Phase, begun: nat)

  /** The log of what matters for spacing: successful invites, and marks deleted before their time. */
  datatype Event = Invited(mid: Mid, at: int) | Cleared(mid: Mid)
  datatype Try = Try(runner: Id, pass: nat, target: Mid, protector: Mid)

  datatype State = State(
    clock: int, fleetSync: bool, fleetDirty: bool, primaries: set<Mid>, members: set<Mid>, pending: map<Mid, int>,
    runners: map<Id, Runner>, log: seq<Event>, tries: seq<Try>)

  /** A refusal may also say that the protector is not a member, which is noted at once. */
  datatype Outcome = Success | Refused(notMember: bool)

  datatype Step =
    | Spawn(id: Id)
    | Enter(id: Id)
    | StartPass(id: Id)
    | Rank(id: Id, ranked: seq<Mid>)
    | Scan(id: Id, missing: seq<Mid>)
    | SkipSelf(id: Id)
    | Invite(id: Id, outcome: Outcome)
    | Mark(id: Id)
    | Exhaust(id: Id)
    | Check(id: Id)
    | Leave(id: Id)
    | Tick(elapsed: nat)
    | SetMember(mid: Mid, present: bool)
    | ClearPending(mid: Mid)
    | Register(mid: Mid)

  function Elements(s: seq<Mid>): set<Mid> {
    set m | m in s
  }

  predicate IsPending(s: State, mid: Mid) {
    mid in s.pending && s.clock < s.pending[mid]
  }

  function MissingBots(s: State): set<Mid> {
    set m | m in s.primaries && m !in s.members && !IsPending(s, m)
  }

  function Protector(ranked: seq<Mid>, target: nat, attempt: nat): Mid
    requires ranked != []
  {
    ranked[(target + attempt) % |ranked|]
  }

  /** Whether the inviting goroutine still has somebody to ask for its current target. */
  predicate CanTry(phase: Phase) {
    phase.Inviting? && phase.target < |phase.missing| && phase.attempt < |phase.ranked|
  }

  predicate Enabled(s: State, step: Step) {
    match step
    case Spawn(id) => id !in s.runners
    case Enter(id) => id in s.runners && s.runners[id].phase.Outside?
    case StartPass(id) => id in s.runners && s.runners[id].phase.Begin?
    case Rank(id, ranked) =>
      id in s.runners && s.runners[id].phase.Ranking? && ranked != [] && NoDuplicates(ranked)
      && Elements(ranked) <= s.runners[id].phase.candidates
    case Scan(id, missing) =>
      id in s.runners && s.runners[id].phase.Scanning? && NoDuplicates(missing) && Elements(missing) == MissingBots(s)
    case SkipSelf(id) =>
      id in s.runners && CanTry(s.runners[id].phase) &&
      var p := s.runners[id].phase; Protector(p.ranked, p.target, p.attempt) == p.missing[p.target]
    case Invite(id, _) =>
      id in s.runners && CanTry(s.runners[id].phase) &&
      var p := s.runners[id].phase; Protector(p.ranked, p.target, p.attempt) != p.missing[p.target]
    case Mark(id) =>
      id in s.runners && s.runners[id].phase.Marking? && s.runners[id].phase.target < |s.runners[id].phase.missing|
    case Exhaust(id) =>
      id in s.runners && s.runners[id].phase.Inviting? &&
      var p := s.runners[id].phase; p.target < |p.missing| && p.attempt >= |p.ranked|
    case Check(id) =>
      id in s.runners && s.runners[id].phase.Inviting? && s.runners[id].phase.target >= |s.runners[id].phase.missing|
    case Leave(id) => id in s.runners && s.runners[id].phase.Leaving?
    case Tick(_) => true
    case SetMember(_, _) => true
    case ClearPending(_) => true
    case Register(_) => true
  }

  function Put(s: State, id: Id, phase: Phase): State
    requires id in s.runners
  {
    s.(runners := s.runners[id := s.runners[id].(phase := phase)])
  }

  /** Deleting a mark is what the log remembers; deleting nothing is not. */
  function Unmark(s: State, mid: Mid): State {
    if mid in s.pending then s.(pending := s.pending - {mid}, log := s.log + [Cleared(mid)]) else s
  }

  function Next(s: State, step: Step): State
    requires Enabled(s, step)
  {
    match step
    case Spawn(id) => s.(runners := s.runners[id := Runner(Outside, 0)])
    case Enter(id) =>
      if s.fleetSync then Put(s, id, Done).(fleetDirty := true) else Put(s, id, Begin(0)).(fleetSync := true)
    case StartPass(id) =>
      var runner, candidates := s.runners[id], s.primaries * s.members;
      var phase := if candidates == {} then Leaving else Ranking(runner.phase.pass, candidates);
      s.(fleetDirty := false, runners := s.runners[id := Runner(phase, runner.begun + 1)])
    case Rank(id, ranked) => Put(s, id, Scanning(s.runners[id].phase.pass, ranked))
    case Scan(id, missing) =>
      var p := s.runners[id].phase;
      Put(s, id, Inviting(p.pass, p.ranked, missing, 0, 0))
        .(pending := s.pending
            - (set m | m in s.primaries && m !in s.members && m in s.pending && s.clock >= s.pending[m]))
    case SkipSelf(id) =>
      var p := s.runners[id].phase;
      Put(s, id, Inviting(p.pass, p.ranked, p.missing, p.target, p.attempt + 1))
    case Invite(id, outcome) =>
      var p := s.runners[id].phase;
      var target, protector := p.missing[p.target], Protector(p.ranked, p.target, p.attempt);
      var asked := s.(tries := s.tries + [Try(id, p.pass, target, protector)]);
      (match outcome
       case Success =>
         Put(asked, id, Marking(p.pass, p.ranked, p.missing, p.target, p.attempt))
           .(log := s.log + [Invited(target, s.clock)])
       case Refused(notMember) =>
         Put(asked, id, Inviting(p.pass, p.ranked, p.missing, p.target, p.attempt + 1))
           .(members := if notMember then s.members - {protector} else s.members))
    case Mark(id) =>
      var p := s.runners[id].phase;
      Put(s, id, Inviting(p.pass, p.ranked, p.missing, p.target + 1, 0))
        .(pending := s.pending[p.missing[p.target] := s.clock + WINDOW])
    case Exhaust(id) => var p := s.runners[id].phase; Put(s, id, Inviting(p.pass, p.ranked, p.missing, p.target + 1, 0))
    case Check(id) =>
      var p := s.runners[id].phase;
      Put(s, id, if s.fleetDirty && p.pass + 1 < PASSES then Begin(p.pass + 1) else Leaving)
    case Leave(id) => Put(s, id, Done).(fleetSync := false, fleetDirty := false)
    case Tick(elapsed) => s.(clock := s.clock + elapsed)
    case SetMember(mid, present) =>
      if present then Unmark(s.(members := s.members + {mid}), mid) else s.(members := s.members - {mid})
    case ClearPending(mid) => Unmark(s, mid)
    case Register(mid) => s.(primaries := s.primaries + {mid})
  }

  function Initial(clock: int): State {
    State(clock, false, false, {}, {}, map[], map[], [], [])
  }

  predicate Admissible(s: State, steps: seq<Step>)
    decreases |steps|, 0
  {
    steps == [] ||
    (Admissible(s, steps[..|steps| - 1]) && Enabled(Run(s, steps[..|steps| - 1]), steps[|steps| - 1]))
  }

  function Run(s: State, steps: seq<Step>): State
    requires Admissible(s, steps)
    decreases |steps|, 1
  {
    if steps == [] then s else Next(Run(s, steps[..|steps| - 1]), steps[|steps| - 1])
  }

  // ---- Mutual exclusion and the bound on passes

  predicate Inside(phase: Phase) {
    !phase.Outside? && !phase.Done?
  }

  ghost predicate Exclusive(s: State) {
    && (forall id | id in s.runners && Inside(s.runners[id].phase) :: s.fleetSync)
    && (forall a, b | a in s.runners && b in s.runners && Inside(s.runners[a].phase) && Inside(s.runners[b].phase) ::
          a == b)
  }

  predicate PhaseOk(runner: Runner) {
    match runner.phase
    case Outside => runner.begun == 0
    case Begin(pass) => runner.begun == pass < PASSES
    case Ranking(pass, _) => runner.begun == pass + 1 <= PASSES
    case Scanning(pass, ranked) => runner.begun == pass + 1 <= PASSES && ranked != [] && NoDuplicates(ranked)
    case Inviting(pass, ranked, missing, target, attempt) =>
      runner.begun == pass + 1 <= PASSES && ranked != [] && NoDuplicates(ranked) && NoDuplicates(missing)
      && target <= |missing| && attempt <= |ranked|
    case Marking(pass, ranked, missing, target, attempt) =>
      runner.begun == pass + 1 <= PASSES && ranked != [] && NoDuplicates(ranked) && NoDuplicates(missing)
      && target < |missing| && attempt < |ranked|
    case Leaving => runner.begun <= PASSES
    case Done => runner.begun <= PASSES
  }

  ghost predicate PhasesOk(s: State) {
    forall id | id in s.runners :: PhaseOk(s.runners[id])
  }

  /** Steps of no goroutine. */
  predicate Ambient(step: Step) {
    step.Tick? || step.SetMember? || step.ClearPending? || step.Register?
  }

  lemma OthersStay(s: State, step: Step, id: Id)
    requires Enabled(s, step) && (Ambient(step) || step.id != id)
    ensures id in s.runners <==> id in Next(s, step).runners
    ensures id in s.runners ==> Next(s, step).runners[id] == s.runners[id]
  {
    hide MissingBots, Protector, Elements, NoDuplicates, IsPending, Enabled;
  }

  lemma StepKeepsExclusive(s: State, step: Step)
    requires Exclusive(s) && Enabled(s, step)
    ensures Exclusive(Next(s, step))
  {
    forall id | id in Next(s, step).runners && (Ambient(step) || step.id != id)
      ensures id in s.runners && Next(s, step).runners[id] == s.runners[id]
    {
      OthersStay(s, step, id);
    }
    if !Ambient(step) {
      OwnSection(s, step);
    }
    SectionFlag(s, step);
    hide Next, Enabled;
  }

  /** A goroutine is inside after its step only if it was before, or found the section free. */
  lemma OwnSection(s: State, step: Step)
    requires Enabled(s, step) && !Ambient(step) && step.id in Next(s, step).runners
    ensures Inside(Next(s, step).runners[step.id].phase) ==>
      step.id in s.runners && (Inside(s.runners[step.id].phase) || (step.Enter? && !s.fleetSync))
  {
    hide MissingBots, Protector, Elements, NoDuplicates, IsPending;
  }

  /** The flag is raised by whoever enters and lowered by whoever leaves. */
  lemma SectionFlag(s: State, step: Step)
    requires Enabled(s, step)
    ensures Next(s, step).fleetSync == (if step.Enter? then true else if step.Leave? then false else s.fleetSync)
    ensures step.Leave? ==> step.id in s.runners && Inside(s.runners[step.id].phase)
                            && !Inside(Next(s, step).runners[step.id].phase)
  {
    hide MissingBots, Protector, Elements, NoDuplicates, IsPending;
  }

  lemma StepKeepsPhases(s: State, step: Step)
    requires PhasesOk(s) && Enabled(s, step)
    ensures PhasesOk(Next(s, step))
  {
    forall id | id in Next(s, step).runners
      ensures PhaseOk(Next(s, step).runners[id])
    {
      if Ambient(step) || step.id != id {
        OthersStay(s, step, id);
      } else {
        OwnPhaseOk(s, step);
      }
    }
    hide Next, Enabled, PhaseOk;
  }

  lemma OwnPhaseOk(s: State, step: Step)
    requires PhasesOk(s) && Enabled(s, step) && !Ambient(step)
    ensures step.id in Next(s, step).runners && PhaseOk(Next(s, step).runners[step.id])
  {
    if step.SkipSelf? || step.Invite? || step.Mark? || step.Exhaust? {
      InvitingOk(s, step);
    } else {
      PassOk(s, step);
    }
    hide Next, Enabled, PhaseOk;
  }

  lemma InvitingOk(s: State, step: Step)
    requires PhasesOk(s) && Enabled(s, step) && (step.SkipSelf? || step.Invite? || step.Mark? || step.Exhaust?)
    ensures step.id in Next(s, step).runners && PhaseOk(Next(s, step).runners[step.id])
  {
    hide MissingBots, Protector, Elements, NoDuplicates, IsPending;
  }

  lemma PassOk(s: State, step: Step)
    requires PhasesOk(s) && Enabled(s, step) && !Ambient(step)
    requires !step.SkipSelf? && !step.Invite? && !step.Mark? && !step.Exhaust?
    ensures step.id in Next(s, step).runners && PhaseOk(Next(s, step).runners[step.id])
  {
    hide MissingBots, Protector, Elements, NoDuplicates, IsPending;
  }

  // ---- Nobody is asked twice

  predicate TryCounted(phase: Phase, t: Try) {
    match phase
    case Outside => false
    case Begin(pass) => t.pass < pass
    case Ranking(pass, _) => t.pass < pass
    case Scanning(pass, _) => t.pass < pass
    case Inviting(pass, ranked, missing, target, attempt) =>
      t.pass < pass || (t.pass == pass && AskedBefore(ranked, missing, target, attempt, t))
    case Marking(pass, ranked, missing, target, attempt) =>
      t.pass < pass || (t.pass == pass && AskedBefore(ranked, missing, target, attempt + 1, t))
    case Leaving => true
    case Done => true
  }

  /** Earlier in this pass: for an earlier target, or for this one in an earlier attempt. */
  predicate AskedBefore(ranked: seq<Mid>, missing: seq<Mid>, target: nat, attempt: nat, t: Try) {
    || (exists i | 0 <= i < target && i < |missing| :: missing[i] == t.target)
    || (target < |missing| && missing[target] == t.target && ranked != []
        && exists b | 0 <= b < attempt :: Protector(ranked, target, b) == t.protector)
  }

  ghost predicate TriesOk(s: State) {
    && (forall t | t in s.tries :: t.runner in s.runners && TryCounted(s.runners[t.runner].phase, t))
    && (forall i, j | 0 <= i < j < |s.tries| :: s.tries[i] != s.tries[j])
  }

  /** A protector about to be asked has not been asked for this target in this pass. */
  lemma NotAskedYet(ranked: seq<Mid>, missing: seq<Mid>, target: nat, attempt: nat, t: Try)
    requires ranked != [] && NoDuplicates(ranked) && NoDuplicates(missing)
    requires target < |missing| && attempt < |ranked|
    requires t.target == missing[target] && t.protector == Protector(ranked, target, attempt)
    ensures !AskedBefore(ranked, missing, target, attempt, t)
  {
    forall b | 0 <= b < attempt
      ensures Protector(ranked, target, b) != t.protector
    {
      if Protector(ranked, target, b) == t.protector {
        assert (b + target) % |ranked| == (attempt + target) % |ranked|;
        KickAll.RotationInjective(|ranked|, target, b, attempt);
      }
    }
  }

  lemma AskedNext(ranked: seq<Mid>, missing: seq<Mid>, target: nat, attempt: nat, t: Try)
    requires AskedBefore(ranked, missing, target, attempt, t)
    ensures AskedBefore(ranked, missing, target, attempt + 1, t)
    ensures AskedBefore(ranked, missing, target + 1, 0, t)
  {
    hide Protector;
  }

  lemma AskedNow(ranked: seq<Mid>, missing: seq<Mid>, target: nat, attempt: nat, t: Try)
    requires target < |missing| && ranked != []
    requires t.target == missing[target] && t.protector == Protector(ranked, target, attempt)
    ensures AskedBefore(ranked, missing, target, attempt + 1, t)
  {}

  /** How a goroutine may move: on to a later pass, within one, or out. */
  predicate Moves(p: Phase, q: Phase) {
    || p == q || p.Outside? || q.Done? || q.Leaving?
    || (p.Begin? && q.Ranking? && q.pass == p.pass)
    || (p.Ranking? && q.Scanning? && q.pass == p.pass)
    || (p.Scanning? && q.Inviting? && q.pass == p.pass)
    || (p.Inviting? && q == Begin(p.pass + 1))
    || (p.Inviting? && q == Inviting(p.pass, p.ranked, p.missing, p.target, p.attempt + 1))
    || (p.Inviting? && q == Inviting(p.pass, p.ranked, p.missing, p.target + 1, 0))
    || (p.Inviting? && q == Marking(p.pass, p.ranked, p.missing, p.target, p.attempt))
    || (p.Marking? && q == Inviting(p.pass, p.ranked, p.missing, p.target + 1, 0))
  }

  lemma OwnMove(s: State, step: Step)
    requires Enabled(s, step) && !Ambient(step) && !step.Spawn?
    ensures step.id in s.runners && step.id in Next(s, step).runners
    ensures Moves(s.runners[step.id].phase, Next(s, step).runners[step.id].phase)
  {
    hide MissingBots, Protector, Elements, NoDuplicates, IsPending;
  }

  lemma StepMoves(s: State, step: Step, id: Id)
    requires Enabled(s, step) && id in s.runners
    ensures id in Next(s, step).runners && Moves(s.runners[id].phase, Next(s, step).runners[id].phase)
  {
    if Ambient(step) || step.id != id {
      OthersStay(s, step, id);
    } else {
      assert !step.Spawn?;
      OwnMove(s, step);
    }
    hide Next, Enabled;
  }

  lemma MoveKeepsCounted(p: Phase, q: Phase, t: Try)
    requires Moves(p, q) && TryCounted(p, t)
    ensures TryCounted(q, t)
  {
    hide AskedBefore;
    if p.Inviting? && t.pass == p.pass {
      AskedNext(p.ranked, p.missing, p.target, p.attempt, t);
    } else if p.Marking? && t.pass == p.pass {
      AskedNext(p.ranked, p.missing, p.target, p.attempt + 1, t);
    }
  }

  /** The step leaves this goroutine where it is. */
  predicate Unmoved(s: State, step: Step, id: Id)
    requires Enabled(s, step)
  {
    id in s.runners && id in Next(s, step).runners && Next(s, step).runners[id] == s.runners[id]
  }

  lemma StepKeepsTries(s: State, step: Step)
    requires TriesOk(s) && PhasesOk(s) && Enabled(s, step)
    ensures TriesOk(Next(s, step))
  {
    var n := Next(s, step);
    forall t | t in s.tries
      ensures t.runner in n.runners && TryCounted(n.runners[t.runner].phase, t)
    {
      StepMoves(s, step, t.runner);
      MoveKeepsCounted(s.runners[t.runner].phase, n.runners[t.runner].phase, t);
    }
    if step.Invite? {
      InviteCounted(s, step);
      hide Next, Enabled, TryCounted;
    } else {
      NothingAsked(s, step);
      hide Next, Enabled, TryCounted;
    }
  }

  lemma NothingAsked(s: State, step: Step)
    requires Enabled(s, step) && !step.Invite?
    ensures Next(s, step).tries == s.tries
  {
    hide Enabled, MissingBots;
  }

  lemma InviteCounted(s: State, step: Step)
    requires TriesOk(s) && PhasesOk(s) && Enabled(s, step) && step.Invite?
    ensures var n := Next(s, step);
            |n.tries| == |s.tries| + 1 && n.tries[..|s.tries|] == s.tries && n.tries[|s.tries|] !in s.tries
            && n.tries[|s.tries|].runner == step.id
            && step.id in n.runners && TryCounted(n.runners[step.id].phase, n.tries[|s.tries|])
  {
    var p := s.runners[step.id].phase;
    var added := Try(step.id, p.pass, p.missing[p.target], Protector(p.ranked, p.target, p.attempt));
    assert Next(s, step).tries == s.tries + [added];
    assert PhaseOk(s.runners[step.id]);
    NotAskedYet(p.ranked, p.missing, p.target, p.attempt, added);
    AskedNow(p.ranked, p.missing, p.target, p.attempt, added);
    hide Protector, AskedBefore, MissingBots;
  }

  // ---- Three seconds between invites

  /** An invite whose mark nobody has deleted since. */
  ghost predicate Live(log: seq<Event>, i: nat) {
    i < |log| && log[i].Invited? && forall k | i < k < |log| :: log[k] != Cleared(log[i].mid)
  }

  /** Two successful invites of one bot are three seconds apart unless its mark was deleted in between. */
  ghost predicate Spaced(log: seq<Event>) {
    forall i, j | 0 <= i < j < |log| && log[i].Invited? && log[j].Invited? && log[i].mid == log[j].mid
      && (forall k | i < k < j :: log[k] != Cleared(log[i].mid)) :: log[j].at - log[i].at >= WINDOW
  }

  predicate BeingMarked(s: State, mid: Mid) {
    exists id :: id in s.runners && s.runners[id].phase.Marking?
      && s.runners[id].phase.target < |s.runners[id].phase.missing|
      && s.runners[id].phase.missing[s.runners[id].phase.target] == mid
  }

  /** A live invite is old, or guarded by a mark, or about to be. */
  ghost predicate Guarded(s: State) {
    forall i: nat | Live(s.log, i) ::
      || s.log[i].at + WINDOW <= s.clock
      || (s.log[i].mid in s.pending && s.pending[s.log[i].mid] >= s.log[i].at + WINDOW)
      || BeingMarked(s, s.log[i].mid)
  }

  ghost predicate Free(s: State, mid: Mid) {
    forall i: nat | Live(s.log, i) && s.log[i].mid == mid :: s.log[i].at + WINDOW <= s.clock
  }

  /** Whoever is still on the list of an inviting goroutine may be invited now. */
  ghost predicate TargetsFree(s: State) {
    forall id, k: nat | id in s.runners && s.runners[id].phase.Inviting?
      && s.runners[id].phase.target <= k < |s.runners[id].phase.missing| :: Free(s, s.runners[id].phase.missing[k])
  }

  ghost predicate RestFree(s: State) {
    forall id, k: nat | id in s.runners && s.runners[id].phase.Marking?
      && s.runners[id].phase.target < k < |s.runners[id].phase.missing| :: Free(s, s.runners[id].phase.missing[k])
  }

  ghost predicate SpacingInv(s: State) {
    Spaced(s.log) && Guarded(s) && TargetsFree(s) && RestFree(s)
  }

  lemma LiveAppend(log: seq<Event>, e: Event, i: nat)
    ensures i < |log| ==> (Live(log + [e], i) <==> Live(log, i) && e != Cleared(log[i].mid))
    ensures Live(log + [e], i) && i >= |log| ==> i == |log| && e.Invited?
  {
    var all := log + [e];
    if i < |log| {
      assert all[i] == log[i] && all[|log|] == e;
      if Live(all, i) {
        forall k | i < k < |log|
          ensures log[k] != Cleared(log[i].mid)
        {
          assert all[k] == log[k];
        }
      }
    }
  }

  lemma SpacedInvited(s: State, mid: Mid)
    requires Spaced(s.log) && Free(s, mid)
    ensures Spaced(s.log + [Invited(mid, s.clock)])
  {
    var all := s.log + [Invited(mid, s.clock)];
    forall i, j | 0 <= i < j < |all| && all[i].Invited? && all[j].Invited? && all[i].mid == all[j].mid
      && (forall k | i < k < j :: all[k] != Cleared(all[i].mid))
      ensures all[j].at - all[i].at >= WINDOW
    {
      if j == |s.log| {
        assert Live(s.log, i) by {
          assert forall k | i < k < |s.log| :: s.log[k] == all[k];
        }
      } else {
        assert forall k | i < k < j :: s.log[k] == all[k];
      }
    }
  }

  lemma SpacedCleared(log: seq<Event>, mid: Mid)
    requires Spaced(log)
    ensures Spaced(log + [Cleared(mid)])
  {
    var all := log + [Cleared(mid)];
    forall i, j | 0 <= i < j < |all| && all[i].Invited? && all[j].Invited? && all[i].mid == all[j].mid
      && (forall k | i < k < j :: all[k] != Cleared(all[i].mid))
      ensures all[j].at - all[i].at >= WINDOW
    {
      assert forall k | i < k < j :: log[k] == all[k];
    }
  }

  ghost predicate NoneFromFuture(s: State) {
    forall i | 0 <= i < |s.log| && s.log[i].Invited? :: s.log[i].at <= s.clock
  }

  lemma FreeStays(s: State, t: State, mid: Mid)
    requires Free(s, mid) && s.clock <= t.clock
    requires t.log == s.log || exists e :: t.log == s.log + [e] && (e.Invited? ==> e.mid != mid)
    ensures Free(t, mid)
  {
    if t.log != s.log {
      var e :| t.log == s.log + [e] && (e.Invited? ==> e.mid != mid);
      forall i: nat | Live(t.log, i) && t.log[i].mid == mid
        ensures t.log[i].at + WINDOW <= t.clock
      {
        LiveAppend(s.log, e, i);
      }
    }
  }

  /** Steps that touch neither the log nor the marks nor the clock. */
  predicate Quiet(step: Step) {
    step.Spawn? || step.Enter? || step.StartPass? || step.Rank? || step.SkipSelf?
      || (step.Invite? && step.outcome.Refused?)
    || step.Exhaust? || step.Check? || step.Leave? || step.Register? || (step.SetMember? && !step.present)
  }

  lemma QuietStep(s: State, step: Step)
    requires Enabled(s, step) && Quiet(step)
    ensures var t := Next(s, step); t.log == s.log && t.pending == s.pending && t.clock == s.clock
    ensures forall id | id in s.runners && s.runners[id].phase.Marking? :: Unmoved(s, step, id)
    ensures forall id | id in Next(s, step).runners && Next(s, step).runners[id].phase.Marking? ::
              id in s.runners && Unmoved(s, step, id)
  {
    QuietState(s, step);
    forall id | id in s.runners && s.runners[id].phase.Marking?
      ensures Unmoved(s, step, id)
    {
      QuietRunner(s, step, id);
    }
    forall id | id in Next(s, step).runners && Next(s, step).runners[id].phase.Marking?
      ensures id in s.runners && Unmoved(s, step, id)
    {
      QuietRunner(s, step, id);
    }
    hide Next, Enabled, Quiet;
  }

  lemma QuietState(s: State, step: Step)
    requires Enabled(s, step) && Quiet(step)
    ensures var t := Next(s, step); t.log == s.log && t.pending == s.pending && t.clock == s.clock
  {
    hide MissingBots, Protector, Elements, NoDuplicates, IsPending;
  }

  lemma QuietRunner(s: State, step: Step, id: Id)
    requires Enabled(s, step) && Quiet(step)
    requires || (id in s.runners && s.runners[id].phase.Marking?)
             || (id in Next(s, step).runners && Next(s, step).runners[id].phase.Marking?)
    ensures id in s.runners && Unmoved(s, step, id)
  {
    if Ambient(step) || step.id != id {
      OthersStay(s, step, id);
    }
    hide MissingBots, Protector, Elements, NoDuplicates, IsPending;
  }

  lemma QuietTargets(s: State, step: Step, id: Id)
    requires Enabled(s, step) && Quiet(step) && id in Next(s, step).runners && Next(s, step).runners[id].phase.Inviting?
    ensures id in s.runners && s.runners[id].phase.Inviting?
    ensures s.runners[id].phase.missing == Next(s, step).runners[id].phase.missing
    ensures s.runners[id].phase.target <= Next(s, step).runners[id].phase.target
  {
    hide MissingBots, Protector, Elements, NoDuplicates, IsPending;
  }

  lemma QuietKeepsSpacing(s: State, step: Step)
    requires Enabled(s, step) && Quiet(step) && SpacingInv(s)
    ensures SpacingInv(Next(s, step))
  {
    QuietStep(s, step);
    var t := Next(s, step);
    forall id | id in t.runners && t.runners[id].phase.Inviting?
      ensures id in s.runners && s.runners[id].phase.Inviting?
      ensures s.runners[id].phase.missing == t.runners[id].phase.missing
      ensures s.runners[id].phase.target <= t.runners[id].phase.target
    {
      QuietTargets(s, step, id);
    }
    forall mid | BeingMarked(s, mid)
      ensures BeingMarked(t, mid)
    {
      var id :| id in s.runners && s.runners[id].phase.Marking?
        && s.runners[id].phase.target < |s.runners[id].phase.missing|
        && s.runners[id].phase.missing[s.runners[id].phase.target] == mid;
      assert Unmoved(s, step, id);
    }
    forall mid | Free(s, mid)
      ensures Free(t, mid)
    {
      FreeStays(s, t, mid);
    }
    hide Next, Enabled, Spaced, Live, Free, BeingMarked;
  }

  lemma TickKeepsSpacing(s: State, step: Step)
    requires Enabled(s, step) && step.Tick? && SpacingInv(s)
    ensures SpacingInv(Next(s, step))
  {
    var t := Next(s, step);
    assert t.runners == s.runners && t.log == s.log && t.pending == s.pending && s.clock <= t.clock;
    assert forall mid :: BeingMarked(t, mid) == BeingMarked(s, mid);
    forall mid | Free(s, mid)
      ensures Free(t, mid)
    {
      FreeStays(s, t, mid);
    }
    hide Next, Enabled, Spaced, Live, Free, BeingMarked;
  }

  /** Whoever the scan lists has no live invite younger than the window: a mark would have kept them
      off the list, and nobody else can be about to place one. */
  lemma ScannedIsFree(s: State, id: Id, mid: Mid)
    requires Guarded(s) && Exclusive(s) && id in s.runners && s.runners[id].phase.Scanning?
    requires !IsPending(s, mid)
    ensures Free(s, mid)
  {
    NobodyMarks(s, id, mid);
    hide Live, BeingMarked, Exclusive;
  }

  lemma NobodyMarks(s: State, id: Id, mid: Mid)
    requires Exclusive(s) && id in s.runners && s.runners[id].phase.Scanning?
    ensures !BeingMarked(s, mid)
  {
    assert Inside(s.runners[id].phase);
    assert forall other | other in s.runners && s.runners[other].phase.Marking? :: Inside(s.runners[other].phase);
  }

  lemma ScanKeepsSpacing(s: State, step: Step)
    requires Enabled(s, step) && step.Scan? && SpacingInv(s) && Exclusive(s)
    ensures SpacingInv(Next(s, step))
  {
    var t, id := Next(s, step), step.id;
    assert t.log == s.log && t.clock == s.clock;
    assert forall m | m in s.pending && m !in t.pending :: s.clock >= s.pending[m];
    assert forall m | m in t.pending :: m in s.pending && t.pending[m] == s.pending[m];
    assert forall other | other in t.runners && other != id ::
      other in s.runners && t.runners[other] == s.runners[other];
    forall mid | Free(s, mid)
      ensures Free(t, mid)
    {
      FreeStays(s, t, mid);
    }
    forall mid
      ensures !BeingMarked(s, mid)
    {
      NobodyMarks(s, id, mid);
    }
    forall k: nat | k < |step.missing|
      ensures Free(t, step.missing[k])
    {
      assert step.missing[k] in Elements(step.missing);
      ScannedIsFree(s, id, step.missing[k]);
    }
    assert t.runners[id].phase.missing == step.missing;
    hide Next, Enabled, Spaced, Live, Free, BeingMarked, Exclusive, MissingBots, Elements, IsPending;
  }

  lemma InviteKeepsSpacing(s: State, step: Step)
    requires Enabled(s, step) && step.Invite? && step.outcome.Success? && SpacingInv(s) && Exclusive(s) && PhasesOk(s)
    ensures SpacingInv(Next(s, step))
  {
    var t, id := Next(s, step), step.id;
    var p := s.runners[id].phase;
    var mid := p.missing[p.target];
    var e := Invited(mid, s.clock);
    assert t.log == s.log + [e] && t.clock == s.clock && t.pending == s.pending;
    assert Free(s, mid);
    SpacedInvited(s, mid);
    assert forall other | other in s.runners && other != id ::
      !Inside(s.runners[other].phase) && t.runners[other] == s.runners[other];
    assert t.runners[id].phase == Marking(p.pass, p.ranked, p.missing, p.target, p.attempt);
    assert BeingMarked(t, mid);
    forall i: nat | Live(t.log, i)
      ensures i < |s.log| ==> Live(s.log, i) && s.log[i] == t.log[i] && !BeingMarked(s, s.log[i].mid)
      ensures i >= |s.log| ==> t.log[i] == e
    {
      LiveAppend(s.log, e, i);
    }
    forall k: nat | p.target < k < |p.missing|
      ensures Free(t, p.missing[k])
    {
      assert p.missing[k] != mid by {
        assert PhaseOk(s.runners[id]);
      }
      assert Free(s, p.missing[k]);
      FreeStays(s, t, p.missing[k]);
    }
    hide Next, Enabled, Spaced, Live, Free, BeingMarked, Exclusive, PhasesOk, Protector;
  }

  lemma MarkKeepsSpacing(s: State, step: Step)
    requires Enabled(s, step) && step.Mark? && SpacingInv(s) && NoneFromFuture(s)
    ensures SpacingInv(Next(s, step))
  {
    var t, id := Next(s, step), step.id;
    var p := s.runners[id].phase;
    var mid := p.missing[p.target];
    assert t.log == s.log && t.clock == s.clock && t.pending == s.pending[mid := s.clock + WINDOW];
    assert forall other | other in t.runners && other != id ::
      other in s.runners && t.runners[other] == s.runners[other];
    assert t.runners[id].phase == Inviting(p.pass, p.ranked, p.missing, p.target + 1, 0);
    forall m | Free(s, m)
      ensures Free(t, m)
    {
      FreeStays(s, t, m);
    }
    forall m | BeingMarked(s, m) && m != mid
      ensures BeingMarked(t, m)
    {
      var other :| other in s.runners && s.runners[other].phase.Marking?
        && s.runners[other].phase.target < |s.runners[other].phase.missing|
        && s.runners[other].phase.missing[s.runners[other].phase.target] == m;
      assert t.runners[other] == s.runners[other];
    }
    assert forall i: nat | Live(s.log, i) :: s.log[i].at <= s.clock;
    hide Next, Enabled, Spaced, Live, Free, BeingMarked;
  }

  lemma UnmarkKeepsSpacing(s: State, t: State, mid: Mid)
    requires SpacingInv(s)
    requires t.runners == s.runners && t.clock == s.clock
    requires if mid in s.pending then t.pending == s.pending - {mid} && t.log == s.log + [Cleared(mid)]
             else t.pending == s.pending && t.log == s.log
    ensures SpacingInv(t)
  {
    assert forall m :: BeingMarked(t, m) == BeingMarked(s, m);
    forall m | Free(s, m)
      ensures Free(t, m)
    {
      FreeStays(s, t, m);
    }
    if mid in s.pending {
      SpacedCleared(s.log, mid);
      forall i: nat | Live(t.log, i)
        ensures i < |s.log| && Live(s.log, i) && s.log[i] == t.log[i] && t.log[i].mid != mid
      {
        LiveAppend(s.log, Cleared(mid), i);
      }
    }
    hide Spaced, Live, Free, BeingMarked;
  }

  lemma StepKeepsSpacing(s: State, step: Step)
    requires Enabled(s, step) && SpacingInv(s) && Exclusive(s) && PhasesOk(s) && NoneFromFuture(s)
    ensures SpacingInv(Next(s, step))
  {
    if Quiet(step) {
      QuietKeepsSpacing(s, step);
    } else if step.Tick? {
      TickKeepsSpacing(s, step);
    } else if step.Scan? {
      ScanKeepsSpacing(s, step);
    } else if step.Invite? {
      InviteKeepsSpacing(s, step);
    } else if step.Mark? {
      MarkKeepsSpacing(s, step);
    } else {
      UnmarkKeepsSpacing(s, Next(s, step), step.mid);
    }
    hide SpacingInv, Exclusive, PhasesOk, NoneFromFuture;
  }

  lemma StepKeepsPast(s: State, step: Step)
    requires Enabled(s, step) && NoneFromFuture(s)
    ensures NoneFromFuture(Next(s, step))
  {
    hide MissingBots, Protector, Elements, NoDuplicates, IsPending;
  }

  // ---- Every interleaving

  ghost predicate Inv(s: State) {
    Exclusive(s) && PhasesOk(s) && TriesOk(s) && NoneFromFuture(s) && SpacingInv(s)
  }

  lemma {:induction false} InvOverRuns(clock: int, steps: seq<Step>)
    requires Admissible(Initial(clock), steps)
    ensures Inv(Run(Initial(clock), steps))
    decreases |steps|
  {
    if steps != [] {
      var before, step := steps[..|steps| - 1], steps[|steps| - 1];
      InvOverRuns(clock, before);
      var s := Run(Initial(clock), before);
      StepKeepsExclusive(s, step);
      StepKeepsPhases(s, step);
      StepKeepsTries(s, step);
      StepKeepsPast(s, step);
      StepKeepsSpacing(s, step);
      hide Exclusive, PhasesOk, TriesOk, NoneFromFuture, SpacingInv, Next, Enabled;
    }
  }

  /** What that says, for every interleaving: one goroutine at a time is in its passes; none starts more
      than four; in a pass nobody is asked twice for one target; and two successful recovery invites of
      one bot are three seconds apart unless its mark was deleted in between. */
  lemma FleetSafety(clock: int, steps: seq<Step>)
    requires Admissible(Initial(clock), steps)
    ensures var s := Run(Initial(clock), steps);
      && (forall a, b | a in s.runners && b in s.runners && Inside(s.runners[a].phase) && Inside(s.runners[b].phase) ::
            a == b)
      && (forall id | id in s.runners :: s.runners[id].begun <= 4)
      && (forall i, j | 0 <= i < j < |s.tries| :: s.tries[i] != s.tries[j])
      && (forall i, j | 0 <= i < j < |s.log| && s.log[i].Invited? && s.log[j].Invited? && s.log[i].mid == s.log[j].mid
            && (forall k | i < k < j :: s.log[k] != Cleared(s.log[i].mid)) ::
            s.log[j].at - s.log[i].at >= 3_000_000_000)
  {
    InvOverRuns(clock, steps);
    var s := Run(Initial(clock), steps);
    forall id | id in s.runners
      ensures s.runners[id].begun <= 4
    {
      assert PhaseOk(s.runners[id]);
    }
    hide Run, Admissible, PhaseOk, Guarded, TargetsFree, RestFree, TryCounted, NoneFromFuture;
  }
}
