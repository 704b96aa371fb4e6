/** Who the recovery of module Fleet asks for, and by whom: said of every run in terms of the bots, the
    members, the marks and the clock as they stood when the pass began and when it scanned. */
module FleetTargets {
  import opened Lists
  import opened Fleet
  import opened Quotients

  /** The scan of one pass: who was to ask, and the state the scan looked at. */
  datatype Scanned = Scanned(runner: Id, pass: nat, ranked: seq<Mid>, state: State)

  /** The scans of a run, in order. */
  ghost function Scans(clock: int, steps: seq<Step>): seq<Scanned>
    requires Admissible(Initial(clock), steps)
    decreases |steps|
  {
    if steps == [] then []
    else
      var before, last := steps[..|steps| - 1], steps[|steps| - 1];
      Scans(clock, before) + ScanIn(Run(Initial(clock), before), last)
  }

  function ScanIn(s: State, step: Step): seq<Scanned>
    requires Enabled(s, step)
  {
    if step.Scan? then
      [Scanned(step.id, s.runners[step.id].phase.pass, s.runners[step.id].phase.ranked, s)]
    else []
  }

  /** A primary bot that is outside and has no unexpired mark. */
  predicate Wanted(s: State, mid: Mid) {
    mid in s.primaries && mid !in s.members && (mid in s.pending ==> s.pending[mid] <= s.clock)
  }

  /** Since the scan, this bot was invited with success. */
  ghost predicate InvitedSince(s: State, scan: Scanned, mid: Mid) {
    exists i | |scan.state.log| <= i < |s.log| :: s.log[i].Invited? && s.log[i].mid == mid
  }

  /** In the scan's pass each of its protectors but the bot itself was asked to invite it. */
  ghost predicate EverybodyAsked(s: State, scan: Scanned, mid: Mid) {
    forall b | b in scan.ranked && b != mid :: Try(scan.runner, scan.pass, mid, b) in s.tries
  }

  ghost predicate Served(s: State, scan: Scanned, mid: Mid) {
    InvitedSince(s, scan, mid) || EverybodyAsked(s, scan, mid)
  }

  // ---- The invariant

  /** The goroutine works on what this scan listed. */
  ghost predicate WorksOn(scan: Scanned, id: Id, phase: Phase) {
    && (phase.Inviting? || phase.Marking?) && scan.runner == id && scan.pass == phase.pass
    && scan.ranked == phase.ranked != [] && forall m :: m in phase.missing <==> Wanted(scan.state, m)
  }

  /** How far it has come. */
  ghost predicate Progress(s: State, scan: Scanned, phase: Phase)
    requires phase.Inviting? || phase.Marking?
  {
    && phase.ranked != []
    && (forall i | 0 <= i < phase.target && i < |phase.missing| :: Served(s, scan, phase.missing[i]))
    && (phase.target < |phase.missing| ==>
          if phase.Marking? then InvitedSince(s, scan, phase.missing[phase.target])
          else forall a | 0 <= a < phase.attempt :: Passed(s, scan, phase, a))
  }

  ghost predicate Passed(s: State, scan: Scanned, phase: Phase, a: nat)
    requires (phase.Inviting? || phase.Marking?) && phase.ranked != [] && phase.target < |phase.missing|
  {
    var m, b := phase.missing[phase.target], Protector(phase.ranked, phase.target, a);
    b == m || Try(scan.runner, scan.pass, m, b) in s.tries
  }

  ghost predicate Accounted(s: State, scans: seq<Scanned>, id: Id)
    requires id in s.runners
  {
    var phase := s.runners[id].phase;
    phase.Inviting? || phase.Marking? ==>
      exists k | 0 <= k < |scans| :: WorksOn(scans[k], id, phase) && Progress(s, scans[k], phase)
  }

  /** A try was made for somebody its pass's scan wanted, by another of its protectors. */
  ghost predicate Justified(scans: seq<Scanned>, t: Try) {
    exists k | 0 <= k < |scans| ::
      && scans[k].runner == t.runner && scans[k].pass == t.pass
      && Wanted(scans[k].state, t.target) && t.protector in scans[k].ranked && t.protector != t.target
  }

  /** The goroutine is past scanning this pass. */
  predicate Past(phase: Phase, pass: nat) {
    match phase
    case Outside => false
    case Begin(p) => pass < p
    case Ranking(p, _) => pass < p
    case Scanning(p, _) => pass < p
    case Inviting(p, _, _, _, _) => pass <= p
    case Marking(p, _, _, _, _) => pass <= p
    case Leaving => true
    case Done => true
  }

  ghost predicate Traced(s: State, scans: seq<Scanned>) {
    && (forall id | id in s.runners :: Accounted(s, scans, id))
    && (forall t | t in s.tries :: Justified(scans, t))
    && (forall i | 0 <= i < |s.log| && s.log[i].Invited? :: exists t :: t in s.tries && t.target == s.log[i].mid)
    && (forall k | 0 <= k < |scans| ::
          && |scans[k].state.log| <= |s.log|
          && scans[k].runner in s.runners && Past(s.runners[scans[k].runner].phase, scans[k].pass))
    && (forall j, k | 0 <= j < k < |scans| :: scans[j].runner != scans[k].runner || scans[j].pass != scans[k].pass)
  }

  // ---- One step

  /** Tries and log only grow. */
  predicate Grown(s: State, t: State) { s.tries <= t.tries && s.log <= t.log }

  lemma StepGrows(s: State, step: Step)
    requires Enabled(s, step)
    ensures Grown(s, Next(s, step))
  {
    hide MissingBots, Protector, Elements, NoDuplicates, IsPending;
  }

  lemma ServedStays(s: State, t: State, scan: Scanned, mid: Mid)
    requires Grown(s, t)
    ensures Served(s, scan, mid) ==> Served(t, scan, mid)
    ensures InvitedSince(s, scan, mid) ==> InvitedSince(t, scan, mid)
  {
    if InvitedSince(s, scan, mid) {
      var i :| |scan.state.log| <= i < |s.log| && s.log[i].Invited? && s.log[i].mid == mid;
      assert t.log[i] == s.log[i];
    }
    assert forall x | x in s.tries :: x in t.tries;
  }

  lemma ProgressStays(s: State, t: State, scan: Scanned, phase: Phase)
    requires Grown(s, t) && (phase.Inviting? || phase.Marking?) && Progress(s, scan, phase)
    ensures Progress(t, scan, phase)
  {
    hide Served, InvitedSince, Grown, Protector;
    forall m: Mid
      ensures Served(s, scan, m) ==> Served(t, scan, m)
      ensures InvitedSince(s, scan, m) ==> InvitedSince(t, scan, m)
    {
      ServedStays(s, t, scan, m);
    }
    TriesStay(s, t);
    forall a: nat | phase.target < |phase.missing| && Passed(s, scan, phase, a)
      ensures Passed(t, scan, phase, a)
    {
    }
  }

  lemma TriesStay(s: State, t: State)
    requires Grown(s, t)
    ensures forall x | x in s.tries :: x in t.tries
  {}

  lemma AccountStays(s: State, t: State, scans: seq<Scanned>, more: seq<Scanned>, id: Id)
    requires Grown(s, t) && id in s.runners && id in t.runners && t.runners[id] == s.runners[id]
    requires Accounted(s, scans, id)
    ensures Accounted(t, scans + more, id)
  {
    hide WorksOn, Progress, Grown;
    var phase := s.runners[id].phase;
    if phase.Inviting? || phase.Marking? {
      var k :| 0 <= k < |scans| && WorksOn(scans[k], id, phase) && Progress(s, scans[k], phase);
      ProgressStays(s, t, scans[k], phase);
      assert (scans + more)[k] == scans[k];
    }
  }

  lemma JustifiedStays(scans: seq<Scanned>, more: seq<Scanned>, t: Try)
    requires Justified(scans, t)
    ensures Justified(scans + more, t)
  {
    hide Wanted;
    var k :| && 0 <= k < |scans| && scans[k].runner == t.runner && scans[k].pass == t.pass
             && Wanted(scans[k].state, t.target) && t.protector in scans[k].ranked && t.protector != t.target;
    assert (scans + more)[k] == scans[k];
  }

  /** After as many attempts as there are protectors, each had its turn. */
  lemma TurnCame(ranked: seq<Mid>, target: nat, b: Mid) returns (a: nat)
    requires b in ranked
    ensures a < |ranked| && Protector(ranked, target, a) == b
  {
    var n := |ranked|;
    var j :| 0 <= j < n && ranked[j] == b;
    var r := target % n;
    a := if j >= r then j - r else j + n - r;
    Division(n, target);
    var q := target / n;
    if j >= r {
      Position(n, q, j);
      assert target + a == q * n + j;
    } else {
      Position(n, q + 1, j);
      assert (q + 1) * n == q * n + n;
      assert target + a == (q + 1) * n + j;
    }
  }

  lemma ExhaustedServes(s: State, scan: Scanned, id: Id, phase: Phase)
    requires WorksOn(scan, id, phase) && phase.Inviting? && Progress(s, scan, phase)
    requires phase.target < |phase.missing| && phase.attempt >= |phase.ranked|
    ensures Served(s, scan, phase.missing[phase.target])
  {
    hide Protector, Wanted;
    var m := phase.missing[phase.target];
    forall b | b in scan.ranked && b != m
      ensures Try(scan.runner, scan.pass, m, b) in s.tries
    {
      var a := TurnCame(phase.ranked, phase.target, b);
      assert Passed(s, scan, phase, a);
    }
  }

  /** The next target: everybody up to it is served. */
  lemma TargetDone(s: State, scan: Scanned, phase: Phase, next: Phase)
    requires (phase.Inviting? || phase.Marking?) && phase.ranked != [] && Progress(s, scan, phase)
    requires phase.target < |phase.missing| && Served(s, scan, phase.missing[phase.target])
    requires next == Inviting(phase.pass, phase.ranked, phase.missing, phase.target + 1, 0)
    ensures Progress(s, scan, next)
  {
    hide Served, InvitedSince, Protector;
  }

  lemma AttemptDone(s: State, scan: Scanned, phase: Phase, next: Phase)
    requires phase.Inviting? && phase.ranked != [] && Progress(s, scan, phase) && phase.target < |phase.missing|
    requires Passed(s, scan, phase, phase.attempt)
    requires next == Inviting(phase.pass, phase.ranked, phase.missing, phase.target, phase.attempt + 1)
    ensures Progress(s, scan, next)
  {
    hide Served, InvitedSince, Protector;
    forall a | 0 <= a < next.attempt
      ensures Passed(s, scan, next, a)
    {
      assert Passed(s, scan, phase, a);
    }
  }

  lemma NowInvited(s: State, scan: Scanned, phase: Phase, next: Phase)
    requires phase.Inviting? && phase.ranked != [] && Progress(s, scan, phase) && phase.target < |phase.missing|
    requires InvitedSince(s, scan, phase.missing[phase.target])
    requires next == Marking(phase.pass, phase.ranked, phase.missing, phase.target, phase.attempt)
    ensures Progress(s, scan, next)
  {
    hide Served, InvitedSince, Protector;
  }

  /** What a scan lists is what the pass works on. */
  lemma ScanAccounts(s: State, step: Step, scans: seq<Scanned>)
    requires Enabled(s, step) && step.Scan? && s.runners[step.id].phase.ranked != []
    ensures Accounted(Next(s, step), scans + ScanIn(s, step), step.id)
  {
    var t, all := Next(s, step), scans + ScanIn(s, step);
    var phase := t.runners[step.id].phase;
    assert all[|scans|] == ScanIn(s, step)[0];
    forall m
      ensures m in phase.missing <==> Wanted(s, m)
    {
      assert m in step.missing <==> m in Elements(step.missing);
      assert m in MissingBots(s) <==> Wanted(s, m);
    }
    assert WorksOn(all[|scans|], step.id, phase);
    hide Served, Wanted, InvitedSince;
    assert Progress(t, all[|scans|], phase);
  }

  lemma OwnAccount(s: State, step: Step, scans: seq<Scanned>)
    requires Enabled(s, step) && !Ambient(step) && PhasesOk(s) && Traced(s, scans)
    ensures step.id in Next(s, step).runners
    ensures Accounted(Next(s, step), scans + ScanIn(s, step), step.id)
  {
    var t, id := Next(s, step), step.id;
    StepGrows(s, step);
    if step.Scan? {
      assert PhaseOk(s.runners[id]);
      ScanAccounts(s, step, scans);
    } else if step.SkipSelf? || step.Invite? || step.Mark? || step.Exhaust? {
      assert scans + ScanIn(s, step) == scans;
      assert Accounted(s, scans, id);
      var phase := s.runners[id].phase;
      var k :| 0 <= k < |scans| && WorksOn(scans[k], id, phase) && Progress(s, scans[k], phase);
      WorkGoesOn(s, step, scans[k]);
    } else {
      NoWork(s, step);
    }
  }

  lemma NoWork(s: State, step: Step)
    requires Enabled(s, step) && !Ambient(step) && !step.Scan? && !step.SkipSelf? && !step.Invite?
    requires !step.Mark? && !step.Exhaust?
    ensures step.id in Next(s, step).runners
    ensures !Next(s, step).runners[step.id].phase.Inviting? && !Next(s, step).runners[step.id].phase.Marking?
  {
    hide MissingBots, Protector, Elements, NoDuplicates, IsPending;
  }

  lemma WorkGoesOn(s: State, step: Step, scan: Scanned)
    requires Enabled(s, step) && (step.SkipSelf? || step.Invite? || step.Mark? || step.Exhaust?)
    requires WorksOn(scan, step.id, s.runners[step.id].phase) && Progress(s, scan, s.runners[step.id].phase)
    requires |scan.state.log| <= |s.log|
    ensures var t := Next(s, step);
            && step.id in t.runners && WorksOn(scan, step.id, t.runners[step.id].phase)
            && Progress(t, scan, t.runners[step.id].phase)
  {
    var t, phase := Next(s, step), s.runners[step.id].phase;
    var next := t.runners[step.id].phase;
    StepGrows(s, step);
    ProgressStays(s, t, scan, phase);
    var m := phase.missing[phase.target];
    hide Served, Wanted, Progress, InvitedSince;
    match step {
      case SkipSelf(_) =>
        assert Passed(t, scan, phase, phase.attempt);
        AttemptDone(t, scan, phase, next);
      case Invite(_, Success) =>
        JustInvited(s, t, scan, m);
        NowInvited(t, scan, phase, next);
      case Invite(_, Refused(_)) =>
        var b := Protector(phase.ranked, phase.target, phase.attempt);
        assert t.tries[|s.tries|] == Try(step.id, phase.pass, m, b);
        assert Passed(t, scan, phase, phase.attempt);
        AttemptDone(t, scan, phase, next);
      case Mark(_) =>
        MarkedIsServed(t, scan, phase);
        TargetDone(t, scan, phase, next);
      case Exhaust(_) =>
        ExhaustedServes(t, scan, step.id, phase);
        TargetDone(t, scan, phase, next);
      case _ =>
    }
  }

  lemma JustInvited(s: State, t: State, scan: Scanned, m: Mid)
    requires t.log == s.log + [Invited(m, s.clock)] && |scan.state.log| <= |s.log|
    ensures InvitedSince(t, scan, m)
  {
    assert t.log[|s.log|] == Invited(m, s.clock);
  }

  lemma MarkedIsServed(s: State, scan: Scanned, phase: Phase)
    requires phase.Marking? && phase.ranked != [] && Progress(s, scan, phase) && phase.target < |phase.missing|
    ensures Served(s, scan, phase.missing[phase.target])
  {}

  /** What an invite adds is justified by the scan its goroutine works on. */
  lemma InviteJustified(s: State, step: Step, scans: seq<Scanned>)
    requires Enabled(s, step) && step.Invite? && Traced(s, scans)
    ensures var t := Next(s, step);
            |t.tries| == |s.tries| + 1 && t.tries[..|s.tries|] == s.tries && Justified(scans, t.tries[|s.tries|])
    ensures var t, p := Next(s, step), s.runners[step.id].phase;
            && t.tries[|s.tries|].target == p.missing[p.target]
            && t.log == (if step.outcome.Success? then s.log + [Invited(p.missing[p.target], s.clock)] else s.log)
  {
    var phase := s.runners[step.id].phase;
    assert Accounted(s, scans, step.id);
    var k :| 0 <= k < |scans| && WorksOn(scans[k], step.id, phase) && Progress(s, scans[k], phase);
    assert phase.missing[phase.target] in phase.missing;
    assert Protector(phase.ranked, phase.target, phase.attempt) in phase.ranked;
  }

  lemma StepKeepsTries(s: State, step: Step, scans: seq<Scanned>)
    requires Enabled(s, step) && Traced(s, scans)
    ensures forall t | t in Next(s, step).tries :: Justified(scans + ScanIn(s, step), t)
    ensures var n := Next(s, step);
            forall i | 0 <= i < |n.log| && n.log[i].Invited? :: exists t :: t in n.tries && t.target == n.log[i].mid
  {
    var n := Next(s, step);
    forall t | t in s.tries
      ensures Justified(scans + ScanIn(s, step), t)
    {
      JustifiedStays(scans, ScanIn(s, step), t);
    }
    if step.Invite? {
      InviteJustified(s, step, scans);
      assert scans + ScanIn(s, step) == scans;
      var last := n.tries[|s.tries|];
      assert n.tries == s.tries + [last];
      hide Next, Enabled, Justified, Accounted;
      forall i | 0 <= i < |n.log| && n.log[i].Invited?
        ensures exists t :: t in n.tries && t.target == n.log[i].mid
      {
        if i == |s.log| {
          assert last in n.tries;
        } else {
          assert n.log[i] == s.log[i];
          var t :| t in s.tries && t.target == s.log[i].mid;
          assert t in n.tries;
        }
      }
    } else {
      QuietLog(s, step);
      hide Next, Enabled, Justified, Accounted;
    }
  }

  /** Only invites are logged as such. */
  lemma QuietLog(s: State, step: Step)
    requires Enabled(s, step) && !step.Invite?
    ensures Next(s, step).tries == s.tries
    ensures forall i | 0 <= i < |Next(s, step).log| && Next(s, step).log[i].Invited? ::
              i < |s.log| && Next(s, step).log[i] == s.log[i]
  {
    hide MissingBots, Protector, Elements, NoDuplicates, IsPending;
  }

  lemma PastStays(s: State, step: Step, id: Id, pass: nat)
    requires Enabled(s, step) && id in s.runners && Past(s.runners[id].phase, pass)
    ensures id in Next(s, step).runners && Past(Next(s, step).runners[id].phase, pass)
  {
    StepMoves(s, step, id);
    hide Next, Enabled;
  }

  lemma StepKeepsScans(s: State, step: Step, scans: seq<Scanned>)
    requires Enabled(s, step) && Traced(s, scans)
    ensures var t, all := Next(s, step), scans + ScanIn(s, step);
      && (forall k | 0 <= k < |all| ::
            && |all[k].state.log| <= |t.log|
            && all[k].runner in t.runners && Past(t.runners[all[k].runner].phase, all[k].pass))
      && (forall j, k | 0 <= j < k < |all| :: all[j].runner != all[k].runner || all[j].pass != all[k].pass)
  {
    var t, all := Next(s, step), scans + ScanIn(s, step);
    StepGrows(s, step);
    forall k | 0 <= k < |scans|
      ensures all[k] == scans[k] && |all[k].state.log| <= |t.log|
      ensures all[k].runner in t.runners && Past(t.runners[all[k].runner].phase, all[k].pass)
    {
      PastStays(s, step, scans[k].runner, scans[k].pass);
    }
    if step.Scan? {
      assert all[|scans|] == ScanIn(s, step)[0];
      ScanMoves(s, step);
    }
    hide Next, Enabled, Accounted, Justified;
  }

  lemma ScanMoves(s: State, step: Step)
    requires Enabled(s, step) && step.Scan?
    ensures s.runners[step.id].phase.Scanning?
    ensures Next(s, step).log == s.log && step.id in Next(s, step).runners
    ensures Past(Next(s, step).runners[step.id].phase, s.runners[step.id].phase.pass)
  {
    hide MissingBots, Elements, NoDuplicates;
  }

  lemma StepKeepsTraced(s: State, step: Step, scans: seq<Scanned>)
    requires Enabled(s, step) && PhasesOk(s) && Traced(s, scans)
    ensures Traced(Next(s, step), scans + ScanIn(s, step))
  {
    var t, all := Next(s, step), scans + ScanIn(s, step);
    StepGrows(s, step);
    forall id | id in t.runners
      ensures Accounted(t, all, id)
    {
      if Ambient(step) || step.id != id {
        OthersStay(s, step, id);
        AccountStays(s, t, scans, ScanIn(s, step), id);
      } else {
        OwnAccount(s, step, scans);
      }
    }
    StepKeepsTries(s, step, scans);
    StepKeepsScans(s, step, scans);
    hide *;
    TracedMeans(t, all);
  }

  lemma TracedMeans(s: State, scans: seq<Scanned>)
    ensures Traced(s, scans) <==>
      && (forall id | id in s.runners :: Accounted(s, scans, id))
      && (forall t | t in s.tries :: Justified(scans, t))
      && (forall i | 0 <= i < |s.log| && s.log[i].Invited? :: exists t :: t in s.tries && t.target == s.log[i].mid)
      && (forall k | 0 <= k < |scans| ::
            && |scans[k].state.log| <= |s.log|
            && scans[k].runner in s.runners && Past(s.runners[scans[k].runner].phase, scans[k].pass))
      && (forall j, k | 0 <= j < k < |scans| :: scans[j].runner != scans[k].runner || scans[j].pass != scans[k].pass)
  {
    hide Accounted, Justified, Past;
  }

  // ---- Over every run

  lemma {:induction false} TracedOverRuns(clock: int, steps: seq<Step>)
    requires Admissible(Initial(clock), steps)
    ensures Traced(Run(Initial(clock), steps), Scans(clock, steps))
    decreases |steps|
  {
    hide Traced, Next, Enabled, ScanIn;
    if steps == [] {
      NothingTraced(clock);
    } else {
      var before := steps[..|steps| - 1];
      TracedOverRuns(clock, before);
      InvOverRuns(clock, before);
      hide Exclusive, PhasesOk, TriesOk, SpacingInv, NoneFromFuture;
      StepKeepsTraced(Run(Initial(clock), before), steps[|steps| - 1], Scans(clock, before));
    }
  }

  lemma NothingTraced(clock: int)
    ensures Traced(Initial(clock), [])
  {}

  /** Whoever is asked for in any run was, at that pass's scan, a primary bot outside the group without
      an unexpired mark; the one who is asked is another of those ranked for the pass. Everybody invited
      with success was asked for. */
  lemma WhoIsAskedFor(clock: int, steps: seq<Step>)
    requires Admissible(Initial(clock), steps)
    ensures var s, scans := Run(Initial(clock), steps), Scans(clock, steps);
      && (forall t | t in s.tries :: exists k | 0 <= k < |scans| ::
            && scans[k].runner == t.runner && scans[k].pass == t.pass
            && Wanted(scans[k].state, t.target) && t.protector in scans[k].ranked && t.protector != t.target)
      && (forall i | 0 <= i < |s.log| && s.log[i].Invited? :: exists t :: t in s.tries && t.target == s.log[i].mid)
  {
    hide Run, Admissible, Scans, Wanted, Accounted, Past;
    TracedOverRuns(clock, steps);
    var s, scans := Run(Initial(clock), steps), Scans(clock, steps);
    forall t | t in s.tries
      ensures exists k | 0 <= k < |scans| ::
        && scans[k].runner == t.runner && scans[k].pass == t.pass
        && Wanted(scans[k].state, t.target) && t.protector in scans[k].ranked && t.protector != t.target
    {
      assert Justified(scans, t);
    }
  }

  /** There is one scan to a pass. */
  lemma OneScanPerPass(clock: int, steps: seq<Step>, j: nat, k: nat)
    requires Admissible(Initial(clock), steps) && j < k < |Scans(clock, steps)|
    ensures Scans(clock, steps)[j].runner != Scans(clock, steps)[k].runner
            || Scans(clock, steps)[j].pass != Scans(clock, steps)[k].pass
  {
    hide Run, Admissible, Scans, Justified, Accounted, Past;
    TracedOverRuns(clock, steps);
  }

  /** A pass that has come to its end left nobody out: each bot its scan wanted was invited since, or
      every ranked protector other than the bot itself was asked to. */
  lemma PassLeavesNobodyOut(clock: int, steps: seq<Step>, id: Id)
    requires Admissible(Initial(clock), steps) && Enabled(Run(Initial(clock), steps), Check(id))
    ensures var s, scans := Run(Initial(clock), steps), Scans(clock, steps);
      exists k | 0 <= k < |scans| ::
        && scans[k].runner == id && scans[k].pass == s.runners[id].phase.pass
        && forall m | Wanted(scans[k].state, m) :: Served(s, scans[k], m)
  {
    hide Run, Admissible, Scans, Wanted, Justified, Past, Served;
    TracedOverRuns(clock, steps);
    var s, scans := Run(Initial(clock), steps), Scans(clock, steps);
    assert Accounted(s, scans, id);
    var phase := s.runners[id].phase;
    var k :| 0 <= k < |scans| && WorksOn(scans[k], id, phase) && Progress(s, scans[k], phase);
    forall m | Wanted(scans[k].state, m)
      ensures Served(s, scans[k], m)
    {
      var i :| 0 <= i < |phase.missing| && phase.missing[i] == m;
    }
  }

  /** A scan lists exactly the primary bots outside without an unexpired mark, and no invite of theirs that
      has not been cleared is younger than three seconds. */
  lemma ListedAreWantedAndFree(clock: int, steps: seq<Step>, id: Id, missing: seq<Mid>)
    requires Admissible(Initial(clock), steps) && Enabled(Run(Initial(clock), steps), Scan(id, missing))
    ensures var s := Run(Initial(clock), steps);
      && (forall m :: m in missing <==> Wanted(s, m))
      && forall i | 0 <= i < |s.log| && s.log[i].Invited? && s.log[i].mid in missing
           && (forall k | i < k < |s.log| :: s.log[k] != Cleared(s.log[i].mid)) ::
           s.log[i].at + 3_000_000_000 <= s.clock
  {
    hide Run, Admissible;
    var s := Run(Initial(clock), steps);
    forall m
      ensures m in missing <==> Wanted(s, m)
    {
      assert m in missing <==> m in Elements(missing);
      assert m in MissingBots(s) <==> Wanted(s, m);
    }
    InvOverRuns(clock, steps);
    forall i: nat | i < |s.log| && Live(s.log, i) && s.log[i].mid in missing
      ensures s.log[i].at + 3_000_000_000 <= s.clock
    {
      ScannedIsFree(s, id, s.log[i].mid);
    }
    hide Exclusive, PhasesOk, TriesOk, NoneFromFuture, SpacingInv, Wanted;
  }
}
