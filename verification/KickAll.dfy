/** The scheduler behind the kick-everyone command: consecutive batches, dealt to the bots round by
    round, each round starting one bot further along. */
module KickAll {
  import opened Lists
  import opened Quotients

  const BATCH: nat := 14

  datatype Job = Job(round: nat, worker: Mid, targets: seq<Mid>)

  // ---- The schedule, batch by batch

  function BatchCount(n: nat): nat {
    (n + BATCH - 1) / BATCH
  }

  function End(offset: nat, n: nat): nat {
    if offset + BATCH < n then offset + BATCH else n
  }

  function JobAt(workers: seq<Mid>, targets: seq<Mid>, k: nat): Job
    requires workers != [] && k < BatchCount(|targets|)
  {
    var round, index := k / |workers|, k % |workers|;
    Job(round, workers[(index + round) % |workers|], targets[BATCH * k..End(BATCH * k, |targets|)])
  }

  function Schedule(workers: seq<Mid>, targets: seq<Mid>): seq<Job>
    requires workers != []
  {
    seq(BatchCount(|targets|), k requires 0 <= k < BatchCount(|targets|) => JobAt(workers, targets, k))
  }

  function Flatten(jobs: seq<Job>): seq<Mid> {
    if jobs == [] then [] else Flatten(jobs[..|jobs| - 1]) + jobs[|jobs| - 1].targets
  }

  /** Everybody is in exactly one batch: the batches laid end to end are the target list. */
  lemma BatchesCover(workers: seq<Mid>, targets: seq<Mid>)
    requires workers != []
    ensures Flatten(Schedule(workers, targets)) == targets
  {
    var jobs := Schedule(workers, targets);
    FlattenPrefix(workers, targets, |jobs|);
    assert jobs[..|jobs|] == jobs;
    if jobs == [] {
      assert targets == [];
    }
  }

  lemma {:induction false} FlattenPrefix(workers: seq<Mid>, targets: seq<Mid>, k: nat)
    requires workers != [] && k <= BatchCount(|targets|)
    ensures Flatten(Schedule(workers, targets)[..k])
         == if k == 0 then [] else targets[..End(BATCH * (k - 1), |targets|)]
  {
    if k > 0 {
      hide JobAt;
      FlattenPrefix(workers, targets, k - 1);
      var jobs := Schedule(workers, targets);
      assert jobs[..k][..k - 1] == jobs[..k - 1];
      assert jobs[k - 1] == JobAt(workers, targets, k - 1);
      BatchSize(workers, targets, k - 1);
      JobTargets(workers, targets, k - 1);
    }
  }

  lemma JobTargets(workers: seq<Mid>, targets: seq<Mid>, k: nat)
    requires workers != [] && k < BatchCount(|targets|)
    ensures JobAt(workers, targets, k).targets == targets[BATCH * k..End(BATCH * k, |targets|)]
  {}

  /** Every batch holds one to fourteen targets, and only the last may hold fewer than fourteen. */
  lemma BatchSize(workers: seq<Mid>, targets: seq<Mid>, k: nat)
    requires workers != [] && k < BatchCount(|targets|)
    ensures 1 <= |JobAt(workers, targets, k).targets| <= 14
    ensures k + 1 < BatchCount(|targets|) ==> |JobAt(workers, targets, k).targets| == 14
  {}

  /** Batch by batch: how many there are, whom each names, and who deals with it in which round; with `w`
      bots, round `r` starts with the bot in position `r` modulo `w`. */
  lemma DealtTo(workers: seq<Mid>, targets: seq<Mid>, r: nat, p: nat)
    requires p < |workers|
    ensures var n, k := |targets|, r * |workers| + p;
      && (k < |Schedule(workers, targets)| <==> 14 * k < n)
      && (14 * k < n ==>
            var job := Schedule(workers, targets)[k];
            && job.round == r && job.worker == workers[(r + p) % |workers|]
            && job.targets == targets[14 * k..if 14 * k + 14 < n then 14 * k + 14 else n])
  {
    var k := r * |workers| + p;
    Position(|workers|, r, p);
    assert k >= 0;
    assert k < BatchCount(|targets|) <==> 14 * k < |targets|;
    hide BatchCount;
  }

  /** No bot has two batches in one round. */
  lemma OneJobPerRound(workers: seq<Mid>, targets: seq<Mid>, i: nat, j: nat)
    requires workers != [] && NoDuplicates(workers) && i < j < BatchCount(|targets|)
    requires JobAt(workers, targets, i).round == JobAt(workers, targets, j).round
    ensures JobAt(workers, targets, i).worker != JobAt(workers, targets, j).worker
  {
    var w, round := |workers|, i / |workers|;
    Division(w, i);
    Division(w, j);
    assert JobAt(workers, targets, i).worker == workers[(i % w + round) % w];
    assert JobAt(workers, targets, j).worker == workers[(j % w + round) % w];
    if (i % w + round) % w == (j % w + round) % w {
      RotationInjective(w, round, i % w, j % w);
    }
  }

  lemma RotationInjective(w: int, round: int, i: int, j: int)
    requires 0 <= i < w && 0 <= j < w && (i + round) % w == (j + round) % w
    ensures i == j
  {
    Division(w, i + round);
    Division(w, j + round);
    var d := (i + round) / w - (j + round) / w;
    assert d * w == ((i + round) / w) * w - ((j + round) / w) * w == i - j;
    if i >= j {
      QuotientUnique(w, d, 0, 0, i - j);
    } else {
      assert (-d) * w == -(d * w);
      QuotientUnique(w, -d, 0, 0, j - i);
    }
  }

  /** The bot that opens a round does not open another before all the others had their turn. */
  lemma OpenersRotate(workers: seq<Mid>, targets: seq<Mid>, round: nat, later: nat)
    requires NoDuplicates(workers) && round < later < round + |workers|
    requires later * |workers| < BatchCount(|targets|) && round * |workers| < BatchCount(|targets|)
    ensures JobAt(workers, targets, round * |workers|).worker != JobAt(workers, targets, later * |workers|).worker
  {
    hide BatchCount;
    var w := |workers|;
    Position(w, round, 0);
    Position(w, later, 0);
    DifferentRemainders(w, round, later);
  }

  lemma DifferentRemainders(w: int, a: int, b: int)
    requires 0 <= a < b < a + w
    ensures a % w != b % w
  {
    if a % w == b % w {
      Division(w, a);
      Division(w, b);
      var d := b / w - a / w;
      assert d * w == (b / w) * w - (a / w) * w == b - a;
      QuotientUnique(w, d, 0, 0, b - a);
    }
  }

  // ---- The tally

  /** How many targets the batches before the `n`-th removed, given which batches succeed. */
  function Removed(jobs: seq<Job>, succeeds: nat -> bool, n: nat): nat
    requires n <= |jobs|
  {
    if n == 0 then 0 else Removed(jobs, succeeds, n - 1) + (if succeeds(n - 1) then |jobs[n - 1].targets| else 0)
  }

  function Opposite(succeeds: nat -> bool): nat -> bool {
    (k: nat) => !succeeds(k)
  }

  /** Removed and failed together account for every target in those batches. */
  lemma {:induction false} TallyIsComplete(jobs: seq<Job>, succeeds: nat -> bool, n: nat)
    requires n <= |jobs|
    ensures Removed(jobs, succeeds, n) + Removed(jobs, Opposite(succeeds), n) == |Flatten(jobs[..n])|
  {
    if n > 0 {
      TallyIsComplete(jobs, succeeds, n - 1);
      assert jobs[..n][..n - 1] == jobs[..n - 1];
    }
  }

  lemma {:induction false} RemovedPrefix(jobs: seq<Job>, more: seq<Job>, succeeds: nat -> bool, n: nat)
    requires n <= |jobs|
    ensures Removed(jobs + more, succeeds, n) == Removed(jobs, succeeds, n)
  {
    if n > 0 {
      RemovedPrefix(jobs, more, succeeds, n - 1);
    }
  }

  // ---- The loop

  /** One round: at most one job for each bot, starting from the bot the round number points at. */
  method DealRound(workers: seq<Mid>, targets: seq<Mid>, round: nat) returns (jobs: seq<Job>, offset: nat)
    requires workers != [] && BATCH * (round * |workers|) < |targets|
    ensures |jobs| >= 1
    ensures var first := round * |workers|;
            && first + |jobs| <= BatchCount(|targets|)
            && (forall k | 0 <= k < |jobs| :: jobs[k] == JobAt(workers, targets, first + k))
            && (|jobs| == |workers| || first + |jobs| == BatchCount(|targets|))
            && offset == End(BATCH * (first + |jobs| - 1), |targets|)
  {
    hide JobAt, BatchCount, End;
    ghost var first := round * |workers|;
    var index := 0;
    jobs, offset := [], BATCH * (round * |workers|);
    BatchStep(|targets|, first);
    while index < |workers| && offset < |targets|
      invariant 0 <= index == |jobs| <= |workers|
      invariant index > 0 ==> offset == End(BATCH * (first + index - 1), |targets|)
      invariant if offset < |targets| then offset == BATCH * (first + index) && first + index <= BatchCount(|targets|)
                else index > 0 && first + index == BatchCount(|targets|)
      invariant forall k | 0 <= k < |jobs| :: jobs[k] == JobAt(workers, targets, first + k)
      decreases |workers| - index
    {
      BatchStep(|targets|, first + index);
      JobAtRound(workers, targets, round, index);
      var end := if offset + BATCH < |targets| then offset + BATCH else |targets|;
      var worker := workers[(index + round) % |workers|];
      jobs := jobs + [Job(round, worker, targets[offset..end])];
      offset := end;
      index := index + 1;
    }
  }

  lemma BatchStep(n: nat, k: nat)
    requires BATCH * k < n
    ensures k < BatchCount(n)
    ensures End(BATCH * k, n) == if BATCH * k + BATCH < n then BATCH * (k + 1) else n
    ensures if BATCH * k + BATCH < n then k + 1 < BatchCount(n) else k + 1 == BatchCount(n)
  {}

  lemma JobAtRound(workers: seq<Mid>, targets: seq<Mid>, round: nat, index: nat)
    requires index < |workers| && round * |workers| + index < BatchCount(|targets|)
    ensures var k := round * |workers| + index;
            JobAt(workers, targets, k) ==
            Job(round, workers[(index + round) % |workers|], targets[BATCH * k..End(BATCH * k, |targets|)])
  {
    Position(|workers|, round, index);
  }

  method KickAllTargets(workers: seq<Mid>, targets: seq<Mid>, succeeds: nat -> bool)
    returns (removed: nat, failed: nat, log: seq<Job>)
    requires workers != []
    ensures log == Schedule(workers, targets)
    ensures removed == Removed(log, succeeds, |log|)
    ensures removed + failed == |targets|
  {
    hide JobAt, Removed;
    var offset, round := 0, 0;
    removed, failed, log := 0, 0, [];
    RemovedNone(succeeds);
    while offset < |targets|
      invariant 0 <= offset <= |targets| && |log| <= BatchCount(|targets|)
      invariant offset < |targets| ==> |log| == round * |workers| && offset == BATCH * |log|
      invariant offset == |targets| ==> |log| == BatchCount(|targets|)
      invariant forall k | 0 <= k < |log| :: log[k] == JobAt(workers, targets, k)
      invariant removed == Removed(log, succeeds, |log|) && failed == Removed(log, Opposite(succeeds), |log|)
      decreases |targets| - offset
    {
      var jobs, next := DealRound(workers, targets, round);
      NextRound(|workers|, round);
      removed, failed := Settle(log, jobs, succeeds, removed, failed);
      log := log + jobs;
      offset := next;
      round := round + 1;
    }
    BatchesCover(workers, targets);
    assert log == Schedule(workers, targets);
    TallyIsComplete(log, succeeds, |log|);
    assert log[..|log|] == log;
  }

  lemma RemovedNone(succeeds: nat -> bool)
    ensures Removed([], succeeds, 0) == 0 == Removed([], Opposite(succeeds), 0)
  {}

  lemma NextRound(w: nat, round: nat)
    ensures (round + 1) * w == round * w + w
  {}

  /** Adds up the outcomes of one round's jobs. */
  method Settle(log: seq<Job>, jobs: seq<Job>, succeeds: nat -> bool, removed: nat, failed: nat)
    returns (totalRemoved: nat, totalFailed: nat)
    requires removed == Removed(log, succeeds, |log|) && failed == Removed(log, Opposite(succeeds), |log|)
    ensures totalRemoved == Removed(log + jobs, succeeds, |log + jobs|)
    ensures totalFailed == Removed(log + jobs, Opposite(succeeds), |log + jobs|)
  {
    totalRemoved, totalFailed := removed, failed;
    RemovedPrefix(log, jobs, succeeds, |log|);
    RemovedPrefix(log, jobs, Opposite(succeeds), |log|);
    for i := 0 to |jobs|
      invariant totalRemoved == Removed(log + jobs, succeeds, |log| + i)
      invariant totalFailed == Removed(log + jobs, Opposite(succeeds), |log| + i)
    {
      assert (log + jobs)[|log| + i] == jobs[i];
      if succeeds(|log| + i) {
        totalRemoved := totalRemoved + |jobs[i].targets|;
      } else {
        totalFailed := totalFailed + |jobs[i].targets|;
      }
    }
  }
}
