/** Deadlines and lateness over a run: absolute deadlines never drift, and a run that fell behind
    catches up at a fixed rate per cycle. */
module Schedule {
  import opened Commands
  import opened RtLoop

  // The period a cycle read after draining its commands, and when the cycle completed.
  function PeriodOf(e: Step): nat {
    e.after.control.period
  }

  function CompletedAt(e: Step): nat {
    Completion(PeriodOf(e), e.tick)
  }

  // Completion of the cycle before the i-th; start is when the generation's clock was first read.
  function PreviousCompletion(start: nat, run: seq<Step>, i: nat): nat
    requires i <= |run|
  {
    if i == 0 then start else CompletedAt(run[i - 1])
  }

  // The clock is monotone and sleep_until returns no earlier than its argument.
  ghost predicate Clocked(start: nat, run: seq<Step>) {
    forall i :: 0 <= i < |run| ==> ClockedAt(start, run, i)
  }

  ghost predicate ClockedAt(start: nat, run: seq<Step>, i: nat)
    requires i < |run|
  {
    var e := run[i];
    && PreviousCompletion(start, run, i) <= e.tick.startedAt <= e.tick.finishedAt
    && (PeriodOf(e) > 0 ==> e.tick.completedAt >= e.after.deadline && e.tick.completedAt >= e.tick.finishedAt)
  }

  // Each cycle takes at most work before it sleeps, and a wake-up is at most jitter late.
  ghost predicate Bounded(start: nat, run: seq<Step>, work: nat, jitter: nat) {
    forall i :: 0 <= i < |run| ==> BoundedAt(start, run, work, jitter, i)
  }

  ghost predicate BoundedAt(start: nat, run: seq<Step>, work: nat, jitter: nat, i: nat)
    requires i < |run|
  {
    var e := run[i];
    && e.tick.finishedAt <= PreviousCompletion(start, run, i) + work
    && (e.tick.completedAt <= e.after.deadline + jitter || e.tick.completedAt <= e.tick.finishedAt + jitter)
  }

  function PeriodsRead(run: seq<Step>): nat {
    if run == [] then 0 else PeriodsRead(run[..|run| - 1]) + PeriodOf(run[|run| - 1])
  }

  // Deadlines never drift: they are the first clock reading plus the periods read so far.
  lemma {:induction false} DeadlineIsSum(cfg: Config, stream: seq<Command>, s: Loop, run: seq<Step>)
    requires Execution(cfg, stream, s, run)
    ensures Final(s, run).deadline == s.deadline + PeriodsRead(run)
  {
    if run != [] {
      LastStep(cfg, stream, s, run);
      DeadlineIsSum(cfg, stream, s, run[..|run| - 1]);
    }
  }

  // The period a cycle reads is the one the last accepted change asked for, its own drain included.
  lemma {:induction false} PeriodIsCommanded(cfg: Config, stream: seq<Command>, s: Loop, run: seq<Step>)
    requires Execution(cfg, stream, s, run) && run != [] && s.popped <= |stream|
    ensures s.popped <= Final(s, run).popped <= |stream|
    ensures PeriodOf(run[|run| - 1]) == LastPeriod(s.control.period, stream[s.popped..Final(s, run).popped])
  {
    RunIsFold(cfg, stream, s, run);
    LastPeriodWins(cfg.settings, s.control, stream[s.popped..Final(s, run).popped]);
  }

  // The periods commanded by the end of each cycle's drain, added up.
  function PeriodsCommanded(stream: seq<Command>, initially: nat, from: nat, run: seq<Step>): nat {
    if run == [] then 0
    else
      var p := run[|run| - 1].after.popped;
      PeriodsCommanded(stream, initially, from, run[..|run| - 1])
        + (if from <= p <= |stream| then LastPeriod(initially, stream[from..p]) else 0)
  }

  // So the deadline is the first clock reading plus the periods that commands asked for.
  lemma {:induction false} DeadlineIsCommanded(cfg: Config, stream: seq<Command>, s: Loop, run: seq<Step>)
    requires Execution(cfg, stream, s, run) && s.popped <= |stream|
    ensures Final(s, run).deadline
         == s.deadline + PeriodsCommanded(stream, s.control.period, s.popped, run)
  {
    if run != [] {
      LastStep(cfg, stream, s, run);
      DeadlineIsCommanded(cfg, stream, s, run[..|run| - 1]);
      PeriodIsCommanded(cfg, stream, s, run);
    }
  }

  // Across restarts a generation counts from its own first clock reading, and keeps the period that
  // commands of any earlier generation asked for.
  lemma DeadlineAcrossRestarts(cfg: Config, stream: seq<Command>, s: Loop, gens: seq<Generation>)
    requires Generations(cfg, stream, s, gens) && gens != [] && s.popped <= |stream|
    ensures var front, g := gens[..|gens| - 1], gens[|gens| - 1];
      var from := FinalOf(s, front).popped;
      && s.popped <= from <= |stream|
      && FinalOf(s, gens).deadline
           == g.startedAt + PeriodsCommanded(stream, LastPeriod(s.control.period, stream[s.popped..from]), from, g.run)
  {
    var front, g := gens[..|gens| - 1], gens[|gens| - 1];
    RestartsAreFold(cfg, stream, s, front);
    LastPeriodWins(cfg.settings, s.control, stream[s.popped..FinalOf(s, front).popped]);
    DeadlineIsCommanded(cfg, stream, Restarted(FinalOf(s, front), g.startedAt), g.run);
  }

  ghost predicate ConstantPeriod(run: seq<Step>, period: nat) {
    forall i :: 0 <= i < |run| ==> PeriodOf(run[i]) == period
  }

  // Without a change of period among the commands, every cycle reads the same one.
  lemma {:induction false} PeriodConstant(cfg: Config, stream: seq<Command>, s: Loop, run: seq<Step>)
    requires Execution(cfg, stream, s, run) && s.popped <= |stream|
    requires forall i :: s.popped <= i < |stream| ==> KeepsPeriod(stream[i])
    ensures ConstantPeriod(run, s.control.period)
  {
    if run != [] {
      LastStep(cfg, stream, s, run);
      var front := run[..|run| - 1];
      PeriodConstant(cfg, stream, s, front);
      RunIsFold(cfg, stream, s, run);
      var p := Final(s, run).popped;
      forall i | 0 <= i < p - s.popped ensures KeepsPeriod(stream[s.popped..p][i]) {
        assert stream[s.popped..p][i] == stream[s.popped + i];
      }
      PeriodKept(cfg.settings, s.control, stream[s.popped..p]);
      forall i | 0 <= i < |run| ensures PeriodOf(run[i]) == s.control.period {
        if i < |front| { assert front[i] == run[i]; }
      }
    }
  }

  lemma {:induction false} ConstantSum(run: seq<Step>, period: nat)
    requires ConstantPeriod(run, period)
    ensures PeriodsRead(run) == |run| * period
  {
    if run != [] {
      var front := run[..|run| - 1];
      assert forall i :: 0 <= i < |front| ==> front[i] == run[i];
      ConstantSum(front, period);
      assert |run| * period == |front| * period + period;
    }
  }

  // No more than (T - D) / P cycles of period P complete by time T, D being the first clock reading.
  lemma CompletionRate(cfg: Config, stream: seq<Command>, s: Loop, run: seq<Step>, period: nat, start: nat, until: nat)
    requires Execution(cfg, stream, s, run) && Clocked(start, run)
    requires period > 0 && ConstantPeriod(run, period)
    requires run != [] && CompletedAt(run[|run| - 1]) <= until
    ensures s.deadline + |run| * period <= until
    ensures s.deadline <= until && |run| <= (until - s.deadline) / period
  {
    DeadlineIsSum(cfg, stream, s, run);
    ConstantSum(run, period);
    assert ClockedAt(start, run, |run| - 1);
    assert PeriodOf(run[|run| - 1]) == period;
    BatchfulsProduct(|run|, period);
    QuotientCounts(|run|, until - s.deadline, period);
  }

  // The same for the period the generation starts with, when no command changes it.
  lemma SteadyCompletionRate(cfg: Config, stream: seq<Command>, s: Loop, run: seq<Step>, start: nat, until: nat)
    requires Execution(cfg, stream, s, run) && Clocked(start, run) && s.popped <= |stream|
    requires s.control.period > 0 && forall i :: s.popped <= i < |stream| ==> KeepsPeriod(stream[i])
    requires run != [] && CompletedAt(run[|run| - 1]) <= until
    ensures s.deadline <= until && |run| <= (until - s.deadline) / s.control.period
  {
    PeriodConstant(cfg, stream, s, run);
    CompletionRate(cfg, stream, s, run, s.control.period, start, until);
  }

  // How late the run is: the last completion against the last deadline.
  function Lateness(start: nat, s: Loop, run: seq<Step>): int {
    PreviousCompletion(start, run, |run|) - Final(s, run).deadline
  }

  function Larger(a: int, b: int): int {
    if a < b then b else a
  }

  lemma FrontBounded(start: nat, run: seq<Step>, work: nat, jitter: nat, period: nat, n: nat)
    requires Bounded(start, run, work, jitter) && ConstantPeriod(run, period) && n <= |run|
    ensures Bounded(start, run[..n], work, jitter) && ConstantPeriod(run[..n], period)
  {
    forall i | 0 <= i < n ensures BoundedAt(start, run[..n], work, jitter, i) && PeriodOf(run[..n][i]) == period {
      assert BoundedAt(start, run, work, jitter, i);
    }
  }

  // One cycle: lateness falls by the slack of the period, or is already within the jitter.
  lemma LatenessStep(cfg: Config, stream: seq<Command>, s: Loop, run: seq<Step>, period: nat, start: nat, work: nat,
                     jitter: nat)
    requires Execution(cfg, stream, s, run) && run != []
    requires Bounded(start, run, work, jitter) && ConstantPeriod(run, period) && period > 0
    ensures Lateness(start, s, run)
         <= Larger(jitter, Lateness(start, s, run[..|run| - 1]) - (period - work - jitter))
  {
    LastStep(cfg, stream, s, run);
    var n := |run| - 1;
    assert BoundedAt(start, run, work, jitter, n);
    assert PeriodOf(run[n]) == period;
    assert PreviousCompletion(start, run[..n], n) == PreviousCompletion(start, run, n);
  }

  lemma {:induction false} LatenessFalls(cfg: Config, stream: seq<Command>, s: Loop, run: seq<Step>, period: nat,
                                         start: nat, work: nat, jitter: nat)
    requires Execution(cfg, stream, s, run)
    requires Bounded(start, run, work, jitter) && ConstantPeriod(run, period) && period > 0
    requires work + jitter <= period
    ensures Lateness(start, s, run) <= Larger(jitter, start - s.deadline - Batchfuls(|run|, period - work - jitter))
  {
    if run != [] {
      var front := run[..|run| - 1];
      FrontExecutes(cfg, stream, s, run, |front|);
      FrontBounded(start, run, work, jitter, period, |front|);
      LatenessFalls(cfg, stream, s, front, period, start, work, jitter);
      LatenessStep(cfg, stream, s, run, period, start, work, jitter);
    }
  }

  // Every run: after n cycles lateness is within the jitter, or has shrunk by n times the slack
  // since the start. The slack must not be negative.
  lemma LatenessBound(cfg: Config, stream: seq<Command>, s: Loop, run: seq<Step>, period: nat, start: nat,
                      work: nat, jitter: nat)
    requires Execution(cfg, stream, s, run)
    requires Bounded(start, run, work, jitter) && ConstantPeriod(run, period) && period > 0
    requires work + jitter <= period
    ensures Lateness(start, s, run) <= Larger(jitter, start - s.deadline - |run| * (period - work - jitter))
    ensures start == s.deadline ==> Lateness(start, s, run) <= jitter
  {
    LatenessFalls(cfg, stream, s, run, period, start, work, jitter);
    BatchfulsProduct(|run|, period - work - jitter);
  }

  // With the period the generation starts with, when no command changes it: the run catches up by the
  // slack of every cycle, and one that started on time is never later than the jitter.
  lemma SteadyLateness(cfg: Config, stream: seq<Command>, s: Loop, run: seq<Step>, start: nat, work: nat, jitter: nat)
    requires Execution(cfg, stream, s, run) && Bounded(start, run, work, jitter) && s.popped <= |stream|
    requires s.control.period > 0 && forall i :: s.popped <= i < |stream| ==> KeepsPeriod(stream[i])
    requires work + jitter <= s.control.period
    ensures Lateness(start, s, run)
         <= Larger(jitter, start - s.deadline - |run| * (s.control.period - work - jitter))
    ensures start == s.deadline ==> Lateness(start, s, run) <= jitter
  {
    PeriodConstant(cfg, stream, s, run);
    LatenessBound(cfg, stream, s, run, s.control.period, start, work, jitter);
  }
}
