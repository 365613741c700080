/** The real-time cycle: drain commands up to a budget, step the runtime unless paused, publish, and
    sleep to an absolute deadline. A run of one generation is any chain of cycles that finds no stop. */
module RtLoop {
  import opened Commands
  import opened Options
  import Subscriptions
  import Telemetry
  import Sampling

  datatype Config = Config(budget: nat, settings: Settings, outputs: Telemetry.Outputs)

  // What the outside world contributes to one cycle: how many commands of the stream have been
  // pushed by the time a pop fails, the clock readings, the runtime's values, the measurement.
  datatype Tick = Tick(visible: nat, startedAt: nat, finishedAt: nat, completedAt: nat,
                       readings: Sampling.Readings, metrics: Option<Telemetry.Metrics>)

  datatype Loop = Loop(control: Control, popped: nat, ledger: Telemetry.Ledger, deadline: nat, steps: nat)

  function Drain(st: Settings, stream: seq<Command>, c: Control, popped: nat, visible: nat, budget: nat): (Control, nat)
    decreases budget
  {
    if budget == 0 || popped >= visible || popped >= |stream| then (c, popped)
    else Drain(st, stream, Dispatch(st, c, stream[popped]).0, popped + 1, visible, budget - 1)
  }

  function Completion(period: nat, t: Tick): nat {
    if period > 0 then t.completedAt else t.finishedAt
  }

  function Publish(o: Telemetry.Outputs, l: Telemetry.Ledger, slots: seq<Subscriptions.Slot>,
                   t: Tick): Telemetry.Ledger {
    var l1 := Sampling.PublishSlots(o, l, t.readings, t.finishedAt, slots, |slots|).0;
    Telemetry.PublishDropped(o, Telemetry.PublishEnd(o, l1, t.startedAt, t.finishedAt), t.finishedAt)
  }

  function Measure(o: Telemetry.Outputs, l: Telemetry.Ledger, period: nat, t: Tick): Telemetry.Ledger {
    if t.metrics.Some? then Telemetry.PublishMeasurement(o, l, Completion(period, t), t.metrics.value) else l
  }

  // What one cycle does to counters and messages, given the table and the period its commands left.
  function CycleLedger(o: Telemetry.Outputs, l: Telemetry.Ledger, slots: seq<Subscriptions.Slot>, period: nat,
                       t: Tick): Telemetry.Ledger {
    var begun := Telemetry.PublishBegin(o, l, t.startedAt);
    var told := Measure(o, Publish(o, begun, slots, t), period, t);
    told.(cycleId := told.cycleId + 1)
  }

  function Cycle(cfg: Config, stream: seq<Command>, s: Loop, t: Tick): Loop {
    var (c, popped) := Drain(cfg.settings, stream, s.control, s.popped, t.visible, cfg.budget);
    Loop(c, popped, CycleLedger(cfg.outputs, s.ledger, c.slots, c.period, t), s.deadline + c.period,
         if c.paused then s.steps else s.steps + 1)
  }

  // One executed cycle.
  datatype Step = Step(before: Loop, tick: Tick, after: Loop)

  function Final(s: Loop, run: seq<Step>): Loop {
    if run == [] then s else run[|run| - 1].after
  }

  // The cycles of one generation, from s: each starts where the last ended and saw no stop request.
  ghost predicate Execution(cfg: Config, stream: seq<Command>, s: Loop, run: seq<Step>) {
    forall i :: 0 <= i < |run| ==> Executed(cfg, stream, s, run, i)
  }

  ghost predicate Executed(cfg: Config, stream: seq<Command>, s: Loop, run: seq<Step>, i: nat)
    requires i < |run|
  {
    && run[i].before == Final(s, run[..i])
    && !run[i].before.control.stop
    && run[i].after == Cycle(cfg, stream, run[i].before, run[i].tick)
  }

  lemma FrontExecutes(cfg: Config, stream: seq<Command>, s: Loop, run: seq<Step>, n: nat)
    requires Execution(cfg, stream, s, run) && n <= |run|
    ensures Execution(cfg, stream, s, run[..n])
    ensures n > 0 ==> Executed(cfg, stream, s, run, n - 1)
  {
    forall i | 0 <= i < n ensures Executed(cfg, stream, s, run[..n], i) {
      assert Executed(cfg, stream, s, run, i);
      assert run[..n][..i] == run[..i];
    }
  }

  // The last cycle of a run, after the cycles before it.
  lemma LastStep(cfg: Config, stream: seq<Command>, s: Loop, run: seq<Step>)
    requires Execution(cfg, stream, s, run) && run != []
    ensures var front, last := run[..|run| - 1], run[|run| - 1];
      && Execution(cfg, stream, s, front)
      && last.before == Final(s, front) && !last.before.control.stop
      && last.after == Cycle(cfg, stream, last.before, last.tick) == Final(s, run)
  {
    FrontExecutes(cfg, stream, s, run, |run| - 1);
    assert Executed(cfg, stream, s, run, |run| - 1);
  }

  // One more command taken from the queue.
  lemma DrainStep(st: Settings, stream: seq<Command>, c: Control, popped: nat, visible: nat, budget: nat)
    requires budget > 0 && popped < visible && popped < |stream|
    ensures Drain(st, stream, c, popped, visible, budget)
         == Drain(st, stream, Dispatch(st, c, stream[popped]).0, popped + 1, visible, budget - 1)
  {
  }

  // ---------- Batching independence ----------

  lemma {:induction false} DrainIsFold(st: Settings, stream: seq<Command>, c: Control, popped: nat, visible: nat,
                                       budget: nat)
    requires popped <= |stream|
    ensures var (c', p) := Drain(st, stream, c, popped, visible, budget);
      && popped <= p <= |stream| && p <= popped + budget
      && (p == popped + budget || p >= visible || p == |stream|)
      && c' == Fold(st, c, stream[popped..p])
    decreases budget
  {
    if budget > 0 && popped < visible && popped < |stream| {
      var c1 := Dispatch(st, c, stream[popped]).0;
      var p := Drain(st, stream, c, popped, visible, budget).1;
      DrainIsFold(st, stream, c1, popped + 1, visible, budget - 1);
      assert [stream[popped]] + stream[popped + 1..p] == stream[popped..p];
      FoldConcat(st, c, [stream[popped]], stream[popped + 1..p]);
      assert [stream[popped]][..0] == [];
    } else {
      assert stream[popped..popped] == [];
    }
  }

  // After any run the control state is the fold of the dispatcher over the commands popped,
  // however the cycles split them.
  lemma {:induction false} RunIsFold(cfg: Config, stream: seq<Command>, s: Loop, run: seq<Step>)
    requires Execution(cfg, stream, s, run) && s.popped <= |stream|
    ensures s.popped <= Final(s, run).popped <= |stream|
    ensures Final(s, run).control == Fold(cfg.settings, s.control, stream[s.popped..Final(s, run).popped])
  {
    if run == [] {
      assert stream[s.popped..s.popped] == [];
    } else {
      LastStep(cfg, stream, s, run);
      var front, last := run[..|run| - 1], run[|run| - 1];
      RunIsFold(cfg, stream, s, front);
      var m, p := last.before.popped, last.after.popped;
      DrainIsFold(cfg.settings, stream, last.before.control, m, last.tick.visible, cfg.budget);
      FoldConcat(cfg.settings, s.control, stream[s.popped..m], stream[m..p]);
      assert stream[s.popped..m] + stream[m..p] == stream[s.popped..p];
    }
  }

  // A control state without the log of results, which depends on when the client makes room.
  function Apart(c: Control): Control {
    c.(results := [])
  }

  lemma NodesApart(a: Settings, b: Settings, c: Control, d: Control, cmd: Command)
    requires a.limits == b.limits && Apart(c) == Apart(d) && (cmd.LoadNode? || cmd.AddNode? || cmd.RemoveNode?)
    ensures Dispatch(a, c, cmd).0.modules == Dispatch(b, d, cmd).0.modules
  {
    assert c.modules == d.modules;
    match cmd
    case LoadNode(_, _, _, _, _, _) =>
    case AddNode(_, _, _, _, _, _) =>
    case RemoveNode(_, _) =>
  }

  lemma DispatchApart(a: Settings, b: Settings, c: Control, d: Control, cmd: Command)
    requires a.limits == b.limits && Apart(c) == Apart(d)
    ensures Apart(Dispatch(a, c, cmd).0) == Apart(Dispatch(b, d, cmd).0)
  {
    match cmd
    case LoadNode(_, _, _, _, _, _) => NodesApart(a, b, c, d, cmd);
    case AddNode(_, _, _, _, _, _) => NodesApart(a, b, c, d, cmd);
    case RemoveNode(_, _) => NodesApart(a, b, c, d, cmd);
    case Global(_) =>
    case _ =>
  }

  lemma {:induction false} FoldApart(a: Settings, b: Settings, c: Control, d: Control, cmds: seq<Command>)
    requires a.limits == b.limits && Apart(c) == Apart(d)
    ensures Apart(Fold(a, c, cmds)) == Apart(Fold(b, d, cmds))
  {
    if cmds != [] {
      var front, last := cmds[..|cmds| - 1], cmds[|cmds| - 1];
      FoldApart(a, b, c, d, front);
      DispatchApart(a, b, Fold(a, c, front), Fold(b, d, front), last);
    }
  }

  // Two runs over one stream that popped equally much agree on everything but which results got
  // through, whatever their budgets, their timings and the answers of their result queues...
  lemma BatchingIndependence(a: Config, b: Config, stream: seq<Command>, s: Loop, t: Loop,
                             run: seq<Step>, other: seq<Step>)
    requires a.settings.limits == b.settings.limits
    requires Apart(s.control) == Apart(t.control) && s.popped == t.popped <= |stream|
    requires Execution(a, stream, s, run) && Execution(b, stream, t, other)
    requires Final(s, run).popped == Final(t, other).popped
    ensures Apart(Final(s, run).control) == Apart(Final(t, other).control)
  {
    RunIsFold(a, stream, s, run);
    RunIsFold(b, stream, t, other);
    FoldApart(a.settings, b.settings, s.control, t.control, stream[s.popped..Final(s, run).popped]);
  }

  // ...and on the results too when the queues answered alike.
  lemma BatchingKeepsResults(a: Config, b: Config, stream: seq<Command>, s: Loop, t: Loop,
                             run: seq<Step>, other: seq<Step>)
    requires a.settings == b.settings
    requires s.control == t.control && s.popped == t.popped <= |stream|
    requires Execution(a, stream, s, run) && Execution(b, stream, t, other)
    requires Final(s, run).popped == Final(t, other).popped
    ensures Final(s, run).control == Final(t, other).control
  {
    RunIsFold(a, stream, s, run);
    RunIsFold(b, stream, t, other);
  }

  // ---------- Stopping ----------

  ghost predicate Visible(run: seq<Step>, k: nat) {
    forall i :: 0 <= i < |run| ==> run[i].tick.visible > k
  }

  // n full batches of b commands.
  function Batchfuls(n: nat, b: nat): nat {
    if n == 0 then 0 else Batchfuls(n - 1, b) + b
  }

  lemma {:induction false} BatchfulsProduct(n: nat, b: nat)
    ensures Batchfuls(n, b) == n * b
  {
    if n > 0 {
      BatchfulsProduct(n - 1, b);
      assert n * b == (n - 1) * b + b;
    }
  }

  lemma {:induction false} BatchfulsGrow(m: nat, n: nat, b: nat)
    requires m <= n
    ensures Batchfuls(m, b) <= Batchfuls(n, b)
  {
    if m < n { BatchfulsGrow(m, n - 1, b); }
  }

  // j holds n full batches exactly when n is at most the quotient.
  lemma QuotientCounts(n: nat, j: nat, b: nat)
    requires b > 0
    ensures Batchfuls(n, b) <= j <==> n <= j / b
  {
    var q := j / b;
    BatchfulsProduct(q, b);
    assert j == q * b + j % b;
    if n <= q { BatchfulsGrow(n, q, b); } else { BatchfulsGrow(q + 1, n, b); }
  }

  predicate NoStop(cmds: seq<Command>) {
    forall i :: 0 <= i < |cmds| ==> !IsStop(cmds[i])
  }

  lemma PoppedStop(cfg: Config, stream: seq<Command>, s: Loop, run: seq<Step>, k: nat)
    requires Execution(cfg, stream, s, run) && s.popped <= k < |stream| && IsStop(stream[k])
    ensures Final(s, run).popped > k ==> Final(s, run).control.stop
  {
    RunIsFold(cfg, stream, s, run);
    var cmds := stream[s.popped..Final(s, run).popped];
    StopIsSticky(cfg.settings, s.control, cmds);
    if Final(s, run).popped > k { assert cmds[k - s.popped] == stream[k]; }
  }

  lemma NoStopPopped(cfg: Config, stream: seq<Command>, s: Loop, run: seq<Step>, k: nat)
    requires Execution(cfg, stream, s, run) && s.popped <= k < |stream|
    requires !s.control.stop && NoStop(stream[s.popped..k])
    ensures Final(s, run).popped <= k ==> !Final(s, run).control.stop
  {
    RunIsFold(cfg, stream, s, run);
    var p := Final(s, run).popped;
    StopIsSticky(cfg.settings, s.control, stream[s.popped..p]);
    if p <= k { assert stream[s.popped..p] == stream[s.popped..k][..p - s.popped]; }
  }

  // While a waiting STOP has not been popped, every cycle pops a full budget.
  lemma {:induction false} FullBatches(cfg: Config, stream: seq<Command>, s: Loop, run: seq<Step>, k: nat)
    requires Execution(cfg, stream, s, run) && s.popped <= k < |stream| && IsStop(stream[k])
    requires Visible(run, k)
    ensures s.popped <= Final(s, run).popped <= s.popped + Batchfuls(|run|, cfg.budget)
    ensures Final(s, run).popped <= k ==> Final(s, run).popped == s.popped + Batchfuls(|run|, cfg.budget)
  {
    if run != [] {
      LastStep(cfg, stream, s, run);
      var front, last := run[..|run| - 1], run[|run| - 1];
      FullBatches(cfg, stream, s, front, k);
      RunIsFold(cfg, stream, s, front);
      DrainIsFold(cfg.settings, stream, last.before.control, last.before.popped, last.tick.visible, cfg.budget);
      assert last.tick.visible > k;
    }
  }

  // A STOP waiting at index k ends the generation within floor(j / B) + 1 cycles, j being its
  // distance from the front of the queue, whether paused or not.
  lemma StopBound(cfg: Config, stream: seq<Command>, s: Loop, run: seq<Step>, k: nat)
    requires Execution(cfg, stream, s, run) && s.popped <= k < |stream| && IsStop(stream[k])
    requires Visible(run, k) && cfg.budget >= 1
    ensures |run| <= (k - s.popped) / cfg.budget + 1
    ensures Final(s, run).popped - s.popped <= ((k - s.popped) / cfg.budget + 1) * cfg.budget
  {
    var b, cycles := cfg.budget, (k - s.popped) / cfg.budget + 1;
    if run != [] {
      LastStep(cfg, stream, s, run);
      var front := run[..|run| - 1];
      FullBatches(cfg, stream, s, front, k);
      PoppedStop(cfg, stream, s, front, k);
      QuotientCounts(|front|, k - s.popped, b);
    }
    FullBatches(cfg, stream, s, run, k);
    BatchfulsGrow(|run|, cycles, b);
    BatchfulsProduct(cycles, b);
  }

  // With no earlier STOP the bound is exact: the loop has seen the request exactly then.
  lemma StopExact(cfg: Config, stream: seq<Command>, s: Loop, run: seq<Step>, k: nat)
    requires Execution(cfg, stream, s, run) && s.popped <= k < |stream| && IsStop(stream[k])
    requires Visible(run, k) && cfg.budget >= 1
    requires !s.control.stop && NoStop(stream[s.popped..k])
    ensures Final(s, run).control.stop <==> |run| == (k - s.popped) / cfg.budget + 1
  {
    StopBound(cfg, stream, s, run, k);
    FullBatches(cfg, stream, s, run, k);
    PoppedStop(cfg, stream, s, run, k);
    NoStopPopped(cfg, stream, s, run, k);
    QuotientCounts(|run|, k - s.popped, cfg.budget);
  }

  // ---------- Pausing ----------

  // Cycles after whose drain the last pause or resume, among the commands popped from the given index on,
  // is not a pause.
  function UnpausedCycles(stream: seq<Command>, initially: bool, from: nat, run: seq<Step>): nat {
    if run == [] then 0
    else
      var p := run[|run| - 1].after.popped;
      UnpausedCycles(stream, initially, from, run[..|run| - 1])
        + (if from <= p <= |stream| && !LastIsPause(initially, stream[from..p]) then 1 else 0)
  }

  // The runtime is stepped once in exactly those cycles: a PAUSE suppresses its own cycle, and a
  // PAUSE followed by RESUME in one batch suppresses none.
  lemma {:induction false} StepsAreUnpausedCycles(cfg: Config, stream: seq<Command>, s: Loop, run: seq<Step>)
    requires Execution(cfg, stream, s, run) && s.popped <= |stream|
    ensures Final(s, run).steps == s.steps + UnpausedCycles(stream, s.control.paused, s.popped, run)
  {
    if run != [] {
      LastStep(cfg, stream, s, run);
      StepsAreUnpausedCycles(cfg, stream, s, run[..|run| - 1]);
      RunIsFold(cfg, stream, s, run);
      PausedIsLastPause(cfg.settings, s.control, stream[s.popped..Final(s, run).popped]);
    }
  }

  // ---------- The ledger over runs and restarts ----------

  lemma PublishAccounted(o: Telemetry.Outputs, l: Telemetry.Ledger, slots: seq<Subscriptions.Slot>, t: Tick)
    requires Telemetry.Accounted(l)
    ensures Telemetry.Accounted(Publish(o, l, slots, t))
  {
    var l1 := Sampling.PublishSlots(o, l, t.readings, t.finishedAt, slots, |slots|).0;
    Sampling.PublishSlotsAccounted(o, l, t.readings, t.finishedAt, slots, |slots|);
    var l2 := Telemetry.PublishEnd(o, l1, t.startedAt, t.finishedAt);
    Telemetry.PushAccounted(o, l1, t.finishedAt, Telemetry.CycleEnd(l1.cycleId, t.startedAt, t.finishedAt));
    Telemetry.PushAccounted(o, l2, t.finishedAt, Telemetry.Dropped(l2.cycleId, l2.droppedEvents, l2.droppedValues));
  }

  lemma CycleAccounted(cfg: Config, stream: seq<Command>, s: Loop, t: Tick)
    requires Telemetry.Accounted(s.ledger)
    ensures Telemetry.Accounted(Cycle(cfg, stream, s, t).ledger)
  {
    var o, c := cfg.outputs, Cycle(cfg, stream, s, t).control;
    var begun := Telemetry.PublishBegin(o, s.ledger, t.startedAt);
    Telemetry.PushAccounted(o, s.ledger, t.startedAt, Telemetry.CycleBegin(s.ledger.cycleId, t.startedAt));
    PublishAccounted(o, begun, c.slots, t);
    if t.metrics.Some? {
      var closed := Publish(o, begun, c.slots, t);
      Telemetry.PushAccounted(o, closed, Completion(c.period, t), Telemetry.Measurement(t.metrics.value));
    }
  }

  lemma {:induction false} RunAccounted(cfg: Config, stream: seq<Command>, s: Loop, run: seq<Step>)
    requires Execution(cfg, stream, s, run) && Telemetry.Accounted(s.ledger)
    ensures Telemetry.Accounted(Final(s, run).ledger)
  {
    if run != [] {
      LastStep(cfg, stream, s, run);
      RunAccounted(cfg, stream, s, run[..|run| - 1]);
      CycleAccounted(cfg, stream, run[|run| - 1].before, run[|run| - 1].tick);
    }
  }

  // A later start clears the flags and takes a new deadline; nothing else is reset.
  function Restarted(s: Loop, now: nat): Loop {
    s.(control := s.control.(stop := false, paused := false), deadline := now)
  }

  datatype Generation = Generation(startedAt: nat, run: seq<Step>)

  function FinalOf(s: Loop, gens: seq<Generation>): Loop {
    if gens == [] then s
    else
      var g := gens[|gens| - 1];
      Final(Restarted(FinalOf(s, gens[..|gens| - 1]), g.startedAt), g.run)
  }

  ghost predicate Generations(cfg: Config, stream: seq<Command>, s: Loop, gens: seq<Generation>) {
    gens != [] ==>
      var front, g := gens[..|gens| - 1], gens[|gens| - 1];
      Generations(cfg, stream, s, front) && Execution(cfg, stream, Restarted(FinalOf(s, front), g.startedAt), g.run)
  }

  // Over a history of generations: in each, the commands popped since its own start decide, and it begins
  // unpaused whatever came before.
  function UnpausedOver(stream: seq<Command>, s: Loop, gens: seq<Generation>): nat {
    if gens == [] then 0
    else
      var front, g := gens[..|gens| - 1], gens[|gens| - 1];
      UnpausedOver(stream, s, front) + UnpausedCycles(stream, false, FinalOf(s, front).popped, g.run)
  }

  // Pause and resume across restarts: a start forgets a pause.
  lemma {:induction false} StepsAcrossRestarts(cfg: Config, stream: seq<Command>, s: Loop, gens: seq<Generation>)
    requires Generations(cfg, stream, s, gens) && s.popped <= |stream|
    ensures FinalOf(s, gens).steps == s.steps + UnpausedOver(stream, s, gens)
    ensures s.popped <= FinalOf(s, gens).popped <= |stream|
  {
    if gens != [] {
      var front, g := gens[..|gens| - 1], gens[|gens| - 1];
      StepsAcrossRestarts(cfg, stream, s, front);
      var r := Restarted(FinalOf(s, front), g.startedAt);
      StepsAreUnpausedCycles(cfg, stream, r, g.run);
      RunIsFold(cfg, stream, r, g.run);
    }
  }

  // A start forgets a stop too: whatever stopped the last generation, the next one can run a cycle, from
  // the table, modules, counters and queue position that the last one left.
  lemma RestartRuns(cfg: Config, stream: seq<Command>, s: Loop, now: nat, t: Tick)
    ensures exists run: seq<Step> :: |run| == 1 && run[0].tick == t && Execution(cfg, stream, Restarted(s, now), run)
    ensures var r := Restarted(s, now);
      && Data(r.control) == Data(s.control)
      && r.popped == s.popped && r.ledger == s.ledger && r.steps == s.steps && r.deadline == now
  {
    var r := Restarted(s, now);
    var run := [Step(r, t, Cycle(cfg, stream, r, t))];
    assert run[..0] == [];
    assert Executed(cfg, stream, r, run, 0);
    assert |run| == 1 && run[0].tick == t && Execution(cfg, stream, r, run);
  }

  // A control state without the two flags a start clears.
  function Data(c: Control): Control {
    c.(stop := false, paused := false)
  }

  lemma DispatchIgnoresFlags(st: Settings, c: Control, cmd: Command)
    ensures Data(Dispatch(st, Data(c), cmd).0) == Data(Dispatch(st, c, cmd).0)
  {
    match cmd
    case LoadNode(_, _, _, _, _, _) =>
    case AddNode(_, _, _, _, _, _) =>
    case RemoveNode(_, _) =>
    case Global(_) =>
    case _ =>
  }

  lemma {:induction false} FoldIgnoresFlags(st: Settings, c: Control, d: Control, cmds: seq<Command>)
    requires Data(c) == Data(d)
    ensures Data(Fold(st, c, cmds)) == Data(Fold(st, d, cmds))
  {
    if cmds != [] {
      var front, last := cmds[..|cmds| - 1], cmds[|cmds| - 1];
      FoldIgnoresFlags(st, c, d, front);
      DispatchIgnoresFlags(st, Fold(st, c, front), last);
      DispatchIgnoresFlags(st, Fold(st, d, front), last);
    }
  }

  // Batching independence with restarts: apart from the two flags, the state after any number of
  // generations is the fold over all commands popped since the first, however many starts and
  // stops cut the stream.
  lemma {:induction false} RestartsAreFold(cfg: Config, stream: seq<Command>, s: Loop, gens: seq<Generation>)
    requires Generations(cfg, stream, s, gens) && s.popped <= |stream|
    ensures var t := FinalOf(s, gens);
      && s.popped <= t.popped <= |stream|
      && Data(t.control) == Data(Fold(cfg.settings, s.control, stream[s.popped..t.popped]))
  {
    if gens == [] {
      assert stream[s.popped..s.popped] == [];
    } else {
      var front, g := gens[..|gens| - 1], gens[|gens| - 1];
      RestartsAreFold(cfg, stream, s, front);
      var p := FinalOf(s, front);
      var r := Restarted(p, g.startedAt);
      RunIsFold(cfg, stream, r, g.run);
      var q := Final(r, g.run).popped;
      var c := Fold(cfg.settings, s.control, stream[s.popped..p.popped]);
      FoldIgnoresFlags(cfg.settings, r.control, c, stream[p.popped..q]);
      FoldConcat(cfg.settings, s.control, stream[s.popped..p.popped], stream[p.popped..q]);
      assert stream[s.popped..p.popped] + stream[p.popped..q] == stream[s.popped..q];
    }
  }

  // So two histories of starts and stops over one stream agree on the table, the modules, the nodes and
  // the period as soon as they have popped equally much.
  lemma RestartsIndependence(a: Config, b: Config, stream: seq<Command>, s: Loop, t: Loop,
                             gens: seq<Generation>, others: seq<Generation>)
    requires a.settings.limits == b.settings.limits
    requires Data(Apart(s.control)) == Data(Apart(t.control)) && s.popped == t.popped <= |stream|
    requires Generations(a, stream, s, gens) && Generations(b, stream, t, others)
    requires FinalOf(s, gens).popped == FinalOf(t, others).popped
    ensures Data(Apart(FinalOf(s, gens).control)) == Data(Apart(FinalOf(t, others).control))
  {
    RestartsAreFold(a, stream, s, gens);
    RestartsAreFold(b, stream, t, others);
    var cmds := stream[s.popped..FinalOf(s, gens).popped];
    FoldIgnoresFlags(a.settings, s.control, Data(s.control), cmds);
    FoldIgnoresFlags(b.settings, t.control, Data(t.control), cmds);
    FoldApart(a.settings, b.settings, Data(s.control), Data(t.control), cmds);
  }

  // Over every run, restarts included: each sequence number is an enqueued message, a counted event
  // or a failed batch, enqueued numbers strictly increase, and the counters say what was lost.
  lemma {:induction false} ConservationAcrossRestarts(cfg: Config, stream: seq<Command>, s: Loop, gens: seq<Generation>)
    requires Generations(cfg, stream, s, gens) && Telemetry.Accounted(s.ledger)
    ensures var l := FinalOf(s, gens).ledger;
      && Telemetry.Accounted(l)
      && l.lastNumber == |Telemetry.Delivered(l.log)| + l.droppedEvents + Telemetry.FailedBatches(l.log)
      && (forall a, b :: 0 <= a < b < |Telemetry.Delivered(l.log)| ==>
            Telemetry.Delivered(l.log)[a].number < Telemetry.Delivered(l.log)[b].number)
  {
    if gens != [] {
      var front, g := gens[..|gens| - 1], gens[|gens| - 1];
      ConservationAcrossRestarts(cfg, stream, s, front);
      RunAccounted(cfg, stream, Restarted(FinalOf(s, front), g.startedAt), g.run);
    }
    Telemetry.SequenceConservation(FinalOf(s, gens).ledger);
  }

  // The consumer's view over every run, restarts included: what a gap between two messages popped
  // next to each other means, wherever the generations end.
  lemma GapAcrossRestarts(cfg: Config, stream: seq<Command>, s: Loop, gens: seq<Generation>, k: nat)
    requires Generations(cfg, stream, s, gens) && Telemetry.Accounted(s.ledger)
    requires k + 1 < |Telemetry.Delivered(FinalOf(s, gens).ledger.log)|
    ensures var log := FinalOf(s, gens).ledger.log;
      var m1, m2 := Telemetry.Delivered(log)[k], Telemetry.Delivered(log)[k + 1];
      && 1 <= m1.number < m2.number <= |log|
      && var between := Telemetry.Between(log, m1, m2);
      && Telemetry.Delivered(between) == []
      && m2.number - m1.number - 1 == Telemetry.EventDrops(between) + Telemetry.FailedBatches(between)
      && m2.droppedEvents - m1.droppedEvents == Telemetry.EventDrops(between)
      && (m2.droppedEvents - m1.droppedEvents == m2.number - m1.number - 1 <==> Telemetry.FailedBatches(between) == 0)
  {
    ConservationAcrossRestarts(cfg, stream, s, gens);
    Telemetry.GapTheorem(FinalOf(s, gens).ledger, k);
  }

  // ...and what a drop report means.
  lemma DropReportAcrossRestarts(cfg: Config, stream: seq<Command>, s: Loop, gens: seq<Generation>, i: nat)
    requires Generations(cfg, stream, s, gens) && Telemetry.Accounted(s.ledger)
    requires i < |FinalOf(s, gens).ledger.log| && FinalOf(s, gens).ledger.log[i].message.payload.Dropped?
    ensures var log := FinalOf(s, gens).ledger.log;
      var p := log[i].message.payload;
      && p.eventCount == i - |Telemetry.Delivered(log[..i])| - Telemetry.FailedBatches(log[..i])
      && p.valueCount == Telemetry.SampleCount(log[..i], false)
  {
    ConservationAcrossRestarts(cfg, stream, s, gens);
    Telemetry.DropReportIsTrue(FinalOf(s, gens).ledger, i);
  }

  // ---------- Value conservation ----------

  function CollectedIn(o: Telemetry.Outputs, e: Step): nat {
    var slots := e.after.control.slots;
    Sampling.Total(Sampling.Batches(o, e.tick.readings, e.before.ledger.cycleId, e.tick.finishedAt, slots, |slots|))
  }

  function Collected(o: Telemetry.Outputs, run: seq<Step>): nat {
    if run == [] then 0 else Collected(o, run[..|run| - 1]) + CollectedIn(o, run[|run| - 1])
  }

  lemma PushKeepsValues(o: Telemetry.Outputs, l: Telemetry.Ledger, now: nat, p: Telemetry.Payload)
    requires !p.ValuesWritten?
    ensures var l' := Telemetry.Push(o, l, now, p).0;
      Telemetry.Settled(l') == Telemetry.Settled(l) && l'.cycleId == l.cycleId
  {
    var l' := Telemetry.Push(o, l, now, p).0;
    if o.queue { assert l'.log[..|l'.log| - 1] == l.log; }
  }

  lemma PublishConservesValues(o: Telemetry.Outputs, l: Telemetry.Ledger, slots: seq<Subscriptions.Slot>, t: Tick)
    requires o.queue && o.values
    ensures var l' := Publish(o, l, slots, t);
      Sampling.Total(Sampling.Batches(o, t.readings, l.cycleId, t.finishedAt, slots, |slots|))
        == Telemetry.Settled(l') - Telemetry.Settled(l)
  {
    var l1 := Sampling.PublishSlots(o, l, t.readings, t.finishedAt, slots, |slots|).0;
    Sampling.SamplesConserved(o, l, t.readings, t.finishedAt, slots, |slots|);
    var l2 := Telemetry.PublishEnd(o, l1, t.startedAt, t.finishedAt);
    PushKeepsValues(o, l1, t.finishedAt, Telemetry.CycleEnd(l1.cycleId, t.startedAt, t.finishedAt));
    PushKeepsValues(o, l2, t.finishedAt, Telemetry.Dropped(l2.cycleId, l2.droppedEvents, l2.droppedValues));
  }

  lemma CycleConservesValues(cfg: Config, stream: seq<Command>, s: Loop, t: Tick)
    requires cfg.outputs.queue && cfg.outputs.values
    ensures var s' := Cycle(cfg, stream, s, t);
      CollectedIn(cfg.outputs, Step(s, t, s')) == Telemetry.Settled(s'.ledger) - Telemetry.Settled(s.ledger)
  {
    var o, c := cfg.outputs, Cycle(cfg, stream, s, t).control;
    var begun := Telemetry.PublishBegin(o, s.ledger, t.startedAt);
    PushKeepsValues(o, s.ledger, t.startedAt, Telemetry.CycleBegin(s.ledger.cycleId, t.startedAt));
    PublishConservesValues(o, begun, c.slots, t);
    if t.metrics.Some? {
      var closed := Publish(o, begun, c.slots, t);
      PushKeepsValues(o, closed, Completion(c.period, t), Telemetry.Measurement(t.metrics.value));
    }
  }

  // With both outputs configured, every sample collected over a run was delivered in a successful
  // batch or is counted as dropped.
  lemma {:induction false} ValueConservation(cfg: Config, stream: seq<Command>, s: Loop, run: seq<Step>)
    requires Execution(cfg, stream, s, run) && cfg.outputs.queue && cfg.outputs.values
    ensures Collected(cfg.outputs, run) == Telemetry.Settled(Final(s, run).ledger) - Telemetry.Settled(s.ledger)
  {
    if run != [] {
      LastStep(cfg, stream, s, run);
      ValueConservation(cfg, stream, s, run[..|run| - 1]);
      CycleConservesValues(cfg, stream, run[|run| - 1].before, run[|run| - 1].tick);
    }
  }

  function CollectedBy(o: Telemetry.Outputs, gens: seq<Generation>): nat {
    if gens == [] then 0 else CollectedBy(o, gens[..|gens| - 1]) + Collected(o, gens[|gens| - 1].run)
  }

  lemma {:induction false} ValueConservationAcrossRestarts(cfg: Config, stream: seq<Command>, s: Loop,
                                                           gens: seq<Generation>)
    requires Generations(cfg, stream, s, gens) && cfg.outputs.queue && cfg.outputs.values
    ensures CollectedBy(cfg.outputs, gens)
         == Telemetry.Settled(FinalOf(s, gens).ledger) - Telemetry.Settled(s.ledger)
  {
    if gens != [] {
      var front, g := gens[..|gens| - 1], gens[|gens| - 1];
      ValueConservationAcrossRestarts(cfg, stream, s, front);
      ValueConservation(cfg, stream, Restarted(FinalOf(s, front), g.startedAt), g.run);
    }
  }
}
