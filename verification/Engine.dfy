/** The engine object: it owns the subscription table, the telemetry publisher, the loaded modules and
    the result writer, dispatches commands to them, and runs the real-time loop over them. */
module Engine {
  import opened Commands
  import opened Descriptors
  import opened RtLoop
  import CStrings
  import Registry
  import ModuleRegistry
  import Results
  import ResultWriter
  import Subscriptions
  import SubscriptionTable
  import Telemetry
  import Publisher

  datatype Inheritance = InheritSched | ExplicitSched | OtherSched

  // What a client configures; a missing runtime or command queue, or an unknown scheduling
  // inheritance, makes creation fail.
  datatype EngineConfig = EngineConfig(runtime: bool, commandQueue: bool,
                                       rtInherit: Inheritance, waitInherit: Inheritance,
                                       maxCommandsPerCycle: nat, capacity: nat, defaultBudget: nat,
                                       settings: Settings, outputs: Telemetry.Outputs,
                                       nodes: seq<Registry.Node>, period: nat)

  predicate ThreadConfigIsValid(inherit: Inheritance) {
    inherit == InheritSched || inherit == ExplicitSched
  }

  predicate Usable(c: EngineConfig) {
    c.runtime && c.commandQueue && ThreadConfigIsValid(c.rtInherit) && ThreadConfigIsValid(c.waitInherit)
  }

  class Engine {
    const budget: nat
    const settings: Settings
    const table: SubscriptionTable.Table
    const publisher: Publisher.Publisher
    const modules: ModuleRegistry.Modules
    const writer: ResultWriter.Writer
    var stopRequested: bool
    var paused: bool
    var period: nat   // the runtime's configured period
    var popped: nat   // commands taken from the queue so far
    var steps: nat    // runtime steps executed so far

    ghost predicate Valid()
      reads this, modules
    {
      && Registry.Valid(modules.Now())
      && writer.limits == settings.limits && writer.queue == settings.results
      && table.invalidId == settings.limits.invalidId
    }

    ghost function Control(): Control
      reads this, table.slots, modules, writer
    {
      Commands.Control(stopRequested, paused, table.State(), modules.Now(), period, writer.log)
    }

    ghost function Config(): Config {
      RtLoop.Config(budget, settings, publisher.outputs)
    }

    ghost function Loop(deadline: nat): Loop
      reads this, table.slots, modules, writer, publisher
    {
      RtLoop.Loop(Control(), popped, publisher.State(), deadline, steps)
    }

    constructor (c: EngineConfig)
      requires forall n :: n in c.nodes ==> n.origin.External?
      ensures Valid() && Sound(settings, Control())
      ensures settings == c.settings && publisher.outputs == c.outputs
      ensures budget == if c.maxCommandsPerCycle == 0 then c.defaultBudget else c.maxCommandsPerCycle
      ensures !stopRequested && !paused && popped == 0 && steps == 0 && period == c.period
      ensures publisher.State() == Telemetry.Ledger(0, 0, 0, 0, []) && writer.log == []
      ensures table.slots.Length == c.capacity && Subscriptions.Abs(table.State()) == map[]
      ensures modules.Now() == Registry.State([], {}, 0, c.nodes)
      ensures fresh(table.slots) && fresh(publisher) && fresh(modules) && fresh(writer)
    {
      budget := if c.maxCommandsPerCycle == 0 then c.defaultBudget else c.maxCommandsPerCycle;
      settings := c.settings;
      table := new SubscriptionTable.Table(c.capacity, c.settings.limits.invalidId);
      publisher := new Publisher.Publisher(c.outputs);
      modules := new ModuleRegistry.Modules(c.nodes);
      writer := new ResultWriter.Writer(c.settings.limits, c.settings.results);
      stopRequested, paused, period, popped, steps := false, false, c.period, 0, 0;
    }

    method GlobalCommandEvent(code: nat) returns (ok: bool)
      modifies this`stopRequested, this`paused
      ensures (Control(), ok) == GlobalCommand(old(Control()), code)
    {
      var command := Narrowed(code);
      if command == GLOBAL_NONE {
        return true;
      } else if command == GLOBAL_STOP {
        stopRequested := true;
        return true;
      } else if command == GLOBAL_PAUSE {
        paused := true;
        return true;
      } else if command == GLOBAL_RESUME {
        paused := false;
        return true;
      }
      return false;
    }

    method SubscriptionEvent(cmd: Command) returns (ok: bool)
      requires Valid() && IsSubscription(cmd)
      modifies table.slots
      ensures (table.State(), ok)
           == Subscriptions.UpdateSlots(old(table.State()), settings.limits.invalidId, RequestOf(cmd))
    {
      ok := table.UpdateSubscriptionMask(cmd.nodeId, cmd.mask, cmd.send, cmd.RequestPortVariables?);
    }

    method LoadNodeEvent(cmd: Command) returns (ok: bool)
      requires Valid() && cmd.LoadNode?
      modifies modules, writer
      ensures Valid() && (Control(), ok) == Load(settings, old(Control()), cmd)
    {
      if !IsValidType(cmd.nodeType) || cmd.path == "" {
        return false;
      }
      Registry.LoadKeepsValid(modules.Now(), cmd.file, cmd.nodeType, cmd.memory, cmd.stored);
      var d := modules.LoadNodeDescriptorAs(cmd.file, cmd.nodeType, cmd.memory, cmd.stored);
      var copied := NO_COPY;
      if d.Some? {
        copied := ResultWriter.CopyDescriptor(settings.limits.room, d.value);
      }
      var _ := writer.PushResultMessage(Outcome(Results.LoadKind, cmd.number, d.Some?, 0, copied));
      return d.Some?;
    }

    // The bounded copy of the descriptor registered under a name, or an empty one.
    method CopyRegistered(name: CStrings.Text) returns (copied: DescriptorCopy)
      ensures var entry := Registry.Get(modules.loaded, name);
        copied == if entry.Some? then Copy(settings.limits.room, entry.value.descriptor) else NO_COPY
    {
      var entry := Registry.Get(modules.loaded, name);
      copied := NO_COPY;
      if entry.Some? {
        copied := ResultWriter.CopyDescriptor(settings.limits.room, entry.value.descriptor);
      }
    }

    method AddNodeEvent(cmd: Command) returns (ok: bool)
      requires Valid() && cmd.AddNode?
      modifies modules, writer
      ensures Valid() && (Control(), ok) == Add(settings, old(Control()), cmd)
    {
      if !IsValidType(cmd.nodeType) || cmd.name == "" {
        return false;
      }
      Registry.AddKeepsValid(modules.Now(), cmd.name, cmd.created, cmd.inserted, cmd.newId);
      var n := modules.AddNodeAs(cmd.name, cmd.nodeType, cmd.created, cmd.inserted, cmd.newId);
      var copied := CopyRegistered(cmd.name);
      var nodeId := if n.Some? then n.value.id else settings.limits.invalidId;
      var _ := writer.PushResultMessage(Outcome(Results.AddKind, cmd.number, n.Some?, nodeId, copied));
      return n.Some?;
    }

    method RemoveNodeEvent(cmd: Command) returns (ok: bool)
      requires Valid() && cmd.RemoveNode?
      modifies modules, writer
      ensures Valid() && (Control(), ok) == Remove(settings, old(Control()), cmd)
    {
      if cmd.nodeId == settings.limits.invalidId {
        return false;
      }
      Registry.RemoveKeepsValid(modules.Now(), cmd.nodeId);
      ok := modules.RemoveNodeById(cmd.nodeId);
      var _ := writer.PushResultMessage(Outcome(Results.RemoveKind, cmd.number, ok, cmd.nodeId, NO_COPY));
    }

    method DispatchCommand(cmd: Command) returns (ok: bool)
      requires Valid()
      modifies this`stopRequested, this`paused, this`period, table.slots, modules, writer
      ensures Valid() && (Control(), ok) == Dispatch(settings, old(Control()), cmd)
    {
      match cmd
      case NoCommand => ok := true;
      case Global(code) => ok := GlobalCommandEvent(code);
      case RequestPortValues(_, _, _) => ok := SubscriptionEvent(cmd);
      case RequestPortVariables(_, _, _) => ok := SubscriptionEvent(cmd);
      case LoadNode(_, _, _, _, _, _) => ok := LoadNodeEvent(cmd);
      case AddNode(_, _, _, _, _, _) => ok := AddNodeEvent(cmd);
      case RemoveNode(_, _) => ok := RemoveNodeEvent(cmd);
      case SetRuntimePeriod(p, taken) =>
        if taken {
          period := p;
        }
        ok := taken;
      case RequestRuntimeNodes(number, states, connections) =>
        ok := writer.RequestRuntimeNodes(number, modules.loaded, states, modules.nodes, connections);
      case Forwarded(taken) => ok := taken;
      case Unknown => ok := false;
    }

    // Pops and dispatches commands until the queue is found empty or the budget is spent.
    method DrainCommands(stream: seq<Command>, visible: nat)
      requires Valid()
      modifies this`stopRequested, this`paused, this`period, this`popped, table.slots, modules, writer
      ensures Valid() && (Control(), popped) == Drain(settings, stream, old(Control()), old(popped), visible, budget)
    {
      var i := 0;
      while i < budget
        invariant i <= budget && Valid()
        invariant Drain(settings, stream, old(Control()), old(popped), visible, budget)
               == Drain(settings, stream, Control(), popped, visible, budget - i)
      {
        if popped >= visible || popped >= |stream| {
          return;
        }
        var message := stream[popped];
        DrainStep(settings, stream, Control(), popped, visible, budget - i);
        popped := popped + 1;
        var _ := DispatchCommand(message);
        i := i + 1;
      }
    }

    // Values, end of cycle and drop report, after the runtime step.
    method PublishCycle(t: Tick)
      modifies publisher
      ensures publisher.State() == Publish(publisher.outputs, old(publisher.State()), table.State(), t)
    {
      var _ := publisher.PublishRequestedValues(table, t.readings, t.finishedAt);
      publisher.PublishCycleEnd(t.startedAt, t.finishedAt);
      publisher.PublishCycleDropped(t.finishedAt);
    }

    // The sleep to the deadline, when there is a period, and the measurement.
    method CompleteCycle(t: Tick, deadline: nat) returns (next: nat)
      modifies publisher
      ensures next == deadline + period
      ensures publisher.State() == Measure(publisher.outputs, old(publisher.State()), period, t)
    {
      var completed := t.finishedAt;
      next := deadline;
      if period > 0 {
        next := next + period;
        completed := t.completedAt;
      }
      if t.metrics.Some? {
        publisher.PublishCycleMeasurement(completed, t.metrics.value);
      }
    }

    // The cycle after its runtime step.
    method FinishCycle(t: Tick, deadline: nat) returns (next: nat)
      modifies publisher
      ensures next == deadline + period
      ensures
        var closed := Publish(publisher.outputs, old(publisher.State()), table.State(), t);
        var told := Measure(publisher.outputs, closed, period, t);
        publisher.State() == told.(cycleId := told.cycleId + 1)
    {
      PublishCycle(t);
      next := CompleteCycle(t, deadline);
      publisher.cycleId := publisher.cycleId + 1;
    }

    // The body of the real-time loop.
    method RunCycle(stream: seq<Command>, t: Tick, deadline: nat) returns (next: nat)
      requires Valid()
      modifies this, table.slots, modules, writer, publisher
      ensures Valid() && Loop(next) == Cycle(Config(), stream, old(Loop(deadline)), t)
    {
      publisher.PublishCycleBegin(t.startedAt);
      DrainCommands(stream, t.visible);
      ghost var c := Control();
      if !paused {
        steps := steps + 1;
      }
      next := FinishCycle(t, deadline);
      assert Control() == c;
      assert publisher.State() == CycleLedger(publisher.outputs, old(publisher.State()), c.slots, c.period, t);
    }

    // What start does before its threads, up to the real-time thread's first clock reading: the next
    // generation runs from where the last one ended, without a stop and without a pause.
    method BeginGeneration(ghost before: nat, ghost now: nat)
      modifies this`stopRequested, this`paused
      ensures !stopRequested && !paused
      ensures Loop(now) == Restarted(old(Loop(before)), now)
    {
      stopRequested := false;
      paused := false;
    }

    // One generation from its start: it takes the place of the next in any history of generations.
    method RunGeneration(stream: seq<Command>, ghost before: nat, now: nat, ticks: seq<Tick>, stopAt: nat)
      returns (deadline: nat, ghost run: seq<Step>)
      requires Valid()
      modifies this, table.slots, modules, writer, publisher
      ensures Valid() && Execution(Config(), stream, Restarted(old(Loop(before)), now), run)
      ensures Loop(deadline) == Final(Restarted(old(Loop(before)), now), run)
           || Loop(deadline) == StoppedAt(Final(Restarted(old(Loop(before)), now), run))
      ensures |run| == |ticks| || stopRequested
    {
      BeginGeneration(before, now);
      deadline, run := RtThreadMain(stream, now, ticks, stopAt);
    }

    method RequestStop()
      modifies this`stopRequested
      ensures stopRequested
    {
      stopRequested := true;
    }

    // The real-time thread over the given outside world. A stop requested by another thread lands
    // before the check of iteration stopAt. The cycles executed are a run in the sense of RtLoop.
    method RtThreadMain(stream: seq<Command>, start: nat, ticks: seq<Tick>, stopAt: nat)
      returns (deadline: nat, ghost run: seq<Step>)
      requires Valid()
      modifies this, table.slots, modules, writer, publisher
      ensures Valid() && Execution(Config(), stream, old(Loop(start)), run)
      ensures |run| <= |ticks| && forall i :: 0 <= i < |run| ==> run[i].tick == ticks[i]
      ensures Loop(deadline) == Final(old(Loop(start)), run)
           || (|run| == stopAt && Loop(deadline) == StoppedAt(Final(old(Loop(start)), run)))
      ensures |run| == |ticks| || stopRequested
    {
      deadline, run := start, [];
      ghost var s := Loop(start);
      var i := 0;
      while i < |ticks|
        invariant Valid() && i <= |ticks| && |run| == i
        invariant Execution(Config(), stream, s, run) && Loop(deadline) == Final(s, run)
        invariant forall k :: 0 <= k < i ==> run[k].tick == ticks[k]
      {
        if i == stopAt {
          RequestStop();
        }
        if stopRequested {
          return;
        }
        ghost var before := Loop(deadline);
        deadline := RunCycle(stream, ticks[i], deadline);
        ghost var e := Step(before, ticks[i], Loop(deadline));
        ExecutionExtends(Config(), stream, s, run, e);
        run := run + [e];
        i := i + 1;
      }
    }
  }

  ghost function StoppedAt(s: Loop): Loop {
    s.(control := s.control.(stop := true))
  }

  lemma ExecutionExtends(cfg: Config, stream: seq<Command>, s: Loop, run: seq<Step>, e: Step)
    requires Execution(cfg, stream, s, run)
    requires e.before == Final(s, run) && !e.before.control.stop && e.after == Cycle(cfg, stream, e.before, e.tick)
    ensures Execution(cfg, stream, s, run + [e]) && Final(s, run + [e]) == e.after
  {
    var more := run + [e];
    forall i | 0 <= i < |more| ensures Executed(cfg, stream, s, more, i) {
      if i < |run| { assert Executed(cfg, stream, s, run, i); }
      assert more[..i] == run[..i];
    }
  }

  // ---------- Creation and destruction ----------

  datatype Resource = EngineMemory | LoadedNodes | MeasurementTool | ProbeCallback | RtThread | WaitThread

  const ALLOCATED := {EngineMemory, LoadedNodes, MeasurementTool, RtThread, WaitThread}

  // What one engine holds of the outside world. Nothing is taken twice or given back twice.
  class Platform {
    const grants: Resource -> bool
    var held: set<Resource>

    constructor (grants: Resource -> bool)
      ensures this.grants == grants && held == {}
    {
      this.grants, held := grants, {};
    }

    method Acquire(r: Resource) returns (ok: bool)
      requires r in ALLOCATED && r !in held
      modifies this
      ensures ok == grants(r) && held == if ok then old(held) + {r} else old(held)
    {
      ok := grants(r);
      if ok {
        held := held + {r};
      }
    }

    method SetProbe()
      requires ProbeCallback !in held
      modifies this
      ensures held == old(held) + {ProbeCallback}
    {
      held := held + {ProbeCallback};
    }

    method Release(r: Resource)
      requires r in held
      modifies this
      ensures held == old(held) - {r}
    {
      held := held - {r};
    }

    // Everything an engine needs; on a failure what was taken before it is given back.
    method AcquireAll() returns (ok: bool)
      requires held == {}
      modifies this
      ensures ok <==> forall r :: r in ALLOCATED ==> grants(r)
      ensures held == if ok then ALLOCATED + {ProbeCallback} else {}
    {
      ok := Acquire(EngineMemory);
      if !ok {
        return;
      }
      ok := Acquire(LoadedNodes);
      if !ok {
        Release(EngineMemory);
        return;
      }
      ok := Acquire(MeasurementTool);
      if !ok {
        Release(LoadedNodes);
        Release(EngineMemory);
        return;
      }
      SetProbe();
      ok := Acquire(RtThread);
      if !ok {
        Release(ProbeCallback);
        Release(MeasurementTool);
        Release(LoadedNodes);
        Release(EngineMemory);
        return;
      }
      ok := Acquire(WaitThread);
      if !ok {
        Release(ProbeCallback);
        Release(MeasurementTool);
        Release(RtThread);
        Release(LoadedNodes);
        Release(EngineMemory);
      }
    }

    // The end of destroy, after its join.
    method ReleaseAll()
      requires held == ALLOCATED + {ProbeCallback}
      modifies this
      ensures held == {}
    {
      Release(ProbeCallback);
      Release(MeasurementTool);
      Release(WaitThread);
      Release(RtThread);
      Release(LoadedNodes);
      Release(EngineMemory);
    }
  }

  // Creation fails exactly on an unusable configuration or a refused allocation, and then holds nothing.
  method CreateEngine(c: EngineConfig, p: Platform) returns (e: Engine?)
    requires p.held == {}
    requires forall n :: n in c.nodes ==> n.origin.External?
    modifies p
    ensures e != null <==>
      && c.runtime && c.commandQueue && !c.rtInherit.OtherSched? && !c.waitInherit.OtherSched?
      && p.grants(EngineMemory) && p.grants(LoadedNodes) && p.grants(MeasurementTool)
      && p.grants(RtThread) && p.grants(WaitThread)
    ensures p.held == if e != null then ALLOCATED + {ProbeCallback} else {}
    ensures e != null ==> fresh(e) && e.Valid() && Sound(e.settings, e.Control())
    ensures e != null && c.defaultBudget > 0 ==> e.budget > 0
    ensures e != null ==> e.settings == c.settings && e.publisher.outputs == c.outputs
    ensures e != null ==> e.table.slots.Length == c.capacity && Subscriptions.Abs(e.table.State()) == map[]
    ensures e != null ==> e.modules.Now() == Registry.State([], {}, 0, c.nodes) && e.writer.log == []
    ensures e != null ==> !e.stopRequested && !e.paused && e.period == c.period
    ensures e != null ==> e.Loop(0) == RtLoop.Loop(e.Control(), 0, Telemetry.Ledger(0, 0, 0, 0, []), 0, 0)
  {
    if !Usable(c) {
      return null;
    }
    var ok := p.AcquireAll();
    if !ok {
      return null;
    }
    e := new Engine(c);
  }
}
