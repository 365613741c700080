/** Commands and the function that dispatches one of them. A command carries, beside what the client
    sent, the answers the runtime, the loader and the allocator give while it is handled. */
module Commands {
  import opened BitMask
  import opened CStrings
  import opened Descriptors
  import opened Options
  import Subscriptions
  import Registry
  import Results

  datatype Command =
    | NoCommand
    | Global(code: nat)
    | RequestPortValues(nodeId: nat, mask: bv64, send: bool)
    | RequestPortVariables(nodeId: nat, mask: bv64, send: bool)
    | LoadNode(number: nat, nodeType: NodeType, path: Text,
               file: Registry.ModuleFile, memory: bool, stored: bool)
    | AddNode(number: nat, nodeType: NodeType, name: Text,
              created: bool, inserted: bool, newId: nat)
    | RemoveNode(number: nat, nodeId: nat)
    | SetRuntimePeriod(period: nat, taken: bool)
    | RequestRuntimeNodes(number: nat, states: map<nat, Results.RunState>, connections: seq<Results.Connection>)
    | Forwarded(taken: bool)  // plugin update, connections, parameters, priority, tolerance
    | Unknown

  const GLOBAL_NONE := 0
  const GLOBAL_STOP := 1
  const GLOBAL_PAUSE := 2
  const GLOBAL_RESUME := 3

  datatype Settings = Settings(limits: Results.Limits, results: Results.ResultQueue)

  // Everything commands can change.
  datatype Control = Control(stop: bool, paused: bool, slots: seq<Subscriptions.Slot>, modules: Registry.State,
                             period: nat, results: seq<Results.ResultAttempt>)

  // The code as the one-byte enumeration it is cast to.
  function Narrowed(code: nat): nat {
    code % 0x100
  }

  predicate IsGlobal(cmd: Command, command: nat) {
    cmd.Global? && Narrowed(cmd.code) == command
  }

  predicate IsStop(cmd: Command) {
    IsGlobal(cmd, GLOBAL_STOP)
  }

  function GlobalCommand(c: Control, code: nat): (r: (Control, bool))
    ensures r.0 == c.(stop := r.0.stop, paused := r.0.paused)
  {
    var command := Narrowed(code);
    if command == GLOBAL_NONE then (c, true)
    else if command == GLOBAL_STOP then (c.(stop := true), true)
    else if command == GLOBAL_PAUSE then (c.(paused := true), true)
    else if command == GLOBAL_RESUME then (c.(paused := false), true)
    else (c, false)
  }

  predicate IsSubscription(cmd: Command) {
    cmd.RequestPortValues? || cmd.RequestPortVariables?
  }

  function RequestOf(cmd: Command): Subscriptions.Request
    requires IsSubscription(cmd)
  {
    Subscriptions.Request(cmd.nodeId, BitSet(cmd.mask), cmd.send, cmd.RequestPortVariables?)
  }

  function Outcome(kind: Results.CommandKind, number: nat, ok: bool, nodeId: nat,
                   node: DescriptorCopy): Results.Result {
    Results.Result(number, kind, ok, if ok then 0 else 1, nodeId, node, Results.NO_ENDPOINTS)
  }

  function Reply(st: Settings, c: Control, m: Results.Result): Control {
    c.(results := Results.PushResult(st.results, c.results, m).0)
  }

  function Load(st: Settings, c: Control, cmd: Command): (r: (Control, bool))
    requires cmd.LoadNode?
    ensures r.0 == c.(modules := r.0.modules, results := r.0.results)
  {
    if !IsValidType(cmd.nodeType) || cmd.path == "" then (c, false)
    else
      var (modules, d) := Registry.Load(c.modules, cmd.file, cmd.nodeType, cmd.memory, cmd.stored);
      var copied := if d.Some? then Copy(st.limits.room, d.value) else NO_COPY;
      (Reply(st, c.(modules := modules), Outcome(Results.LoadKind, cmd.number, d.Some?, 0, copied)), d.Some?)
  }

  function Add(st: Settings, c: Control, cmd: Command): (r: (Control, bool))
    requires cmd.AddNode?
    ensures r.0 == c.(modules := r.0.modules, results := r.0.results)
    ensures r.0.modules.loaded == c.modules.loaded
  {
    if !IsValidType(cmd.nodeType) || cmd.name == "" then (c, false)
    else
      var (modules, n) := Registry.AddAs(c.modules, cmd.name, cmd.nodeType, cmd.created, cmd.inserted, cmd.newId);
      var entry := Registry.Get(modules.loaded, cmd.name);
      var copied := if entry.Some? then Copy(st.limits.room, entry.value.descriptor) else NO_COPY;
      var nodeId := if n.Some? then n.value.id else st.limits.invalidId;
      (Reply(st, c.(modules := modules), Outcome(Results.AddKind, cmd.number, n.Some?, nodeId, copied)), n.Some?)
  }

  function Remove(st: Settings, c: Control, cmd: Command): (r: (Control, bool))
    requires cmd.RemoveNode?
    ensures r.0 == c.(modules := r.0.modules, results := r.0.results)
    ensures r.0.modules.loaded == c.modules.loaded
  {
    if cmd.nodeId == st.limits.invalidId then (c, false)
    else
      var (modules, removed) := Registry.Remove(c.modules, cmd.nodeId);
      var answer := Outcome(Results.RemoveKind, cmd.number, removed, cmd.nodeId, NO_COPY);
      (Reply(st, c.(modules := modules), answer), removed)
  }

  function Snapshot(st: Settings, c: Control, cmd: Command): (r: (Control, bool))
    requires cmd.RequestRuntimeNodes?
    ensures r.0 == c.(results := r.0.results)
  {
    var (log, ok) := Results.PushAll(st.results, c.results,
      Results.Block(st.limits, cmd.number, c.modules.loaded, cmd.states, c.modules.nodes, cmd.connections));
    (c.(results := log), ok)
  }

  function Dispatch(st: Settings, c: Control, cmd: Command): (Control, bool) {
    match cmd
    case NoCommand => (c, true)
    case Global(code) => GlobalCommand(c, code)
    case RequestPortValues(_, _, _) =>
      var (slots, ok) := Subscriptions.UpdateSlots(c.slots, st.limits.invalidId, RequestOf(cmd));
      (c.(slots := slots), ok)
    case RequestPortVariables(_, _, _) =>
      var (slots, ok) := Subscriptions.UpdateSlots(c.slots, st.limits.invalidId, RequestOf(cmd));
      (c.(slots := slots), ok)
    case LoadNode(_, _, _, _, _, _) => Load(st, c, cmd)
    case AddNode(_, _, _, _, _, _) => Add(st, c, cmd)
    case RemoveNode(_, _) => Remove(st, c, cmd)
    case SetRuntimePeriod(period, taken) => (if taken then c.(period := period) else c, taken)
    case RequestRuntimeNodes(_, _, _) => Snapshot(st, c, cmd)
    case Forwarded(taken) => (c, taken)
    case Unknown => (c, false)
  }

  // The commands one after the other.
  function Fold(st: Settings, c: Control, cmds: seq<Command>): Control {
    if cmds == [] then c else Dispatch(st, Fold(st, c, cmds[..|cmds| - 1]), cmds[|cmds| - 1]).0
  }

  lemma {:induction false} FoldConcat(st: Settings, c: Control, a: seq<Command>, b: seq<Command>)
    ensures Fold(st, c, a + b) == Fold(st, Fold(st, c, a), b)
  {
    if b == [] {
      assert a + b == a;
    } else {
      assert (a + b)[..|a + b| - 1] == a + b[..|b| - 1];
      FoldConcat(st, c, a, b[..|b| - 1]);
    }
  }

  // ---------- What every command keeps ----------

  ghost predicate Sound(st: Settings, c: Control) {
    Subscriptions.WellFormed(c.slots, st.limits.invalidId) && Registry.Valid(c.modules)
  }

  lemma DispatchKeepsSound(st: Settings, c: Control, cmd: Command)
    requires Sound(st, c)
    ensures Sound(st, Dispatch(st, c, cmd).0)
    ensures |Dispatch(st, c, cmd).0.slots| == |c.slots|
  {
    match cmd
    case RequestPortValues(_, _, _) => Subscriptions.UpdateRefinesMap(c.slots, st.limits.invalidId, RequestOf(cmd));
    case RequestPortVariables(_, _, _) => Subscriptions.UpdateRefinesMap(c.slots, st.limits.invalidId, RequestOf(cmd));
    case LoadNode(_, nodeType, _, file, memory, stored) =>
      Registry.LoadKeepsValid(c.modules, file, nodeType, memory, stored);
    case AddNode(_, _, name, created, inserted, newId) =>
      Registry.AddKeepsValid(c.modules, name, created, inserted, newId);
    case RemoveNode(_, nodeId) => Registry.RemoveKeepsValid(c.modules, nodeId);
    case _ =>
  }

  // Over every run: unique live subscriptions, and every engine-built node on a live, registered loader.
  lemma {:induction false} FoldKeepsSound(st: Settings, c: Control, cmds: seq<Command>)
    requires Sound(st, c)
    ensures Sound(st, Fold(st, c, cmds)) && |Fold(st, c, cmds).slots| == |c.slots|
  {
    if cmds != [] {
      FoldKeepsSound(st, c, cmds[..|cmds| - 1]);
      DispatchKeepsSound(st, Fold(st, c, cmds[..|cmds| - 1]), cmds[|cmds| - 1]);
    }
  }

  // ---------- The subscription map over a run ----------

  function FoldMap(m: map<nat, Subscriptions.Entry>, capacity: nat, invalidId: nat, cmds: seq<Command>)
    : map<nat, Subscriptions.Entry>
  {
    if cmds == [] then m
    else
      var front, last := FoldMap(m, capacity, invalidId, cmds[..|cmds| - 1]), cmds[|cmds| - 1];
      if IsSubscription(last) then Subscriptions.UpdateMap(front, capacity, invalidId, RequestOf(last)).0 else front
  }

  lemma DispatchRefinesMap(st: Settings, c: Control, cmd: Command)
    requires Sound(st, c)
    ensures var slots := Dispatch(st, c, cmd).0.slots;
      && |slots| == |c.slots|
      && Subscriptions.Abs(slots)
           == FoldMap(Subscriptions.Abs(c.slots), |c.slots|, st.limits.invalidId, [cmd])
  {
    assert [cmd][..0] == [];
    if IsSubscription(cmd) {
      Subscriptions.UpdateRefinesMap(c.slots, st.limits.invalidId, RequestOf(cmd));
    } else {
      assert Dispatch(st, c, cmd).0.slots == c.slots;
    }
  }

  // For every command sequence the slot array stands for the map that set union and difference give.
  lemma {:induction false} TableRefinesMap(st: Settings, c: Control, cmds: seq<Command>)
    requires Sound(st, c)
    ensures Subscriptions.Abs(Fold(st, c, cmds).slots)
         == FoldMap(Subscriptions.Abs(c.slots), |c.slots|, st.limits.invalidId, cmds)
  {
    if cmds != [] {
      var front, last := cmds[..|cmds| - 1], cmds[|cmds| - 1];
      TableRefinesMap(st, c, front);
      FoldKeepsSound(st, c, front);
      DispatchRefinesMap(st, Fold(st, c, front), last);
      assert [last][..0] == [];
    }
  }

  // ---------- Last writer wins ----------

  // One bit of one node's ports or variables.
  datatype Place = Place(nodeId: nat, variables: bool, bit: nat)

  function Part(e: Subscriptions.Entry, variables: bool): set<nat> {
    if variables then e.variables else e.ports
  }

  predicate Subscribed(m: map<nat, Subscriptions.Entry>, p: Place) {
    p.nodeId in m && p.bit in Part(m[p.nodeId], p.variables)
  }

  predicate Covers(cmd: Command, p: Place) {
    match cmd
    case RequestPortValues(nodeId, mask, _) =>
      nodeId == p.nodeId && !p.variables && p.bit < 64 && Has(mask, p.bit)
    case RequestPortVariables(nodeId, mask, _) =>
      nodeId == p.nodeId && p.variables && p.bit < 64 && Has(mask, p.bit)
    case _ => false
  }

  // Whether the last accepted command covering the place was a subscribe.
  function LastWriter(st: Settings, c: Control, cmds: seq<Command>, p: Place): bool {
    if cmds == [] then Subscribed(Subscriptions.Abs(c.slots), p)
    else
      var front, last := cmds[..|cmds| - 1], cmds[|cmds| - 1];
      if Covers(last, p) && Dispatch(st, Fold(st, c, front), last).1 then last.send
      else LastWriter(st, c, front, p)
  }

  lemma PartsAfter(e: Subscriptions.Entry, bits: set<nat>, variables: bool, part: bool)
    ensures Part(Subscriptions.Widen(e, bits, variables), part)
         == Part(e, part) + if part == variables then bits else {}
    ensures Part(Subscriptions.Narrow(e, bits, variables), part)
         == Part(e, part) - if part == variables then bits else {}
    ensures Part(Subscriptions.NOTHING, part) == {}
  {
  }

  // A subscribe puts the widened entry at its node and touches no other.
  lemma SubscribeAt(m: map<nat, Subscriptions.Entry>, id: nat, e: Subscriptions.Entry, bits: set<nat>,
                    variables: bool, p: Place)
    requires e == if id in m then m[id] else Subscriptions.NOTHING
    ensures Subscribed(m[id := Subscriptions.Widen(e, bits, variables)], p) <==>
      Subscribed(m, p) || (id == p.nodeId && variables == p.variables && p.bit in bits)
  {
    PartsAfter(e, bits, variables, p.variables);
  }

  // An unsubscribe narrows the entry or, with nothing left, removes it.
  lemma UnsubscribeAt(m: map<nat, Subscriptions.Entry>, id: nat, bits: set<nat>, variables: bool, p: Place)
    requires id in m
    ensures var e := Subscriptions.Narrow(m[id], bits, variables);
      var m' := if e == Subscriptions.NOTHING then m - {id} else m[id := e];
      Subscribed(m', p) <==> Subscribed(m, p) && !(id == p.nodeId && variables == p.variables && p.bit in bits)
  {
    var part, e := Part(m[id], p.variables), Subscriptions.Narrow(m[id], bits, variables);
    PartsAfter(m[id], bits, variables, p.variables);
    assert p.bit in Part(e, p.variables) <==> p.bit in part && !(variables == p.variables && p.bit in bits);
    if e == Subscriptions.NOTHING {
      assert p.bit !in Part(e, p.variables);
      assert id !in m - {id};
    }
  }

  lemma UpdateMapAt(m: map<nat, Subscriptions.Entry>, capacity: nat, invalidId: nat, rq: Subscriptions.Request,
                    p: Place)
    ensures var (m', ok) := Subscriptions.UpdateMap(m, capacity, invalidId, rq);
      Subscribed(m', p) <==>
        if ok && rq.nodeId == p.nodeId && rq.variables == p.variables && p.bit in rq.bits then rq.send
        else Subscribed(m, p)
  {
    if rq.send {
      var e := if rq.nodeId in m then m[rq.nodeId] else Subscriptions.NOTHING;
      SubscribeAt(m, rq.nodeId, e, rq.bits, rq.variables, p);
    } else if rq.nodeId in m {
      UnsubscribeAt(m, rq.nodeId, rq.bits, rq.variables, p);
    }
  }

  // What one command does to one bit.
  lemma DispatchAt(st: Settings, c: Control, cmd: Command, p: Place)
    requires Sound(st, c)
    ensures var (c', ok) := Dispatch(st, c, cmd);
      Subscribed(Subscriptions.Abs(c'.slots), p) <==>
        if Covers(cmd, p) && ok then cmd.send else Subscribed(Subscriptions.Abs(c.slots), p)
  {
    if IsSubscription(cmd) {
      Subscriptions.UpdateRefinesMap(c.slots, st.limits.invalidId, RequestOf(cmd));
      UpdateMapAt(Subscriptions.Abs(c.slots), |c.slots|, st.limits.invalidId, RequestOf(cmd), p);
    } else {
      assert Dispatch(st, c, cmd).0.slots == c.slots;
    }
  }

  // A bit is subscribed exactly when the last accepted command that covers it was a subscribe,
  // whatever happened in between to slots, to other nodes, or to the loaded modules.
  lemma {:induction false} LastWriterWins(st: Settings, c: Control, cmds: seq<Command>, p: Place)
    requires Sound(st, c)
    ensures Subscribed(Subscriptions.Abs(Fold(st, c, cmds).slots), p) <==> LastWriter(st, c, cmds, p)
  {
    if cmds != [] {
      var front, last := cmds[..|cmds| - 1], cmds[|cmds| - 1];
      LastWriterWins(st, c, front, p);
      FoldKeepsSound(st, c, front);
      DispatchAt(st, Fold(st, c, front), last, p);
    }
  }

  // ---------- The registry over a run ----------

  function DescriptorAt(m: Registry.State, name: Text): Option<Descriptor> {
    var entry := Registry.Get(m.loaded, name);
    if entry.Some? then Some(entry.value.descriptor) else None
  }

  // A load that gets as far as replacing the module of this name.
  predicate Loads(cmd: Command, name: Text) {
    && cmd.LoadNode? && (cmd.nodeType == PluginType || cmd.nodeType == DeviceType) && cmd.path != ""
    && cmd.file.Module? && cmd.file.descriptor.nodeType == cmd.nodeType && cmd.memory
    && cmd.file.descriptor.name == name
  }

  // The module the last such load left: the one it brought, or none if that could not be stored.
  function LastLoaded(initially: Option<Descriptor>, cmds: seq<Command>, name: Text): Option<Descriptor> {
    if cmds == [] then initially
    else
      var last := cmds[|cmds| - 1];
      if Loads(last, name) then (if last.stored then Some(last.file.descriptor) else None)
      else LastLoaded(initially, cmds[..|cmds| - 1], name)
  }

  lemma LoadRegisters(st: Settings, c: Control, cmd: Command, name: Text)
    requires Sound(st, c) && cmd.LoadNode?
    ensures DescriptorAt(Load(st, c, cmd).0.modules, name)
         == if !Loads(cmd, name) then DescriptorAt(c.modules, name)
            else if cmd.stored then Some(cmd.file.descriptor) else None
  {
    Registry.LoadUpdatesOneName(c.modules, cmd.file, cmd.nodeType, cmd.memory, cmd.stored, name);
  }

  lemma OthersKeepLoaded(st: Settings, c: Control, cmd: Command)
    requires !cmd.LoadNode?
    ensures Dispatch(st, c, cmd).0.modules.loaded == c.modules.loaded
  {
    match cmd
    case AddNode(_, _, _, _, _, _) =>
    case RemoveNode(_, _) =>
    case _ =>
  }

  lemma DispatchRegisters(st: Settings, c: Control, cmd: Command, name: Text)
    requires Sound(st, c)
    ensures DescriptorAt(Dispatch(st, c, cmd).0.modules, name)
         == if !Loads(cmd, name) then DescriptorAt(c.modules, name)
            else if cmd.stored then Some(cmd.file.descriptor) else None
  {
    if cmd.LoadNode? { LoadRegisters(st, c, cmd, name); } else { OthersKeepLoaded(st, c, cmd); }
  }

  // Which module stands under a name is decided by the last acceptable load of that name alone.
  lemma {:induction false} LastLoadWins(st: Settings, c: Control, cmds: seq<Command>, name: Text)
    requires Sound(st, c)
    ensures DescriptorAt(Fold(st, c, cmds).modules, name) == LastLoaded(DescriptorAt(c.modules, name), cmds, name)
  {
    if cmds != [] {
      var front, last := cmds[..|cmds| - 1], cmds[|cmds| - 1];
      LastLoadWins(st, c, front, name);
      FoldKeepsSound(st, c, front);
      DispatchRegisters(st, Fold(st, c, front), last, name);
    }
  }

  // ---------- One result per command ----------

  predicate Answered(st: Settings, cmd: Command) {
    match cmd
    case LoadNode(_, nodeType, path, _, _, _) => (nodeType == PluginType || nodeType == DeviceType) && path != ""
    case AddNode(_, nodeType, name, _, _, _) => (nodeType == PluginType || nodeType == DeviceType) && name != ""
    case RemoveNode(_, nodeId) => nodeId != st.limits.invalidId
    case _ => false
  }

  ghost predicate Kinds(cmd: Command, kind: Results.CommandKind) {
    && (cmd.LoadNode? <==> kind == Results.LoadKind)
    && (cmd.AddNode? <==> kind == Results.AddKind)
    && (cmd.RemoveNode? <==> kind == Results.RemoveKind)
  }

  // A well-formed load, add or remove is answered once, under its own number and kind, with its own
  // outcome; no other command but a snapshot request is answered at all, and nothing without a queue.
  lemma OneResultPerCommand(st: Settings, c: Control, cmd: Command)
    requires !cmd.RequestRuntimeNodes?
    ensures var (c', ok) := Dispatch(st, c, cmd);
      if Answered(st, cmd) && st.results.present then
        && |c'.results| == |c.results| + 1 && c.results <= c'.results
        && c'.results[|c.results|].accepted == st.results.accepts(|c.results|)
        && var r := c'.results[|c.results|].result;
        && r.number == cmd.number && Kinds(cmd, r.command) && r.ok == ok && r.code == (if ok then 0 else 1)
        && r.connection == Results.Endpoints(0, 0, 0, 0, 0, 0)
      else
        && c'.results == c.results
        && ((cmd.LoadNode? || cmd.AddNode? || cmd.RemoveNode?) && !Answered(st, cmd) ==> !ok && c' == c)
  {
  }

  // What a global command does is told by the low byte of its code: nothing, stop, pause, resume; any
  // other is refused.
  lemma GlobalAnswer(st: Settings, c: Control, code: nat)
    ensures var (c', ok) := Dispatch(st, c, Global(code));
      && (ok <==> code % 256 < 4)
      && c' == match code % 256 {
           case 1 => c.(stop := true)
           case 2 => c.(paused := true)
           case 3 => c.(paused := false)
           case _ => c
         }
  {
  }

  // A subscription command is refused, changing nothing, exactly when the node id is invalid, the mask is
  // zero, or a subscribe finds no entry of the node and as many entries as slots.
  lemma SubscriptionAnswer(st: Settings, c: Control, cmd: Command)
    requires Sound(st, c) && IsSubscription(cmd)
    ensures var (c', ok) := Dispatch(st, c, cmd);
      var m := Subscriptions.Abs(c.slots);
      var full := cmd.send && cmd.nodeId !in m && |m| == |c.slots|;
      && (ok <==> cmd.nodeId != st.limits.invalidId && cmd.mask != 0 && !full)
      && (!ok ==> c' == c)
  {
    ZeroIsEmpty(cmd.mask);
    if cmd.nodeId != st.limits.invalidId && cmd.mask != 0 {
      Subscriptions.RefusedIffFull(c.slots, st.limits.invalidId, RequestOf(cmd));
    }
  }

  // The commands without a handler of their own: nothing to do, an unknown type, and those that only hand
  // something to the runtime.
  lemma OtherAnswers(st: Settings, c: Control, period: nat, taken: bool)
    ensures Dispatch(st, c, NoCommand) == (c, true)
    ensures Dispatch(st, c, Unknown) == (c, false)
    ensures Dispatch(st, c, Forwarded(taken)) == (c, taken)
    ensures Dispatch(st, c, SetRuntimePeriod(period, taken)).1 == taken
    ensures var c' := Dispatch(st, c, SetRuntimePeriod(period, taken)).0;
      c' == c.(period := c'.period)
  {
  }

  // The answer to a load carries the descriptor now registered under the module's own name, and no
  // descriptor when the load failed.
  lemma LoadAnswer(st: Settings, c: Control, cmd: Command)
    requires st.results.present && Sound(st, c) && Answered(st, cmd) && cmd.LoadNode?
    ensures var (c', ok) := Load(st, c, cmd);
      && |c'.results| == |c.results| + 1
      && (ok <==> cmd.file.Module? && Loads(cmd, cmd.file.descriptor.name) && cmd.stored)
      && c'.results[|c.results|].result.nodeId == 0
      && (!ok ==> c'.results[|c.results|].result.node == NO_COPY)
      && (ok ==> var d := cmd.file.descriptor;
      && Registry.Get(c'.modules.loaded, d.name) == Some(Registry.LoadedNode(c.modules.nextLoader, d))
      && d.nodeType == cmd.nodeType
      && c'.results[|c.results|].result.node == Copy(st.limits.room, d))
  {
    if cmd.file.Module? {
      var name := cmd.file.descriptor.name;
      Registry.LoadUpdatesOneName(c.modules, cmd.file, cmd.nodeType, cmd.memory, cmd.stored, name);
    }
  }

  // The answer to an add carries the id and the name of a node now in the runtime, and a copy of the
  // live descriptor that node stands on; a failed add carries the invalid id and still a copy of the
  // module of that name, if there is one.
  lemma AddAnswer(st: Settings, c: Control, cmd: Command)
    requires st.results.present && Sound(st, c) && Answered(st, cmd) && cmd.AddNode?
    ensures var (c', ok) := Add(st, c, cmd);
      && |c'.results| == |c.results| + 1
      && var r := c'.results[|c.results|].result;
      && (ok <==> Registry.LoadedAs(c.modules, cmd.name, cmd.nodeType) && cmd.created && cmd.inserted)
      && (!ok ==> r.nodeId == st.limits.invalidId && c'.modules == c.modules)
      && (forall d :: DescriptorAt(c.modules, cmd.name) == Some(d) ==> r.node == Copy(st.limits.room, d))
      && (DescriptorAt(c.modules, cmd.name) == None ==> r.node == NO_COPY)
      && (ok ==> exists n, d ::
            && n in c'.modules.nodes && n.id == r.nodeId && n.name == cmd.name && n.origin.FromLoader?
            && Registry.LoadedNode(n.origin.loader, d) in c'.modules.loaded
            && d.name == cmd.name && d.nodeType == cmd.nodeType && r.node == Copy(st.limits.room, d))
  {
    Registry.AddAsSucceedsIff(c.modules, cmd.name, cmd.nodeType, cmd.created, cmd.inserted, cmd.newId);
    var k := Registry.Find(c.modules.loaded, cmd.name);
    if Add(st, c, cmd).1 {
      var e := c.modules.loaded[k];
      var n := Registry.Node(cmd.newId, cmd.name, Registry.FromLoader(e.loader));
      assert n in Add(st, c, cmd).0.modules.nodes;
      assert Registry.LoadedNode(n.origin.loader, e.descriptor) in c.modules.loaded;
    }
  }

  // The answer to a remove says whether the runtime had the node; afterwards it has none of that id.
  lemma RemoveAnswer(st: Settings, c: Control, cmd: Command)
    requires st.results.present && Answered(st, cmd) && cmd.RemoveNode?
    ensures var (c', ok) := Remove(st, c, cmd);
      && |c'.results| == |c.results| + 1
      && c'.results[|c.results|].result.nodeId == cmd.nodeId
      && c'.results[|c.results|].result.node == NO_COPY
      && (ok <==> exists n :: n in c.modules.nodes && n.id == cmd.nodeId)
      && (forall n :: n in c'.modules.nodes <==> n in c.modules.nodes && n.id != cmd.nodeId)
  {
    assert forall n :: n in Remove(st, c, cmd).0.modules.nodes <==> n in c.modules.nodes && n.id != cmd.nodeId;
  }

  // ---------- Graphs built through the engine ----------

  ghost predicate BuiltHere(c: Control) {
    forall n :: n in c.modules.nodes ==> n.origin.FromLoader?
  }

  lemma DispatchBuildsHere(st: Settings, c: Control, cmd: Command)
    requires BuiltHere(c)
    ensures BuiltHere(Dispatch(st, c, cmd).0)
  {
  }

  lemma {:induction false} FoldBuildsHere(st: Settings, c: Control, cmds: seq<Command>)
    requires BuiltHere(c)
    ensures BuiltHere(Fold(st, c, cmds))
  {
    if cmds != [] {
      FoldBuildsHere(st, c, cmds[..|cmds| - 1]);
      DispatchBuildsHere(st, Fold(st, c, cmds[..|cmds| - 1]), cmds[|cmds| - 1]);
    }
  }

  // At every point of every run, a node the engine built stands on a loader that has not been
  // destroyed and that is the one registered under the node's name.
  lemma DescriptorsOutliveNodes(st: Settings, c: Control, cmds: seq<Command>, n: Registry.Node)
    requires Sound(st, c)
    requires n in Fold(st, c, cmds).modules.nodes && n.origin.FromLoader?
    ensures var m := Fold(st, c, cmds).modules;
      && n.origin.loader in m.live
      && Registry.Get(m.loaded, n.name).Some?
      && Registry.Get(m.loaded, n.name).value.loader == n.origin.loader
  {
    FoldKeepsSound(st, c, cmds);
    Registry.BackedNodeIsFound(Fold(st, c, cmds).modules, n);
  }

  // After any run from an empty runtime, a snapshot describes every node.
  lemma SnapshotSkipsNoNode(st: Settings, c: Control, cmds: seq<Command>, states: map<nat, Results.RunState>)
    requires Sound(st, c) && c.modules.nodes == []
    ensures var m := Fold(st, c, cmds).modules;
      && var d := Results.Described(st.limits, m.loaded, states, m.nodes);
      && |d| == |m.nodes|
      && forall i :: 0 <= i < |d| ==> d[i].id == m.nodes[i].id
  {
    FoldKeepsSound(st, c, cmds);
    FoldBuildsHere(st, c, cmds);
    var m := Fold(st, c, cmds).modules;
    var d := Results.Described(st.limits, m.loaded, states, m.nodes);
    if m.nodes != [] { Results.EngineGraphIsComplete(m, st.limits, states, 0); }
    forall i | 0 <= i < |d| ensures d[i].id == m.nodes[i].id {
      Results.EngineGraphIsComplete(m, st.limits, states, i);
    }
  }

  // The runtime gives no new node this id.
  ghost predicate NeverGiven(cmds: seq<Command>, id: nat) {
    forall i :: 0 <= i < |cmds| && cmds[i].AddNode? ==> cmds[i].newId != id
  }

  lemma DispatchKeepsAbsent(st: Settings, c: Control, cmd: Command, id: nat)
    requires Results.Absent(c.modules.nodes, id) && (cmd.AddNode? ==> cmd.newId != id)
    ensures Results.Absent(Dispatch(st, c, cmd).0.modules.nodes, id)
  {
    match cmd
    case LoadNode(_, _, _, _, _, _) =>
    case AddNode(_, _, _, _, _, _) =>
    case RemoveNode(_, _) =>
    case _ =>
  }

  lemma {:induction false} FoldKeepsAbsent(st: Settings, c: Control, cmds: seq<Command>, id: nat)
    requires Results.Absent(c.modules.nodes, id) && NeverGiven(cmds, id)
    ensures Results.Absent(Fold(st, c, cmds).modules.nodes, id)
  {
    if cmds != [] {
      var front, last := cmds[..|cmds| - 1], cmds[|cmds| - 1];
      assert forall i :: 0 <= i < |front| ==> front[i] == cmds[i];
      FoldKeepsAbsent(st, c, front, id);
      DispatchKeepsAbsent(st, Fold(st, c, front), last, id);
    }
  }

  // What a request for the runtime's nodes comes to.
  ghost predicate Answers(st: Settings, before: Control, request: Command, after: Control, ok: bool)
    requires request.RequestRuntimeNodes?
  {
    var m, n := before.modules, |before.results|;
    var whole := Results.Snapshot(st.limits, m.loaded, request.states, m.nodes, request.connections);
    && after == before.(results := after.results) && before.results <= after.results
    && (ok <==> Results.Decode(st.limits, Results.Received(after.results[n..])) == Some(whole))
    && (ok <==> Results.Takes(st.results, n, Results.Size(whole) + 1))
    && Results.Tells(st.limits, m.loaded, request.states, m.nodes, request.connections, whole)
  }

  lemma SnapshotNow(st: Settings, before: Control, request: Command)
    requires Results.ValidIds(st.limits, before.modules.nodes)
    requires request.RequestRuntimeNodes? && st.limits.lastCode != 0
    ensures Answers(st, before, request, Snapshot(st, before, request).0, Snapshot(st, before, request).1)
  {
    var m := before.modules;
    Results.BlockSize(st.limits, request.number, m.loaded, request.states, m.nodes, request.connections);
    Results.SnapshotDecodes(st.limits, st.results, before.results, request.number, m.loaded, request.states,
                            m.nodes, request.connections);
    Results.SnapshotTells(st.limits, m.loaded, request.states, m.nodes, request.connections);
  }

  // The round trip over whole runs: after any commands, a request for the runtime's nodes changes
  // nothing but the results, and the client reads the whole graph from what it adds to them exactly
  // when the request succeeds, which is when the queue takes every message; and that graph tells of every
  // node and connection what the runtime and the modules say.
  lemma SnapshotAfterRun(st: Settings, c: Control, cmds: seq<Command>, request: Command)
    requires Results.ValidIds(st.limits, c.modules.nodes) && NeverGiven(cmds, st.limits.invalidId)
    requires request.RequestRuntimeNodes? && st.limits.lastCode != 0
    ensures var before := Fold(st, c, cmds);
      var (after, ok) := Dispatch(st, before, request);
      Answers(st, before, request, after, ok)
  {
    FoldKeepsAbsent(st, c, cmds, st.limits.invalidId);
    SnapshotNow(st, Fold(st, c, cmds), request);
    assert Dispatch(st, Fold(st, c, cmds), request) == Snapshot(st, Fold(st, c, cmds), request);
  }

  // What a client may conclude from the answer to a remove: until the runtime gives the id away again,
  // no block that arrives whole describes a node with it.
  lemma RemovedIsNotDescribed(st: Settings, c: Control, remove: Command, cmds: seq<Command>, request: Command)
    requires remove.RemoveNode? && Answered(st, remove) && NeverGiven(cmds, remove.nodeId)
    requires Results.ValidIds(st.limits, c.modules.nodes) && NeverGiven(cmds, st.limits.invalidId)
    requires request.RequestRuntimeNodes? && st.limits.lastCode != 0
    ensures var before := Fold(st, Dispatch(st, c, remove).0, cmds);
      var (after, ok) := Dispatch(st, before, request);
      var got := Results.Decode(st.limits, Results.Received(after.results[|before.results|..]));
      ok ==> got.Some? && forall i :: 0 <= i < |got.value.nodes| ==> got.value.nodes[i].id != remove.nodeId
  {
    var c' := Dispatch(st, c, remove).0;
    DispatchKeepsAbsent(st, c, remove, st.limits.invalidId);
    SnapshotAfterRun(st, c', cmds, request);
    FoldKeepsAbsent(st, c', cmds, remove.nodeId);
    var m := Fold(st, c', cmds).modules;
    Results.AbsentNotDescribed(st.limits, m.loaded, request.states, m.nodes, remove.nodeId);
  }

  // ---------- Stop and pause over a run ----------

  lemma DispatchStops(st: Settings, c: Control, cmd: Command)
    ensures Dispatch(st, c, cmd).0.stop <==> c.stop || IsStop(cmd)
  {
    match cmd
    case Global(code) =>
    case _ =>
  }

  lemma {:induction false} StopIsSticky(st: Settings, c: Control, cmds: seq<Command>)
    ensures Fold(st, c, cmds).stop <==> c.stop || exists i :: 0 <= i < |cmds| && IsStop(cmds[i])
  {
    if cmds != [] {
      var front, last := cmds[..|cmds| - 1], cmds[|cmds| - 1];
      StopIsSticky(st, c, front);
      DispatchStops(st, Fold(st, c, front), last);
      assert forall i :: 0 <= i < |front| ==> front[i] == cmds[i];
      assert IsStop(last) ==> IsStop(cmds[|cmds| - 1]);
    }
  }

  // Whether the last pause or resume among the commands is a pause; initially as given.
  function LastIsPause(initially: bool, cmds: seq<Command>): bool {
    if cmds == [] then initially
    else
      var last := cmds[|cmds| - 1];
      if IsGlobal(last, GLOBAL_PAUSE) then true
      else if IsGlobal(last, GLOBAL_RESUME) then false
      else LastIsPause(initially, cmds[..|cmds| - 1])
  }

  lemma {:induction false} PausedIsLastPause(st: Settings, c: Control, cmds: seq<Command>)
    ensures Fold(st, c, cmds).paused == LastIsPause(c.paused, cmds)
  {
    if cmds != [] { PausedIsLastPause(st, c, cmds[..|cmds| - 1]); }
  }

  // The last accepted change of period among the commands; initially as given.
  function LastPeriod(initially: nat, cmds: seq<Command>): nat {
    if cmds == [] then initially
    else
      var last := cmds[|cmds| - 1];
      if last.SetRuntimePeriod? && last.taken then last.period else LastPeriod(initially, cmds[..|cmds| - 1])
  }

  // The period is the one the last accepted change asked for.
  lemma {:induction false} LastPeriodWins(st: Settings, c: Control, cmds: seq<Command>)
    ensures Fold(st, c, cmds).period == LastPeriod(c.period, cmds)
  {
    if cmds != [] { LastPeriodWins(st, c, cmds[..|cmds| - 1]); }
  }

  // A refused change of period is no change.
  predicate KeepsPeriod(cmd: Command) {
    cmd.SetRuntimePeriod? ==> !cmd.taken
  }

  lemma {:induction false} PeriodKept(st: Settings, c: Control, cmds: seq<Command>)
    requires forall i :: 0 <= i < |cmds| ==> KeepsPeriod(cmds[i])
    ensures Fold(st, c, cmds).period == c.period
  {
    if cmds != [] { PeriodKept(st, c, cmds[..|cmds| - 1]); }
  }
}
