/** Start, stop, join and destroy as interleaved atomic steps of one controller, the real-time
    threads and the wait threads of every generation, over the engine's atomic flags. */
module Lifecycle {
  import Runs

  // A real-time thread about to load stop_requested, inside a cycle with so many commands it may still
  // dispatch, past its last engine access, gone.
  datatype RtPc = RtNone | RtCheck | RtCycle(commands: nat) | RtReturning | RtExited

  // A wait thread about to join, to store rt_joined, to store running, past its last engine access, gone.
  datatype WaitPc = WaitNone | WaitJoin | WaitMarkJoined | WaitClearRunning | WaitReturning | WaitExited

  // The steps of start: five resets, running, started, the real-time thread, the wait thread, and
  // what follows when either thread cannot be run.
  datatype StartPc =
    | ClearStop | ClearPaused | ClearRtJoined | ClearWaitJoined | SetRunning | SetStarted | RunRt
    | NoRtStarted | NoRtRunning
    | RunWait
    | NoWaitStop | NoWaitJoin | NoWaitRtJoined | NoWaitStarted | NoWaitRunning

  datatype JoinPc = LoadStarted | LoadWaitJoined | JoinWait | SetWaitJoined | ClearStarted

  datatype DestroyPc = RequestStopFirst | CheckStarted | CheckWaitJoined | Free

  // Where the controller is; inDestroy tells a join made by destroy from one made by the client.
  datatype Pc =
    | Idle
    | InStart(start: StartPc)
    | InJoin(join: JoinPc, inDestroy: bool)
    | InDestroy(destroy: DestroyPc)
    | Freed

  // What the last finished call returned.
  datatype Return = NoCall | Started | StartRefused | StartFailed | StopRequested | Joined | JoinRefused | JoinFailed

  datatype Flags = Flags(running: bool, started: bool, paused: bool, stop: bool, rtJoined: bool, waitJoined: bool)

  // The controller: launched tells whether the last start that passed its check returned true, and
  // joinFailed whether the join made by destroy failed.
  datatype Caller = Caller(pc: Pc, ret: Return, launched: bool, joinFailed: bool)

  datatype Threads = Threads(rt: RtPc, wait: WaitPc)

  // past holds the earlier generations, now is number |past|; each thread object remembers the
  // generation it last ran.
  datatype State = State(flags: Flags, caller: Caller, past: seq<Threads>, now: Threads, rtHandle: nat, waitHandle: nat)

  const INITIAL: State := State(Flags(false, false, false, false, false, false), Caller(Idle, NoCall, false, false),
                                [], Threads(RtNone, WaitNone), 0, 0)

  datatype Call = Start | RequestStop | Join | Destroy

  // A step of a real-time thread: it begins a cycle that will dispatch at most so many commands,
  // dispatches one, which may store to a flag, or ends the cycle.
  datatype CycleEvent = Begins(commands: nat) | Nothing | Stops | Pauses | Resumes | Ends

  datatype Action =
    | Invoke(call: Call)
    | Controller(succeeds: bool)   // the next atomic step; the answer of a thread call when it makes one
    | Rt(generation: nat, event: CycleEvent)
    | Wait(generation: nat)

  predicate RtPending(pc: RtPc) {
    pc == RtCheck || pc.RtCycle?
  }

  predicate WaitPending(pc: WaitPc) {
    pc == WaitJoin || pc == WaitMarkJoined || pc == WaitClearRunning
  }

  // Some thread of some generation may still touch the engine.
  ghost predicate Pending(s: State) {
    RtPending(s.now.rt) || WaitPending(s.now.wait)
    || exists g :: 0 <= g < |s.past| && (RtPending(s.past[g].rt) || WaitPending(s.past[g].wait))
  }

  // ---------- Steps ----------

  // destroy has stored its stop request.
  predicate Destroying(pc: Pc) {
    pc.Freed? || (pc.InDestroy? && pc.destroy != RequestStopFirst) || (pc.InJoin? && pc.inDestroy)
  }

  function ControllerRank(pc: Pc): nat {
    match pc
    case InDestroy(CheckStarted) => 8
    case InDestroy(CheckWaitJoined) => 7
    case InJoin(LoadStarted, _) => 6
    case InJoin(LoadWaitJoined, _) => 5
    case InJoin(JoinWait, _) => 4
    case InJoin(SetWaitJoined, _) => 3
    case InJoin(ClearStarted, _) => 2
    case InDestroy(Free) => 1
    case _ => 0
  }

  function Goto(s: State, flags: Flags, pc: Pc): State {
    s.(flags := flags, caller := s.caller.(pc := pc))
  }

  function Finish(s: State, flags: Flags, ret: Return): State {
    s.(flags := flags, caller := s.caller.(pc := Idle, ret := ret))
  }

  // Leaving join: destroy ignores its result.
  function LeaveJoin(s: State, flags: Flags, inDestroy: bool, ret: Return): State {
    if inDestroy then s.(flags := flags, caller := s.caller.(pc := InDestroy(Free), joinFailed := ret == JoinFailed))
    else Finish(s, flags, ret)
  }

  function Invoked(s: State, call: Call): (t: State)
    ensures s.flags.stop ==> t.flags.stop
  {
    match call
    case Start =>
      if s.flags.running then Finish(s, s.flags, StartRefused)
      else s.(caller := s.caller.(pc := InStart(ClearStop), launched := false), past := s.past + [s.now],
              now := Threads(RtNone, WaitNone))
    case RequestStop => Finish(s, s.flags.(stop := true), StopRequested)
    case Join => Goto(s, s.flags, InJoin(LoadStarted, false))
    case Destroy => Goto(s, s.flags, InDestroy(RequestStopFirst))
  }

  // A step that waits for a thread is enabled once the thread is gone; a join that fails returns at once.
  predicate ControllerEnabled(s: State, succeeds: bool) {
    && !s.caller.pc.Idle? && !s.caller.pc.Freed?
    && (s.caller.pc == InStart(NoWaitJoin) ==> At(s, s.rtHandle).rt == RtExited)
    && (s.caller.pc.InJoin? && s.caller.pc.join == JoinWait && succeeds ==> At(s, s.waitHandle).wait == WaitExited)
  }

  function StartStep(s: State, at: StartPc, succeeds: bool): (t: State)
    ensures t.past == s.past && (s.flags.stop && at != ClearStop ==> t.flags.stop)
  {
    var f := s.flags;
    match at
    case ClearStop => Goto(s, f.(stop := false), InStart(ClearPaused))
    case ClearPaused => Goto(s, f.(paused := false), InStart(ClearRtJoined))
    case ClearRtJoined => Goto(s, f.(rtJoined := false), InStart(ClearWaitJoined))
    case ClearWaitJoined => Goto(s, f.(waitJoined := false), InStart(SetRunning))
    case SetRunning => Goto(s, f.(running := true), InStart(SetStarted))
    case SetStarted => Goto(s, f.(started := true), InStart(RunRt))
    case RunRt =>
      if succeeds then Goto(s.(now := s.now.(rt := RtCheck), rtHandle := |s.past|), f, InStart(RunWait))
      else Goto(s, f, InStart(NoRtStarted))
    case NoRtStarted => Goto(s, f.(started := false), InStart(NoRtRunning))
    case NoRtRunning => Finish(s, f.(running := false), StartFailed)
    case RunWait =>
      if succeeds then
        s.(now := s.now.(wait := WaitJoin), waitHandle := |s.past|,
           caller := s.caller.(pc := Idle, ret := Started, launched := true))
      else Goto(s, f, InStart(NoWaitStop))
    case NoWaitStop => Goto(s, f.(stop := true), InStart(NoWaitJoin))
    case NoWaitJoin => Goto(s, f, InStart(NoWaitRtJoined))
    case NoWaitRtJoined => Goto(s, f.(rtJoined := true), InStart(NoWaitStarted))
    case NoWaitStarted => Goto(s, f.(started := false), InStart(NoWaitRunning))
    case NoWaitRunning => Finish(s, f.(running := false), StartFailed)
  }

  function JoinStep(s: State, at: JoinPc, inDestroy: bool, succeeds: bool): (t: State)
    ensures t.past == s.past && t.now == s.now && t.flags.stop == s.flags.stop
    ensures inDestroy ==> Destroying(t.caller.pc) && ControllerRank(t.caller.pc) < ControllerRank(InJoin(at, inDestroy))
  {
    var f := s.flags;
    match at
    case LoadStarted =>
      if f.started then Goto(s, f, InJoin(LoadWaitJoined, inDestroy)) else LeaveJoin(s, f, inDestroy, JoinRefused)
    case LoadWaitJoined =>
      if f.waitJoined then LeaveJoin(s, f, inDestroy, Joined) else Goto(s, f, InJoin(JoinWait, inDestroy))
    case JoinWait =>
      if succeeds then Goto(s, f, InJoin(SetWaitJoined, inDestroy)) else LeaveJoin(s, f, inDestroy, JoinFailed)
    case SetWaitJoined => Goto(s, f.(waitJoined := true), InJoin(ClearStarted, inDestroy))
    case ClearStarted => LeaveJoin(s, f.(started := false), inDestroy, Joined)
  }

  function DestroyStep(s: State, at: DestroyPc): (t: State)
    ensures t.past == s.past && t.now == s.now && (s.flags.stop ==> t.flags.stop)
    ensures Destroying(t.caller.pc)
    ensures at != RequestStopFirst ==> ControllerRank(t.caller.pc) < ControllerRank(InDestroy(at))
  {
    var f := s.flags;
    match at
    case RequestStopFirst => Goto(s, f.(stop := true), InDestroy(CheckStarted))
    case CheckStarted => Goto(s, f, InDestroy(if f.started then CheckWaitJoined else Free))
    case CheckWaitJoined => Goto(s, f, if f.waitJoined then InDestroy(Free) else InJoin(LoadStarted, true))
    case Free => Goto(s, f, Freed)
  }

  function ControllerStep(s: State, succeeds: bool): State {
    match s.caller.pc
    case InStart(at) => StartStep(s, at, succeeds)
    case InJoin(at, inDestroy) => JoinStep(s, at, inDestroy, succeeds)
    case InDestroy(at) => DestroyStep(s, at)
    case _ => s
  }

  function RtRank(rt: RtPc): nat {
    match rt
    case RtCycle(commands) => commands + 3
    case RtCheck => 2
    case RtReturning => 1
    case _ => 0
  }

  function WaitRank(wait: WaitPc): nat {
    match wait
    case WaitJoin => 4
    case WaitMarkJoined => 3
    case WaitClearRunning => 2
    case WaitReturning => 1
    case _ => 0
  }

  // What a thread does to the flags, whichever generation it belongs to.
  function RtFlags(f: Flags, rt: RtPc, e: CycleEvent): Flags {
    if !rt.RtCycle? || rt.commands == 0 then f
    else
      f.(stop := f.stop || e.Stops?,
         paused := if e.Pauses? then true else if e.Resumes? then false else f.paused)
  }

  function RtNext(f: Flags, rt: RtPc, e: CycleEvent): (next: RtPc)
    ensures f.stop && rt != RtNone && rt != RtExited ==> RtRank(next) < RtRank(rt)
  {
    match rt
    case RtCheck => if f.stop then RtReturning else RtCycle(if e.Begins? then e.commands else 0)
    case RtCycle(commands) =>
      if commands == 0 || e.Begins? || e.Ends? then RtCheck else RtCycle(commands - 1)
    case RtReturning => RtExited
    case _ => rt
  }

  function WaitFlags(f: Flags, wait: WaitPc): Flags {
    if wait == WaitMarkJoined then f.(rtJoined := true)
    else if wait == WaitClearRunning then f.(running := false)
    else f
  }

  function WaitNext(wait: WaitPc): (next: WaitPc)
    ensures wait != WaitNone && wait != WaitExited ==> WaitRank(next) < WaitRank(wait)
  {
    match wait
    case WaitJoin => WaitMarkJoined
    case WaitMarkJoined => WaitClearRunning
    case WaitClearRunning => WaitReturning
    case WaitReturning => WaitExited
    case _ => wait
  }

  // The threads of generation g replaced.
  function Put(s: State, g: nat, flags: Flags, t: Threads): State {
    if g < |s.past| then s.(flags := flags, past := s.past[g := t]) else s.(flags := flags, now := t)
  }

  function At(s: State, g: nat): Threads {
    if g < |s.past| then s.past[g] else s.now
  }

  function RtStep(s: State, g: nat, e: CycleEvent): State {
    var t := At(s, g);
    Put(s, g, RtFlags(s.flags, t.rt, e), t.(rt := RtNext(s.flags, t.rt, e)))
  }

  function WaitStep(s: State, g: nat): State {
    var t := At(s, g);
    Put(s, g, WaitFlags(s.flags, t.wait), t.(wait := WaitNext(t.wait)))
  }

  predicate RtEnabled(s: State, g: nat) {
    g <= |s.past| && At(s, g).rt != RtNone && At(s, g).rt != RtExited
  }

  predicate WaitEnabled(s: State, g: nat) {
    g <= |s.past| && At(s, g).wait != WaitNone && At(s, g).wait != WaitExited
      && (At(s, g).wait == WaitJoin ==> At(s, s.rtHandle).rt == RtExited)
  }

  predicate Enabled(s: State, a: Action) {
    match a
    case Invoke(_) => s.caller.pc == Idle
    case Controller(succeeds) => ControllerEnabled(s, succeeds)
    case Rt(g, _) => RtEnabled(s, g)
    case Wait(g) => WaitEnabled(s, g)
  }

  function Next(s: State, a: Action): State
    requires Enabled(s, a)
  {
    match a
    case Invoke(call) => Invoked(s, call)
    case Controller(succeeds) => ControllerStep(s, succeeds)
    case Rt(g, e) => RtStep(s, g, e)
    case Wait(g) => WaitStep(s, g)
  }

  ghost predicate IsStep(s: State, a: Action, t: State) {
    Enabled(s, a) && t == Next(s, a)
  }

  // Reached from a fresh engine by some actions, in any interleaving.
  ghost predicate Reachable(s: State) {
    exists actions :: Runs.Reached(INITIAL, IsStep, actions, s)
  }

  // ---------- The invariant ----------

  predicate Quiet(t: Threads) {
    (t.rt == RtNone || t.rt == RtExited) && (t.wait == WaitNone || t.wait == WaitReturning || t.wait == WaitExited)
  }

  // The current generation is under way: its wait thread has yet to clear running.
  predicate UnderWay(s: State) {
    && s.flags.running && s.flags.started && !s.flags.waitJoined && s.caller.launched
    && s.rtHandle == |s.past| == s.waitHandle
    && s.now.rt != RtNone && WaitPending(s.now.wait)
    && (s.now.wait != WaitJoin ==> s.now.rt == RtExited)
    && (s.now.wait == WaitClearRunning ==> s.flags.rtJoined)
  }

  // The current generation is over: none of its threads has an engine access left.
  predicate Over(s: State) {
    && !s.flags.running && Quiet(s.now) && (s.now.rt == RtExited ==> s.flags.rtJoined)
    && (s.caller.launched ==>
          s.flags.rtJoined && s.now.rt == RtExited && s.now.wait != WaitNone && s.waitHandle == |s.past|)
    && (s.flags.started ==> s.caller.launched)
  }

  // start has not yet set running; it has set started; the real-time thread runs; it has exited.
  predicate BeforeRunning(at: StartPc) {
    at == ClearStop || at == ClearPaused || at == ClearRtJoined || at == ClearWaitJoined || at == SetRunning
  }

  predicate WithoutRt(at: StartPc) {
    BeforeRunning(at) || at == SetStarted || at == RunRt || at == NoRtStarted || at == NoRtRunning
  }

  predicate Unwinding(at: StartPc) {
    at == NoRtStarted || at == NoRtRunning
  }

  predicate RtLaunched(at: StartPc) {
    at == RunWait || at == NoWaitStop || at == NoWaitJoin
  }

  // What holds of the current generation while start is at work on it.
  predicate Starting(s: State, at: StartPc) {
    && !s.caller.launched && s.now.wait == WaitNone
    && (s.flags.running <==> !BeforeRunning(at))
    && (!BeforeRunning(at) || at == SetRunning ==> !s.flags.waitJoined)
    && (if WithoutRt(at) then s.now.rt == RtNone
        else if RtLaunched(at) then s.now.rt != RtNone && s.rtHandle == |s.past|
        else s.now.rt == RtExited)
    && (at == NoWaitJoin ==> s.flags.stop)
    && (at == RunRt || at == RunWait ==> s.flags.started)
    && ((WithoutRt(at) && at != ClearStop && !Unwinding(at)) ==> !s.flags.stop)
    && ((WithoutRt(at) && at != ClearStop && at != ClearPaused && !Unwinding(at)) ==> !s.flags.paused)
    && (at == ClearWaitJoined || at == SetRunning || at == SetStarted || at == RunRt ==> !s.flags.rtJoined)
    && (at == NoWaitStarted || at == NoWaitRunning ==> s.flags.rtJoined)
    && (at == NoRtRunning || at == NoWaitRunning ==> !s.flags.started)
  }

  predicate JoiningAt(s: State, at: JoinPc) {
    match at
    case LoadStarted => s.flags.started ==> !s.flags.waitJoined
    case LoadWaitJoined => s.flags.started && !s.flags.waitJoined
    case JoinWait => s.flags.started && !s.flags.waitJoined
    case SetWaitJoined => s.flags.started && !s.flags.waitJoined && Over(s) && s.now.wait == WaitExited
    case ClearStarted => s.flags.started && s.flags.waitJoined && Over(s) && s.now.wait == WaitExited
  }

  // What the returned value of a finished call means, until the next call.
  predicate Returned(s: State) {
    s.caller.pc == Idle ==>
      && (s.caller.ret == Joined ==> Over(s) && s.caller.launched && s.now.wait == WaitExited)
      && (s.caller.ret == Started ==> s.caller.launched)
      && (s.caller.ret == StartFailed ==> Over(s) && !s.caller.launched)
      && (s.caller.ret == StopRequested ==> s.flags.stop)
  }

  predicate Settled(s: State) {
    UnderWay(s) || Over(s)
  }

  predicate CurrentInv(s: State) {
    (s.caller.joinFailed ==> s.caller.pc == InDestroy(Free) || s.caller.pc == Freed) &&
    (s.now.rt == RtReturning || s.now.rt == RtExited ==> s.flags.stop) &&
    match s.caller.pc
    case Idle => Settled(s) && (s.flags.started ==> !s.flags.waitJoined) && Returned(s)
    case InStart(at) => Starting(s, at)
    case InJoin(at, inDestroy) => Settled(s) && JoiningAt(s, at) && (inDestroy ==> s.flags.stop)
    case InDestroy(at) =>
      Settled(s) && (s.flags.started ==> !s.flags.waitJoined) && (at == CheckWaitJoined ==> s.flags.started)
      && (at != RequestStopFirst ==> s.flags.stop) && (at == Free && !s.caller.joinFailed ==> Over(s))
    case Freed => Settled(s) && s.flags.stop && (!s.caller.joinFailed ==> Over(s))
  }

  ghost predicate Inv(s: State) {
    && CurrentInv(s)
    && forall g :: 0 <= g < |s.past| ==> Quiet(s.past[g])
  }

  lemma InvokeKeepsInv(s: State, call: Call)
    requires Inv(s) && s.caller.pc == Idle
    ensures Inv(Invoked(s, call))
  {
  }

  // The stores of start before its threads, the two thread calls, and the ways back.
  lemma ResetKeepsInv(s: State, at: StartPc, succeeds: bool)
    requires s.caller.pc == InStart(at) && CurrentInv(s) && (BeforeRunning(at) || at == SetStarted)
    ensures CurrentInv(StartStep(s, at, succeeds))
  {
  }

  lemma LaunchKeepsInv(s: State, at: StartPc, succeeds: bool)
    requires s.caller.pc == InStart(at) && CurrentInv(s) && (at == RunRt || at == RunWait)
    ensures CurrentInv(StartStep(s, at, succeeds))
  {
  }

  lemma UnwindKeepsInv(s: State, at: StartPc, succeeds: bool)
    requires s.caller.pc == InStart(at) && CurrentInv(s) && ControllerEnabled(s, succeeds)
    requires !BeforeRunning(at) && at != SetStarted && at != RunRt && at != RunWait
    ensures CurrentInv(StartStep(s, at, succeeds))
  {
    match at
    case NoWaitJoin =>
    case NoRtRunning =>
    case NoWaitRunning =>
    case _ =>
  }

  lemma StartKeepsInv(s: State, at: StartPc, succeeds: bool)
    requires s.caller.pc == InStart(at) && CurrentInv(s) && ControllerEnabled(s, succeeds)
    ensures CurrentInv(StartStep(s, at, succeeds)) && StartStep(s, at, succeeds).past == s.past
  {
    if BeforeRunning(at) || at == SetStarted {
      ResetKeepsInv(s, at, succeeds);
    } else if at == RunRt || at == RunWait {
      LaunchKeepsInv(s, at, succeeds);
    } else {
      UnwindKeepsInv(s, at, succeeds);
    }
  }

  lemma JoinKeepsInv(s: State, at: JoinPc, inDestroy: bool, succeeds: bool)
    requires s.caller.pc == InJoin(at, inDestroy) && CurrentInv(s) && ControllerEnabled(s, succeeds)
    ensures CurrentInv(JoinStep(s, at, inDestroy, succeeds)) && JoinStep(s, at, inDestroy, succeeds).past == s.past
  {
  }

  lemma DestroyKeepsInv(s: State, at: DestroyPc)
    requires s.caller.pc == InDestroy(at) && CurrentInv(s)
    requires !s.caller.joinFailed || at == Free
    ensures CurrentInv(DestroyStep(s, at)) && DestroyStep(s, at).past == s.past
  {
  }

  lemma ControllerKeepsInv(s: State, succeeds: bool)
    requires CurrentInv(s) && ControllerEnabled(s, succeeds)
    ensures CurrentInv(ControllerStep(s, succeeds)) && ControllerStep(s, succeeds).past == s.past
  {
    match s.caller.pc
    case InStart(at) => StartKeepsInv(s, at, succeeds);
    case InJoin(at, inDestroy) => JoinKeepsInv(s, at, inDestroy, succeeds);
    case InDestroy(at) => DestroyKeepsInv(s, at);
    case _ =>
  }

  lemma RtKeepsInv(s: State, e: CycleEvent)
    requires CurrentInv(s)
    ensures CurrentInv(RtStep(s, |s.past|, e)) && RtStep(s, |s.past|, e).past == s.past
  {
  }

  lemma WaitKeepsInv(s: State)
    requires CurrentInv(s) && WaitEnabled(s, |s.past|)
    ensures CurrentInv(WaitStep(s, |s.past|)) && WaitStep(s, |s.past|).past == s.past
  {
  }

  // A thread of an earlier generation, if it can move at all, only returns.
  lemma OldThreadsTouchNothing(s: State, a: Action)
    requires Inv(s) && Enabled(s, a) && (a.Rt? || a.Wait?) && a.generation < |s.past|
    ensures a.Wait? && s.past[a.generation].wait == WaitReturning
    ensures Next(s, a) == s.(past := Next(s, a).past)
    ensures Inv(Next(s, a))
  {
    assert Quiet(s.past[a.generation]);
  }

  lemma StepKeepsInv(s: State, a: Action)
    requires Inv(s) && Enabled(s, a)
    ensures Inv(Next(s, a))
  {
    match a
    case Invoke(call) => InvokeKeepsInv(s, call);
    case Controller(succeeds) => ControllerKeepsInv(s, succeeds);
    case Rt(g, e) => if g < |s.past| { OldThreadsTouchNothing(s, a); } else { RtKeepsInv(s, e); }
    case Wait(g) => if g < |s.past| { OldThreadsTouchNothing(s, a); } else { WaitKeepsInv(s); }
  }

  lemma ReachableInv(s: State)
    requires Reachable(s)
    ensures Inv(s)
  {
    var actions :| Runs.Reached(INITIAL, IsStep, actions, s);
    forall p, a, q | Inv(p) && IsStep(p, a, q) ensures Inv(q) { StepKeepsInv(p, a); }
    Runs.Invariant(INITIAL, IsStep, Inv, actions, s);
  }

  // ---------- Safety over all interleavings ----------

  // When destroy reaches free and its join has not failed, no thread of any generation has an engine
  // access left: after any starts, failed starts, self-stops and restarts without a join.
  lemma FreeIsSafe(s: State)
    requires Reachable(s) && (s.caller.pc == InDestroy(Free) || s.caller.pc == Freed) && !s.caller.joinFailed
    ensures !Pending(s) && !s.flags.running
  {
    ReachableInv(s);
  }

  // If that join does fail, destroy frees all the same; it is then safe exactly when running is false.
  lemma FreeIsSafeIffNotRunning(s: State)
    requires Reachable(s) && (s.caller.pc == InDestroy(Free) || s.caller.pc == Freed)
    ensures Pending(s) <==> s.flags.running
  {
    ReachableInv(s);
  }

  lemma ReachStep(s: State, a: Action, t: State)
    requires Reachable(s) && IsStep(s, a, t)
    ensures Reachable(t)
  {
    var actions :| Runs.Reached(INITIAL, IsStep, actions, s);
    Runs.Extend(INITIAL, IsStep, actions, s, a, t);
  }

  lemma StartReaches(s: State, at: StartPc, t: State)
    requires Reachable(s) && s.caller.pc == InStart(at) && at != NoWaitJoin && t == StartStep(s, at, true)
    ensures Reachable(t)
  {
    ReachStep(s, Controller(true), t);
  }

  // start, once it has passed its check, can get through: first the four resets...
  lemma ResetReaches(s: State)
    requires Reachable(s) && s.caller.pc == InStart(ClearStop)
    ensures Reachable(Goto(s, Flags(s.flags.running, s.flags.started, false, false, false, false), InStart(SetRunning)))
  {
    var s1 := StartStep(s, ClearStop, true);
    StartReaches(s, ClearStop, s1);
    var s2 := StartStep(s1, ClearPaused, true);
    StartReaches(s1, ClearPaused, s2);
    var s3 := StartStep(s2, ClearRtJoined, true);
    StartReaches(s2, ClearRtJoined, s3);
    StartReaches(s3, ClearWaitJoined, StartStep(s3, ClearWaitJoined, true));
  }

  // ...then the two flags, then the two threads.
  lemma FlagsReach(s: State)
    requires Reachable(s) && s.caller.pc == InStart(SetRunning)
    ensures Reachable(Goto(s, s.flags.(running := true, started := true), InStart(RunRt)))
  {
    var s1 := StartStep(s, SetRunning, true);
    StartReaches(s, SetRunning, s1);
    StartReaches(s1, SetStarted, StartStep(s1, SetStarted, true));
  }

  lemma ThreadsReach(s: State)
    requires Reachable(s) && s.caller.pc == InStart(RunRt)
    ensures Reachable(State(s.flags, s.caller.(pc := Idle, ret := Started, launched := true),
                            s.past, Threads(RtCheck, WaitJoin), |s.past|, |s.past|))
  {
    var s1 := StartStep(s, RunRt, true);
    StartReaches(s, RunRt, s1);
    StartReaches(s1, RunWait, StartStep(s1, RunWait, true));
  }

  // A client that has started the engine.
  const RUNNING: State := State(Flags(true, true, false, false, false, false), Caller(Idle, Started, true, false),
                                [Threads(RtNone, WaitNone)], Threads(RtCheck, WaitJoin), 1, 1)

  const STARTING: State := State(Flags(false, false, false, false, false, false),
                                 Caller(InStart(ClearStop), NoCall, false, false),
                                 [Threads(RtNone, WaitNone)], Threads(RtNone, WaitNone), 0, 0)

  lemma StartingIsReachable()
    ensures Reachable(STARTING)
  {
    assert Runs.Reached(INITIAL, IsStep, [], INITIAL);
    assert Invoked(INITIAL, Start) == STARTING;
    ReachStep(INITIAL, Invoke(Start), STARTING);
  }

  lemma RunningIsReachable()
    ensures Reachable(RUNNING)
  {
    StartingIsReachable();
    ResetReaches(STARTING);
    FlagsReach(Goto(STARTING, STARTING.flags, InStart(SetRunning)));
    ThreadsReach(Goto(STARTING, RUNNING.flags, InStart(RunRt)));
  }

  // ---------- When destroy may be called ----------

  ghost predicate Leads(s: State, actions: seq<Action>, t: State)
    decreases |actions|
  {
    if actions == [] then s == t
    else Enabled(s, actions[0]) && Leads(Next(s, actions[0]), actions[1..], t)
  }

  lemma {:induction false} LeadsReach(s: State, actions: seq<Action>, t: State)
    requires Reachable(s) && Leads(s, actions, t)
    ensures Reachable(t)
    decreases |actions|
  {
    if actions != [] {
      ReachStep(s, actions[0], Next(s, actions[0]));
      LeadsReach(Next(s, actions[0]), actions[1..], t);
    }
  }

  predicate InDestruction(pc: Pc) {
    pc.Freed? || pc.InDestroy? || (pc.InJoin? && pc.inDestroy)
  }

  predicate AtFree(pc: Pc) {
    pc == InDestroy(Free) || pc == Freed
  }

  // Nothing sets running once destroy has begun.
  lemma RunningOnlyFalls(s: State, a: Action)
    requires InDestruction(s.caller.pc) && Enabled(s, a) && !s.flags.running
    ensures InDestruction(Next(s, a).caller.pc) && !Next(s, a).flags.running
  {
    match a
    case Invoke(_) =>
    case Controller(succeeds) =>
      match s.caller.pc {
        case InJoin(at, inDestroy) =>
        case InDestroy(at) =>
        case _ =>
      }
    case Rt(_, _) =>
    case Wait(_) =>
  }

  lemma {:induction false} NeverRunningAgain(s: State, actions: seq<Action>, t: State)
    requires InDestruction(s.caller.pc) && !s.flags.running && Leads(s, actions, t)
    ensures InDestruction(t.caller.pc) && !t.flags.running
    decreases |actions|
  {
    if actions != [] {
      RunningOnlyFalls(s, actions[0]);
      NeverRunningAgain(Next(s, actions[0]), actions[1..], t);
    }
  }

  // Calling destroy in s leaves no thread with an engine access when it frees, whatever happens.
  ghost predicate SafeToDestroy(s: State) {
    forall actions, t :: Leads(Invoked(s, Destroy), actions, t) && AtFree(t.caller.pc) ==> !Pending(t)
  }

  // destroy up to its join, which fails at once, and what it leaves behind when it gets to free.
  const FAILING_DESTROY: seq<Action> :=
    [Controller(true), Controller(true), Controller(true), Controller(true), Controller(true), Controller(false)]

  function FreedAnyway(s: State): State {
    s.(flags := s.flags.(stop := true), caller := s.caller.(pc := InDestroy(Free), joinFailed := true))
  }

  lemma LeadsNext(s: State, k: nat, t: State)
    requires k < 6 && Enabled(s, FAILING_DESTROY[k])
    requires Leads(Next(s, FAILING_DESTROY[k]), FAILING_DESTROY[k + 1..], t)
    ensures Leads(s, FAILING_DESTROY[k..], t)
  {
    assert FAILING_DESTROY[k..][1..] == FAILING_DESTROY[k + 1..];
  }

  lemma FailedJoinReturns(s: State)
    requires s.caller.pc == Idle && s.flags.started && !s.flags.waitJoined
    ensures Leads(Goto(s, s.flags.(stop := true), InJoin(LoadStarted, true)), FAILING_DESTROY[3..], FreedAnyway(s))
  {
    var f, t := s.flags.(stop := true), FreedAnyway(s);
    assert Leads(t, FAILING_DESTROY[6..], t);
    LeadsNext(Goto(s, f, InJoin(JoinWait, true)), 5, t);
    LeadsNext(Goto(s, f, InJoin(LoadWaitJoined, true)), 4, t);
    LeadsNext(Goto(s, f, InJoin(LoadStarted, true)), 3, t);
  }

  lemma DestroyJoins(s: State)
    requires s.caller.pc == Idle && s.flags.started && !s.flags.waitJoined
    ensures Leads(Goto(s, s.flags.(stop := true), InDestroy(CheckStarted)), FAILING_DESTROY[1..], FreedAnyway(s))
  {
    var f, t := s.flags.(stop := true), FreedAnyway(s);
    FailedJoinReturns(s);
    LeadsNext(Goto(s, f, InDestroy(CheckWaitJoined)), 2, t);
    LeadsNext(Goto(s, f, InDestroy(CheckStarted)), 1, t);
  }

  lemma FailedJoinLeads(s: State)
    requires s.caller.pc == Idle && s.flags.started && !s.flags.waitJoined
    ensures Leads(Invoked(s, Destroy), FAILING_DESTROY, FreedAnyway(s))
  {
    DestroyJoins(s);
    LeadsNext(Goto(s, s.flags, InDestroy(RequestStopFirst)), 0, FreedAnyway(s));
    assert FAILING_DESTROY[0..] == FAILING_DESTROY;
  }

  // A client can tell beforehand: destroy is safe to call, even if its join may fail, exactly when
  // running is false.
  lemma DestroyIsSafeIffNotRunning(s: State)
    requires Reachable(s) && s.caller.pc == Idle
    ensures SafeToDestroy(s) <==> !s.flags.running
  {
    var d := Invoked(s, Destroy);
    ReachStep(s, Invoke(Destroy), d);
    forall actions, t | Leads(d, actions, t) && AtFree(t.caller.pc) ensures Pending(t) <==> t.flags.running {
      LeadsReach(d, actions, t);
      FreeIsSafeIffNotRunning(t);
    }
    if s.flags.running {
      ReachableInv(s);
      FailedJoinLeads(s);
      assert AtFree(FreedAnyway(s).caller.pc);
    } else {
      forall actions, t | Leads(d, actions, t) && AtFree(t.caller.pc) ensures !Pending(t) {
        NeverRunningAgain(d, actions, t);
      }
    }
  }

  // A concrete run in which destroy frees too early: its join fails at once.
  lemma FailedJoinFreesTooEarly()
    ensures exists s :: Reachable(s) && s.caller.pc == InDestroy(Free) && Pending(s)
  {
    RunningIsReachable();
    var d, t := Invoked(RUNNING, Destroy), FreedAnyway(RUNNING);
    FailedJoinLeads(RUNNING);
    ReachStep(RUNNING, Invoke(Destroy), d);
    LeadsReach(d, FAILING_DESTROY, t);
    assert RtPending(t.now.rt);
  }

  // No step of a thread from an earlier generation, and no step of any thread while start is
  // resetting the flags, writes a flag: generations never interfere.
  lemma GenerationsNeverInterfere(s: State, a: Action)
    requires Reachable(s) && Enabled(s, a) && (a.Rt? || a.Wait?)
    requires a.generation < |s.past| || (s.caller.pc.InStart? && BeforeRunning(s.caller.pc.start))
    ensures Next(s, a) == s.(past := Next(s, a).past)
  {
    ReachableInv(s);
    if a.generation < |s.past| { OldThreadsTouchNothing(s, a); }
  }

  lemma ControllerKeepsStop(s: State, succeeds: bool)
    requires s.flags.stop && s.caller.pc != InStart(ClearStop)
    ensures ControllerStep(s, succeeds).flags.stop
  {
    match s.caller.pc
    case InStart(at) =>
    case InJoin(at, inDestroy) =>
    case InDestroy(at) =>
    case _ =>
  }

  lemma ThreadsKeepStop(s: State, a: Action)
    requires Inv(s) && Enabled(s, a) && s.flags.stop && (a.Rt? || a.Wait?)
    ensures Next(s, a).flags.stop
  {
    if a.generation < |s.past| { OldThreadsTouchNothing(s, a); }
  }

  // A stop request is never lost: only the first store of a start, made while not running, clears it.
  lemma StopIsMonotone(s: State, a: Action)
    requires Reachable(s) && Enabled(s, a) && s.flags.stop && !Next(s, a).flags.stop
    ensures s.caller.pc == InStart(ClearStop) && a.Controller? && !s.flags.running
  {
    ReachableInv(s);
    if a.Rt? || a.Wait? {
      ThreadsKeepStop(s, a);
    } else if a.Controller? && s.caller.pc != InStart(ClearStop) {
      ControllerKeepsStop(s, a.succeeds);
    }
  }

  // After a successful start, and until the next one, running is false only once the real-time
  // thread has exited and rt_joined is set.
  lemma NotRunningMeansExited(s: State)
    requires Reachable(s) && s.caller.launched && !s.flags.running
    ensures s.now.rt == RtExited && s.flags.rtJoined && !WaitPending(s.now.wait)
  {
    ReachableInv(s);
  }

  // join returning true means the engine is not running and both threads have finished.
  lemma JoinedMeansFinished(s: State)
    requires Reachable(s) && s.caller.pc == Idle && s.caller.ret == Joined
    ensures !s.flags.running && s.flags.rtJoined && s.now.rt == RtExited && s.now.wait == WaitExited && !Pending(s)
  {
    ReachableInv(s);
  }

  // Between calls started and wait_joined are never both set, so join's early success on
  // wait_joined is dead, in a client's join and in destroy's alike.
  lemma StartedNeverWaitJoined(s: State)
    requires Reachable(s)
    ensures s.caller.pc == Idle ==> !(s.flags.started && s.flags.waitJoined)
    ensures s.caller.pc.InJoin? && s.caller.pc.join == LoadWaitJoined ==> !s.flags.waitJoined
    ensures s.caller.pc == InDestroy(CheckWaitJoined) ==> !s.flags.waitJoined
  {
    ReachableInv(s);
  }

  // ---------- destroy always finishes ----------

  function PastRank(past: seq<Threads>): nat {
    if past == [] then 0
    else PastRank(past[..|past| - 1]) + WaitRank(past[|past| - 1].wait)
  }

  function Rank(s: State): nat {
    ControllerRank(s.caller.pc) + RtRank(s.now.rt) + WaitRank(s.now.wait) + PastRank(s.past)
  }

  lemma {:induction false} PastRankUpdate(past: seq<Threads>, g: nat, t: Threads)
    requires g < |past|
    ensures PastRank(past[g := t]) == PastRank(past) - WaitRank(past[g].wait) + WaitRank(t.wait)
  {
    var front := past[..|past| - 1];
    if g < |front| {
      PastRankUpdate(front, g, t);
      assert past[g := t][..|past| - 1] == front[g := t];
    } else {
      assert past[g := t][..|past| - 1] == front;
    }
  }

  lemma ControllerDecreases(s: State, succeeds: bool)
    requires Destroying(s.caller.pc) && ControllerEnabled(s, succeeds)
    ensures var t := ControllerStep(s, succeeds);
      && Destroying(t.caller.pc) && ControllerRank(t.caller.pc) < ControllerRank(s.caller.pc)
      && t.now == s.now && t.past == s.past
  {
    match s.caller.pc
    case InJoin(at, inDestroy) =>
    case InDestroy(at) =>
    case _ =>
  }

  lemma OldWaitDecreases(s: State, a: Action)
    requires Inv(s) && Enabled(s, a) && (a.Rt? || a.Wait?) && a.generation < |s.past|
    ensures Next(s, a).caller.pc == s.caller.pc && Rank(Next(s, a)) < Rank(s)
  {
    OldThreadsTouchNothing(s, a);
    PastRankUpdate(s.past, a.generation, Next(s, a).past[a.generation]);
  }

  lemma DestroyingStops(s: State)
    requires Inv(s) && Destroying(s.caller.pc)
    ensures s.flags.stop
  {
  }

  // Once destroy has asked for a stop, every step of any thread brings it closer to its end.
  lemma DestroyDecreases(s: State, a: Action)
    requires Reachable(s) && Destroying(s.caller.pc) && Enabled(s, a)
    ensures Destroying(Next(s, a).caller.pc) && Rank(Next(s, a)) < Rank(s)
  {
    ReachableInv(s);
    DestroyingStops(s);
    match a
    case Invoke(_) =>
    case Controller(succeeds) => ControllerDecreases(s, succeeds);
    case Rt(g, _) => if g < |s.past| { OldWaitDecreases(s, a); }
    case Wait(g) => if g < |s.past| { OldWaitDecreases(s, a); }
  }

  // Every interleaving of the rest of destroy is bounded in advance...
  lemma {:induction false} DestroyTerminates(s: State, actions: seq<Action>, t: State)
    requires Reachable(s) && Destroying(s.caller.pc) && Leads(s, actions, t)
    ensures |actions| <= Rank(s) && Reachable(t) && Destroying(t.caller.pc)
    decreases |actions|
  {
    if actions != [] {
      DestroyDecreases(s, actions[0]);
      ReachStep(s, actions[0], Next(s, actions[0]));
      DestroyTerminates(Next(s, actions[0]), actions[1..], t);
    }
  }

  // ...and before the engine is freed there is always a step to take that is not a failing join.
  lemma DestroyNeverStuck(s: State)
    requires Reachable(s) && Destroying(s.caller.pc) && s.caller.pc != Freed
    ensures exists a :: Enabled(s, a) && a != Controller(false)
  {
    ReachableInv(s);
    if ControllerEnabled(s, true) {
      assert Enabled(s, Controller(true));
    } else if s.now.wait == WaitJoin && s.now.rt != RtExited {
      assert Enabled(s, Rt(|s.past|, Nothing));
    } else {
      assert Enabled(s, Wait(|s.past|));
    }
  }

  // So destroy reaches the end: from wherever it stands, steps of the threads and of destroy itself, its
  // join not failing, lead to the freed engine.
  lemma {:induction false} DestroyGetsToTheEnd(s: State)
    requires Reachable(s) && Destroying(s.caller.pc)
    ensures exists actions, t :: Leads(s, actions, t) && t.caller.pc == Freed && Controller(false) !in actions
    decreases Rank(s)
  {
    if s.caller.pc == Freed {
      assert Leads(s, [], s);
    } else {
      DestroyNeverStuck(s);
      var a :| Enabled(s, a) && a != Controller(false);
      DestroyDecreases(s, a);
      ReachStep(s, a, Next(s, a));
      DestroyGetsToTheEnd(Next(s, a));
      var actions, t :| Leads(Next(s, a), actions, t) && t.caller.pc == Freed && Controller(false) !in actions;
      assert ([a] + actions)[1..] == actions;
      assert Leads(s, [a] + actions, t);
    }
  }
}
