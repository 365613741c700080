/** What the calls and the threads of the lifecycle achieve, in every reachable state: what each call
    stores and returns, and that a stop request ends the generation and lets a join through. */
module Progress {
  import opened Lifecycle

  // ---------- What calls and events store ----------

  // A stop request stores the flag, whoever runs meanwhile, and it is still set when the call has returned.
  lemma StopRequestHolds(s: State)
    requires Reachable(s) && s.caller.pc == Idle
    ensures Next(s, Invoke(RequestStop)).flags == s.flags.(stop := true)
    ensures s.caller.ret == StopRequested ==> s.flags.stop
  {
    ReachableInv(s);
  }

  // start is refused, storing nothing and starting nothing, exactly while running is set.
  lemma StartRefusedIff(s: State)
    requires Reachable(s) && s.caller.pc == Idle
    ensures var t := Next(s, Invoke(Start));
      && (t.caller.pc == Idle <==> s.flags.running)
      && (s.flags.running ==> t == s.(caller := s.caller.(ret := StartRefused)))
      && (!s.flags.running ==> |t.past| == |s.past| + 1 && t.flags == s.flags)
  {
  }

  // When the real-time thread is run, a stop, a pause and the marks of earlier generations are all gone.
  lemma LaunchIsClean(s: State)
    requires Reachable(s) && s.caller.pc == InStart(RunRt)
    ensures s.flags == Flags(true, true, false, false, false, false)
  {
    ReachableInv(s);
  }

  // A failed start leaves nothing running and nothing to join; if its real-time thread ever ran, it has
  // exited and is marked so.
  lemma FailedStartIsOver(s: State)
    requires Reachable(s) && s.caller.pc == Idle && s.caller.ret == StartFailed
    ensures !s.flags.running && !s.flags.started && !Pending(s)
    ensures s.now.rt == RtNone || (s.now.rt == RtExited && s.flags.rtJoined)
  {
    ReachableInv(s);
  }

  // join is refused exactly when nothing is started, and then stores nothing.
  lemma JoinRefusedIff(s: State, any: bool)
    requires Reachable(s) && s.caller.pc == Idle
    ensures var t := Next(Next(s, Invoke(Join)), Controller(any));
      && (t.caller.pc == Idle <==> !s.flags.started)
      && (!s.flags.started ==> t == s.(caller := s.caller.(ret := JoinRefused)))
  {
  }

  // After a join that returned true there is nothing started left, and another would be refused.
  lemma JoinedIsSettled(s: State)
    requires Reachable(s) && s.caller.pc == InJoin(ClearStarted, false)
    ensures var t := Next(s, Controller(true));
      t.caller.pc == Idle && t.caller.ret == Joined && !t.flags.started && t.flags.waitJoined
  {
    ReachableInv(s);
  }

  // What a command dispatched by the current real-time thread stores.
  lemma EventsStore(s: State, e: CycleEvent)
    requires s.now.rt.RtCycle? && s.now.rt.commands > 0
    ensures var t := Next(s, Rt(|s.past|, e));
      && t.flags == s.flags.(stop := t.flags.stop, paused := t.flags.paused)
      && (t.flags.stop <==> s.flags.stop || e == Stops)
      && (e == Pauses ==> t.flags.paused) && (e == Resumes ==> !t.flags.paused)
      && (e != Pauses && e != Resumes ==> t.flags.paused == s.flags.paused)
  {
  }

  // The real-time thread never leaves its loop unasked.
  lemma NeverExitsUnasked(s: State)
    requires Reachable(s) && (s.now.rt == RtReturning || s.now.rt == RtExited)
    ensures s.flags.stop
  {
    ReachableInv(s);
  }

  // ---------- Who writes which flag ----------

  // The controller's next step is this one of start.
  predicate AtStart(s: State, a: Action, at: StartPc) {
    a.Controller? && s.caller.pc == InStart(at)
  }

  // A real-time thread of the current generation dispatches a command.
  predicate Dispatches(s: State, a: Action) {
    a.Rt? && a.generation == |s.past| && s.now.rt.RtCycle? && s.now.rt.commands > 0
  }

  predicate WaitAt(s: State, a: Action, wait: WaitPc) {
    a.Wait? && a.generation == |s.past| && s.now.wait == wait
  }

  ghost predicate RunningChanges(s: State, a: Action, f: Flags) {
    && (f.running && !s.flags.running ==> AtStart(s, a, SetRunning))
    && (!f.running && s.flags.running ==>
          WaitAt(s, a, WaitClearRunning) || AtStart(s, a, NoRtRunning) || AtStart(s, a, NoWaitRunning))
  }

  ghost predicate StartedChanges(s: State, a: Action, f: Flags) {
    && (f.started && !s.flags.started ==> AtStart(s, a, SetStarted))
    && (!f.started && s.flags.started ==>
          || AtStart(s, a, NoRtStarted) || AtStart(s, a, NoWaitStarted)
          || (a.Controller? && s.caller.pc.InJoin? && s.caller.pc.join == ClearStarted))
  }

  ghost predicate PausedChanges(s: State, a: Action, f: Flags) {
    && (f.paused && !s.flags.paused ==> Dispatches(s, a) && a.event == Pauses)
    && (!f.paused && s.flags.paused ==> AtStart(s, a, ClearPaused) || (Dispatches(s, a) && a.event == Resumes))
  }

  ghost predicate StopChanges(s: State, a: Action, f: Flags) {
    && (f.stop && !s.flags.stop ==>
          || a == Invoke(RequestStop) || (a.Controller? && s.caller.pc == InDestroy(RequestStopFirst))
          || AtStart(s, a, NoWaitStop) || (Dispatches(s, a) && a.event == Stops))
    && (!f.stop && s.flags.stop ==> AtStart(s, a, ClearStop))
  }

  ghost predicate JoinedChange(s: State, a: Action, f: Flags) {
    && (f.rtJoined && !s.flags.rtJoined ==> WaitAt(s, a, WaitMarkJoined) || AtStart(s, a, NoWaitRtJoined))
    && (!f.rtJoined && s.flags.rtJoined ==> AtStart(s, a, ClearRtJoined))
    && (f.waitJoined && !s.flags.waitJoined ==>
          a.Controller? && s.caller.pc.InJoin? && s.caller.pc.join == SetWaitJoined)
    && (!f.waitJoined && s.flags.waitJoined ==> AtStart(s, a, ClearWaitJoined))
  }

  ghost predicate OwnWriters(s: State, a: Action, f: Flags) {
    RunningChanges(s, a, f) && StartedChanges(s, a, f) && PausedChanges(s, a, f) && StopChanges(s, a, f)
    && JoinedChange(s, a, f)
  }

  lemma StartWriters(s: State, at: StartPc, succeeds: bool)
    requires s.caller.pc == InStart(at)
    ensures OwnWriters(s, Controller(succeeds), StartStep(s, at, succeeds).flags)
  {
  }

  lemma JoinWriters(s: State, at: JoinPc, inDestroy: bool, succeeds: bool)
    requires s.caller.pc == InJoin(at, inDestroy)
    ensures OwnWriters(s, Controller(succeeds), JoinStep(s, at, inDestroy, succeeds).flags)
  {
  }

  lemma DestroyWriters(s: State, at: DestroyPc, succeeds: bool)
    requires s.caller.pc == InDestroy(at)
    ensures OwnWriters(s, Controller(succeeds), DestroyStep(s, at).flags)
  {
  }

  lemma ControllerWriters(s: State, succeeds: bool)
    ensures OwnWriters(s, Controller(succeeds), ControllerStep(s, succeeds).flags)
  {
    match s.caller.pc
    case InStart(at) => StartWriters(s, at, succeeds);
    case InJoin(at, inDestroy) => JoinWriters(s, at, inDestroy, succeeds);
    case InDestroy(at) => DestroyWriters(s, at, succeeds);
    case _ =>
  }

  // In every reachable state and every interleaving each flag has its own writers and no other step
  // changes it.
  lemma FlagsHaveWriters(s: State, a: Action)
    requires Reachable(s) && Enabled(s, a)
    ensures OwnWriters(s, a, Next(s, a).flags)
  {
    ReachableInv(s);
    match a
    case Invoke(_) =>
    case Controller(succeeds) => ControllerWriters(s, succeeds);
    case Rt(g, _) => if g < |s.past| { OldThreadsTouchNothing(s, a); }
    case Wait(g) => if g < |s.past| { OldThreadsTouchNothing(s, a); }
  }

  // ---------- A stop ends the generation ----------

  predicate OfThread(a: Action) {
    a.Rt? || a.Wait?
  }

  ghost predicate ThreadsOnly(actions: seq<Action>) {
    forall i :: 0 <= i < |actions| ==> OfThread(actions[i])
  }

  // With a stop requested, every step of a thread brings all of them closer to their ends.
  lemma ThreadsDecrease(s: State, a: Action)
    requires Reachable(s) && s.flags.stop && Enabled(s, a) && OfThread(a)
    ensures Rank(Next(s, a)) < Rank(s) && Next(s, a).flags.stop && Next(s, a).caller == s.caller
  {
    ReachableInv(s);
    ThreadsKeepStop(s, a);
    if a.generation < |s.past| { OldWaitDecreases(s, a); }
  }

  // So however they interleave, they stop within a number of steps known in advance.
  lemma {:induction false} StopBoundsThreads(s: State, actions: seq<Action>, t: State)
    requires Reachable(s) && s.flags.stop && ThreadsOnly(actions) && Leads(s, actions, t)
    ensures |actions| <= Rank(s)
    decreases |actions|
  {
    if actions != [] {
      var next := Next(s, actions[0]);
      assert OfThread(actions[0]);
      ThreadsDecrease(s, actions[0]);
      ReachStep(s, actions[0], next);
      assert forall i :: 0 <= i < |actions| - 1 ==> actions[1..][i] == actions[i + 1];
      StopBoundsThreads(next, actions[1..], t);
    }
  }

  // The step a generation under way can take.
  function NextOfThreads(s: State): Action {
    if s.now.wait == WaitJoin && s.now.rt != RtExited then Rt(|s.past|, Nothing) else Wait(|s.past|)
  }

  lemma ThreadsCanMove(s: State)
    requires Reachable(s) && s.caller.launched && s.flags.running
    ensures Enabled(s, NextOfThreads(s))
  {
    ReachableInv(s);
  }

  // And they do get there: once a stop is requested, by the client or by a command, steps of the threads
  // alone end a generation that start has launched.
  lemma {:induction false} StopEndsGeneration(s: State)
    requires Reachable(s) && s.caller.launched && s.flags.stop
    ensures exists actions, t :: ThreadsOnly(actions) && Leads(s, actions, t) && !t.flags.running
    decreases Rank(s)
  {
    if !s.flags.running {
      assert ThreadsOnly([]) && Leads(s, [], s);
    } else {
      var a := NextOfThreads(s);
      ThreadsCanMove(s);
      ThreadsDecrease(s, a);
      ReachStep(s, a, Next(s, a));
      StopEndsGeneration(Next(s, a));
      var actions, t :| ThreadsOnly(actions) && Leads(Next(s, a), actions, t) && !t.flags.running;
      assert ([a] + actions)[1..] == actions;
      assert ThreadsOnly([a] + actions) && Leads(s, [a] + actions, t);
    }
  }

  // So a STOP among the commands of a cycle ends the generation that dispatches it.
  lemma SelfStopEndsGeneration(s: State)
    requires Reachable(s) && s.caller.launched && s.now.rt.RtCycle? && s.now.rt.commands > 0
    ensures exists actions, t ::
      ThreadsOnly(actions) && Leads(Next(s, Rt(|s.past|, Stops)), actions, t) && !t.flags.running
  {
    var t := Next(s, Rt(|s.past|, Stops));
    EventsStore(s, Stops);
    ReachStep(s, Rt(|s.past|, Stops), t);
    StopEndsGeneration(t);
  }

  // ---------- A join gets through ----------

  predicate Joining(pc: Pc) {
    pc.InJoin? && !pc.inDestroy
  }

  // A join that did not fail has come back.
  predicate Returned(s: State) {
    s.caller.pc == Idle && s.caller.ret != JoinFailed
  }

  // A step, not a failing join, that brings a join and the threads closer to their ends.
  ghost predicate Onward(s: State, a: Action) {
    Enabled(s, a) && a != Controller(false)
    && var t := Next(s, a);
      Rank(t) < Rank(s) && t.flags.stop && (Joining(t.caller.pc) || Returned(t))
  }

  lemma JoinMoves(s: State)
    requires Reachable(s) && Joining(s.caller.pc) && s.flags.stop
    ensures exists a :: Onward(s, a)
  {
    ReachableInv(s);
    if ControllerEnabled(s, true) {
      assert Onward(s, Controller(true));
    } else if s.flags.running {
      ThreadsCanMove(s);
      ThreadsDecrease(s, NextOfThreads(s));
      assert Onward(s, NextOfThreads(s));
    } else {
      assert Enabled(s, Wait(|s.past|));
      ThreadsDecrease(s, Wait(|s.past|));
      assert Onward(s, Wait(|s.past|));
    }
  }

  ghost predicate LeadsBack(s: State, actions: seq<Action>, t: State) {
    Leads(s, actions, t) && Controller(false) !in actions && Returned(t)
  }

  // With a stop requested, a join that a client has begun returns, and unless its own thread call fails it
  // returns true, or false because there was nothing to join.
  lemma {:induction false} JoinGetsThrough(s: State)
    requires Reachable(s) && Joining(s.caller.pc) && s.flags.stop
    ensures exists actions, t :: LeadsBack(s, actions, t)
    decreases Rank(s)
  {
    JoinMoves(s);
    var a :| Onward(s, a);
    var next := Next(s, a);
    ReachStep(s, a, next);
    if Joining(next.caller.pc) {
      JoinGetsThrough(next);
      var actions, t :| LeadsBack(next, actions, t);
      assert ([a] + actions)[1..] == actions;
      assert LeadsBack(s, [a] + actions, t);
    } else {
      assert Leads(next, [], next);
      assert [a][1..] == [];
      assert LeadsBack(s, [a], next);
    }
  }
}
