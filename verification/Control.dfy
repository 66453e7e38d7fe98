/**
 The D-Bus control object (`ipc/control.rs`), one call at a time.

 `Served` runs a request through the step machine without interruption; the
 methods of `Control` are the handlers as written, proved to do exactly that.
 */
module Control {
  import opened Common
  import opened Daemon
  import opened Lifecycle

  /** The outside world during one call. */
  datatype Env = Env(now: i64, resolves: bool, stopOk: bool, saveOk: bool)

  function Rank(pc: Pc): nat {
    match pc
    case ReadSound => 8
    case TakeHandle(_) => 7
    case StopPlayer(_) => 6
    case Transit(_) => 5
    case Save(_, _) => 4
    case Spawn(_, _) => 3
    case KeepHandle(_, _) => 2
    case Notify(_) => 1
    case Done(_) => 0
  }

  function OkAt(pc: Pc, env: Env): bool {
    match pc
    case StopPlayer(_) => env.stopOk
    case Save(_, _) => env.saveOk
    case _ => true
  }

  /** A call's remaining steps, back to back: the shared objects at the end, and whether it was accepted. */
  function Finish(call: Call, k: Core, env: Env): (Core, bool)
    decreases Rank(call.pc)
  {
    if call.pc.Done? then (k, call.pc.accepted)
    else
      Finish(call.(pc := PcAfter(call, k, env.now, env.resolves)),
             CoreAfter(call, k, OkAt(call.pc, env)), env)
  }

  function Served(k: Core, req: Request, env: Env): (Core, bool) {
    Finish(Call(req, Entry(req, env.now, env.resolves), k.mem, 0), k, env)
  }

  // Served requests are runs of the machine

  /** Call `c` takes all its remaining steps. */
  function Drive(w: World, c: nat, env: Env): (w': World)
    ensures |w'.calls| == |w.calls| && w'.up == w.up
    decreases if c < |w.calls| then Rank(w.calls[c].pc) else 0
  {
    if c >= |w.calls| || w.calls[c].pc.Done? then w
    else Drive(AdvanceCall(w, c, OkAt(w.calls[c].pc, env), env.now, env.resolves), c, env)
  }

  /** A call's place in lock order matters to its save and its signal only through the books kept of them. */
  lemma {:induction false} FinishIgnoresTicket(call: Call, k: Core, env: Env, ticket: nat)
    ensures Finish(call.(ticket := ticket), k, env) == Finish(call, k, env)
    decreases Rank(call.pc)
  {
    if !call.pc.Done? {
      FinishIgnoresTicket(call.(pc := PcAfter(call, k, env.now, env.resolves)), CoreAfter(call, k, OkAt(call.pc, env)), env, ticket);
    }
  }

  lemma {:induction false} DriveFinishes(w: World, c: nat, env: Env)
    requires c < |w.calls|
    ensures var w' := Drive(w, c, env);
            && w'.core == Finish(w.calls[c], w.core, env).0
            && w'.calls[c].pc == Done(Finish(w.calls[c], w.core, env).1)
    decreases Rank(w.calls[c].pc)
  {
    if !w.calls[c].pc.Done? {
      var call := w.calls[c];
      var w1 := AdvanceCall(w, c, OkAt(call.pc, env), env.now, env.resolves);
      FinishIgnoresTicket(call.(pc := PcAfter(call, w.core, env.now, env.resolves)), w1.core, env, w1.calls[c].ticket);
      DriveFinishes(w1, c, env);
    }
  }

  lemma {:induction false} DriveIsRun(w: World, c: nat, env: Env) returns (steps: seq<Step>)
    requires w.up && c < |w.calls|
    ensures Exec(w, steps) == Drive(w, c, env)
    ensures forall i :: 0 <= i < |steps| ==> steps[i].Advance? && steps[i].c == c
    decreases Rank(w.calls[c].pc)
  {
    if w.calls[c].pc.Done? {
      steps := [];
    } else {
      var step := Advance(c, OkAt(w.calls[c].pc, env), env.now, env.resolves);
      var rest := DriveIsRun(Next(w, step), c, env);
      steps := [step] + rest;
      assert steps[1..] == rest;
    }
  }

  lemma {:induction false} AdvancesAreSerial(w: World, c: nat, steps: seq<Step>)
    requires forall i :: 0 <= i < |steps| ==> steps[i].Advance? && steps[i].c == c
    ensures Along(SerialStep, w, steps)
    decreases steps
  {
    if steps != [] {
      AdvancesAreSerial(Next(w, steps[0]), c, steps[1..]);
    }
  }

  lemma {:induction false} DriveTouchesOne(w: World, c: nat, env: Env)
    requires c < |w.calls|
    ensures var w' := Drive(w, c, env);
            forall d :: 0 <= d < |w.calls| && d != c ==> w'.calls[d] == w.calls[d]
    decreases Rank(w.calls[c].pc)
  {
    if !w.calls[c].pc.Done? {
      DriveTouchesOne(AdvanceCall(w, c, OkAt(w.calls[c].pc, env), env.now, env.resolves), c, env);
    }
  }

  // The whole of an accepted call, written out

  function Cancelled(k: Core, stopOk: bool): Core {
    PlayerStopped(HandleTaken(k), stopOk)
  }

  function Switched(k: Core, desired: State, saveOk: bool): Core {
    if k.mem == desired then k else k.(mem := desired, cell := Commit(k.cell, desired, saveOk))
  }

  function Scheduled(k: Core, trigger: Option<Trigger>): Core {
    if trigger.Some? then Spawned(k, trigger.value).(handle := Some(|k.tasks|)) else k
  }

  function Carried(k: Core, g: Goal, env: Env): Core {
    Scheduled(Switched(Cancelled(k, env.stopOk), g.desired, env.saveOk), g.trigger)
  }

  function Reported(k: Core, req: Request, change: Transition): Core {
    if req.Snooze? then k else k.(signals := Announced(k.signals, change))
  }

  lemma FinishSchedule(call: Call, k: Core, g: Goal, change: Transition, env: Env)
    requires call.pc == AfterSave(g, change)
    ensures Finish(call, k, env) == (Reported(Scheduled(k, g.trigger), call.req, change), true)
  {
    if g.trigger.Some? {
      var kept := call.(pc := KeepHandle(|k.tasks|, change));
      assert Finish(call, k, env) == Finish(kept, Spawned(k, g.trigger.value), env);
      FinishNotify(kept.(pc := Notify(change)), Scheduled(k, g.trigger), change, env);
      assert Finish(kept, Spawned(k, g.trigger.value), env)
          == Finish(kept.(pc := Notify(change)), Scheduled(k, g.trigger), env);
    } else {
      FinishNotify(call, k, change, env);
    }
  }

  lemma FinishNotify(call: Call, k: Core, change: Transition, env: Env)
    requires call.pc == Notify(change)
    ensures Finish(call, k, env) == (Reported(k, call.req, change), true)
  {
  }

  lemma FinishTransit(call: Call, k: Core, g: Goal, env: Env)
    requires call.pc == Transit(g)
    ensures Finish(call, k, env)
            == (Reported(Scheduled(Switched(k, g.desired, env.saveOk), g.trigger), call.req, TransitionOf(k.mem, g.desired)), true)
  {
    var change := TransitionOf(k.mem, g.desired);
    if k.mem == g.desired {
      FinishSchedule(call.(pc := AfterSave(g, NoChange)), k, g, NoChange, env);
    } else {
      var saving := call.(pc := Save(g, k.mem.status));
      var k1 := k.(mem := g.desired);
      assert Finish(call, k, env) == Finish(saving, k1, env);
      var k2 := k1.(cell := Commit(k1.cell, g.desired, env.saveOk));
      assert Finish(saving, k1, env) == Finish(saving.(pc := AfterSave(g, change)), k2, env);
      FinishSchedule(saving.(pc := AfterSave(g, change)), k2, g, change, env);
    }
  }

  /** What an accepted call amounts to, from its first step on the shared objects. */
  lemma FinishGoal(call: Call, k: Core, g: Goal, env: Env)
    requires call.pc == TakeHandle(g)
    ensures Finish(call, k, env) == (Reported(Carried(k, g, env), call.req, TransitionOf(k.mem, g.desired)), true)
  {
    var k1 := HandleTaken(k);
    var stopping := call.(pc := StopPlayer(g));
    assert Finish(call, k, env) == Finish(stopping, k1, env);
    var k2 := PlayerStopped(k1, env.stopOk);
    assert Finish(stopping, k1, env) == Finish(stopping.(pc := Transit(g)), k2, env);
    FinishTransit(stopping.(pc := Transit(g)), k2, g, env);
  }

  /** A request is refused, and then changes nothing, exactly for an unresolvable sound, a zero snooze, or nothing to snooze. */
  lemma RejectedExactly(k: Core, req: Request, env: Env)
    ensures !Served(k, req, env).1 <==>
              || (req.Arm? && !env.resolves)
              || (req.Snooze? && (req.seconds == 0 || k.mem.sound.None? || !env.resolves))
    ensures !Served(k, req, env).1 ==> Served(k, req, env).0 == k
    ensures Served(k, req, env).1 ==>
              var g := GoalOfRequest(k, req, env.now);
              Served(k, req, env).0 == Reported(Carried(k, g, env), req, TransitionOf(k.mem, g.desired))
  {
    var call := Call(req, Entry(req, env.now, env.resolves), k.mem, 0);
    if call.pc.TakeHandle? {
      FinishGoal(call, k, call.pc.goal, env);
    } else if call.pc.ReadSound? {
      var call' := call.(pc := PcAfter(call, k, env.now, env.resolves));
      assert Finish(call, k, env) == Finish(call', k, env);
      if call'.pc.TakeHandle? {
        FinishGoal(call', k, call'.pc.goal, env);
      }
    }
  }

  /** One whole call on the machine, from its arrival to its return. */
  function Answer(w: World, req: Request, env: Env): World {
    Drive(Next(w, Begin(req, env.now, env.resolves)), |w.calls|, env)
  }

  lemma AnswerServes(w: World, req: Request, env: Env)
    requires w.up && Quiet(w)
    ensures Answer(w, req, env).core == Served(w.core, req, env).0
    ensures Quiet(Answer(w, req, env)) && Answer(w, req, env).up
  {
    var w1 := Next(w, Begin(req, env.now, env.resolves));
    DriveFinishes(w1, |w.calls|, env);
    DriveTouchesOne(w1, |w.calls|, env);
  }

  /** Serving a request is a serial run of the step machine, so everything proved of serial runs holds of it. */
  lemma AnswerIsRun(w: World, req: Request, env: Env) returns (steps: seq<Step>)
    requires w.up && Quiet(w)
    ensures Along(SerialStep, w, steps) && Exec(w, steps) == Answer(w, req, env)
  {
    var first := Begin(req, env.now, env.resolves);
    var w1 := Next(w, first);
    var rest := DriveIsRun(w1, |w.calls|, env);
    steps := [first] + rest;
    assert steps[1..] == rest;
    AdvancesAreSerial(w1, |w.calls|, rest);
  }

  function GoalOfRequest(k: Core, req: Request, now: i64): Goal {
    match req
    case Arm(sound, delay) => ArmGoal(sound, now, delay)
    case Snooze(seconds) =>
      if k.mem.sound.Some? then ArmGoal(k.mem.sound.value, now, 1000 * seconds) else DISARM_GOAL
    case _ => DISARM_GOAL
  }

  class Control {
    const daemon: AlarmDaemon
    const triggerDelay: nat
    var triggerTask: Option<nat>
    var tasks: seq<Task>
    var playing: Option<string>
    var clock: nat
    var signals: seq<bool>

    function View(): Core
      reads this, daemon, daemon.store
    {
      Core(daemon.state, triggerTask, tasks, playing, daemon.store.cell, clock, signals)
    }

    constructor (daemon: AlarmDaemon, triggerDelay: nat)
      ensures this.daemon == daemon && this.triggerDelay == triggerDelay
      ensures View() == Core(daemon.state, None, [], None, daemon.store.cell, 0, [])
    {
      this.daemon, this.triggerDelay := daemon, triggerDelay;
      triggerTask, tasks, playing, clock, signals := None, [], None, 0, [];
    }

    /** `cancel_pending`. */
    method CancelPending(stopOk: bool)
      modifies this`triggerTask, this`tasks, this`playing
      ensures View() == Cancelled(old(View()), stopOk)
    {
      if triggerTask.Some? {
        var t := triggerTask.value;
        triggerTask := None;
        if t < |tasks| && tasks[t].phase == Asleep {
          tasks := tasks[t := tasks[t].(phase := Aborted)];
        }
      }
      if stopOk {
        playing := None;
      }
    }

    /** `schedule_trigger_with_delay`; `None` is the InvalidArgs reply. */
    method ScheduleTriggerWithDelay(sound: string, delay: nat, env: Env) returns (r: Option<Transition>)
      modifies this`triggerTask, this`tasks, this`playing, daemon, daemon.store
      ensures !env.resolves ==> r == None && View() == old(View())
      ensures env.resolves ==>
                var g := ArmGoal(sound, env.now, delay);
                r == Some(TransitionOf(old(View()).mem, g.desired)) && View() == Carried(old(View()), g, env)
    {
      if !env.resolves {
        return None;
      }
      var fireAt := FireAt(env.now, delay);
      CancelPending(env.stopOk);
      var transition := daemon.ArmWithSound(sound, Some(fireAt), env.saveOk);
      var handle := |tasks|;
      tasks := tasks + [Task(sound, clock, delay, Asleep)];
      triggerTask := Some(handle);
      return Some(transition);
    }

    method EmitIfChanged(transition: Transition)
      modifies this`signals
      ensures signals == Announced(old(signals), transition)
    {
      if transition.Changed? {
        if transition.from != transition.to {
          signals := signals + [transition.to == Armed];
        }
      }
    }

    method Arm(sound: string, env: Env) returns (accepted: bool)
      modifies this`triggerTask, this`tasks, this`playing, this`signals, daemon, daemon.store
      ensures (View(), accepted) == Served(old(View()), Request.Arm(sound, triggerDelay), env)
    {
      RejectedExactly(View(), Request.Arm(sound, triggerDelay), env);
      var r := ScheduleTriggerWithDelay(sound, triggerDelay, env);
      if r.None? {
        return false;
      }
      EmitIfChanged(r.value);
      return true;
    }

    method Disarm(env: Env) returns (accepted: bool)
      modifies this`triggerTask, this`tasks, this`playing, this`signals, daemon, daemon.store
      ensures (View(), accepted) == Served(old(View()), Request.Disarm, env)
    {
      RejectedExactly(View(), Request.Disarm, env);
      CancelPending(env.stopOk);
      var t := daemon.Disarm(env.saveOk);
      EmitIfChanged(t);
      return true;
    }

    method Snooze(seconds: nat, env: Env) returns (accepted: bool)
      modifies this`triggerTask, this`tasks, this`playing, daemon, daemon.store
      ensures (View(), accepted) == Served(old(View()), Request.Snooze(seconds), env)
    {
      RejectedExactly(View(), Request.Snooze(seconds), env);
      if seconds == 0 {
        return false;
      }
      if daemon.state.sound.None? {
        return false;
      }
      var r := ScheduleTriggerWithDelay(daemon.state.sound.value, 1000 * seconds, env);
      return r.Some?;
    }

    method Dismiss(env: Env) returns (accepted: bool)
      modifies this`triggerTask, this`tasks, this`playing, this`signals, daemon, daemon.store
      ensures (View(), accepted) == Served(old(View()), Request.Dismiss, env)
    {
      RejectedExactly(View(), Request.Dismiss, env);
      CancelPending(env.stopOk);
      var t := daemon.Disarm(env.saveOk);
      EmitIfChanged(t);
      return true;
    }
  }
}
