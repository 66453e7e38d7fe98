/**
 What holds of the lifecycle when calls do not overlap. Trigger steps, failing
 saves and stops, crashes and restarts may still fall anywhere inside a call.
 */
module Serial {
  import opened Common
  import opened Daemon
  import opened Lifecycle
  import opened Concurrent

  /** The only call that may be in flight. */
  function Current(w: World): Call {
    if w.calls == [] then Call(Disarm, Done(true), w.core.mem, 0) else w.calls[|w.calls| - 1]
  }

  predicate OneAtATime(w: World) {
    forall c :: 0 <= c < |w.calls| - 1 ==> w.calls[c].pc.Done?
  }

  /** Lifts a property of the shared objects and the current call to every step of a serial run. */
  lemma SerialAdvance(w: World, c: nat, ok: bool, now: i64, resolves: bool)
    requires OneAtATime(w) && c < |w.calls|
    ensures var w' := AdvanceCall(w, c, ok, now, resolves);
            && OneAtATime(w')
            && if c == |w.calls| - 1 then
                 && w'.core == CoreAfter(Current(w), w.core, ok)
                 && Current(w') == Stepped(Current(w), w.core, |w.history|, now, resolves)
               else w' == w
  {
  }

  lemma QuietMeansDone(w: World)
    requires OneAtATime(w)
    ensures Quiet(w) <==> Current(w).pc.Done?
  {
  }

  // Triggers

  predicate AsleepAt(k: Core, t: int) {
    0 <= t < |k.tasks| && k.tasks[t].phase == Asleep
  }

  /** What a request may aim at. */
  predicate GoalFor(req: Request, g: Goal) {
    match req
    case Arm(_, _) => g.trigger.Some? && g.desired.status == Armed
    case Snooze(_) => g.trigger.Some? && g.desired.status == Armed
    case _ => g == DISARM_GOAL
  }

  /** The only sleeping trigger is the one whose handle is held, or about to be stored; and a held handle means Armed. */
  ghost predicate Tidy(k: Core, call: Call) {
    && (forall g :: GoalOf(call.pc, g) ==> GoalFor(call.req, g))
    && (k.handle.Some? ==> k.mem.status == Armed)
    && match call.pc
       case StopPlayer(_) => k.handle.None? && forall t :: !AsleepAt(k, t)
       case Transit(_) => k.handle.None? && forall t :: !AsleepAt(k, t)
       case Save(g, _) => k.mem == g.desired && k.handle.None? && forall t :: !AsleepAt(k, t)
       case Spawn(g, _) => k.mem == g.desired && k.handle.None? && forall t :: !AsleepAt(k, t)
       case KeepHandle(task, _) => k.mem.status == Armed && k.handle.None? && forall t :: AsleepAt(k, t) ==> t == task
       case _ => forall t :: AsleepAt(k, t) ==> k.handle == Some(t)
  }

  lemma TidyAfter(k: Core, call: Call, ticket: nat, ok: bool, now: i64, resolves: bool)
    requires Tidy(k, call)
    ensures Tidy(CoreAfter(call, k, ok), Stepped(call, k, ticket, now, resolves))
  {
    var k' := CoreAfter(call, k, ok);
    match call.pc
    case TakeHandle(g) =>
      assert GoalOf(call.pc, g);
      forall t ensures !AsleepAt(k', t) {
        assert AsleepAt(k, t) ==> k.handle == Some(t);
      }
    case StopPlayer(g) =>
      assert GoalOf(call.pc, g);
      assert forall t :: AsleepAt(k', t) <==> AsleepAt(k, t);
    case Transit(g) =>
      assert GoalOf(call.pc, g);
      assert forall t :: AsleepAt(k', t) <==> AsleepAt(k, t);
    case Save(g, _) =>
      assert GoalOf(call.pc, g);
      assert forall t :: AsleepAt(k', t) <==> AsleepAt(k, t);
    case Spawn(g, _) =>
      assert GoalOf(call.pc, g);
      assert forall t :: AsleepAt(k', t) ==> t == |k.tasks| || AsleepAt(k, t);
    case _ =>
      assert forall t :: AsleepAt(k', t) <==> AsleepAt(k, t);
  }

  ghost predicate TidyWorld(w: World) {
    && OneAtATime(w)
    && Tidy(w.core, Current(w))
    && (!w.up ==> w.calls == [] && w.core.handle.None? && forall t :: !AsleepAt(w.core, t))
  }

  lemma TidyAdvance(w: World, c: nat, ok: bool, now: i64, resolves: bool)
    requires TidyWorld(w) && w.up && c < |w.calls|
    ensures TidyWorld(AdvanceCall(w, c, ok, now, resolves))
  {
    SerialAdvance(w, c, ok, now, resolves);
    TidyAfter(w.core, Current(w), |w.history|, ok, now, resolves);
  }

  /** Steps outside calls that keep memory and handle, and put nothing to sleep. */
  lemma TidyElsewhere(k: Core, k': Core, call: Call)
    requires Tidy(k, call) && k'.mem == k.mem && k'.handle == k.handle
    requires forall t :: AsleepAt(k', t) ==> AsleepAt(k, t)
    ensures Tidy(k', call)
  {
  }

  lemma TidyCrash(w: World)
    ensures TidyWorld(Next(w, Crash))
  {
  }

  lemma TidyRestart(w: World, now: i64)
    requires TidyWorld(w)
    ensures TidyWorld(Next(w, Restart(now)))
  {
  }

  lemma TidyBegin(w: World, req: Request, now: i64, resolves: bool)
    requires TidyWorld(w) && Quiet(w)
    ensures TidyWorld(Next(w, Begin(req, now, resolves)))
  {
  }

  lemma TidyStep(w: World, step: Step)
    requires TidyWorld(w) && SerialStep(w, step)
    ensures TidyWorld(Next(w, step))
  {
    match step
    case Begin(req, now, resolves) => TidyBegin(w, req, now, resolves);
    case Advance(c, ok, now, resolves) =>
      if w.up && c < |w.calls| {
        TidyAdvance(w, c, ok, now, resolves);
      }
    case Crash => TidyCrash(w);
    case Restart(now) => TidyRestart(w, now);
    case _ =>
      var w' := Next(w, step);
      assert w'.calls == w.calls;
      TidyElsewhere(w.core, w'.core, Current(w));
  }

  /**
   In every serial run at most one trigger is asleep, and none is once the daemon is
   Disarmed with no call in flight.
   */
  lemma {:induction false} OneSleeper(w: World, steps: seq<Step>)
    requires TidyWorld(w) && Along(SerialStep, w, steps)
    ensures TidyWorld(Exec(w, steps))
    ensures var w' := Exec(w, steps);
            && (forall t, u :: AsleepAt(w'.core, t) && AsleepAt(w'.core, u) ==> t == u)
            && (Quiet(w') && w'.core.mem.status == Disarmed ==> forall t :: !AsleepAt(w'.core, t))
    decreases steps
  {
    if steps == [] {
      QuietMeansDone(w);
    } else {
      TidyStep(w, steps[0]);
      OneSleeper(Next(w, steps[0]), steps[1..]);
    }
  }

  /** No call that could schedule a trigger comes in. */
  predicate NoArmStep(w: World, step: Step) {
    SerialStep(w, step) && (step.Begin? ==> step.req.Disarm? || step.req.Dismiss?)
  }

  /** Disarmed, with at most a disarming call in flight and nothing asleep. */
  ghost predicate StoodDown(w: World) {
    && OneAtATime(w)
    && (Current(w).req.Disarm? || Current(w).req.Dismiss? || Current(w).pc.Done?)
    && (forall g :: GoalOf(Current(w).pc, g) ==> g == DISARM_GOAL)
    && !Current(w).pc.ReadSound? && !Current(w).pc.KeepHandle?
    && forall t :: !AsleepAt(w.core, t)
  }

  lemma StoodDownAdvance(w: World, c: nat, ok: bool, now: i64, resolves: bool)
    requires StoodDown(w) && c < |w.calls|
    ensures StoodDown(AdvanceCall(w, c, ok, now, resolves))
  {
    SerialAdvance(w, c, ok, now, resolves);
    var pc := Current(w).pc;
    if pc.TakeHandle? || pc.StopPlayer? || pc.Transit? || pc.Save? || pc.Spawn? {
      assert GoalOf(pc, pc.goal);
    }
    if c == |w.calls| - 1 {
      var k' := CoreAfter(Current(w), w.core, ok);
      forall t ensures !AsleepAt(k', t) {
        assert !AsleepAt(w.core, t);
      }
    }
  }

  lemma StoodDownStep(w: World, step: Step)
    requires StoodDown(w) && NoArmStep(w, step)
    ensures StoodDown(Next(w, step))
  {
    if step.Advance? {
      if w.up && step.c < |w.calls| {
        StoodDownAdvance(w, step.c, step.ok, step.now, step.resolves);
      }
    } else {
      QuietMeansDone(w);
      forall t ensures !AsleepAt(Next(w, step).core, t) {
        assert !AsleepAt(w.core, t);
      }
    }
  }

  /**
   Once stood down, and until the next Arm or Snooze, any sound that still starts
   comes from a trigger that was already past its sleep: abort could not stop it.
   */
  lemma {:induction false} LatePlays(w: World, steps: seq<Step>)
    requires StoodDown(w) && Along(NoArmStep, w, steps)
    ensures w.plays <= Exec(w, steps).plays
    ensures forall i :: |w.plays| <= i < |Exec(w, steps).plays| ==>
              var t := Exec(w, steps).plays[i].task; t < |w.core.tasks| && w.core.tasks[t].phase == Awake
    decreases steps
  {
    if steps != [] {
      var w1 := Next(w, steps[0]);
      StoodDownStep(w, steps[0]);
      LatePlays(w1, steps[1..]);
      AwakeBefore(w, steps[0]);
      var last := Exec(w, steps).plays;
      assert w1.plays == w.plays || (steps[0].Fire? && w1.plays == w.plays + [Play(steps[0].t, w.core.clock)]);
      forall i | |w.plays| <= i < |last|
        ensures last[i].task < |w.core.tasks| && w.core.tasks[last[i].task].phase == Awake
      {
        if i < |w1.plays| {
          assert last[i] == w1.plays[i];
        }
      }
    }
  }

  /** With nothing asleep, a task awake after a step was awake before it. */
  lemma AwakeBefore(w: World, step: Step)
    requires forall t :: !AsleepAt(w.core, t)
    ensures var k' := Next(w, step).core;
            forall t :: 0 <= t < |k'.tasks| && k'.tasks[t].phase == Awake ==>
              t < |w.core.tasks| && w.core.tasks[t].phase == Awake
  {
    if step.Wake? {
      assert !AsleepAt(w.core, step.t);
    }
  }

  /** A completed Disarm or Dismiss leaves the daemon stood down. */
  lemma DisarmStandsDown(w: World)
    requires TidyWorld(w) && Quiet(w) && w.core.mem.status == Disarmed
    ensures StoodDown(w)
  {
  }
}
