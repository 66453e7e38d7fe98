/**
 Why the serial results need their hypotheses: runs of overlapping calls that end
 quiet and in a wrong state, from any running daemon and for any sounds and delays.
 */
module Overlap {
  import opened Common
  import opened Daemon
  import opened Lifecycle
  import opened Serial
  import opened Control
  import Codec

  /** All goes well at clock `now`. */
  function Fine(now: i64): Env {
    Env(now, true, true, true)
  }

  /** Call `c` takes its next `n` steps. */
  function Paces(w: World, c: nat, n: nat): World
    decreases n
  {
    if n == 0 then w else Paces(Next(w, Advance(c, true, 0, true)), c, n - 1)
  }

  lemma {:induction false} PacesIsRun(w: World, c: nat, n: nat) returns (steps: seq<Step>)
    ensures Exec(w, steps) == Paces(w, c, n)
    decreases n
  {
    if n == 0 {
      steps := [];
    } else {
      var step := Advance(c, true, 0, true);
      var rest := PacesIsRun(Next(w, step), c, n - 1);
      steps := [step] + rest;
      assert steps[1..] == rest;
    }
  }

  lemma TwoSteps(w: World, a: Step, b: Step)
    ensures Exec(w, [a, b]) == Next(Next(w, a), b)
  {
    assert [a, b][1..] == [b];
    assert Exec(Next(w, a), [b]) == Exec(Next(Next(w, a), b), [b][1..]);
  }

  /** The rest of a call from a given point on, as the other calls see it. */
  lemma DriveEnds(w: World, c: nat, now: i64, k: Core)
    requires c < |w.calls| && Finish(w.calls[c], w.core, Fine(now)) == (k, true)
    ensures var w' := Drive(w, c, Fine(now));
            && w'.core == k && w'.calls[c].pc.Done?
            && forall d :: 0 <= d < |w.calls| && d != c ==> w'.calls[d] == w.calls[d]
  {
    DriveFinishes(w, c, Fine(now));
    DriveTouchesOne(w, c, Fine(now));
  }

  // Triggers that survive Disarm

  /** What an Arm, with a sound that resolves, or a Disarm aims at. */
  function Aim(req: Request, now: i64): Goal {
    if req.Arm? then ArmGoal(req.sound, now, req.delay) else DISARM_GOAL
  }

  /** An Arm and `b` come in together, and `b` looks for a handle to cancel before the Arm has stored its own. */
  function Crossed(w: World, a: Request, b: Request, now: i64): World {
    var c := |w.calls|;
    var w1 := Next(Next(w, Begin(a, now, true)), Begin(b, now, true));
    var w2 := Paces(w1, c + 1, 1);
    Drive(Drive(w2, c, Fine(now)), c + 1, Fine(now))
  }

  /** The shared objects after the crossing. */
  function CrossedCore(k: Core, a: Request, b: Request, now: i64): Core {
    var ga, gb := Aim(a, now), Aim(b, now);
    var k1 := Reported(Carried(HandleTaken(k), ga, Fine(now)), a, TransitionOf(k.mem, ga.desired));
    Reported(Scheduled(Switched(PlayerStopped(k1, true), gb.desired, true), gb.trigger), b, TransitionOf(k1.mem, gb.desired))
  }

  lemma CrossedCalls(w: World, a: Request, b: Request, now: i64)
    requires w.up && Quiet(w) && a.Arm? && (b.Arm? || b.Disarm?)
    ensures var w' := Crossed(w, a, b, now);
            w'.up && Quiet(w') && w'.core == CrossedCore(w.core, a, b, now)
  {
    var c, env := |w.calls|, Fine(now);
    var ga, gb := Aim(a, now), Aim(b, now);
    var w1 := Next(Next(w, Begin(a, now, true)), Begin(b, now, true));
    var w2 := Next(w1, Advance(c + 1, true, 0, true));
    assert Paces(w1, c + 1, 1) == Paces(w2, c + 1, 0);
    assert w2.calls[c] == Call(a, TakeHandle(ga), w.core.mem, 0);
    assert w2.calls[c + 1] == Call(b, StopPlayer(gb), w.core.mem, 0);
    assert w2.core == HandleTaken(w.core);
    FinishGoal(w2.calls[c], w2.core, ga, env);
    var k1 := Reported(Carried(w2.core, ga, env), a, TransitionOf(w.core.mem, ga.desired));
    DriveEnds(w2, c, now, k1);
    var w3 := Drive(w2, c, env);
    FinishStop(w3.calls[c + 1], k1, gb, env);
    DriveEnds(w3, c + 1, now, CrossedCore(w.core, a, b, now));
  }

  lemma CrossedCoreSleeps(k: Core, a: Request, b: Request, now: i64)
    requires a.Arm?
    ensures var k' := CrossedCore(k, a, b, now);
            && |k'.tasks| == |k.tasks| + (if b.Arm? then 2 else 1)
            && k'.mem == Aim(b, now).desired
            && k'.handle == Some(|k'.tasks| - 1)
            && AsleepAt(k', |k.tasks|)
  {
  }

  lemma FinishStop(call: Call, k: Core, g: Goal, env: Env)
    requires call.pc == StopPlayer(g)
    ensures Finish(call, k, env)
            == (Reported(Scheduled(Switched(PlayerStopped(k, env.stopOk), g.desired, env.saveOk), g.trigger),
                         call.req, TransitionOf(k.mem, g.desired)), true)
  {
    var k1 := PlayerStopped(k, env.stopOk);
    assert Finish(call, k, env) == Finish(call.(pc := Transit(g)), k1, env);
    FinishTransit(call.(pc := Transit(g)), k1, g, env);
  }

  /** Two overlapping Arms and then a Disarm: it returns with the daemon Disarmed and a trigger still asleep, which will ring. */
  lemma OverlappingArmsLeak(w: World, a: Request, b: Request, now: i64) returns (steps: seq<Step>)
    requires w.up && Quiet(w) && a.Arm? && b.Arm?
    ensures var w' := Exec(w, steps);
            w'.up && Quiet(w') && w'.core.mem == DISARMED && AsleepAt(w'.core, |w.core.tasks|)
  {
    steps := CrossedRun(w, a, b, now);
    CrossedCalls(w, a, b, now);
    CrossedCoreSleeps(w.core, a, b, now);
    var w1 := Crossed(w, a, b, now);
    AnswerServes(w1, Disarm, Fine(now));
    RejectedExactly(w1.core, Disarm, Fine(now));
    var last := AnswerIsRun(w1, Disarm, Fine(now));
    ExecAppend(w, steps, last);
    steps := steps + last;
  }

  /** A Disarm that has looked for a trigger to cancel just before an Arm stores one: it returns with the daemon Disarmed and that trigger asleep. */
  lemma DisarmMissesArm(w: World, a: Request, now: i64) returns (steps: seq<Step>)
    requires w.up && Quiet(w) && a.Arm?
    ensures var w' := Exec(w, steps);
            && w'.up && Quiet(w') && w'.core.mem == DISARMED
            && w'.core.handle == Some(|w.core.tasks|) && AsleepAt(w'.core, |w.core.tasks|)
  {
    steps := CrossedRun(w, a, Disarm, now);
    CrossedCalls(w, a, Disarm, now);
    CrossedCoreSleeps(w.core, a, Disarm, now);
  }

  /** An Arm has saved its state when a Disarm comes in. */
  function ArmCaught(w: World, a: Request, now: i64): World {
    Paces(Next(Next(w, Begin(a, now, true)), Begin(Disarm, now, true)), |w.calls|, 4)
  }

  lemma ArmCaughtCalls(w: World, a: Request, now: i64)
    requires w.up && Quiet(w) && a.Arm? && w.core.mem.status == Disarmed
    ensures var c, w2, g := |w.calls|, ArmCaught(w, a, now), Aim(a, now);
            && w2.up && |w2.calls| == c + 2
            && (forall d :: 0 <= d < c ==> w2.calls[d].pc.Done?)
            && w2.calls[c].req == a && w2.calls[c].pc == Spawn(g, Changed(Disarmed, Armed))
            && w2.calls[c + 1] == Call(Disarm, TakeHandle(DISARM_GOAL), w.core.mem, 0)
            && w2.core == Switched(Cancelled(w.core, true), g.desired, true)
  {
    var c, g := |w.calls|, Aim(a, now);
    var w1 := Next(Next(w, Begin(a, now, true)), Begin(Disarm, now, true));
    PacesSplit(w1, c, 3, 1);
    ThreePaces(w1, c, g);
    SavePace(Paces(w1, c, 3), c);
  }

  lemma SavePace(w: World, c: nat)
    requires w.up && c < |w.calls| && w.calls[c].pc.Save?
    ensures var w', g := Paces(w, c, 1), w.calls[c].pc.goal;
            && w'.up && w'.core == w.core.(cell := Commit(w.core.cell, g.desired, true))
            && w'.calls == w.calls[c := w.calls[c].(pc := AfterSave(g, Changed(w.calls[c].pc.from, g.desired.status)))]
  {
    assert Paces(w, c, 1) == Paces(Next(w, Advance(c, true, 0, true)), c, 0);
  }

  lemma {:induction false} PacesSplit(w: World, c: nat, m: nat, n: nat)
    ensures Paces(w, c, m + n) == Paces(Paces(w, c, m), c, n)
    decreases m
  {
    if m > 0 {
      PacesSplit(Next(w, Advance(c, true, 0, true)), c, m - 1, n);
    }
  }

  /** What the Disarm, and then the rest of the Arm, make of the shared objects. */
  lemma DisarmThenSpawn(k: Core, g: Goal, a: Request, env: Env)
    requires env.stopOk && a.Arm? && k.mem.status == Armed && g.trigger.Some? && k.handle.None?
    ensures var k1 := Reported(Carried(k, DISARM_GOAL, env), Disarm, TransitionOf(k.mem, DISARMED));
            var k2 := Reported(Scheduled(k1, g.trigger), a, Changed(Disarmed, Armed));
            && k2.mem == DISARMED && k2.handle == Some(|k.tasks|) && k2.signals == k.signals + [false, true]
            && k2.tasks == k.tasks + [Task(g.trigger.value.sound, k.clock, g.trigger.value.delay, Asleep)]
  {
  }

  /** The moments after: the trigger's delay passes and it fires. */
  function ItsTurn(t: nat, delay: nat): seq<Step> {
    [Tick(delay), Wake(t), Fire(t, true)]
  }

  lemma ItRings(w: World, t: nat)
    requires w.up && AsleepAt(w.core, t) && w.core.tasks[t].born == w.core.clock
    ensures Exec(w, ItsTurn(t, w.core.tasks[t].delay)).core.playing == Some(w.core.tasks[t].sound)
  {
    var delay := w.core.tasks[t].delay;
    var steps := ItsTurn(t, delay);
    assert steps[1..] == [Wake(t), Fire(t, true)];
    var w1 := Next(w, Tick(delay));
    TwoSteps(w1, Wake(t), Fire(t, true));
  }

  /** The shared objects when both calls have returned. */
  function OvertakenCore(k: Core, a: Request, now: i64): Core {
    var env := Fine(now);
    var k1 := Reported(Carried(k, DISARM_GOAL, env), Disarm, TransitionOf(k.mem, DISARMED));
    Reported(Scheduled(k1, Aim(a, now).trigger), a, Changed(Disarmed, Armed))
  }

  /** The Disarm runs to its end, and then the rest of the Arm. */
  lemma DisarmThenRest(w: World, c: nat, a: Request, g: Goal, change: Transition, now: i64)
    requires |w.calls| == c + 2 && w.calls[c].req == a && w.calls[c].pc == AfterSave(g, change)
    requires w.calls[c + 1].req == Disarm && w.calls[c + 1].pc == TakeHandle(DISARM_GOAL)
    requires forall d :: 0 <= d < c ==> w.calls[d].pc.Done?
    ensures var w' := Drive(Drive(w, c + 1, Fine(now)), c, Fine(now));
            var k1 := Reported(Carried(w.core, DISARM_GOAL, Fine(now)), Disarm, TransitionOf(w.core.mem, DISARMED));
            Quiet(w') && w'.core == Reported(Scheduled(k1, g.trigger), a, change)
  {
    var env := Fine(now);
    var k1 := Reported(Carried(w.core, DISARM_GOAL, env), Disarm, TransitionOf(w.core.mem, DISARMED));
    FinishGoal(w.calls[c + 1], w.core, DISARM_GOAL, env);
    DriveEnds(w, c + 1, now, k1);
    var w1 := Drive(w, c + 1, env);
    FinishSchedule(w1.calls[c], k1, g, change, env);
    DriveEnds(w1, c, now, Reported(Scheduled(k1, g.trigger), a, change));
  }

  lemma OvertakenCalls(w: World, a: Request, now: i64)
    requires w.up && Quiet(w) && a.Arm? && w.core.mem.status == Disarmed
    ensures var c, w2 := |w.calls|, ArmCaught(w, a, now);
            var w' := Drive(Drive(w2, c + 1, Fine(now)), c, Fine(now));
            w2.up && |w2.calls| == c + 2 && w'.up && Quiet(w') && w'.core == OvertakenCore(w2.core, a, now)
  {
    ArmCaughtCalls(w, a, now);
    DisarmThenRest(ArmCaught(w, a, now), |w.calls|, a, Aim(a, now), Changed(Disarmed, Armed), now);
  }

  lemma CaughtCore(k: Core, desired: State)
    requires desired.status == Armed
    ensures var k' := Switched(Cancelled(k, true), desired, true);
            && k'.mem == desired && k'.handle.None? && k'.signals == k.signals
            && |k'.tasks| == |k.tasks| && k'.clock == k.clock
  {
  }

  lemma OvertakenCoreSleeps(k: Core, a: Request, now: i64)
    requires a.Arm? && k.mem.status == Armed && k.handle.None?
    ensures var k', t := OvertakenCore(k, a, now), |k.tasks|;
            && k'.mem == DISARMED && k'.handle == Some(t) && k'.signals == k.signals + [false, true]
            && |k'.tasks| == t + 1 && k'.tasks[t] == Task(a.sound, k'.clock, a.delay, Asleep)
  {
    DisarmThenSpawn(k, Aim(a, now), a, Fine(now));
  }

  /**
   One Arm overtaken by one Disarm: the daemon ends quiet and Disarmed, its last
   StateChanged says Armed, and the Arm's trigger is asleep and held, and rings when
   its delay has passed.
   */
  lemma OvertakenArmRings(w: World, a: Request, now: i64) returns (steps: seq<Step>)
    requires w.up && Quiet(w) && a.Arm? && w.core.mem.status == Disarmed
    ensures var w', t := Exec(w, steps), |w.core.tasks|;
            && w'.up && Quiet(w') && w'.core.mem == DISARMED
            && w'.core.handle == Some(t) && AsleepAt(w'.core, t)
            && w'.core.signals == w.core.signals + [false, true]
            && Exec(w', ItsTurn(t, a.delay)).core.playing == Some(a.sound)
  {
    ArmCaughtCalls(w, a, now);
    CaughtCore(w.core, Aim(a, now).desired);
    OvertakenCalls(w, a, now);
    OvertakenCoreSleeps(ArmCaught(w, a, now).core, a, now);
    steps := ArmCaughtRun(w, a, now);
    steps := TwoDrives(w, steps, ArmCaught(w, a, now), |w.calls| + 1, |w.calls|, now);
    ItRings(Exec(w, steps), |w.core.tasks|);
  }

  lemma ArmCaughtRun(w: World, a: Request, now: i64) returns (steps: seq<Step>)
    ensures Exec(w, steps) == ArmCaught(w, a, now)
  {
    steps := [Begin(a, now, true), Begin(Disarm, now, true)];
    TwoSteps(w, steps[0], steps[1]);
    var rest := PacesIsRun(Exec(w, steps), |w.calls|, 4);
    ExecAppend(w, steps, rest);
    steps := steps + rest;
  }

  lemma CrossedRun(w: World, a: Request, b: Request, now: i64) returns (steps: seq<Step>)
    requires w.up
    ensures Exec(w, steps) == Crossed(w, a, b, now)
  {
    var c, env := |w.calls|, Fine(now);
    steps := [Begin(a, now, true), Begin(b, now, true)];
    TwoSteps(w, steps[0], steps[1]);
    var w1 := Exec(w, steps);
    var s2 := PacesIsRun(w1, c + 1, 1);
    ExecAppend(w, steps, s2);
    var w2 := Paces(w1, c + 1, 1);
    steps := TwoDrives(w, steps + s2, w2, c, c + 1, now);
  }

  /** A run that reaches `mid`, then two calls run to their ends. */
  lemma TwoDrives(w: World, before: seq<Step>, mid: World, c: nat, d: nat, now: i64) returns (steps: seq<Step>)
    requires Exec(w, before) == mid && mid.up && c < |mid.calls| && d < |mid.calls|
    ensures Exec(w, steps) == Drive(Drive(mid, c, Fine(now)), d, Fine(now))
  {
    var s1 := DriveIsRun(mid, c, Fine(now));
    ExecAppend(w, before, s1);
    var s2 := DriveIsRun(Drive(mid, c, Fine(now)), d, Fine(now));
    ExecAppend(w, before + s1, s2);
    steps := before + s1 + s2;
  }

  // A store that goes back in time

  /** An Arm and then a Disarm have taken the lock, and neither has saved. */
  function BothWaiting(w: World, a: Request, now: i64): World {
    var c := |w.calls|;
    var w1 := Next(Next(w, Begin(a, now, true)), Begin(Disarm, now, true));
    Paces(Paces(w1, c, 3), c + 1, 3)
  }

  lemma ThreePaces(w: World, c: nat, g: Goal)
    requires w.up && c < |w.calls| && w.calls[c].pc == TakeHandle(g) && w.core.mem != g.desired
    ensures var w' := Paces(w, c, 3);
            && w'.up && w'.calls == w.calls[c := w.calls[c].(pc := Save(g, w.core.mem.status), ticket := |w.history|)]
            && w'.core == Cancelled(w.core, true).(mem := g.desired)
  {
  }

  lemma FinishSave(call: Call, k: Core, env: Env)
    requires call.pc.Save? && env.saveOk
    ensures var g := call.pc.goal;
            Finish(call, k, env)
            == (Reported(Scheduled(k.(cell := Commit(k.cell, g.desired, true)), g.trigger), call.req,
                         Changed(call.pc.from, g.desired.status)), true)
  {
    var g, change := call.pc.goal, Changed(call.pc.from, call.pc.goal.desired.status);
    FinishSchedule(call.(pc := AfterSave(g, change)), k.(cell := Commit(k.cell, g.desired, true)), g, change, env);
  }

  /** Saves out of lock order leave a quiet daemon Disarmed in memory and Armed on disk. */
  lemma ReorderedSavesRevert(w: World, a: Request, now: i64) returns (steps: seq<Step>)
    requires w.up && Quiet(w) && a.Arm? && w.core.mem == DISARMED && Codec.Fits(Some(a.sound))
    ensures var w' := Exec(w, steps);
            && w'.up && Quiet(w') && w'.core.mem == DISARMED
            && Recovered(w'.core.cell) == Ok(ArmGoal(a.sound, now, a.delay).desired)
  {
    var c := |w.calls|;
    var g := ArmGoal(a.sound, now, a.delay);
    var w3 := BothWaiting(w, a, now);
    BothWaitingCalls(w, a, now);
    BackwardsFinish(w3, c, g, now);
    steps := BothWaitingRun(w, a, now);
    steps := TwoDrives(w, steps, w3, c + 1, c, now);
  }

  lemma BothWaitingCalls(w: World, a: Request, now: i64)
    requires w.up && Quiet(w) && a.Arm? && w.core.mem == DISARMED
    ensures var c, w3 := |w.calls|, BothWaiting(w, a, now);
            && w3.up && |w3.calls| == c + 2 && w3.core.mem == DISARMED
            && (forall d :: 0 <= d < c ==> w3.calls[d].pc.Done?)
            && w3.calls[c].pc.Save? && w3.calls[c].pc.goal == ArmGoal(a.sound, now, a.delay)
            && w3.calls[c + 1].pc.Save? && w3.calls[c + 1].pc.goal == DISARM_GOAL
  {
    var c := |w.calls|;
    var w1 := Next(Next(w, Begin(a, now, true)), Begin(Disarm, now, true));
    ThreePaces(w1, c, ArmGoal(a.sound, now, a.delay));
    ThreePaces(Paces(w1, c, 3), c + 1, DISARM_GOAL);
  }

  lemma BothWaitingRun(w: World, a: Request, now: i64) returns (steps: seq<Step>)
    ensures Exec(w, steps) == BothWaiting(w, a, now)
  {
    var c := |w.calls|;
    steps := [Begin(a, now, true), Begin(Disarm, now, true)];
    TwoSteps(w, steps[0], steps[1]);
    var w1 := Exec(w, steps);
    var s1 := PacesIsRun(w1, c, 3);
    ExecAppend(w, steps, s1);
    var s2 := PacesIsRun(Paces(w1, c, 3), c + 1, 3);
    ExecAppend(w, steps + s1, s2);
    steps := steps + s1 + s2;
  }

  /** A call waiting to save runs to its end. */
  lemma SaveFinish(w: World, c: nat, now: i64)
    requires c < |w.calls| && w.calls[c].pc.Save?
    ensures var w', g := Drive(w, c, Fine(now)), w.calls[c].pc.goal;
            && w'.calls[c].pc.Done? && (forall d :: 0 <= d < |w.calls| && d != c ==> w'.calls[d] == w.calls[d])
            && w'.core.mem == w.core.mem && w'.core.cell == Commit(w.core.cell, g.desired, true)
  {
    DriveFinishes(w, c, Fine(now));
    DriveTouchesOne(w, c, Fine(now));
    FinishSave(w.calls[c], w.core, Fine(now));
  }

  lemma BackwardsFinish(w: World, c: nat, g: Goal, now: i64)
    requires c + 2 == |w.calls| && w.calls[c].pc.Save? && w.calls[c + 1].pc.Save?
    requires w.calls[c].pc.goal == g && w.calls[c + 1].pc.goal == DISARM_GOAL
    requires w.core.mem == DISARMED && Codec.Fits(g.desired.sound)
    requires forall d :: 0 <= d < c ==> w.calls[d].pc.Done?
    ensures var w' := Drive(Drive(w, c + 1, Fine(now)), c, Fine(now));
            Quiet(w') && w'.core.mem == DISARMED && Recovered(w'.core.cell) == Ok(g.desired)
  {
    SaveFinish(w, c + 1, now);
    var w1 := Drive(w, c + 1, Fine(now));
    SaveFinish(w1, c, now);
    CommitRecovers(w1.core.cell, g.desired);
  }

  // A change nobody hears about

  /** A Snooze has read the selected sound, and a Disarm comes in. */
  function SnoozeCaught(w: World, seconds: nat, now: i64): World {
    Next(Next(Next(w, Begin(Snooze(seconds), now, true)), Advance(|w.calls|, true, now, true)), Begin(Disarm, now, true))
  }

  lemma SnoozeCaughtCalls(w: World, seconds: nat, now: i64)
    requires w.up && Quiet(w) && seconds > 0 && w.core.mem.sound.Some?
    ensures var c, w2 := |w.calls|, SnoozeCaught(w, seconds, now);
            && w2.up && w2.core == w.core && |w2.calls| == c + 2
            && (forall d :: 0 <= d < c ==> w2.calls[d].pc.Done?)
            && w2.calls[c] == Call(Snooze(seconds), TakeHandle(ArmGoal(w.core.mem.sound.value, now, 1000 * seconds)), w.core.mem, 0)
            && w2.calls[c + 1] == Call(Disarm, TakeHandle(DISARM_GOAL), w.core.mem, 0)
  {
  }

  lemma DisarmThenArm(k: Core, g: Goal, env: Env)
    requires k.mem.status == Armed && g.desired.status == Armed
    ensures var k1 := Reported(Carried(k, DISARM_GOAL, env), Disarm, TransitionOf(k.mem, DISARMED));
            Carried(k1, g, env).mem.status == Armed && Carried(k1, g, env).signals == k.signals + [false]
  {
  }

  /** A Disarm that overtakes a Snooze: the daemon ends Armed, and the last StateChanged said it is not. */
  lemma OvertakenSnoozeIsSilent(w: World, seconds: nat, now: i64) returns (steps: seq<Step>)
    requires w.up && Quiet(w) && seconds > 0 && w.core.mem.status == Armed && w.core.mem.sound.Some?
    ensures var w' := Exec(w, steps);
            && w'.up && Quiet(w') && w'.core.mem.status == Armed
            && w'.core.signals == w.core.signals + [false]
  {
    var c, env := |w.calls|, Fine(now);
    var g := ArmGoal(w.core.mem.sound.value, now, 1000 * seconds);
    var w2 := SnoozeCaught(w, seconds, now);
    SnoozeCaughtCalls(w, seconds, now);
    var k1 := Reported(Carried(w.core, DISARM_GOAL, env), Disarm, TransitionOf(w.core.mem, DISARMED));
    FinishGoal(w2.calls[c + 1], w2.core, DISARM_GOAL, env);
    DriveEnds(w2, c + 1, now, k1);
    var w3 := Drive(w2, c + 1, env);
    FinishGoal(w3.calls[c], k1, g, env);
    DriveEnds(w3, c, now, Carried(k1, g, env));
    DisarmThenArm(w.core, g, env);
    steps := SnoozeCaughtRun(w, seconds, now);
    steps := TwoDrives(w, steps, w2, c + 1, c, now);
  }

  lemma SnoozeCaughtRun(w: World, seconds: nat, now: i64) returns (steps: seq<Step>)
    ensures Exec(w, steps) == SnoozeCaught(w, seconds, now)
  {
    steps := [Begin(Snooze(seconds), now, true), Advance(|w.calls|, true, now, true)];
    TwoSteps(w, steps[0], steps[1]);
    var last := [Begin(Disarm, now, true)];
    ExecAppend(w, steps, last);
    assert Exec(Exec(w, steps), last) == Exec(Next(Exec(w, steps), last[0]), last[1..]);
    steps := steps + last;
  }

  /** Even serially, an accepted Snooze changes the status without a signal exactly when it finds a Disarmed daemon with a sound selected, as only a malformed store provides. */
  lemma SnoozeSilentExactly(w: World, seconds: nat, env: Env)
    requires w.up && Quiet(w)
    ensures var w' := Answer(w, Snooze(seconds), env);
            && w'.core.signals == w.core.signals
            && (w'.core.mem.status != w.core.mem.status <==>
                  w.core.mem.status == Disarmed && w.core.mem.sound.Some? && seconds > 0 && env.resolves)
  {
    AnswerServes(w, Snooze(seconds), env);
    RejectedExactly(w.core, Snooze(seconds), env);
  }
}
