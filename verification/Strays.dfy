/**
 Triggers that a Disarm does not reach, however calls overlap: which steps bring them
 about, and which get rid of them.
 */
module Strays {
  import opened Common
  import opened Daemon
  import opened Lifecycle
  import opened Serial

  /** Some call has spawned task `t` and has yet to store its handle. */
  ghost predicate Claimed(calls: seq<Call>, t: nat) {
    exists c :: 0 <= c < |calls| && calls[c].pc.KeepHandle? && calls[c].pc.task == t
  }

  /** Asleep, with no handle to it stored or about to be: no call can cancel it any more. */
  ghost predicate Orphan(w: World, t: nat) {
    AsleepAt(w.core, t) && w.core.handle != Some(t) && !Claimed(w.calls, t)
  }

  /** Asleep and out of place: beyond cancelling, or held by a daemon that is Disarmed. */
  ghost predicate Stray(w: World, t: nat) {
    Orphan(w, t) || (AsleepAt(w.core, t) && w.core.handle == Some(t) && w.core.mem.status == Disarmed)
  }

  /** Handles stored and about to be stored are of different, known tasks; a daemon that is down has none. */
  ghost predicate Numbered(w: World) {
    && (w.core.handle.Some? ==> w.core.handle.value < |w.core.tasks|)
    && (forall c :: 0 <= c < |w.calls| && w.calls[c].pc.KeepHandle? ==>
          w.calls[c].pc.task < |w.core.tasks| && w.core.handle != Some(w.calls[c].pc.task))
    && (forall c, d :: 0 <= c < d < |w.calls| && w.calls[c].pc.KeepHandle? && w.calls[d].pc.KeepHandle? ==>
          w.calls[c].pc.task != w.calls[d].pc.task)
    && (!w.up ==> w.calls == [] && w.core.handle.None? && forall t :: !AsleepAt(w.core, t))
  }

  lemma NumberedStep(w: World, step: Step)
    requires Numbered(w)
    ensures Numbered(Next(w, step))
  {
    if step.Advance? && w.up && step.c < |w.calls| {
      NumberedAdvance(w, step.c, step.ok, step.now, step.resolves);
    } else if !w.up && !step.Crash? {
      assert Next(w, step).core.tasks == w.core.tasks;
      assert forall t :: AsleepAt(Next(w, step).core, t) <==> AsleepAt(w.core, t);
    }
  }

  lemma NumberedAdvance(w: World, c: nat, ok: bool, now: i64, resolves: bool)
    requires Numbered(w) && w.up && c < |w.calls|
    ensures Numbered(AdvanceCall(w, c, ok, now, resolves))
  {
    HandlesAfter(w.calls[c], w.core, ok, now, resolves);
  }

  /** Which steps touch the slot and the table. */
  lemma HandlesAfter(call: Call, k: Core, ok: bool, now: i64, resolves: bool)
    ensures var k', pc' := CoreAfter(call, k, ok), PcAfter(call, k, now, resolves);
            && |k.tasks| <= |k'.tasks|
            && (pc'.KeepHandle? <==> call.pc.Spawn? && call.pc.goal.trigger.Some?)
            && (pc'.KeepHandle? ==> pc'.task == |k.tasks| < |k'.tasks|)
            && k'.handle == (if call.pc.TakeHandle? then None else if call.pc.KeepHandle? then Some(call.pc.task) else k.handle)
            && k'.mem == (if call.pc.Transit? then call.pc.goal.desired else k.mem)
  {
  }

  // One step

  predicate Advances(w: World, step: Step) {
    step.Advance? && w.up && step.c < |w.calls|
  }

  /** A call stores its handle over that of `t`, still asleep. */
  predicate Displaces(w: World, step: Step, t: nat) {
    Advances(w, step) && w.calls[step.c].pc.KeepHandle? && w.core.handle == Some(t) && AsleepAt(w.core, t)
  }

  /** A call stores the handle of `t`, still asleep, after a Disarm has gone through. */
  predicate KeepsLate(w: World, step: Step, t: nat) {
    && Advances(w, step) && w.calls[step.c].pc.KeepHandle? && w.calls[step.c].pc.task == t
    && AsleepAt(w.core, t) && w.core.mem.status == Disarmed
  }

  /** A Disarm goes through after `t`, still asleep, was put where it had already looked. */
  predicate DisarmsLate(w: World, step: Step, t: nat) {
    && Advances(w, step) && w.calls[step.c].pc.Transit? && w.calls[step.c].pc.goal.desired.status == Disarmed
    && w.core.handle == Some(t) && AsleepAt(w.core, t)
  }

  predicate Strands(w: World, step: Step, t: nat) {
    Displaces(w, step, t) || KeepsLate(w, step, t) || DisarmsLate(w, step, t)
  }

  /** `t` wakes up, dies with the process, or is held and cancelled or armed again. */
  predicate Rescues(w: World, step: Step, t: nat) {
    match step
    case Wake(u) =>
      u == t && w.up && t < |w.core.tasks| && w.core.clock >= w.core.tasks[t].born + w.core.tasks[t].delay
    case Crash => true
    case Advance(_, _, _, _) =>
      && Advances(w, step) && w.core.handle == Some(t)
      && var pc := w.calls[step.c].pc; pc.TakeHandle? || (pc.Transit? && pc.goal.desired.status == Armed)
    case _ => false
  }

  lemma SleepersAfter(call: Call, k: Core, ok: bool, t: nat)
    ensures AsleepAt(CoreAfter(call, k, ok), t) <==>
              || (AsleepAt(k, t) && !(call.pc.TakeHandle? && k.handle == Some(t)))
              || (call.pc.Spawn? && call.pc.goal.trigger.Some? && t == |k.tasks|)
  {
  }

  lemma ClaimedAfter(w: World, c: nat, ok: bool, now: i64, resolves: bool, t: nat)
    requires Numbered(w) && w.up && c < |w.calls|
    ensures Claimed(AdvanceCall(w, c, ok, now, resolves).calls, t) <==>
              || (Claimed(w.calls, t) && !(w.calls[c].pc.KeepHandle? && w.calls[c].pc.task == t))
              || (w.calls[c].pc.Spawn? && w.calls[c].pc.goal.trigger.Some? && t == |w.core.tasks|)
  {
    var w' := AdvanceCall(w, c, ok, now, resolves);
    HandlesAfter(w.calls[c], w.core, ok, now, resolves);
    if Claimed(w'.calls, t) {
      var d :| 0 <= d < |w'.calls| && w'.calls[d].pc.KeepHandle? && w'.calls[d].pc.task == t;
      assert d != c ==> w.calls[d] == w'.calls[d];
    }
    if Claimed(w.calls, t) {
      var d :| 0 <= d < |w.calls| && w.calls[d].pc.KeepHandle? && w.calls[d].pc.task == t;
      assert d != c ==> w'.calls[d] == w.calls[d];
    }
    if w.calls[c].pc.Spawn? && w.calls[c].pc.goal.trigger.Some? {
      assert w'.calls[c].pc.KeepHandle? && w'.calls[c].pc.task == |w.core.tasks|;
    }
  }

  lemma AdvanceExactly(w: World, c: nat, ok: bool, now: i64, resolves: bool, t: nat)
    requires Numbered(w) && w.up && c < |w.calls|
    ensures var step, w' := Advance(c, ok, now, resolves), AdvanceCall(w, c, ok, now, resolves);
            && (Orphan(w', t) <==> Displaces(w, step, t) || Orphan(w, t))
            && (Stray(w', t) <==> Strands(w, step, t) || (Stray(w, t) && !Rescues(w, step, t)))
  {
    HandlesAfter(w.calls[c], w.core, ok, now, resolves);
    SleepersAfter(w.calls[c], w.core, ok, t);
    ClaimedAfter(w, c, ok, now, resolves, t);
  }

  lemma ElsewhereExactly(w: World, step: Step, t: nat)
    requires Numbered(w) && !Advances(w, step)
    ensures Orphan(Next(w, step), t) <==> Orphan(w, t) && !Rescues(w, step, t)
    ensures Stray(Next(w, step), t) <==> Stray(w, t) && !Rescues(w, step, t)
  {
    if step.Begin? {
      var calls' := Next(w, step).calls;
      if Claimed(w.calls, t) {
        var c :| 0 <= c < |w.calls| && w.calls[c].pc.KeepHandle? && w.calls[c].pc.task == t;
        assert calls'[c] == w.calls[c];
      }
    }
  }

  /** A sleeper slips out of reach exactly when a call stores its handle over one still asleep. */
  lemma OrphanedExactly(w: World, step: Step, t: nat)
    requires Numbered(w)
    ensures Orphan(Next(w, step), t) && !Orphan(w, t) <==> Displaces(w, step, t)
  {
    if Advances(w, step) {
      AdvanceExactly(w, step.c, step.ok, step.now, step.resolves, t);
    } else {
      ElsewhereExactly(w, step, t);
    }
  }

  /** After a step a sleeper is out of place exactly when the step stranded it, or it was and the step did not rescue it. */
  lemma StrayExactly(w: World, step: Step, t: nat)
    requires Numbered(w)
    ensures Stray(Next(w, step), t) <==> Strands(w, step, t) || (Stray(w, t) && !Rescues(w, step, t))
  {
    if Advances(w, step) {
      AdvanceExactly(w, step.c, step.ok, step.now, step.resolves, t);
    } else {
      ElsewhereExactly(w, step, t);
    }
  }

  // Whole runs

  ghost predicate Unrescued(w: World, steps: seq<Step>, t: nat) {
    Along((v, step) => !Rescues(v, step, t), w, steps)
  }

  /** Some step of the run strands `t`, and none after it rescues `t`. */
  ghost predicate Stranded(w: World, steps: seq<Step>, t: nat)
    decreases steps
  {
    steps != [] &&
    var w1 := Next(w, steps[0]);
    (Strands(w, steps[0], t) && Unrescued(w1, steps[1..], t)) || Stranded(w1, steps[1..], t)
  }

  /** In every run, a sleeper ends out of place exactly when it was stranded, or began so, and nothing rescued it since. */
  lemma {:induction false} StraysExactly(w: World, steps: seq<Step>, t: nat)
    requires Numbered(w)
    ensures Numbered(Exec(w, steps))
    ensures Stray(Exec(w, steps), t) <==> Stranded(w, steps, t) || (Stray(w, t) && Unrescued(w, steps, t))
    decreases steps
  {
    if steps != [] {
      NumberedStep(w, steps[0]);
      StrayExactly(w, steps[0], t);
      StraysExactly(Next(w, steps[0]), steps[1..], t);
    }
  }

  /**
   From a daemon just started, however calls overlap: once no call is in flight, a
   trigger sleeps on in a Disarmed daemon, or beside the one held, exactly when the run
   stranded it.
   */
  lemma SurvivorsExactly(cell: Cell, now: i64, steps: seq<Step>, t: nat)
    requires Load(cell).Ok?
    ensures var w := Exec(Initial(cell, now), steps);
            Quiet(w) ==>
              (AsleepAt(w.core, t) && (w.core.mem.status == Disarmed || w.core.handle != Some(t))
               <==> Stranded(Initial(cell, now), steps, t))
  {
    StraysExactly(Initial(cell, now), steps, t);
  }

  /** Calls that do not overlap strand nothing. */
  lemma {:induction false} SerialStrandsNone(w: World, steps: seq<Step>, t: nat)
    requires TidyWorld(w) && Along(SerialStep, w, steps)
    ensures !Stranded(w, steps, t)
    decreases steps
  {
    if steps != [] {
      TidyStep(w, steps[0]);
      SerialStrandsNone(Next(w, steps[0]), steps[1..], t);
    }
  }
}
