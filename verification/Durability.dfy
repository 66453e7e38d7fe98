/** What a crash costs: recovery after a stop at any step of a serial run, and the missed-alarm report. */
module Durability {
  import opened Common
  import opened Daemon
  import opened Lifecycle
  import opened Concurrent
  import opened Serial
  import Codec

  /** Every save that is tried succeeds. */
  predicate SavedStep(w: World, step: Step) {
    step.Advance? && w.up && step.c < |w.calls| && w.calls[step.c].pc.Save? ==> step.ok
  }

  /** The store holds memory as it is, except while the current call's save is in flight; then it holds memory as the call found it. */
  predicate Durable(k: Core, call: Call) {
    match call.pc
    case Save(g, _) => Recovered(k.cell) == Ok(call.pre) && k.mem == g.desired
    case ReadSound => Recovered(k.cell) == Ok(k.mem) && k.mem == call.pre
    case TakeHandle(_) => Recovered(k.cell) == Ok(k.mem) && k.mem == call.pre
    case StopPlayer(_) => Recovered(k.cell) == Ok(k.mem) && k.mem == call.pre
    case Transit(_) => Recovered(k.cell) == Ok(k.mem) && k.mem == call.pre
    case _ => Recovered(k.cell) == Ok(k.mem)
  }

  lemma DurableAfter(k: Core, call: Call, ticket: nat, ok: bool, now: i64, resolves: bool)
    requires Durable(k, call)
    requires call.pc.Save? ==> ok && Codec.Fits(call.pc.goal.desired.sound)
    ensures Durable(CoreAfter(call, k, ok), Stepped(call, k, ticket, now, resolves))
  {
    if call.pc.Save? {
      CommitRecovers(k.cell, call.pc.goal.desired);
    }
  }

  predicate DurableWorld(w: World) {
    OneAtATime(w) && (w.up ==> Durable(w.core, Current(w)))
  }

  lemma DurableStep(w: World, step: Step)
    requires DurableWorld(w) && Genuine(w) && SerialStep(w, step) && SavedStep(w, step)
    ensures DurableWorld(Next(w, step))
  {
    match step
    case Begin(req, now, resolves) =>
      QuietMeansDone(w);
    case Advance(c, ok, now, resolves) =>
      if w.up && c < |w.calls| {
        SerialAdvance(w, c, ok, now, resolves);
        if c == |w.calls| - 1 {
          if w.calls[c].pc.Save? {
            assert GoalOf(w.calls[c].pc, w.calls[c].pc.goal);
          }
          DurableAfter(w.core, Current(w), |w.history|, ok, now, resolves);
        }
      }
    case _ =>
  }

  /** A crash at this point, and a restart. */
  function AfterCrash(w: World, now: i64): World {
    Next(Next(w, Crash), Restart(now))
  }

  lemma AfterCrashLoads(w: World, p: Codec.PersistedState, now: i64)
    requires Load(w.core.cell) == Ok(p)
    ensures var w' := AfterCrash(w, now);
            w'.up && w'.core.mem == FromPersisted(p) && w'.missed == Missed(p, now)
  {
  }

  /**
   A crash at any step of a serial run whose saves succeed recovers the state the
   call found or the state it asked for: memory as it stood, except that a call whose
   save has not committed recovers as never made. With no call in flight nothing is lost.
   */
  lemma {:induction false} CrashAtomic(w: World, steps: seq<Step>, now: i64)
    requires DurableWorld(w) && Genuine(w)
    requires Along(SerialStep, w, steps) && Along(FitStep, w, steps) && Along(SavedStep, w, steps)
    ensures var w' := Exec(w, steps);
            w'.up ==>
              && AfterCrash(w', now).up
              && AfterCrash(w', now).core.mem ==
                 (if Current(w').pc.Save? then Current(w').pre else w'.core.mem)
              && (Current(w').pc.Save? ==> w'.core.mem == Current(w').pc.goal.desired)
              && (Quiet(w') ==> AfterCrash(w', now).core.mem == w'.core.mem)
  {
    var w' := Exec(w, steps);
    DurableRun(w, steps);
    QuietMeansDone(w');
    if w'.up {
      AfterCrashLoads(w', Load(w'.core.cell).value, now);
    }
  }

  /** In every run, however saves fail or overlap, a crash recovers the state committed last since the daemon started. */
  lemma CrashRecoversCommitted(w: World, steps: seq<Step>, now: i64)
    requires Filed(w)
    ensures var w' := Exec(w, steps);
            Filed(w') && (w'.up && Codec.Fits(w'.history[w'.committed].sound) ==>
              AfterCrash(w', now).up && AfterCrash(w', now).core.mem == w'.history[w'.committed])
  {
    var w' := Exec(w, steps);
    StoreExactly(w, steps);
    if w'.up && Codec.Fits(w'.history[w'.committed].sound) {
      AfterCrashLoads(w', Load(w'.core.cell).value, now);
    }
  }

  lemma {:induction false} DurableRun(w: World, steps: seq<Step>)
    requires DurableWorld(w) && Genuine(w)
    requires Along(SerialStep, w, steps) && Along(FitStep, w, steps) && Along(SavedStep, w, steps)
    ensures DurableWorld(Exec(w, steps))
    decreases steps
  {
    if steps != [] {
      GenuineStep(w, steps[0]);
      DurableStep(w, steps[0]);
      DurableRun(Next(w, steps[0]), steps[1..]);
    }
  }

  // Missed alarms

  /** No save succeeds. */
  predicate NoCommitStep(w: World, step: Step) {
    step.Advance? && w.up && step.c < |w.calls| && w.calls[step.c].pc.Save? ==> !step.ok
  }

  lemma {:induction false} CellKept(w: World, steps: seq<Step>)
    requires Along(NoCommitStep, w, steps)
    ensures Exec(w, steps).core.cell == w.core.cell
    decreases steps
  {
    if steps != [] {
      CellKept(Next(w, steps[0]), steps[1..]);
    }
  }

  /** Whatever follows a committed save, short of another commit, a restart brings back what it saved. */
  lemma RestartAfterCommit(w: World, c: nat, steps: seq<Step>, restart: i64)
    requires w.up && c < |w.calls| && w.calls[c].pc.Save?
    requires Codec.Fits(w.calls[c].pc.goal.desired.sound)
    requires Along(NoCommitStep, Next(w, Advance(c, true, 0, true)), steps)
    ensures var saved := w.calls[c].pc.goal.desired;
            var w' := AfterCrash(Exec(Next(w, Advance(c, true, 0, true)), steps), restart);
            w'.up && w'.core.mem == saved && w'.missed == Missed(ToPersisted(saved), restart)
  {
    var saved := w.calls[c].pc.goal.desired;
    var w1 := Next(w, Advance(c, true, 0, true));
    assert w1.core.cell == Commit(w.core.cell, saved, true);
    CellKept(w1, steps);
    Codec.RoundTripExact(ToPersisted(saved));
    AfterCrashLoads(Exec(w1, steps), ToPersisted(saved), restart);
  }

  /**
   After a committed Arm or Snooze made at `now`, a restart at clock `restart` reports
   a missed alarm exactly when the clock has reached the saturating sum of `now` and
   the delay.
   */
  lemma MissedExactly(w: World, c: nat, steps: seq<Step>, sound: string, now: i64, delay: nat, restart: i64)
    requires w.up && c < |w.calls| && w.calls[c].pc.Save? && w.calls[c].pc.goal == ArmGoal(sound, now, delay)
    requires Codec.Fits(Some(sound)) && now >= 0
    requires Along(NoCommitStep, Next(w, Advance(c, true, 0, true)), steps)
    ensures var w' := AfterCrash(Exec(Next(w, Advance(c, true, 0, true)), steps), restart);
            && w'.up && w'.core.mem.status == Armed && w'.core.mem.sound == Some(sound)
            && (w'.missed <==> restart >= Min(now + delay, I64_MAX))
  {
    RestartAfterCommit(w, c, steps, restart);
  }

  /** After a committed Disarm or Dismiss, a restart never reports a missed alarm. */
  lemma NeverMissedDisarmed(w: World, c: nat, steps: seq<Step>, restart: i64)
    requires w.up && c < |w.calls| && w.calls[c].pc.Save? && w.calls[c].pc.goal == DISARM_GOAL
    requires Along(NoCommitStep, Next(w, Advance(c, true, 0, true)), steps)
    ensures var w' := AfterCrash(Exec(Next(w, Advance(c, true, 0, true)), steps), restart);
            w'.up && w'.core.mem == DISARMED && !w'.missed
  {
    RestartAfterCommit(w, c, steps, restart);
  }
}
