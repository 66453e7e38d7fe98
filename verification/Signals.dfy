/** StateChanged in serial runs: strictly alternating, and never out of step with Status. */
module Signals {
  import opened Common
  import opened Daemon
  import opened Lifecycle
  import opened Concurrent
  import opened Serial
  import Codec

  /** Disarmed means no selected sound and no fire time. */
  predicate WellFormed(s: State) {
    s.status == Disarmed ==> s.nextFire.None? && s.sound.None?
  }

  /** Every signal is news. */
  predicate Alternates(boot: bool, signals: seq<bool>) {
    forall i :: 0 <= i < |signals| ==> signals[i] != WordAfter(boot, signals, i)
  }

  /** Clients are told the truth, up to the one change in flight; a Snooze in flight finds the alarm armed and leaves it so. */
  predicate InTune(boot: bool, k: Core, call: Call) {
    && WellFormed(k.mem)
    && Alternates(boot, k.signals)
    && var said := LastWord(boot, k.signals);
       var unsaid := Unsaid(call);
       && (unsaid.NoChange? ==> said == (k.mem.status == Armed))
       && (unsaid.Changed? ==> said == (unsaid.from == Armed) && unsaid.to == k.mem.status)
       && (call.req.Snooze? && !call.pc.ReadSound? && !call.pc.Done? ==>
             k.mem.status == Armed && said && (unsaid.Changed? ==> unsaid.from == Armed))
  }

  lemma AnnouncedAlternates(boot: bool, signals: seq<bool>, t: Transition)
    requires Alternates(boot, signals)
    requires t.Changed? ==> LastWord(boot, signals) == (t.from == Armed)
    ensures Alternates(boot, Announced(signals, t))
    ensures LastWord(boot, Announced(signals, t)) ==
            if t.Changed? then t.to == Armed else LastWord(boot, signals)
  {
  }

  lemma InTuneNotify(boot: bool, k: Core, call: Call)
    requires InTune(boot, k, call) && call.pc.Notify?
    ensures InTune(boot, CoreAfter(call, k, true), call.(pc := Done(true)))
  {
    AnnouncedAlternates(boot, k.signals, call.pc.change);
  }

  lemma InTuneTransit(boot: bool, k: Core, call: Call, ticket: nat)
    requires InTune(boot, k, call) && call.pc.Transit? && GoalFor(call.req, call.pc.goal)
    ensures InTune(boot, k.(mem := call.pc.goal.desired), Stepped(call, k, ticket, 0, true))
  {
  }

  lemma InTuneAfter(boot: bool, k: Core, call: Call, ticket: nat, ok: bool, now: i64, resolves: bool)
    requires InTune(boot, k, call) && Tidy(k, call)
    ensures InTune(boot, CoreAfter(call, k, ok), Stepped(call, k, ticket, now, resolves))
  {
    if call.pc.Notify? {
      InTuneNotify(boot, k, call);
    } else if call.pc.Transit? {
      assert GoalOf(call.pc, call.pc.goal);
      InTuneTransit(boot, k, call, ticket);
    } else {
      InTuneElse(boot, k, call, ticket, ok, now, resolves);
    }
  }

  lemma UnsaidAfter(call: Call, k: Core, ticket: nat, now: i64, resolves: bool)
    requires !call.pc.Notify? && !call.pc.Transit?
    ensures var call' := Stepped(call, k, ticket, now, resolves);
            && call'.req == call.req && Unsaid(call') == Unsaid(call) && !call'.pc.ReadSound?
            && (call.pc.ReadSound? && !call'.pc.Done? ==> k.mem.sound.Some?)
            && (call.pc.Done? ==> call'.pc.Done?)
  {
  }

  lemma InTuneElse(boot: bool, k: Core, call: Call, ticket: nat, ok: bool, now: i64, resolves: bool)
    requires InTune(boot, k, call) && !call.pc.Notify? && !call.pc.Transit?
    ensures InTune(boot, CoreAfter(call, k, ok), Stepped(call, k, ticket, now, resolves))
  {
    LedgerAfter(call, k, ok);
    UnsaidAfter(call, k, ticket, now, resolves);
  }

  /** Whatever the store may load as is well-formed. */
  predicate LoadsWell(cell: Cell) {
    Recovered(cell).Ok? ==> WellFormed(Recovered(cell).value)
  }

  /** A save keeps this even when the sound id is cut: the alarm still loads as armed, or not at all. */
  lemma CommitLoadsWell(cell: Cell, s: State, ok: bool)
    requires LoadsWell(cell) && WellFormed(s)
    ensures LoadsWell(Commit(cell, s, ok))
  {
    Codec.RoundTripExact(ToPersisted(s));
  }

  ghost predicate Truthful(w: World) {
    && TidyWorld(w)
    && LoadsWell(w.core.cell)
    && (w.up ==> InTune(w.boot.status == Armed, w.core, Current(w)) && w.muted == [])
  }

  lemma TruthfulAdvance(w: World, c: nat, ok: bool, now: i64, resolves: bool)
    requires Truthful(w) && w.up && c < |w.calls|
    ensures Truthful(AdvanceCall(w, c, ok, now, resolves))
  {
    TidyStep(w, Advance(c, ok, now, resolves));
    SerialAdvance(w, c, ok, now, resolves);
    if c == |w.calls| - 1 {
      InTuneAfter(w.boot.status == Armed, w.core, Current(w), |w.history|, ok, now, resolves);
      if w.calls[c].pc.Save? {
        assert GoalOf(w.calls[c].pc, w.calls[c].pc.goal);
        CommitLoadsWell(w.core.cell, w.calls[c].pc.goal.desired, ok);
      }
    }
  }

  lemma TruthfulStep(w: World, step: Step)
    requires Truthful(w) && SerialStep(w, step)
    ensures Truthful(Next(w, step))
  {
    if step.Advance? {
      if w.up && step.c < |w.calls| {
        TruthfulAdvance(w, step.c, step.ok, step.now, step.resolves);
      }
    } else {
      TidyStep(w, step);
      QuietMeansDone(w);
    }
  }

  /**
   In every serial run from a well-formed state, StateChanged attempts strictly
   alternate, whenever no call is in flight the last one equals Status, and Snooze
   never swallows a change.
   */
  lemma {:induction false} SignalsAlternate(w: World, steps: seq<Step>)
    requires Truthful(w) && Along(SerialStep, w, steps)
    ensures Truthful(Exec(w, steps))
    ensures var w' := Exec(w, steps);
            w'.up ==>
              && WellFormed(w'.core.mem)
              && w'.muted == []
              && Alternates(w'.boot.status == Armed, w'.core.signals)
              && (Quiet(w') ==> LastWord(w'.boot.status == Armed, w'.core.signals) == (w'.core.mem.status == Armed))
    decreases steps
  {
    if steps == [] {
      QuietMeansDone(w);
    } else {
      TruthfulStep(w, steps[0]);
      SignalsAlternate(Next(w, steps[0]), steps[1..]);
    }
  }
}
