/** The lifecycle results, gathered for runs that begin with the daemon starting on a store that loads. */
module Runs {
  import opened Common
  import opened Daemon
  import opened Lifecycle
  import opened Concurrent
  import opened Serial
  import opened Signals
  import opened Durability
  import opened Strays
  import Codec

  /** Every run, however calls overlap: its books, its triggers, its store and its signals. */
  lemma EveryRun(cell: Cell, now: i64, steps: seq<Step>)
    requires Load(cell).Ok?
    ensures var w := Exec(Initial(cell, now), steps);
            && Balanced(w) && Chained(w) && Linked(w.log) && Punctual(w) && Dated(w) && Filed(w)
            && (w.up ==>
                  (LastWord(w.boot.status == Armed, w.core.signals) == (w.core.mem.status == Armed)
                   <==> Flips(w.log, w.told) % 2 == 0))
            && (w.up && Codec.Fits(w.history[w.committed].sound) ==>
                  (Recovered(w.core.cell) == Ok(w.core.mem) <==> w.history[w.committed] == w.core.mem))
    ensures Along(FitStep, Initial(cell, now), steps) ==> Genuine(Exec(Initial(cell, now), steps))
  {
    var w := Initial(cell, now);
    InitialHolds(cell, now);
    SignalLedger(w, steps);
    LockOrderChain(w, steps);
    TriggersOnce(w, steps);
    LastWordExactly(w, steps);
    StoreExactly(w, steps);
    if Along(FitStep, w, steps) {
      StoreHoldsReal(w, steps);
    }
  }

  lemma InitialSerial(cell: Cell, now: i64)
    requires Load(cell).Ok?
    ensures var w := Initial(cell, now); TidyWorld(w) && DurableWorld(w)
    ensures WellFormed(FromPersisted(Load(cell).value)) ==> Truthful(Initial(cell, now))
  {
  }

  /** Every serial run from a well-formed store: its triggers, its signals and its crashes. */
  lemma EverySerialRun(cell: Cell, now: i64, steps: seq<Step>, restart: i64)
    requires Load(cell).Ok? && WellFormed(FromPersisted(Load(cell).value))
    requires Along(SerialStep, Initial(cell, now), steps)
    ensures var w := Exec(Initial(cell, now), steps);
            && (forall t, u :: AsleepAt(w.core, t) && AsleepAt(w.core, u) ==> t == u)
            && (forall t: nat :: !Stranded(Initial(cell, now), steps, t))
            && (Quiet(w) && w.core.mem.status == Disarmed ==> StoodDown(w))
            && (w.up ==>
                  && WellFormed(w.core.mem) && w.muted == []
                  && Alternates(w.boot.status == Armed, w.core.signals)
                  && (Quiet(w) ==> LastWord(w.boot.status == Armed, w.core.signals) == (w.core.mem.status == Armed)))
    ensures Along(FitStep, Initial(cell, now), steps) && Along(SavedStep, Initial(cell, now), steps) ==>
              var w := Exec(Initial(cell, now), steps);
              w.up ==>
                AfterCrash(w, restart).up
                && AfterCrash(w, restart).core.mem == (if Current(w).pc.Save? then Current(w).pre else w.core.mem)
  {
    var w := Initial(cell, now);
    InitialHolds(cell, now);
    InitialSerial(cell, now);
    OneSleeper(w, steps);
    forall t: nat ensures !Stranded(w, steps, t) {
      SerialStrandsNone(w, steps, t);
    }
    SignalsAlternate(w, steps);
    var w' := Exec(w, steps);
    if Quiet(w') && w'.core.mem.status == Disarmed {
      DisarmStandsDown(w');
    }
    if Along(FitStep, w, steps) && Along(SavedStep, w, steps) {
      CrashAtomic(w, steps, restart);
    }
  }
}
