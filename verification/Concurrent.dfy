/**
 What holds of the lifecycle in every run: any number of overlapping calls, trigger
 steps anywhere, failing saves and stops, crashes and restarts.
 */
module Concurrent {
  import opened Common
  import opened Daemon
  import opened Lifecycle
  import Codec

  // Signals balance the armed flag

  function Bit(s: Status): int {
    if s == Armed then 1 else 0
  }

  /** StateChanged(true) minus StateChanged(false). */
  function Net(signals: seq<bool>): int {
    if signals == [] then 0 else Net(signals[..|signals| - 1]) + (if signals[|signals| - 1] then 1 else -1)
  }

  function Delta(t: Transition): int {
    if t.Changed? then Bit(t.to) - Bit(t.from) else 0
  }

  /** The change a call has made under the lock and not yet announced. */
  function Unsaid(call: Call): Transition {
    match call.pc
    case Save(g, from) => Changed(from, g.desired.status)
    case Spawn(_, change) => change
    case KeepHandle(_, change) => change
    case Notify(change) => change
    case _ => NoChange
  }

  function Owed(call: Call): int {
    Delta(Unsaid(call))
  }

  function OwedAll(calls: seq<Call>): int {
    if calls == [] then 0 else Owed(calls[0]) + OwedAll(calls[1..])
  }

  lemma {:induction false} OwedUpdate(calls: seq<Call>, c: nat, call: Call)
    requires c < |calls|
    ensures OwedAll(calls[c := call]) == OwedAll(calls) - Owed(calls[c]) + Owed(call)
  {
    if c == 0 {
      assert calls[0 := call][1..] == calls[1..];
    } else {
      assert calls[c := call][1..] == calls[1..][c - 1 := call];
      OwedUpdate(calls[1..], c - 1, call);
    }
  }

  lemma {:induction false} OwedAppend(calls: seq<Call>, call: Call)
    ensures OwedAll(calls + [call]) == OwedAll(calls) + Owed(call)
  {
    if calls == [] {
      assert calls + [call] == [call];
    } else {
      assert (calls + [call])[1..] == calls[1..] + [call];
      OwedAppend(calls[1..], call);
    }
  }

  lemma NetAnnounced(signals: seq<bool>, t: Transition)
    ensures Net(Announced(signals, t)) == Net(signals) + Delta(t)
  {
  }

  predicate Balanced(w: World) {
    w.up ==>
      Net(w.core.signals) + Net(w.muted) + OwedAll(w.calls) == Bit(w.core.mem.status) - Bit(w.boot.status)
  }

  lemma OwedAfter(call: Call, k: Core, ticket: nat, now: i64, resolves: bool)
    ensures Owed(Stepped(call, k, ticket, now, resolves)) - Owed(call) ==
            if call.pc.Transit? then Bit(call.pc.goal.desired.status) - Bit(k.mem.status)
            else if call.pc.Notify? then -Delta(call.pc.change)
            else 0
  {
  }

  /** How a step moves the armed flag and the signals. */
  lemma LedgerAfter(call: Call, k: Core, ok: bool)
    ensures var k' := CoreAfter(call, k, ok);
            && k'.mem == (if call.pc.Transit? then call.pc.goal.desired else k.mem)
            && k'.signals == (if call.pc.Notify? && !call.req.Snooze? then Announced(k.signals, call.pc.change) else k.signals)
  {
  }

  lemma BalancedAdvance(w: World, c: nat, ok: bool, now: i64, resolves: bool)
    requires Balanced(w) && w.up && c < |w.calls|
    ensures Balanced(AdvanceCall(w, c, ok, now, resolves))
  {
    var call := w.calls[c];
    var call' := Stepped(call, w.core, |w.history|, now, resolves);
    var w' := AdvanceCall(w, c, ok, now, resolves);
    LedgerAfter(call, w.core, ok);
    OwedAfter(call, w.core, |w.history|, now, resolves);
    OwedUpdate(w.calls, c, call');
    assert w'.calls == w.calls[c := call'] && w'.boot == w.boot;
    if call.pc.Notify? {
      NetAnnounced(w.core.signals, call.pc.change);
      NetAnnounced(w.muted, call.pc.change);
    } else {
      assert w'.muted == w.muted;
    }
  }

  lemma BalancedStep(w: World, step: Step)
    requires Balanced(w)
    ensures Balanced(Next(w, step))
  {
    match step
    case Begin(req, now, resolves) => OwedAppend(w.calls, Call(req, Entry(req, now, resolves), w.core.mem, 0));
    case Advance(c, ok, now, resolves) =>
      if w.up && c < |w.calls| {
        BalancedAdvance(w, c, ok, now, resolves);
      }
    case _ =>
  }

  /**
   At every point of every run, StateChanged(true) minus StateChanged(false), counting
   what calls in flight still owe and what Snooze discards, is armed-now minus
   armed-at-start.
   */
  lemma {:induction false} SignalLedger(w: World, steps: seq<Step>)
    requires Balanced(w)
    ensures Balanced(Exec(w, steps))
    decreases steps
  {
    if steps != [] {
      BalancedStep(w, steps[0]);
      SignalLedger(Next(w, steps[0]), steps[1..]);
    }
  }

  /** No Snooze comes in. */
  predicate NoSnoozeStep(w: World, step: Step) {
    step.Begin? ==> !step.req.Snooze?
  }

  /** No Snooze has come in since the daemon started. */
  predicate NoSnooze(w: World) {
    w.up ==> w.muted == [] && forall c :: 0 <= c < |w.calls| ==> !w.calls[c].req.Snooze?
  }

  lemma {:induction false} QuietOwesNothing(calls: seq<Call>)
    requires forall c :: 0 <= c < |calls| ==> calls[c].pc.Done?
    ensures OwedAll(calls) == 0
  {
    if calls != [] {
      QuietOwesNothing(calls[1..]);
    }
  }

  /** Without Snooze nothing is discarded: signals and those still owed are armed-now minus armed-at-start, and once quiet the signals alone. */
  lemma {:induction false} PlainLedger(w: World, steps: seq<Step>)
    requires Balanced(w) && NoSnooze(w) && Along(NoSnoozeStep, w, steps)
    ensures var w' := Exec(w, steps);
            w'.up ==>
              && Net(w'.core.signals) + OwedAll(w'.calls) == Bit(w'.core.mem.status) - Bit(w'.boot.status)
              && (Quiet(w') ==> Net(w'.core.signals) == Bit(w'.core.mem.status) - Bit(w'.boot.status))
    decreases steps
  {
    if steps == [] {
      if Quiet(w) {
        QuietOwesNothing(w.calls);
      }
    } else {
      BalancedStep(w, steps[0]);
      PlainLedger(Next(w, steps[0]), steps[1..]);
    }
  }

  // Transitions chain in lock order

  predicate Chained(w: World) {
    && |w.history| == |w.log| + 1
    && w.history[0] == w.boot
    && w.history[|w.log|] == w.core.mem
    && forall i :: 0 <= i < |w.log| ==> w.log[i] == (w.history[i].status, w.history[i + 1].status)
  }

  lemma ChainedStep(w: World, step: Step)
    requires Chained(w)
    ensures Chained(Next(w, step))
  {
  }

  /** Each change starts from the status the previous one left. */
  predicate Linked(log: seq<(Status, Status)>) {
    forall i :: 0 < i < |log| ==> log[i].0 == log[i - 1].1
  }

  lemma ChainLinks(w: World)
    requires Chained(w)
    ensures Linked(w.log)
  {
    forall i | 0 < i < |w.log| ensures w.log[i].0 == w.log[i - 1].1 {
      var j := i - 1;
      assert w.log[j] == (w.history[j].status, w.history[j + 1].status);
      assert w.log[i] == (w.history[i].status, w.history[i + 1].status);
    }
  }

  /** Transitions reported under the lock form one chain from the boot state to the present. */
  lemma {:induction false} LockOrderChain(w: World, steps: seq<Step>)
    requires Chained(w)
    ensures Chained(Exec(w, steps)) && Linked(Exec(w, steps).log)
    decreases steps
  {
    if steps == [] {
      ChainLinks(w);
    } else {
      ChainedStep(w, steps[0]);
      LockOrderChain(Next(w, steps[0]), steps[1..]);
    }
  }

  // The last word

  /** What a client that knew the boot status believes after `n` signals. */
  function WordAfter(boot: bool, signals: seq<bool>, n: nat): bool
    requires n <= |signals|
  {
    if n == 0 then boot else signals[n - 1]
  }

  function LastWord(boot: bool, signals: seq<bool>): bool {
    WordAfter(boot, signals, |signals|)
  }

  /** A call that has a change to announce holds the place that change took in lock order. */
  predicate Placed(calls: seq<Call>, history: seq<State>) {
    forall c :: 0 <= c < |calls| && Unsaid(calls[c]).Changed? ==>
      0 < calls[c].ticket < |history| && history[calls[c].ticket].status == Unsaid(calls[c]).to
  }

  /** The last signal speaks of the change announced last. */
  predicate Dated(w: World) {
    w.up ==>
      && Chained(w)
      && w.told < |w.history|
      && LastWord(w.boot.status == Armed, w.core.signals) == (w.history[w.told].status == Armed)
      && Placed(w.calls, w.history)
  }

  lemma PlacedAdvance(w: World, c: nat, ok: bool, now: i64, resolves: bool)
    requires Placed(w.calls, w.history) && |w.history| > 0 && c < |w.calls|
    ensures var w' := AdvanceCall(w, c, ok, now, resolves); Placed(w'.calls, w'.history)
  {
  }

  lemma DatedAdvance(w: World, c: nat, ok: bool, now: i64, resolves: bool)
    requires w.up && Dated(w) && c < |w.calls|
    ensures Dated(AdvanceCall(w, c, ok, now, resolves))
  {
    ChainedStep(w, Advance(c, ok, now, resolves));
    LedgerAfter(w.calls[c], w.core, ok);
    PlacedAdvance(w, c, ok, now, resolves);
  }

  lemma DatedStep(w: World, step: Step)
    requires Dated(w)
    ensures Dated(Next(w, step))
  {
    if step.Advance? {
      if w.up && step.c < |w.calls| {
        DatedAdvance(w, step.c, step.ok, step.now, step.resolves);
      }
    } else if w.up {
      ChainedStep(w, step);
    }
  }

  /** How many changes of status took the lock after the first `n` transitions. */
  function Flips(log: seq<(Status, Status)>, n: nat): nat
    requires n <= |log|
    decreases |log| - n
  {
    if n == |log| then 0 else (if log[n].0 != log[n].1 then 1 else 0) + Flips(log, n + 1)
  }

  lemma {:induction false} FlipsDecide(w: World, n: nat)
    requires Chained(w) && n <= |w.log|
    ensures w.history[n].status == w.core.mem.status <==> Flips(w.log, n) % 2 == 0
    decreases |w.log| - n
  {
    if n < |w.log| {
      assert w.log[n] == (w.history[n].status, w.history[n + 1].status);
      FlipsDecide(w, n + 1);
    }
  }

  /**
   However calls overlap, the last signal is the status of the change announced last:
   it equals Status exactly when an even number of changes of status took the lock
   after that one.
   */
  lemma {:induction false} LastWordExactly(w: World, steps: seq<Step>)
    requires Dated(w)
    ensures Dated(Exec(w, steps))
    ensures var w' := Exec(w, steps);
            w'.up ==>
              (LastWord(w'.boot.status == Armed, w'.core.signals) == (w'.core.mem.status == Armed)
               <==> Flips(w'.log, w'.told) % 2 == 0)
    decreases steps
  {
    if steps == [] {
      if w.up {
        FlipsDecide(w, w.told);
      }
    } else {
      DatedStep(w, steps[0]);
      LastWordExactly(Next(w, steps[0]), steps[1..]);
    }
  }

  // The store

  /** A sound id that resolved to a file fits the store's layout. */
  predicate FitStep(w: World, step: Step) {
    step.Begin? && step.req.Arm? && step.resolves ==> Codec.Fits(Some(step.req.sound))
  }

  ghost predicate GoalOf(pc: Pc, g: Goal) {
    match pc
    case TakeHandle(h) => g == h
    case StopPlayer(h) => g == h
    case Transit(h) => g == h
    case Save(h, _) => g == h
    case Spawn(h, _) => g == h
    case _ => false
  }

  ghost predicate GoalsFit(pc: Pc) {
    forall g :: GoalOf(pc, g) ==> Codec.Fits(g.desired.sound)
  }

  /** The store holds a whole state that memory held, and everything memory held or will hold can be stored. */
  ghost predicate Genuine(w: World) {
    && w.core.mem in w.ever
    && (forall s :: s in w.ever ==> Codec.Fits(s.sound))
    && (forall c :: 0 <= c < |w.calls| ==> GoalsFit(w.calls[c].pc))
    && (forall c :: 0 <= c < |w.calls| && w.calls[c].pc.Save? ==> w.calls[c].pc.goal.desired in w.ever)
    && Recovered(w.core.cell).Ok?
    && Recovered(w.core.cell).value in w.ever
  }

  lemma GoalsFitAfter(call: Call, k: Core, now: i64, resolves: bool)
    requires GoalsFit(call.pc) && Codec.Fits(k.mem.sound)
    ensures GoalsFit(PcAfter(call, k, now, resolves))
  {
  }

  lemma CellAfter(call: Call, k: Core, ok: bool)
    requires GoalsFit(call.pc)
    ensures Recovered(CoreAfter(call, k, ok).cell) ==
            if call.pc.Save? && ok then Ok(call.pc.goal.desired) else Recovered(k.cell)
  {
    if call.pc.Save? {
      assert GoalOf(call.pc, call.pc.goal);
      CommitRecovers(k.cell, call.pc.goal.desired);
    }
  }

  lemma GenuineAdvance(w: World, c: nat, ok: bool, now: i64, resolves: bool)
    requires Genuine(w) && c < |w.calls|
    ensures Genuine(AdvanceCall(w, c, ok, now, resolves))
  {
    var call := w.calls[c];
    assert GoalsFit(call.pc);
    LedgerAfter(call, w.core, ok);
    GoalsFitAfter(call, w.core, now, resolves);
    CellAfter(call, w.core, ok);
    if call.pc.Transit? {
      assert GoalOf(call.pc, call.pc.goal);
    }
  }

  lemma GenuineStep(w: World, step: Step)
    requires Genuine(w) && FitStep(w, step)
    ensures Genuine(Next(w, step))
  {
    if step.Advance? && w.up && step.c < |w.calls| {
      GenuineAdvance(w, step.c, step.ok, step.now, step.resolves);
    }
  }

  /** However saves fail, overlap or reorder, the store always recovers to a state memory really held. */
  lemma {:induction false} StoreHoldsReal(w: World, steps: seq<Step>)
    requires Genuine(w) && Along(FitStep, w, steps)
    ensures Genuine(Exec(w, steps))
    decreases steps
  {
    if steps != [] {
      GenuineStep(w, steps[0]);
      StoreHoldsReal(Next(w, steps[0]), steps[1..]);
    }
  }

  /** What a committed save of `s` reads back as: `s` itself exactly when its sound id fits. */
  function Stored(s: State): Result<State, Codec.Corruption> {
    Recovered(Commit(None, s, true))
  }

  /** A call whose save is in flight holds the place its transition took in lock order. */
  predicate Ticketed(calls: seq<Call>, history: seq<State>) {
    forall c :: 0 <= c < |calls| && calls[c].pc.Save? ==>
      0 < calls[c].ticket < |history| && history[calls[c].ticket] == calls[c].pc.goal.desired
  }

  /** The store is the entry of the history that was committed last. */
  predicate Filed(w: World) {
    w.up ==>
      && Chained(w)
      && w.committed < |w.history|
      && Recovered(w.core.cell) == Stored(w.history[w.committed])
      && Ticketed(w.calls, w.history)
  }

  lemma SavedCell(call: Call, k: Core, ok: bool)
    ensures Recovered(CoreAfter(call, k, ok).cell) ==
            if call.pc.Save? && ok then Stored(call.pc.goal.desired) else Recovered(k.cell)
  {
  }

  lemma TicketedAdvance(w: World, c: nat, ok: bool, now: i64, resolves: bool)
    requires Ticketed(w.calls, w.history) && |w.history| > 0 && c < |w.calls|
    ensures var w' := AdvanceCall(w, c, ok, now, resolves); Ticketed(w'.calls, w'.history)
  {
  }

  /** What loads can be saved, and loads again as the same state. */
  lemma LoadedIsStored(cell: Cell)
    requires Load(cell).Ok?
    ensures Recovered(cell) == Stored(FromPersisted(Load(cell).value))
  {
    if cell.Some? {
      Codec.ReencodeStable(cell.value);
    } else {
      Codec.RoundTripExact(Codec.DEFAULT_STATE);
    }
    assert ToPersisted(FromPersisted(Load(cell).value)) == Load(cell).value;
  }

  lemma FiledAdvance(w: World, c: nat, ok: bool, now: i64, resolves: bool)
    requires w.up && Filed(w) && c < |w.calls|
    ensures Filed(AdvanceCall(w, c, ok, now, resolves))
  {
    ChainedStep(w, Advance(c, ok, now, resolves));
    SavedCell(w.calls[c], w.core, ok);
    TicketedAdvance(w, c, ok, now, resolves);
  }

  lemma FiledRestart(w: World, now: i64)
    requires Filed(w)
    ensures Filed(Next(w, Restart(now)))
  {
    if !w.up && Load(w.core.cell).Ok? {
      LoadedIsStored(w.core.cell);
    }
  }

  lemma FiledElsewhere(w: World, step: Step)
    requires Filed(w) && !step.Advance? && !step.Restart?
    ensures Filed(Next(w, step))
  {
    if w.up {
      ChainedStep(w, step);
    }
  }

  lemma FiledStep(w: World, step: Step)
    requires Filed(w)
    ensures Filed(Next(w, step))
  {
    match step
    case Advance(c, ok, now, resolves) =>
      if w.up && c < |w.calls| {
        FiledAdvance(w, c, ok, now, resolves);
      }
    case Restart(now) => FiledRestart(w, now);
    case _ => FiledElsewhere(w, step);
  }

  /**
   However saves fail, overlap or reorder, the store is the state committed last: it
   equals memory exactly when that state and the one that took the lock last are the
   same.
   */
  lemma {:induction false} StoreExactly(w: World, steps: seq<Step>)
    requires Filed(w)
    ensures Filed(Exec(w, steps))
    ensures var w' := Exec(w, steps);
            w'.up ==>
              var last, fits := w'.history[w'.committed], Codec.Fits(w'.history[w'.committed].sound);
              && (Recovered(w'.core.cell) == Ok(last) <==> fits)
              && (fits ==> (Recovered(w'.core.cell) == Ok(w'.core.mem) <==> last == w'.history[|w'.history| - 1]))
    decreases steps
  {
    if steps == [] {
      if w.up {
        CommitRecovers(None, w.history[w.committed]);
      }
    } else {
      FiledStep(w, steps[0]);
      StoreExactly(Next(w, steps[0]), steps[1..]);
    }
  }

  // One way to get there: saves in lock order

  /** Saves all succeed, and commit in the order their transitions took the lock. */
  predicate InOrderStep(w: World, step: Step) {
    step.Advance? && w.up && step.c < |w.calls| && w.calls[step.c].pc.Save? ==>
      step.ok && w.calls[step.c].ticket == w.committed + 1
  }

  ghost predicate Pending(w: World, ticket: nat) {
    exists c :: 0 <= c < |w.calls| && w.calls[c].pc.Save? && w.calls[c].ticket == ticket
  }

  /** Every entry of the history past the last commit has its save in flight. */
  ghost predicate Covered(w: World) {
    w.up ==> forall k :: w.committed < k < |w.history| ==> Pending(w, k)
  }

  lemma PendingKept(w: World, w': World, c: nat, k: nat)
    requires Pending(w, k) && |w.calls| == |w'.calls| && c < |w.calls|
    requires forall d :: 0 <= d < |w.calls| && d != c ==> w'.calls[d] == w.calls[d]
    requires w.calls[c].pc.Save? ==> w.calls[c].ticket != k
    ensures Pending(w', k)
  {
  }

  lemma PendingCarried(w: World, w': World, k: nat)
    requires Pending(w, k) && w.calls <= w'.calls
    ensures Pending(w', k)
  {
  }

  lemma TicketAfter(call: Call, k: Core, place: nat, now: i64, resolves: bool)
    ensures var call' := Stepped(call, k, place, now, resolves);
            && (call'.pc.Save? <==> Swaps(call, k))
            && (Swaps(call, k) ==> call'.ticket == place)
  {
  }

  lemma CoveredAdvance(w: World, c: nat, ok: bool, now: i64, resolves: bool)
    requires w.up && Covered(w) && c < |w.calls|
    requires w.calls[c].pc.Save? ==> ok && w.calls[c].ticket == w.committed + 1
    ensures Covered(AdvanceCall(w, c, ok, now, resolves))
  {
    var w' := AdvanceCall(w, c, ok, now, resolves);
    TicketAfter(w.calls[c], w.core, |w.history|, now, resolves);
    forall k | w'.committed < k < |w'.history| ensures Pending(w', k) {
      if k == |w.history| {
        assert w'.calls[c].pc.Save? && w'.calls[c].ticket == k;
      } else {
        PendingKept(w, w', c, k);
      }
    }
  }

  lemma CoveredStep(w: World, step: Step)
    requires Covered(w) && InOrderStep(w, step)
    ensures Covered(Next(w, step))
  {
    if step.Advance? {
      if w.up && step.c < |w.calls| {
        CoveredAdvance(w, step.c, step.ok, step.now, step.resolves);
      }
    } else if w.up && !step.Crash? {
      var w' := Next(w, step);
      forall k | w'.committed < k < |w'.history| ensures Pending(w', k) {
        PendingCarried(w, w', k);
      }
    }
  }

  lemma {:induction false} CoveredRun(w: World, steps: seq<Step>)
    requires Covered(w) && Along(InOrderStep, w, steps)
    ensures Covered(Exec(w, steps))
    decreases steps
  {
    if steps != [] {
      CoveredStep(w, steps[0]);
      CoveredRun(Next(w, steps[0]), steps[1..]);
    }
  }

  lemma QuietCommitted(w: World)
    requires w.up && Quiet(w) && Covered(w) && Filed(w) && Codec.Fits(w.core.mem.sound)
    ensures Recovered(w.core.cell) == Ok(w.core.mem)
  {
    assert !Pending(w, w.committed + 1);
    CommitRecovers(None, w.core.mem);
  }

  /** With saves that succeed in lock order, a daemon with no call in flight has exactly its memory in the store. */
  lemma InOrderCommits(w: World, steps: seq<Step>)
    requires Filed(w) && Covered(w) && Genuine(w)
    requires Along(FitStep, w, steps) && Along(InOrderStep, w, steps)
    ensures var w' := Exec(w, steps); w'.up && Quiet(w') ==> Recovered(w'.core.cell) == Ok(w'.core.mem)
  {
    StoreExactly(w, steps);
    StoreHoldsReal(w, steps);
    CoveredRun(w, steps);
    var w' := Exec(w, steps);
    if w'.up && Quiet(w') {
      QuietCommitted(w');
    }
  }

  // Triggers

  /** Playbacks come from distinct tasks, each one finished and not early. */
  ghost predicate Punctual(w: World) {
    && (forall i :: 0 <= i < |w.plays| ==>
          && w.plays[i].task < |w.core.tasks|
          && w.core.tasks[w.plays[i].task].phase == Finished
          && w.core.tasks[w.plays[i].task].born + w.core.tasks[w.plays[i].task].delay <= w.plays[i].at <= w.core.clock)
    && (forall i, j :: 0 <= i < j < |w.plays| ==> w.plays[i].task != w.plays[j].task)
    && (forall t :: 0 <= t < |w.core.tasks| && w.core.tasks[t].phase == Awake ==>
          w.core.tasks[t].born + w.core.tasks[t].delay <= w.core.clock)
  }

  /** The trigger table grew or changed phases, without reviving a finished task or waking one early. */
  ghost predicate TasksEvolve(k: Core, k': Core) {
    && k.clock <= k'.clock
    && |k.tasks| <= |k'.tasks|
    && (forall t :: 0 <= t < |k.tasks| ==>
          && k'.tasks[t].born == k.tasks[t].born && k'.tasks[t].delay == k.tasks[t].delay
          && (k.tasks[t].phase == Finished ==> k'.tasks[t].phase == Finished)
          && (k'.tasks[t].phase == Awake ==>
                k.tasks[t].phase == Awake || k.tasks[t].born + k.tasks[t].delay <= k.clock))
    && (forall t :: |k.tasks| <= t < |k'.tasks| ==> k'.tasks[t].phase == Asleep)
  }

  lemma StepEvolvesTasks(w: World, step: Step)
    ensures TasksEvolve(w.core, Next(w, step).core)
  {
    if step.Advance? && w.up && step.c < |w.calls| {
      CoreEvolvesTasks(w.calls[step.c], w.core, step.ok);
    }
  }

  lemma CoreEvolvesTasks(call: Call, k: Core, ok: bool)
    ensures TasksEvolve(k, CoreAfter(call, k, ok))
  {
  }

  lemma PunctualStep(w: World, step: Step)
    requires Punctual(w)
    ensures Punctual(Next(w, step))
  {
    var w' := Next(w, step);
    StepEvolvesTasks(w, step);
    assert w'.plays == w.plays || (step.Fire? && w'.plays == w.plays + [Play(step.t, w.core.clock)]);
  }

  /** Every scheduled trigger plays at most once, and never before its schedule time plus its delay. */
  lemma {:induction false} TriggersOnce(w: World, steps: seq<Step>)
    requires Punctual(w)
    ensures Punctual(Exec(w, steps))
    decreases steps
  {
    if steps != [] {
      PunctualStep(w, steps[0]);
      TriggersOnce(Next(w, steps[0]), steps[1..]);
    }
  }

  /** The invariants above hold when the daemon starts. */
  lemma InitialHolds(cell: Cell, now: i64)
    requires Load(cell).Ok?
    ensures var w := Initial(cell, now); Balanced(w) && Chained(w) && Genuine(w) && Filed(w) && Covered(w) && Dated(w) && NoSnooze(w) && Punctual(w)
  {
    LoadedIsStored(cell);
    if cell.Some? {
      Codec.ReencodeStable(cell.value);
    }
  }
}
