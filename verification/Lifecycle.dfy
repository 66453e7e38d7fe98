/**
 The alarm lifecycle as a step machine (`ipc/control.rs` over
 `daemon/alarm_daemon.rs`). One step is what a handler or a trigger task does
 between two await points; handlers run concurrently, saves may fail, and the
 process may crash and restart at any step.
 */
module Lifecycle {
  import opened Common
  import opened Daemon
  import Codec

  // What a handler's steps do to the shared objects

  /** A spawned trigger. `Asleep` is before its only await point resolves, `Awake` after. */
  datatype Phase = Asleep | Awake | Finished | Aborted | Lost

  datatype Task = Task(sound: string, born: nat, delay: nat, phase: Phase)

  /** Everything the `Control` object reaches, with the table of triggers and a monotonic clock in milliseconds. */
  datatype Core = Core(
    mem: State,
    handle: Option<nat>,
    tasks: seq<Task>,
    playing: Option<string>,
    cell: Cell,
    clock: nat,
    signals: seq<bool>
  )

  /** `now.saturating_add(i64::try_from(delay).unwrap_or(i64::MAX))`. */
  function FireAt(now: i64, delay: nat): i64 {
    Min(now + Min(delay, I64_MAX), I64_MAX)
  }

  function AbortTask(tasks: seq<Task>, t: nat): seq<Task> {
    if t < |tasks| && tasks[t].phase == Asleep then tasks[t := tasks[t].(phase := Aborted)] else tasks
  }

  /** Takes the pending handle and aborts its task. */
  function HandleTaken(k: Core): Core {
    if k.handle.None? then k else k.(handle := None, tasks := AbortTask(k.tasks, k.handle.value))
  }

  function PlayerStopped(k: Core, ok: bool): Core {
    if ok then k.(playing := None) else k
  }

  function Spawned(k: Core, trigger: Trigger): Core {
    k.(tasks := k.tasks + [Task(trigger.sound, k.clock, trigger.delay, Asleep)])
  }

  /** A real change of status, which is what StateChanged is emitted for. */
  predicate IsNews(t: Transition) {
    t.Changed? && t.from != t.to
  }

  function Announced(signals: seq<bool>, t: Transition): seq<bool> {
    if IsNews(t) then signals + [t.to == Armed] else signals
  }

  // Requests and calls in flight

  datatype Request =
    | Arm(sound: string, delay: nat)
    | Snooze(seconds: nat)
    | Disarm
    | Dismiss

  datatype Trigger = Trigger(sound: string, delay: nat)

  /** The state a call wants, and the trigger it then schedules. */
  datatype Goal = Goal(desired: State, trigger: Option<Trigger>)

  function ArmGoal(sound: string, now: i64, delay: nat): Goal {
    Goal(ArmedState(Some(sound), Some(FireAt(now, delay))), Some(Trigger(sound, delay)))
  }

  const DISARM_GOAL := Goal(DISARMED, None)

  /** Where a call stands. */
  datatype Pc =
    | ReadSound
    | TakeHandle(goal: Goal)
    | StopPlayer(goal: Goal)
    | Transit(goal: Goal)
    | Save(goal: Goal, from: Status)
    | Spawn(goal: Goal, change: Transition)
    | KeepHandle(task: nat, change: Transition)
    | Notify(change: Transition)
    | Done(accepted: bool)

  /** `pre` is the memory state when the call came in, `ticket` the place of its transition in lock order. */
  datatype Call = Call(req: Request, pc: Pc, pre: State, ticket: nat)

  /**
   The machine. Since the last start: `boot` is the memory it came up with,
   `history` every memory state in lock order, `log` the status changes reported
   under the lock, `muted` the changes Snooze discards, `committed` the ticket of
   the last successful save, `told` the ticket of the change announced last. Since the
   beginning: `ever`, all memory states, and `plays`, all playbacks started by triggers.
   */
  datatype World = World(
    core: Core,
    up: bool,
    calls: seq<Call>,
    boot: State,
    history: seq<State>,
    log: seq<(Status, Status)>,
    muted: seq<bool>,
    committed: nat,
    told: nat,
    missed: bool,
    ever: set<State>,
    plays: seq<Play>
  )

  datatype Play = Play(task: nat, at: nat)

  datatype Step =
    | Begin(req: Request, now: i64, resolves: bool)
    | Advance(c: nat, ok: bool, now: i64, resolves: bool)
    | Wake(t: nat)
    | Fire(t: nat, ok: bool)
    | PlaybackEnds
    | Tick(ms: nat)
    | Crash
    | Restart(now: i64)

  /** Where a request starts, once its arguments are checked. */
  function Entry(req: Request, now: i64, resolves: bool): Pc {
    match req
    case Arm(sound, delay) => if resolves then TakeHandle(ArmGoal(sound, now, delay)) else Done(false)
    case Snooze(seconds) => if seconds == 0 then Done(false) else ReadSound
    case _ => TakeHandle(DISARM_GOAL)
  }

  function AfterSave(g: Goal, change: Transition): Pc {
    if g.trigger.Some? then Spawn(g, change) else Notify(change)
  }

  /** A call about to take the lock would change the memory state. */
  predicate Swaps(call: Call, k: Core) {
    call.pc.Transit? && k.mem != call.pc.goal.desired
  }

  /** Where the next step takes a call. */
  function PcAfter(call: Call, k: Core, now: i64, resolves: bool): Pc {
    match call.pc
    case ReadSound =>
      if k.mem.sound.None? || !resolves || !call.req.Snooze? then Done(false)
      else TakeHandle(ArmGoal(k.mem.sound.value, now, 1000 * call.req.seconds))
    case TakeHandle(g) => StopPlayer(g)
    case StopPlayer(g) => Transit(g)
    case Transit(g) => if Swaps(call, k) then Save(g, k.mem.status) else AfterSave(g, NoChange)
    case Save(g, from) => AfterSave(g, Changed(from, g.desired.status))
    case Spawn(g, change) => if g.trigger.Some? then KeepHandle(|k.tasks|, change) else Notify(change)
    case KeepHandle(_, change) => Notify(change)
    case Notify(_) => Done(true)
    case Done(_) => call.pc
  }

  /** The call after that step; `place` is the next one in lock order. */
  function Stepped(call: Call, k: Core, place: nat, now: i64, resolves: bool): Call {
    call.(pc := PcAfter(call, k, now, resolves), ticket := if Swaps(call, k) then place else call.ticket)
  }

  /** What that step does to the shared objects. */
  function CoreAfter(call: Call, k: Core, ok: bool): Core {
    match call.pc
    case TakeHandle(_) => HandleTaken(k)
    case StopPlayer(_) => PlayerStopped(k, ok)
    case Transit(g) => k.(mem := g.desired)
    case Save(g, _) => k.(cell := Commit(k.cell, g.desired, ok))
    case Spawn(g, _) => if g.trigger.Some? then Spawned(k, g.trigger.value) else k
    case KeepHandle(t, _) => k.(handle := Some(t))
    case Notify(change) => if call.req.Snooze? then k else k.(signals := Announced(k.signals, change))
    case _ => k
  }

  /** One step of call `c`. */
  function AdvanceCall(w: World, c: nat, ok: bool, now: i64, resolves: bool): World
    requires c < |w.calls|
  {
    var k, call := w.core, w.calls[c];
    var swaps := Swaps(call, k);
    w.(core := CoreAfter(call, k, ok),
       calls := w.calls[c := Stepped(call, k, |w.history|, now, resolves)],
       history := if swaps then w.history + [call.pc.goal.desired] else w.history,
       log := if swaps then w.log + [(k.mem.status, call.pc.goal.desired.status)] else w.log,
       ever := if swaps then w.ever + {call.pc.goal.desired} else w.ever,
       muted := if call.pc.Notify? && call.req.Snooze? then Announced(w.muted, call.pc.change) else w.muted,
       committed := if call.pc.Save? && ok then call.ticket else w.committed,
       told := if call.pc.Notify? && !call.req.Snooze? && IsNews(call.pc.change) then call.ticket else w.told)
  }

  function LoseTask(t: Task): Task {
    if t.phase == Asleep || t.phase == Awake then t.(phase := Lost) else t
  }

  function LoseTasks(tasks: seq<Task>): seq<Task> {
    seq(|tasks|, i requires 0 <= i < |tasks| => LoseTask(tasks[i]))
  }

  function Restarted(w: World, p: Codec.PersistedState, now: i64): World {
    var s := FromPersisted(p);
    w.(core := w.core.(mem := s, signals := []),
       up := true,
       calls := [],
       boot := s,
       history := [s],
       log := [],
       muted := [],
       committed := 0,
       told := 0,
       missed := Missed(p, now),
       ever := w.ever + {s})
  }

  /** A step that is not enabled leaves the machine as it is. */
  function Next(w: World, step: Step): World {
    var k := w.core;
    match step
    case Begin(req, now, resolves) =>
      if w.up then w.(calls := w.calls + [Call(req, Entry(req, now, resolves), k.mem, 0)]) else w
    case Advance(c, ok, now, resolves) =>
      if w.up && c < |w.calls| then AdvanceCall(w, c, ok, now, resolves) else w
    case Wake(t) =>
      if w.up && t < |k.tasks| && k.tasks[t].phase == Asleep && k.clock >= k.tasks[t].born + k.tasks[t].delay
      then w.(core := k.(tasks := k.tasks[t := k.tasks[t].(phase := Awake)]))
      else w
    case Fire(t, ok) =>
      if w.up && t < |k.tasks| && k.tasks[t].phase == Awake then
        var k' := k.(tasks := k.tasks[t := k.tasks[t].(phase := Finished)]);
        if ok then w.(core := k'.(playing := Some(k.tasks[t].sound)), plays := w.plays + [Play(t, k.clock)])
        else w.(core := k')
      else w
    case PlaybackEnds => w.(core := k.(playing := None))
    case Tick(ms) => w.(core := k.(clock := k.clock + ms))
    case Crash =>
      w.(core := k.(handle := None, tasks := LoseTasks(k.tasks), playing := None), up := false, calls := [])
    case Restart(now) =>
      if !w.up && Load(k.cell).Ok? then Restarted(w, Load(k.cell).value, now) else w
  }

  function Exec(w: World, steps: seq<Step>): World
    decreases steps
  {
    if steps == [] then w else Exec(Next(w, steps[0]), steps[1..])
  }

  /** Every step of the run satisfies `p` in the state it is taken from. */
  ghost predicate Along(p: (World, Step) -> bool, w: World, steps: seq<Step>)
    decreases steps
  {
    steps == [] || (p(w, steps[0]) && Along(p, Next(w, steps[0]), steps[1..]))
  }

  lemma {:induction false} ExecAppend(w: World, a: seq<Step>, b: seq<Step>)
    ensures Exec(w, a + b) == Exec(Exec(w, a), b)
    decreases a
  {
    if a == [] {
      assert a + b == b;
    } else {
      assert (a + b)[1..] == a[1..] + b;
      ExecAppend(Next(w, a[0]), a[1..], b);
    }
  }

  lemma {:induction false} AlongAppend(p: (World, Step) -> bool, w: World, a: seq<Step>, b: seq<Step>)
    requires Along(p, w, a) && Along(p, Exec(w, a), b)
    ensures Along(p, w, a + b)
    decreases a
  {
    if a == [] {
      assert a + b == b;
    } else {
      assert (a + b)[1..] == a[1..] + b;
      AlongAppend(p, Next(w, a[0]), a[1..], b);
    }
  }

  /** The daemon just started for the first time on a store that loads. */
  function Initial(cell: Cell, now: i64): World
    requires Load(cell).Ok?
  {
    var s := FromPersisted(Load(cell).value);
    World(Core(s, None, [], None, cell, 0, []), true, [], s, [s], [], [], 0, 0, Missed(Load(cell).value, now), {s}, [])
  }

  predicate Quiet(w: World) {
    forall c :: 0 <= c < |w.calls| ==> w.calls[c].pc.Done?
  }

  /** Serial runs: a call comes in only when the previous one has returned. */
  predicate SerialStep(w: World, step: Step) {
    step.Begin? ==> Quiet(w)
  }
}
