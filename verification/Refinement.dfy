/**
 The whole lifecycle seen from outside: with calls one at a time, whatever saves,
 stops and triggers do, the daemon with its trigger tasks, player, store and signals
 is a small alarm clock.
 */
module Refinement {
  import opened Common
  import opened Daemon
  import opened Lifecycle
  import opened Serial
  import opened Control
  import Codec

  // The alarm clock

  datatype Setting = Off | On(sound: Option<string>, fireAt: Option<i64>)

  /** The alarm that will go off: settings are numbered from the beginning, `due` is on the monotonic clock. */
  datatype Pending = Pending(number: nat, due: nat)

  /**
   Running: the setting, the setting on disk, at most one alarm that will go off, the
   numbers and sounds of those about to ring come what may, what is ringing, the
   monotonic clock, how often the alarm has been set, and the StateChanged signals since
   start. Stopped: what outlives the process.
   */
  datatype Clock =
    | Running(setting: Setting, disk: Setting, pending: Option<Pending>, late: map<nat, string>,
              ringing: Option<string>, clock: nat, count: nat, signals: seq<bool>)
    | Stopped(disk: Setting, clock: nat, count: nat)

  datatype Event =
    | Ask(req: Request, env: Env)
    | Wakes(number: nat)
    | Fires(number: nat, ok: bool)
    | Ends
    | Elapse(ms: nat)
    | Crashes
    | Restarts(now: i64)

  /** The clock is given a new setting: whatever was pending is forgotten, and what rings is silenced if it can be. */
  function Put(a: Clock, setting: Setting, env: Env): (b: Clock)
    requires a.Running?
    ensures b.Running?
  {
    a.(setting := setting,
       disk := if env.saveOk && setting != a.setting then setting else a.disk,
       pending := None,
       ringing := if env.stopOk then None else a.ringing,
       signals := if setting.On? != a.setting.On? then a.signals + [setting.On?] else a.signals)
  }

  function Set(a: Clock, sound: string, delay: nat, env: Env): Clock
    requires a.Running?
  {
    var b := Put(a, On(Some(sound), Some(FireAt(env.now, delay))), env);
    b.(pending := Some(Pending(a.count, a.clock + delay)), count := a.count + 1)
  }

  function Asked(a: Clock, req: Request, env: Env): Clock
    requires a.Running?
  {
    match req
    case Arm(sound, delay) => if env.resolves then Set(a, sound, delay, env) else a
    case Snooze(seconds) =>
      if seconds > 0 && a.setting.On? && a.setting.sound.Some? && env.resolves
      then Set(a, a.setting.sound.value, 1000 * seconds, env) else a
    case _ => Put(a, Off, env)
  }

  /** Only the pending alarm wakes, and only when due; what has woken rings the sound that was set, once, or not at all. */
  function Tock(a: Clock, ev: Event): Clock {
    match ev
    case Ask(req, env) => if a.Running? then Asked(a, req, env) else a
    case Wakes(n) =>
      if a.Running? && a.pending.Some? && a.pending.value.number == n && a.pending.value.due <= a.clock
         && a.setting.On? && a.setting.sound.Some?
      then a.(pending := None, late := a.late[n := a.setting.sound.value])
      else a
    case Fires(n, ok) =>
      if a.Running? && n in a.late
      then a.(late := a.late - {n}, ringing := if ok then Some(a.late[n]) else a.ringing)
      else a
    case Ends => if a.Running? then a.(ringing := None) else a
    case Elapse(ms) => a.(clock := a.clock + ms)
    case Crashes => Stopped(a.disk, a.clock, a.count)
    case Restarts(_) => if a.Stopped? then Running(a.disk, a.disk, None, map[], None, a.clock, a.count, []) else a
  }

  function Tocks(a: Clock, evs: seq<Event>): Clock
    decreases evs
  {
    if evs == [] then a else Tocks(Tock(a, evs[0]), evs[1..])
  }

  // The daemon under the same events

  function Happen(w: World, ev: Event): World {
    match ev
    case Ask(req, env) => if w.up then Answer(w, req, env) else w
    case Wakes(n) => Next(w, Wake(n))
    case Fires(n, ok) => Next(w, Fire(n, ok))
    case Ends => Next(w, PlaybackEnds)
    case Elapse(ms) => Next(w, Tick(ms))
    case Crashes => Next(w, Crash)
    case Restarts(now) => Next(w, Restart(now))
  }

  function HappenAll(w: World, evs: seq<Event>): World
    decreases evs
  {
    if evs == [] then w else HappenAll(Happen(w, evs[0]), evs[1..])
  }

  // How the one appears as the other

  function SettingOf(s: State): Setting {
    if s.status == Disarmed then Off else On(s.sound, s.nextFire)
  }

  function DiskOf(cell: Cell): Setting {
    match Recovered(cell)
    case Ok(s) => SettingOf(s)
    case Err(_) => Off
  }

  function PendingOf(k: Core): Option<Pending> {
    if k.handle.Some? && AsleepAt(k, k.handle.value)
    then Some(Pending(k.handle.value, k.tasks[k.handle.value].born + k.tasks[k.handle.value].delay))
    else None
  }

  function LateOf(tasks: seq<Task>): map<nat, string> {
    map t: nat | t < |tasks| && tasks[t].phase == Awake :: tasks[t].sound
  }

  function SeenUp(k: Core): Clock {
    Running(SettingOf(k.mem), DiskOf(k.cell), PendingOf(k), LateOf(k.tasks), k.playing, k.clock, |k.tasks|, k.signals)
  }

  function Seen(w: World): Clock {
    if w.up then SeenUp(w.core) else Stopped(DiskOf(w.core.cell), w.core.clock, |w.core.tasks|)
  }

  predicate StateOk(s: State) {
    (s.status == Disarmed ==> s == DISARMED) && Codec.Fits(s.sound)
  }

  predicate CellOk(cell: Cell) {
    Recovered(cell).Ok? && StateOk(Recovered(cell).value)
  }

  /** The only trigger asleep is the one held, and it will play the armed sound. */
  predicate SleepersOk(k: Core) {
    forall t :: 0 <= t < |k.tasks| && k.tasks[t].phase == Asleep ==>
      k.handle == Some(t) && k.mem.status == Armed && k.mem.sound == Some(k.tasks[t].sound)
  }

  predicate SettledUp(k: Core) {
    StateOk(k.mem) && CellOk(k.cell) && SleepersOk(k)
  }

  predicate SettledDown(k: Core) {
    && CellOk(k.cell) && k.handle.None? && k.playing.None?
    && forall t :: 0 <= t < |k.tasks| ==> k.tasks[t].phase != Asleep && k.tasks[t].phase != Awake
  }

  /** No call in flight. */
  predicate Settled(w: World) {
    Quiet(w) && if w.up then SettledUp(w.core) else SettledDown(w.core)
  }

  predicate Storable(ev: Event) {
    ev.Ask? && ev.req.Arm? && ev.env.resolves ==> Codec.Fits(Some(ev.req.sound))
  }

  // Requests

  /** `tasks'` is `tasks` with nothing left asleep, and the new trigger, if any, at the end. */
  predicate Retabled(tasks: seq<Task>, tasks': seq<Task>, clock: nat, trigger: Option<Trigger>) {
    && |tasks'| == |tasks| + (if trigger.Some? then 1 else 0)
    && (forall t :: 0 <= t < |tasks| ==>
          tasks'[t] == if tasks[t].phase == Asleep then tasks[t].(phase := Aborted) else tasks[t])
    && (trigger.Some? ==> tasks'[|tasks|] == Task(trigger.value.sound, clock, trigger.value.delay, Asleep))
  }

  /** `k'` is what serving `g` makes of `k`. */
  predicate Delivered(k: Core, k': Core, g: Goal, req: Request, env: Env) {
    && k'.mem == g.desired
    && k'.clock == k.clock
    && k'.playing == (if env.stopOk then None else k.playing)
    && Recovered(k'.cell) == (if env.saveOk && g.desired != k.mem then Ok(g.desired) else Recovered(k.cell))
    && k'.handle == (if g.trigger.Some? then Some(|k.tasks|) else None)
    && Retabled(k.tasks, k'.tasks, k.clock, g.trigger)
    && k'.signals == (if req.Snooze? then k.signals else Announced(k.signals, TransitionOf(k.mem, g.desired)))
  }

  lemma SwitchedRecovers(k: Core, desired: State, ok: bool)
    requires Codec.Fits(desired.sound)
    ensures var k' := Switched(k, desired, ok);
            && k' == k.(mem := desired, cell := k'.cell)
            && Recovered(k'.cell) == if ok && desired != k.mem then Ok(desired) else Recovered(k.cell)
  {
    CommitRecovers(k.cell, desired);
  }

  lemma CancelledRetables(k: Core, ok: bool)
    requires SleepersOk(k)
    ensures var k' := Cancelled(k, ok);
            && k' == k.(handle := None, tasks := k'.tasks, playing := if ok then None else k.playing)
            && Retabled(k.tasks, k'.tasks, k.clock, None)
  {
  }

  lemma CarriedDelivers(k: Core, g: Goal, env: Env, req: Request)
    requires SleepersOk(k) && Codec.Fits(g.desired.sound)
    ensures Delivered(k, Reported(Carried(k, g, env), req, TransitionOf(k.mem, g.desired)), g, req, env)
  {
    var k1 := Cancelled(k, env.stopOk);
    CancelledRetables(k, env.stopOk);
    var k2 := Switched(k1, g.desired, env.saveOk);
    SwitchedRecovers(k1, g.desired, env.saveOk);
    assert Retabled(k.tasks, Scheduled(k2, g.trigger).tasks, k.clock, g.trigger);
  }

  lemma RetabledLate(tasks: seq<Task>, tasks': seq<Task>, clock: nat, trigger: Option<Trigger>)
    requires Retabled(tasks, tasks', clock, trigger)
    ensures LateOf(tasks') == LateOf(tasks)
  {
  }

  lemma DeliveredArm(k: Core, k': Core, sound: string, delay: nat, req: Request, env: Env)
    requires SettledUp(k) && Codec.Fits(Some(sound)) && (req.Snooze? ==> k.mem.status == Armed)
    requires Delivered(k, k', ArmGoal(sound, env.now, delay), req, env)
    ensures SettledUp(k') && SeenUp(k') == Set(SeenUp(k), sound, delay, env)
  {
    RetabledLate(k.tasks, k'.tasks, k.clock, ArmGoal(sound, env.now, delay).trigger);
  }

  lemma DeliveredDisarm(k: Core, k': Core, req: Request, env: Env)
    requires SettledUp(k) && !req.Snooze? && Delivered(k, k', DISARM_GOAL, req, env)
    ensures SettledUp(k') && SeenUp(k') == Put(SeenUp(k), Off, env)
  {
    RetabledLate(k.tasks, k'.tasks, k.clock, None);
  }

  lemma ServedSeen(k: Core, req: Request, env: Env)
    requires SettledUp(k) && Storable(Ask(req, env))
    ensures var k' := Served(k, req, env).0;
            SettledUp(k') && SeenUp(k') == Asked(SeenUp(k), req, env)
  {
    RejectedExactly(k, req, env);
    var k' := Served(k, req, env).0;
    if Served(k, req, env).1 {
      CarriedDelivers(k, GoalOfRequest(k, req, env.now), env, req);
      match req
      case Arm(sound, delay) => DeliveredArm(k, k', sound, delay, req, env);
      case Snooze(seconds) => DeliveredArm(k, k', k.mem.sound.value, 1000 * seconds, req, env);
      case _ => DeliveredDisarm(k, k', req, env);
    }
  }

  lemma AskSeen(w: World, req: Request, env: Env)
    requires Settled(w) && w.up && Storable(Ask(req, env))
    ensures var w' := Happen(w, Ask(req, env));
            Settled(w') && Seen(w') == Asked(Seen(w), req, env)
  {
    AnswerServes(w, req, env);
    ServedSeen(w.core, req, env);
  }

  // Triggers, whichever wakes or fires

  lemma WakeSeen(w: World, n: nat)
    requires Settled(w)
    ensures Settled(Happen(w, Wakes(n))) && Seen(Happen(w, Wakes(n))) == Tock(Seen(w), Wakes(n))
  {
    var k, w' := w.core, Happen(w, Wakes(n));
    if w' != w {
      assert w'.core.tasks == k.tasks[n := k.tasks[n].(phase := Awake)];
      assert LateOf(w'.core.tasks) == LateOf(k.tasks)[n := k.tasks[n].sound];
    }
  }

  lemma FireSeen(w: World, n: nat, ok: bool)
    requires Settled(w)
    ensures Settled(Happen(w, Fires(n, ok))) && Seen(Happen(w, Fires(n, ok))) == Tock(Seen(w), Fires(n, ok))
  {
    var k, w' := w.core, Happen(w, Fires(n, ok));
    if w' != w {
      assert w'.core.tasks == k.tasks[n := k.tasks[n].(phase := Finished)];
      assert LateOf(w'.core.tasks) == LateOf(k.tasks) - {n};
    }
  }

  lemma RestartSeen(w: World, now: i64)
    requires Settled(w)
    ensures Settled(Happen(w, Restarts(now))) && Seen(Happen(w, Restarts(now))) == Tock(Seen(w), Restarts(now))
  {
    if !w.up {
      assert LateOf(w.core.tasks) == map[];
    }
  }

  lemma EventSeen(w: World, ev: Event)
    requires Settled(w) && Storable(ev)
    ensures Settled(Happen(w, ev)) && Seen(Happen(w, ev)) == Tock(Seen(w), ev)
  {
    match ev
    case Ask(req, env) =>
      if w.up {
        AskSeen(w, req, env);
      }
    case Wakes(n) => WakeSeen(w, n);
    case Fires(n, ok) => FireSeen(w, n, ok);
    case Restarts(now) => RestartSeen(w, now);
    case _ =>
  }

  /**
   Over every sequence of requests, wakings and firings of any trigger, crashes and
   restarts, with saves, stops and plays that may fail, the daemon shows exactly the
   alarm clock's states.
   */
  lemma {:induction false} DaemonIsAlarmClock(w: World, evs: seq<Event>)
    requires Settled(w) && forall ev :: ev in evs ==> Storable(ev)
    ensures Settled(HappenAll(w, evs))
    ensures Seen(HappenAll(w, evs)) == Tocks(Seen(w), evs)
    decreases evs
  {
    if evs != [] {
      EventSeen(w, evs[0]);
      DaemonIsAlarmClock(Happen(w, evs[0]), evs[1..]);
    }
  }

  /** Such a sequence is a serial run of the step machine, so what is proved of serial runs holds of it. */
  lemma {:induction false} EventsAreRun(w: World, evs: seq<Event>) returns (steps: seq<Step>)
    requires Settled(w) && forall ev :: ev in evs ==> Storable(ev)
    ensures Along(SerialStep, w, steps) && Exec(w, steps) == HappenAll(w, evs)
    decreases evs
  {
    if evs == [] {
      steps := [];
    } else {
      var first := EventIsRun(w, evs[0]);
      EventSeen(w, evs[0]);
      var rest := EventsAreRun(Happen(w, evs[0]), evs[1..]);
      ExecAppend(w, first, rest);
      AlongAppend(SerialStep, w, first, rest);
      steps := first + rest;
    }
  }

  lemma EventIsRun(w: World, ev: Event) returns (steps: seq<Step>)
    requires Settled(w)
    ensures Along(SerialStep, w, steps) && Exec(w, steps) == Happen(w, ev)
  {
    if ev.Ask? && w.up {
      steps := AnswerIsRun(w, ev.req, ev.env);
    } else if ev.Ask? {
      steps := [];
    } else {
      var step := match ev
        case Wakes(n) => Wake(n)
        case Fires(n, ok) => Fire(n, ok)
        case Ends => PlaybackEnds
        case Elapse(ms) => Tick(ms)
        case Crashes => Crash
        case Restarts(now) => Restart(now);
      steps := [step];
      assert steps[1..] == [];
    }
  }

  /** A daemon started on a store that loads a proper state is such a daemon. */
  lemma InitialSettled(cell: Cell, now: i64)
    requires Load(cell).Ok? && StateOk(FromPersisted(Load(cell).value))
    ensures Settled(Initial(cell, now))
  {
  }
}
