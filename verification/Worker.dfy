/**
 The audio worker's loop (`worker_main` in `audio/cpal_audio.rs`): it drops failed
 streams and rebuilds them no more often than every five seconds. Time is real
 seconds; handling a command and building a stream take none.
 */
module Worker {
  import opened Common
  import opened Profile
  import opened Render
  import opened Mixer

  const RETRY_INTERVAL := 5.0

  /** One call of `build_stream` by the worker; `lossAt` is the loss it answers, if one was flagged on a live stream. */
  datatype Attempt = Attempt(at: real, ok: bool, lossAt: Option<real>)

  /**
   The worker at the head of its loop. `broken` records that the live stream has
   raised an error, which the worker itself sees only through `deviceLost`; `replies`
   are the answers sent to Play and Stop commands.
   */
  datatype View = View(
    now: real,
    stream: bool,
    broken: bool,
    deviceLost: bool,
    lastRetry: real,
    lossAt: Option<real>,
    attempts: seq<Attempt>,
    replies: seq<Result<(), AudioError>>,
    stopped: bool
  )

  datatype Wakeup =
    | PlayCommand(sound: DecodedSound, profile: VolumeProfile)
    | StopCommand
    | Timeout
    | Shutdown

  /**
   What happens during one iteration: how long `recv_timeout` waited and why it
   returned, when the live stream's error callback ran meanwhile, whether a rebuild
   would succeed, whether the new stream fails before the worker clears the flag, and
   whether the live stream's error callback runs after that and before the next iteration.
   */
  datatype Turn = Turn(wait: real, cause: Wakeup, errorAfter: Option<real>, buildOk: bool, raced: bool, errorAtFoot: bool) {
    predicate Valid() {
      && 0.0 <= wait <= RETRY_INTERVAL
      && (cause.Timeout? ==> wait == RETRY_INTERVAL)
      && (errorAfter.Some? ==> 0.0 <= errorAfter.value <= wait)
    }
  }

  /** The worker entering its loop at time `now`. */
  function Started(now: real, buildOk: bool, errorAlready: bool): View {
    var lost := buildOk && errorAlready;
    View(now, buildOk, lost, !buildOk || lost, now, if lost then Some(now) else None,
         [Attempt(now, buildOk, None)], [], false)
  }

  function Dropped(v: View): View {
    if v.deviceLost && v.stream then v.(stream := false, broken := false) else v
  }

  function Waited(v: View, t: Turn): View {
    var w := v.(now := v.now + t.wait);
    if v.stream && t.errorAfter.Some? then
      w.(broken := true, deviceLost := true,
         lossAt := if v.lossAt.Some? then v.lossAt else Some(v.now + t.errorAfter.value))
    else w
  }

  /** The command is served, and answered. */
  function Handled(v: View, cause: Wakeup): View {
    match cause
    case PlayCommand(_, _) => v.(replies := v.replies + [if v.stream then Ok(()) else Err(DeviceUnavailable)])
    case StopCommand => v.(replies := v.replies + [Ok(())])
    case Timeout => v
    case Shutdown => v.(stopped := true)
  }

  predicate Due(v: View) {
    !v.stream && v.now - v.lastRetry >= RETRY_INTERVAL
  }

  function Retried(v: View, t: Turn): View {
    if !Due(v) then v
    else
      v.(stream := t.buildOk,
         broken := if t.buildOk then t.raced else v.broken,
         deviceLost := !t.buildOk && v.deviceLost,
         lastRetry := v.now,
         lossAt := None,
         attempts := v.attempts + [Attempt(v.now, t.buildOk, v.lossAt)])
  }

  /** An error callback of the live stream on the way back to the head of the loop. */
  function Struck(v: View, t: Turn): View {
    if v.stream && t.errorAtFoot then
      v.(broken := true, deviceLost := true, lossAt := if v.lossAt.Some? then v.lossAt else Some(v.now))
    else v
  }

  function NextTurn(v: View, t: Turn): View {
    if v.stopped then v
    else
      var w := Handled(Waited(Dropped(v), t), t.cause);
      if w.stopped then w else Struck(Retried(w, t), t)
  }

  function Turns(v: View, script: seq<Turn>): View {
    if script == [] then v else NextTurn(Turns(v, script[..|script| - 1]), script[|script| - 1])
  }

  predicate AllValid(script: seq<Turn>) {
    forall t :: t in script ==> t.Valid()
  }

  class AudioWorker {
    const shared: Shared
    var now: real
    var stream: bool
    var broken: bool
    var lastRetry: real
    var lossAt: Option<real>
    var attempts: seq<Attempt>
    var replies: seq<Result<(), AudioError>>
    var stopped: bool

    function Seen(): View
      reads this, shared
    {
      View(now, stream, broken, shared.deviceLost, lastRetry, lossAt, attempts, replies, stopped)
    }

    constructor (at: real, buildOk: bool, errorAlready: bool)
      ensures Seen() == Started(at, buildOk, errorAlready)
      ensures fresh(shared) && shared.playback == None
    {
      shared := new Shared();
      now, stream, lastRetry, stopped := at, buildOk, at, false;
      attempts, replies := [Attempt(at, buildOk, None)], [];
      broken := buildOk && errorAlready;
      lossAt := if buildOk && errorAlready then Some(at) else None;
      new;
      if !buildOk || errorAlready {
        shared.deviceLost := true;
      }
    }

    /** The head of the loop: a stream flagged as lost is dropped. */
    method DropFailed()
      modifies this`stream, this`broken
      ensures Seen() == Dropped(old(Seen()))
    {
      if shared.deviceLost && stream {
        stream, broken := false, false;
      }
    }

    /** `recv_timeout`, with the stream's error callback running beside it. */
    method Await(t: Turn)
      modifies this`now, this`broken, this`lossAt, shared`deviceLost
      ensures Seen() == Waited(old(Seen()), t)
    {
      if stream && t.errorAfter.Some? {
        FlagLoss(now + t.errorAfter.value);
      }
      now := now + t.wait;
    }

    /** The foot of the loop: rebuild when there is no stream and the last attempt is old enough. */
    method Retry(t: Turn)
      modifies this`stream, this`broken, this`lastRetry, this`lossAt, this`attempts, shared`deviceLost
      ensures Seen() == Retried(old(Seen()), t)
    {
      if !stream && now - lastRetry >= RETRY_INTERVAL {
        attempts := attempts + [Attempt(now, t.buildOk, lossAt)];
        lossAt := None;
        if t.buildOk {
          if t.raced {
            shared.deviceLost := true;
          }
          shared.deviceLost := false;
          stream, broken := true, t.raced;
        }
        lastRetry := now;
      }
    }

    /** The stream's error callback. */
    method FlagLoss(at: real)
      modifies this`broken, this`lossAt, shared`deviceLost
      ensures broken && shared.deviceLost
      ensures lossAt == if old(lossAt).Some? then old(lossAt) else Some(at)
    {
      broken := true;
      shared.deviceLost := true;
      if lossAt.None? {
        lossAt := Some(at);
      }
    }

    /** One iteration of the loop. */
    method Iterate(t: Turn)
      requires !stopped
      modifies this, shared
      ensures Seen() == NextTurn(old(Seen()), t)
      ensures shared.playback ==
              match t.cause
              case PlayCommand(sound, profile) =>
                if old(stream && !shared.deviceLost) then Some(Fresh(sound, profile)) else old(shared.playback)
              case StopCommand => None
              case _ => old(shared.playback)
    {
      DropFailed();
      Await(t);
      match t.cause {
        case PlayCommand(sound, profile) =>
          var result := shared.HandlePlay(sound, profile, stream);
          replies := replies + [result];
        case StopCommand =>
          shared.HandleStop();
          replies := replies + [Ok(())];
        case Shutdown =>
          stopped := true;
          return;
        case Timeout =>
      }
      Retry(t);
      if stream && t.errorAtFoot {
        FlagLoss(now);
      }
    }

    /** The loop, until the script ends or a Shutdown arrives. */
    method Run(script: seq<Turn>)
      modifies this, shared
      ensures Seen() == Turns(old(Seen()), script)
    {
      var i := 0;
      ghost var start := Seen();
      while i < |script|
        invariant i <= |script|
        invariant Seen() == Turns(start, script[..i])
      {
        assert script[..i + 1][..i] == script[..i];
        if !stopped {
          Iterate(script[i]);
        }
        i := i + 1;
      }
      assert script[..i] == script;
    }
  }

  // What every run keeps

  /** At least 5 s between attempts, less than 10 s after a failed one, at most 10 s after the loss answered. */
  predicate Spaced(attempts: seq<Attempt>) {
    && (forall i :: 0 < i < |attempts| ==> attempts[i].at - attempts[i - 1].at >= 5.0)
    && (forall i :: 0 < i < |attempts| && !attempts[i - 1].ok ==> attempts[i].at - attempts[i - 1].at < 10.0)
    && (forall i :: 0 <= i < |attempts| && attempts[i].lossAt.Some? ==> attempts[i].at - attempts[i].lossAt.value <= 10.0)
  }

  ghost predicate Healthy(v: View) {
    && (!v.stream ==> v.deviceLost)
    && v.lastRetry <= v.now
    && Spaced(v.attempts)
    && |v.attempts| > 0 && v.attempts[|v.attempts| - 1].at == v.lastRetry
    && (!v.stopped && !v.stream ==> v.now - v.lastRetry < RETRY_INTERVAL)
    && (!v.attempts[|v.attempts| - 1].ok ==> !v.stream)
    && (v.broken ==> v.stream)
    && (v.lossAt.Some? ==>
          && v.lastRetry <= v.lossAt.value
          && v.deviceLost
          && (!v.stopped ==> v.now - v.lossAt.value <= RETRY_INTERVAL))
  }

  lemma SpacedAppend(attempts: seq<Attempt>, a: Attempt)
    requires Spaced(attempts) && |attempts| > 0
    requires a.at - attempts[|attempts| - 1].at >= 5.0
    requires !attempts[|attempts| - 1].ok ==> a.at - attempts[|attempts| - 1].at < 10.0
    requires a.lossAt.Some? ==> a.at - a.lossAt.value <= 10.0
    ensures Spaced(attempts + [a])
  {
  }

  lemma HealthyStruck(v: View, t: Turn)
    requires Healthy(v)
    ensures Healthy(Struck(v, t))
  {
  }

  lemma HealthyRetried(v: View, t: Turn)
    requires Healthy(v) && t.Valid() && !v.stopped && !t.cause.Shutdown?
    ensures Healthy(Retried(Handled(Waited(Dropped(v), t), t.cause), t))
  {
    var w := Handled(Waited(Dropped(v), t), t.cause);
    assert w.attempts == v.attempts && w.lastRetry == v.lastRetry;
    if Due(w) {
      SpacedAppend(v.attempts, Attempt(w.now, t.buildOk, w.lossAt));
    }
  }

  lemma HealthyTurn(v: View, t: Turn)
    requires Healthy(v) && t.Valid()
    ensures Healthy(NextTurn(v, t))
  {
    if !v.stopped && !t.cause.Shutdown? {
      HealthyRetried(v, t);
      HealthyStruck(Retried(Handled(Waited(Dropped(v), t), t.cause), t), t);
    }
  }

  lemma {:induction false} HealthyRun(v: View, script: seq<Turn>)
    requires Healthy(v) && AllValid(script)
    ensures Healthy(Turns(v, script))
  {
    if script != [] {
      HealthyRun(v, script[..|script| - 1]);
      HealthyTurn(Turns(v, script[..|script| - 1]), script[|script| - 1]);
    }
  }

  /**
   For every timing of commands, errors and rebuild outcomes: without a stream the
   device is flagged lost; rebuild attempts are at least 5 s apart, less than 10 s
   apart while there is no stream, and at most 10 s after the loss they answer; and
   at the head of the loop a pending loss is at most 5 s old.
   */
  lemma RetrySchedule(at: real, buildOk: bool, errorAlready: bool, script: seq<Turn>)
    requires AllValid(script)
    ensures var v := Turns(Started(at, buildOk, errorAlready), script);
            && (!v.stream ==> v.deviceLost)
            && Spaced(v.attempts)
            && |v.attempts| > 0 && v.attempts[|v.attempts| - 1].at == v.lastRetry
            && (!v.stopped && !v.stream ==> v.now - v.lastRetry < 5.0)
            && (!v.stopped && v.lossAt.Some? ==> v.now - v.lossAt.value <= 5.0)
  {
    HealthyRun(Started(at, buildOk, errorAlready), script);
  }

  // What a turn does, from what happens during it

  /** The worker has a stream that no error has been flagged for. */
  predicate Playing(v: View) {
    v.stream && !v.deviceLost
  }

  /** The turn tries a rebuild: there is no such stream, and the last attempt is five seconds old. */
  predicate Rebuilds(v: View, t: Turn) {
    !Playing(v) && v.now + t.wait - v.lastRetry >= 5.0
  }

  /** When the stream in use raises an error first, if it does. */
  function LossIn(v: View, t: Turn): Option<real> {
    if Playing(v) && t.errorAfter.Some? then Some(v.now + t.errorAfter.value)
    else if (Playing(v) || (Rebuilds(v, t) && t.buildOk)) && t.errorAtFoot then Some(v.now + t.wait)
    else None
  }

  /**
   A turn keeps the stream in use, or drops a flagged one and tries a rebuild when that
   is due; the flag is up afterwards exactly when there is no stream or one that raised
   an error; a loss is remembered until the attempt that answers it; and a Play is
   accepted exactly when a stream is in use.
   */
  lemma TurnExactly(v: View, t: Turn)
    requires Healthy(v) && !v.stopped && !t.cause.Shutdown?
    ensures var w, rebuilds := NextTurn(v, t), Rebuilds(v, t);
            && !w.stopped && w.now == v.now + t.wait
            && w.lastRetry == (if rebuilds then w.now else v.lastRetry)
            && w.attempts == (if rebuilds then v.attempts + [Attempt(w.now, t.buildOk, v.lossAt)] else v.attempts)
            && w.stream == (Playing(v) || (rebuilds && t.buildOk))
            && w.deviceLost == (!w.stream || LossIn(v, t).Some?)
            && w.lossAt == (if Playing(v) || rebuilds then LossIn(v, t) else v.lossAt)
            && w.broken == (w.stream && (t.errorAtFoot || if Playing(v) then v.broken || t.errorAfter.Some? else t.raced))
            && w.replies ==
               match t.cause
               case PlayCommand(_, _) => v.replies + [if Playing(v) then Ok(()) else Err(DeviceUnavailable)]
               case StopCommand => v.replies + [Ok(())]
               case _ => v.replies
  {
    TurnBooks(v, t);
    TurnStream(v, t);
  }

  lemma TurnBooks(v: View, t: Turn)
    requires Healthy(v) && !v.stopped && !t.cause.Shutdown?
    ensures var w, rebuilds := NextTurn(v, t), Rebuilds(v, t);
            && !w.stopped && w.now == v.now + t.wait
            && w.lastRetry == (if rebuilds then w.now else v.lastRetry)
            && w.attempts == (if rebuilds then v.attempts + [Attempt(w.now, t.buildOk, v.lossAt)] else v.attempts)
            && w.replies ==
               match t.cause
               case PlayCommand(_, _) => v.replies + [if Playing(v) then Ok(()) else Err(DeviceUnavailable)]
               case StopCommand => v.replies + [Ok(())]
               case _ => v.replies
  {
  }

  lemma TurnStream(v: View, t: Turn)
    requires Healthy(v) && !v.stopped && !t.cause.Shutdown?
    ensures var w := NextTurn(v, t);
            && w.stream == (Playing(v) || (Rebuilds(v, t) && t.buildOk))
            && w.deviceLost == (!w.stream || LossIn(v, t).Some?)
            && w.lossAt == (if Playing(v) || Rebuilds(v, t) then LossIn(v, t) else v.lossAt)
            && w.broken == (w.stream && (t.errorAtFoot || if Playing(v) then v.broken || t.errorAfter.Some? else t.raced))
  {
  }

  /** A Shutdown ends the loop, and nothing happens after it. */
  lemma {:induction false} ShutdownStops(v: View, t: Turn, rest: seq<Turn>)
    requires t.cause.Shutdown?
    ensures NextTurn(v, t).stopped && Turns(NextTurn(v, t), rest) == NextTurn(v, t)
    decreases rest
  {
    if rest != [] {
      ShutdownStops(v, t, rest[..|rest| - 1]);
    }
  }

  /** The first build decides: with it the worker has a stream, flagged only if it has failed already, and accepts a first Play unless it has. */
  lemma StartExactly(at: real, buildOk: bool, errorAlready: bool, t: Turn)
    requires t.cause.PlayCommand?
    ensures var v := Started(at, buildOk, errorAlready);
            && v.now == at && v.stream == buildOk && v.deviceLost == (!buildOk || errorAlready) && !v.stopped
            && v.lossAt == (if buildOk && errorAlready then Some(at) else None)
            && v.broken == (buildOk && errorAlready)
            && v.attempts == [Attempt(at, buildOk, None)]
            && NextTurn(v, t).replies == [if buildOk && !errorAlready then Ok(()) else Err(DeviceUnavailable)]
  {
  }

  predicate NoErrors(script: seq<Turn>) {
    forall t :: t in script ==> t.errorAfter.None? && !t.errorAtFoot
  }

  /** In use exactly when the last attempt, the only one to succeed, did. */
  predicate Steady(v: View) {
    && |v.attempts| > 0
    && (v.stream <==> v.attempts[|v.attempts| - 1].ok)
    && (v.stream ==> !v.deviceLost) && v.lossAt.None?
    && (forall i :: 0 <= i < |v.attempts| - 1 ==> !v.attempts[i].ok)
  }

  lemma SteadyTurn(v: View, t: Turn)
    requires Healthy(v) && Steady(v) && t.errorAfter.None? && !t.errorAtFoot
    ensures Steady(NextTurn(v, t))
  {
    if !v.stopped && !t.cause.Shutdown? {
      TurnExactly(v, t);
    }
  }

  /** While streams raise no errors, the worker has one in use exactly when the last attempt succeeded, and a first success is the last attempt. */
  lemma {:induction false} SteadyRun(at: real, buildOk: bool, script: seq<Turn>)
    requires AllValid(script) && NoErrors(script)
    ensures var v := Turns(Started(at, buildOk, false), script);
            && Healthy(v) && Steady(v)
            && (v.stream <==> v.attempts[|v.attempts| - 1].ok)
            && (v.stream ==> !v.deviceLost)
  {
    if script != [] {
      var t, v := script[|script| - 1], Turns(Started(at, buildOk, false), script[..|script| - 1]);
      assert t in script;
      SteadyRun(at, buildOk, script[..|script| - 1]);
      HealthyTurn(v, t);
      SteadyTurn(v, t);
    }
  }

  /** A loss is still to be answered, by attempt number `n`, or has been. */
  ghost predicate Chased(v: View, n: nat, loss: real) {
    && Healthy(v) && loss <= v.now
    && if |v.attempts| == n then v.lossAt == Some(loss)
       else |v.attempts| > n && v.attempts[n].lossAt == Some(loss) && v.attempts[n].at >= loss
  }

  lemma {:induction false} ChasedRun(v: View, n: nat, loss: real, rest: seq<Turn>)
    requires Chased(v, n, loss) && AllValid(rest)
    ensures Chased(Turns(v, rest), n, loss)
    decreases rest
  {
    if rest != [] {
      var t, w := rest[|rest| - 1], Turns(v, rest[..|rest| - 1]);
      assert t in rest;
      ChasedRun(v, n, loss, rest[..|rest| - 1]);
      HealthyTurn(w, t);
      if !w.stopped && !t.cause.Shutdown? {
        TurnExactly(w, t);
      }
    }
  }

  /**
   After any history, an error raised by the stream in use sets the flag, and if the
   loop is still running five seconds after the error, the very next attempt has
   answered it, at most ten seconds after the error.
   */
  lemma ErrorAnswered(at: real, buildOk: bool, errorAlready: bool, before: seq<Turn>, t: Turn, rest: seq<Turn>)
    requires AllValid(before) && t.Valid() && AllValid(rest) && !t.cause.Shutdown?
    ensures var v := Turns(Started(at, buildOk, errorAlready), before);
            var v1 := NextTurn(v, t);
            var w, n := Turns(v1, rest), |v1.attempts|;
            !v.stopped && LossIn(v, t).Some? ==>
              var loss := LossIn(v, t).value;
              && v1.deviceLost
              && (!w.stopped && w.now > loss + 5.0 ==>
                    && |w.attempts| > n && w.attempts[n].lossAt == Some(loss)
                    && loss <= w.attempts[n].at <= loss + 10.0)
  {
    var v := Turns(Started(at, buildOk, errorAlready), before);
    HealthyRun(Started(at, buildOk, errorAlready), before);
    if !v.stopped && LossIn(v, t).Some? {
      TurnExactly(v, t);
      HealthyTurn(v, t);
      ChasedRun(NextTurn(v, t), |NextTurn(v, t).attempts|, LossIn(v, t).value, rest);
    }
  }

  /** The same for a stream that failed before the loop was entered: the second attempt answers it. */
  lemma EarlyErrorAnswered(at: real, script: seq<Turn>)
    requires AllValid(script)
    ensures var w := Turns(Started(at, true, true), script);
            !w.stopped && w.now > at + 5.0 ==>
              |w.attempts| > 1 && w.attempts[1].lossAt == Some(at) && at <= w.attempts[1].at <= at + 10.0
  {
    ChasedRun(Started(at, true, true), 1, at, script);
  }

  // The window between a rebuild and the reset of the flag

  /** The live stream has failed and nothing will tell the worker. */
  predicate Unnoticed(v: View) {
    v.stream && v.broken && !v.deviceLost
  }

  /** A turn leaves a failure unnoticed exactly when its rebuild raced the flag reset, or one was unnoticed already, and it raised nothing more. */
  lemma UnnoticedExactly(v: View, t: Turn)
    requires Healthy(v) && !v.stopped && !t.cause.Shutdown?
    ensures Unnoticed(NextTurn(v, t)) <==>
              && ((Rebuilds(v, t) && t.buildOk && t.raced) || (Unnoticed(v) && t.errorAfter.None?))
              && !t.errorAtFoot
  {
  }

  /** Unless some rebuild raced the reset, every failed live stream is flagged. */
  lemma {:induction false} NoRaceAllNoticed(at: real, buildOk: bool, errorAlready: bool, script: seq<Turn>)
    requires AllValid(script) && forall t :: t in script ==> !t.raced
    ensures !Unnoticed(Turns(Started(at, buildOk, errorAlready), script))
  {
    if script != [] {
      var t, before := script[|script| - 1], script[..|script| - 1];
      var v := Turns(Started(at, buildOk, errorAlready), before);
      assert t in script;
      NoRaceAllNoticed(at, buildOk, errorAlready, before);
      HealthyRun(Started(at, buildOk, errorAlready), before);
      if !v.stopped && !t.cause.Shutdown? {
        UnnoticedExactly(v, t);
      }
    }
  }

  /** A failure lost in that window is never repaired: no attempt is made, however long the worker runs, unless the stream errors again. */
  lemma {:induction false} UnnoticedForever(v: View, script: seq<Turn>)
    requires Unnoticed(v) && forall t :: t in script ==> t.errorAfter.None? && !t.errorAtFoot
    ensures Unnoticed(Turns(v, script)) && Turns(v, script).attempts == v.attempts
  {
    if script != [] {
      UnnoticedForever(v, script[..|script| - 1]);
      assert script[|script| - 1] in script;
    }
  }

  /** The window is reachable: one failed start, one raced rebuild. */
  lemma RaceWitness()
    ensures Unnoticed(Turns(Started(0.0, false, false), [Turn(5.0, Timeout, None, true, true, false)]))
  {
    var t := Turn(5.0, Timeout, None, true, true, false);
    assert [t][..0] == [];
    assert Turns(Started(0.0, false, false), [t]) == NextTurn(Turns(Started(0.0, false, false), []), t);
  }
}
