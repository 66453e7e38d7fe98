/**
 The daemon's state, its durable cell and the transition between them
 (`daemon/state.rs`, `daemon/alarm_daemon.rs`, and `load`, `save` and
 `evaluate_recovery` of `daemon/persistence/mod.rs`).
 */
module Daemon {
  import opened Common
  import Codec

  datatype Status = Disarmed | Armed

  datatype State = State(status: Status, nextFire: Option<i64>, sound: Option<string>)

  const DISARMED := State(Disarmed, None, None)

  function ArmedState(sound: Option<string>, nextFire: Option<i64>): State {
    State(Armed, nextFire, sound)
  }

  function ToPersisted(s: State): Codec.PersistedState {
    Codec.PersistedState(s.status == Armed, s.nextFire, s.sound)
  }

  function FromPersisted(p: Codec.PersistedState): State {
    State(if p.armed then Armed else Disarmed, p.nextFire, p.sound)
  }

  /** Result of an arm or disarm call: did the state actually change? */
  datatype Transition = NoChange | Changed(from: Status, to: Status)

  function TransitionOf(current: State, desired: State): Transition {
    if current == desired then NoChange else Changed(current.status, desired.status)
  }

  /** The store: one atomically committed value, absent before the first save. */
  type Cell = Option<seq<byte>>

  function Load(cell: Cell): Codec.Decoded {
    if cell.None? then Ok(Codec.DEFAULT_STATE) else Codec.Decode(cell.value)
  }

  /** The state a restart would come up with. */
  function Recovered(cell: Cell): Result<State, Codec.Corruption> {
    match Load(cell)
    case Err(e) => Err(e)
    case Ok(p) => Ok(FromPersisted(p))
  }

  function Commit(cell: Cell, s: State, ok: bool): Cell {
    if ok then Some(Codec.Encode(ToPersisted(s))) else cell
  }

  /** `evaluate_recovery`: an armed alarm's fire time has passed. */
  predicate Missed(p: Codec.PersistedState, now: i64) {
    p.armed && p.nextFire.Some? && p.nextFire.value <= now
  }

  /** A saved state is recovered exactly when its sound id fits the layout. */
  lemma CommitRecovers(cell: Cell, s: State)
    ensures Recovered(Commit(cell, s, true)) == Ok(s) <==> Codec.Fits(s.sound)
  {
    Codec.RoundTripExact(ToPersisted(s));
  }

  /** A daemon that has never saved comes up disarmed, with nothing missed. */
  lemma FirstStart(now: i64)
    ensures Load(None).Ok? && !Missed(Load(None).value, now)
    ensures Recovered(None) == Ok(State(Disarmed, None, None))
  {
  }

  class Store {
    var cell: Cell

    constructor (initial: Cell)
      ensures cell == initial
    {
      cell := initial;
    }

    method LoadState() returns (r: Codec.Decoded)
      ensures r == Load(cell)
      ensures cell.None? ==> r == Ok(Codec.PersistedState(false, None, None))
    {
      if cell.None? {
        return Ok(Codec.DEFAULT_STATE);
      }
      r := Codec.ReadState(cell.value);
    }

    /** Commits `state`, or fails without touching the cell. */
    method Save(state: Codec.PersistedState, ok: bool)
      modifies this
      ensures cell == if ok then Some(Codec.Encode(state)) else old(cell)
    {
      if ok {
        var encoded := Codec.WriteState(state);
        cell := Some(encoded);
      }
    }
  }

  class AlarmDaemon {
    var state: State
    const store: Store

    constructor (state: State, store: Store)
      ensures this.state == state && this.store == store
    {
      this.state, this.store := state, store;
    }

    /** `new_persistent`: the stored state becomes the memory state, or start-up fails. */
    static method NewPersistent(store: Store, now: i64)
      returns (r: Result<AlarmDaemon, Codec.Corruption>, missedWhileDown: bool)
      ensures Recovered(store.cell).Err? <==> r.Err?
      ensures r.Ok? ==> fresh(r.value) && r.value.store == store && Recovered(store.cell) == Ok(r.value.state)
      ensures r.Ok? ==>
                missedWhileDown ==
                var s := r.value.state; s.status == Armed && s.nextFire.Some? && s.nextFire.value <= now
      ensures store.cell.None? ==> r.Ok? && r.value.state == State(Disarmed, None, None) && !missedWhileDown
    {
      var persisted := store.LoadState();
      missedWhileDown := false;
      match persisted {
        case Err(e) => r := Err(e);
        case Ok(p) =>
          missedWhileDown := p.armed && p.nextFire.Some? && p.nextFire.value <= now;
          var daemon := new AlarmDaemon(FromPersisted(p), store);
          r := Ok(daemon);
      }
    }

    /** Swaps the memory state and then, best-effort, saves it. */
    method TransitionTo(desired: State, saveOk: bool) returns (t: Transition)
      modifies this, store
      ensures t == TransitionOf(old(state), desired)
      ensures state == desired
      ensures store.cell == if t.NoChange? then old(store.cell) else Commit(old(store.cell), desired, saveOk)
    {
      if state == desired {
        return NoChange;
      }
      var from := state.status;
      state := desired;
      var snapshot := ToPersisted(state);
      var to := state.status;
      store.Save(snapshot, saveOk);
      return Changed(from, to);
    }

    method ArmWithSound(sound: string, nextFire: Option<i64>, saveOk: bool) returns (t: Transition)
      modifies this, store
      ensures t == TransitionOf(old(state), ArmedState(Some(sound), nextFire))
      ensures state == ArmedState(Some(sound), nextFire)
      ensures store.cell == if t.NoChange? then old(store.cell) else Commit(old(store.cell), state, saveOk)
    {
      t := TransitionTo(ArmedState(Some(sound), nextFire), saveOk);
    }

    method Disarm(saveOk: bool) returns (t: Transition)
      modifies this, store
      ensures t == TransitionOf(old(state), DISARMED)
      ensures state == DISARMED
      ensures store.cell == if t.NoChange? then old(store.cell) else Commit(old(store.cell), DISARMED, saveOk)
    {
      t := TransitionTo(DISARMED, saveOk);
    }
  }
}
