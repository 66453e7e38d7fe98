/**
 Volume profiles and ramp gain (`audio/profile.rs`), with `f32` read as `real` and
 durations in seconds. The linear ramp is compiled only into the crate's tests.
 */
module Profile {
  import opened Common

  datatype Ramp = Immediate | Linear(duration: real)

  const MIN_RAMP := 2.0
  const MAX_RAMP := 10.0

  datatype ProfileError = InvalidVolume(target: real) | InvalidRamp(duration: real)

  function LinearRamp(duration: real): Result<Ramp, ProfileError> {
    if duration < MIN_RAMP || duration > MAX_RAMP then Err(InvalidRamp(duration)) else Ok(Linear(duration))
  }

  datatype RawProfile = RawProfile(target: real, ramp: Ramp, repeat: bool) {
    predicate Valid() {
      0.0 <= target <= 1.0
    }
  }

  /** A profile that passed `VolumeProfile::new`. */
  type VolumeProfile = p: RawProfile | p.Valid() witness RawProfile(0.0, Immediate, false)

  function NewProfile(target: real, ramp: Ramp, repeat: bool): Result<VolumeProfile, ProfileError> {
    if target < 0.0 || target > 1.0 then Err(InvalidVolume(target)) else Ok(RawProfile(target, ramp, repeat))
  }

  function Clamp(x: real, lo: real, hi: real): real {
    if x < lo then lo else if x > hi then hi else x
  }

  /** How much of the ramp has elapsed. */
  function Progress(elapsed: real, full: real): (f: real)
    requires full > 0.0
    ensures 0.0 <= f <= 1.0
  {
    Clamp(elapsed / full, 0.0, 1.0)
  }

  function Faded(target: real, f: real): real {
    Clamp(target * f, 0.0, 1.0)
  }

  function GainAt(ramp: Ramp, target: real, elapsed: real): real {
    var t := Clamp(target, 0.0, 1.0);
    match ramp
    case Immediate => t
    case Linear(full) => if full <= 0.0 then t else Faded(t, Progress(elapsed, full))
  }

  /** A volume scaled by a fraction: the outer clamp never acts. */
  lemma FadedWithin(t: real, f: real)
    requires 0.0 <= t <= 1.0 && 0.0 <= f <= 1.0
    ensures Faded(t, f) == t * f && 0.0 <= t * f <= t
    ensures f == 1.0 ==> t * f == t
  {
    assert t * (1.0 - f) >= 0.0;
    assert t * (1.0 - f) == t - t * f;
  }

  lemma FadedGrows(t: real, f: real, g: real)
    requires 0.0 <= t <= 1.0 && 0.0 <= f <= g <= 1.0
    ensures 0.0 <= Faded(t, f) <= Faded(t, g) <= t
  {
    FadedWithin(t, f);
    FadedWithin(t, g);
    assert t * (g - f) >= 0.0;
    assert t * (g - f) == t * g - t * f;
  }

  lemma DivLe(a: real, b: real, d: real)
    requires d > 0.0 && a <= b
    ensures a / d <= b / d
  {
  }

  /** On a linear ramp the gain is the elapsed fraction of the target: the outer clamp never acts. */
  lemma LinearGain(p: VolumeProfile, elapsed: real)
    requires p.ramp.Linear? && p.ramp.duration > 0.0
    ensures GainAt(p.ramp, p.target, elapsed) == p.target * Progress(elapsed, p.ramp.duration)
    ensures 0.0 <= elapsed <= p.ramp.duration ==>
              GainAt(p.ramp, p.target, elapsed) == p.target * (elapsed / p.ramp.duration)
    ensures 0.0 <= GainAt(p.ramp, p.target, elapsed) <= p.target
  {
    FadedWithin(p.target, Progress(elapsed, p.ramp.duration));
    if 0.0 <= elapsed <= p.ramp.duration {
      DivLe(elapsed, p.ramp.duration, p.ramp.duration);
      assert p.ramp.duration / p.ramp.duration == 1.0;
    }
  }

  /** Exactly volumes from 0 to 1 and ramps of 2 to 10 seconds are accepted, and kept as they are. */
  lemma AcceptsExactly(target: real, ramp: Ramp, repeat: bool, duration: real)
    ensures NewProfile(target, ramp, repeat).Ok? <==> 0.0 <= target <= 1.0
    ensures NewProfile(target, ramp, repeat).Ok? ==>
              var p := NewProfile(target, ramp, repeat).value; p.target == target && p.ramp == ramp && p.repeat == repeat
    ensures NewProfile(target, ramp, repeat).Err? ==> NewProfile(target, ramp, repeat).error == InvalidVolume(target)
    ensures LinearRamp(duration).Ok? <==> 2.0 <= duration <= 10.0
    ensures LinearRamp(duration).Ok? ==> LinearRamp(duration).value == Linear(duration)
    ensures LinearRamp(duration).Err? ==> LinearRamp(duration).error == InvalidRamp(duration)
  {
  }

  lemma ProgressGrows(early: real, late: real, full: real)
    requires full > 0.0 && early <= late
    ensures Progress(early, full) <= Progress(late, full)
    ensures late >= full ==> Progress(late, full) == 1.0
  {
    DivLe(early, late, full);
    if late >= full {
      DivLe(full, late, full);
      assert full / full == 1.0;
    }
  }

  /** Gain never falls as playback goes on, and stays between silence and the target. */
  lemma GainShape(p: VolumeProfile, early: real, late: real)
    requires 0.0 <= early <= late
    ensures 0.0 <= GainAt(p.ramp, p.target, early) <= GainAt(p.ramp, p.target, late) <= p.target
  {
    if p.ramp.Linear? && p.ramp.duration > 0.0 {
      ProgressGrows(early, late, p.ramp.duration);
      FadedGrows(p.target, Progress(early, p.ramp.duration), Progress(late, p.ramp.duration));
    }
  }

  /** The ramp is over, and the target reached, once its duration has elapsed. */
  lemma GainReachesTarget(p: VolumeProfile, elapsed: real)
    requires p.ramp.Linear? ==> elapsed >= p.ramp.duration
    ensures GainAt(p.ramp, p.target, elapsed) == p.target
  {
    if p.ramp.Linear? && p.ramp.duration > 0.0 {
      ProgressGrows(elapsed, elapsed, p.ramp.duration);
      LinearGain(p, elapsed);
      FadedWithin(p.target, 1.0);
    }
  }

  /** An accepted linear ramp is still rising during its first two seconds and over after ten. */
  lemma RampWithinBounds(p: VolumeProfile, duration: real, elapsed: real)
    requires LinearRamp(duration) == Ok(p.ramp) && elapsed >= 0.0
    ensures elapsed >= MAX_RAMP ==> GainAt(p.ramp, p.target, elapsed) == p.target
    ensures elapsed < MIN_RAMP && p.target > 0.0 ==> GainAt(p.ramp, p.target, elapsed) < p.target
  {
    if elapsed >= MAX_RAMP {
      GainReachesTarget(p, elapsed);
    } else if elapsed < MIN_RAMP && p.target > 0.0 {
      LinearGain(p, elapsed);
      FractionBelow(p.target, elapsed, duration);
    }
  }

  lemma FractionBelow(t: real, e: real, d: real)
    requires t > 0.0 && 0.0 <= e < d
    ensures 0.0 <= e / d < 1.0 && t * (e / d) < t
  {
    var f := e / d;
    assert (d - e) / d > 0.0;
    assert d / d == 1.0;
    assert d / d - e / d == (d - e) / d;
    assert t * (1.0 - f) > 0.0;
  }
}
