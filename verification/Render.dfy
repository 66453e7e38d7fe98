/**
 What the output callback should produce (`audio/cpal_audio.rs`, `fill_f32`),
 as formulas rather than as a loop.

 `Cell` and `After` give the samples and the playback state any number of device
 frames ahead of any playback state. `PureCell` is the render of a whole sound
 from its first frame, on integers alone.
 */
module Render {
  import opened Common
  import opened Position
  import opened Profile

  const U64_MAX := 0xFFFF_FFFF_FFFF_FFFF
  type u64 = n: nat | n <= U64_MAX

  datatype RawSound = RawSound(samples: seq<real>, channels: nat, rate: nat) {
    predicate Valid() {
      channels > 0 && |samples| > 0 && |samples| % channels == 0
    }

    function Frames(): nat
      requires channels > 0
    {
      |samples| / channels
    }
  }

  /** A sound that passed the checks at the end of `DecodedSound::decode`. */
  type DecodedSound = s: RawSound | s.Valid() witness RawSound([0.0], 1, 1)

  datatype DecodeError = InvalidChannels | NoSamples | RaggedSamples(count: nat, channels: nat)

  /** The final checks of `decode`, on whatever the packet loop collected. */
  function FinishDecode(samples: seq<real>, channels: nat, rate: nat): Result<DecodedSound, DecodeError> {
    if channels == 0 then Err(InvalidChannels)
    else if |samples| == 0 then Err(NoSamples)
    else if |samples| % channels != 0 then Err(RaggedSamples(|samples|, channels))
    else Ok(RawSound(samples, channels, rate))
  }

  lemma FramesTile(s: DecodedSound)
    ensures s.Frames() > 0
    ensures s.Frames() * s.channels == |s.samples|
  {
  }

  /** Exactly the sample buffers made of one or more whole frames are accepted, and kept as they are. */
  lemma DecodeAcceptsExactly(samples: seq<real>, channels: nat, rate: nat)
    ensures FinishDecode(samples, channels, rate).Ok? <==>
              channels > 0 && exists frames: nat {:trigger frames * channels} :: frames > 0 && |samples| == frames * channels
    ensures FinishDecode(samples, channels, rate).Ok? ==>
              FinishDecode(samples, channels, rate).value == RawSound(samples, channels, rate)
    ensures FinishDecode(samples, channels, rate).Err? ==>
              FinishDecode(samples, channels, rate).error ==
              if channels == 0 then InvalidChannels else if samples == [] then NoSamples else RaggedSamples(|samples|, channels)
  {
    if channels > 0 {
      if FinishDecode(samples, channels, rate).Ok? {
        FramesTile(RawSound(samples, channels, rate));
        var frames := |samples| / channels;
        assert frames > 0 && |samples| == frames * channels;
      }
      if frames: nat :| frames > 0 && |samples| == frames * channels {
        RemainderUnique(|samples|, channels, frames, 0);
      }
    }
  }

  // One step of the cursor is `StepNum / StepDen` source frames.

  function StepNum(sound: DecodedSound, deviceRate: nat): nat {
    if deviceRate > 0 then sound.rate else 1
  }

  function StepDen(deviceRate: nat): (d: nat)
    ensures d > 0
  {
    if deviceRate > 0 then deviceRate else 1
  }

  function Step(sound: DecodedSound, deviceRate: nat): (s: real)
    ensures s >= 0.0
  {
    StepNum(sound, deviceRate) as real / StepDen(deviceRate) as real
  }

  type Cursor = x: real | x >= 0.0

  datatype Playback = Playback(
    sound: DecodedSound,
    profile: VolumeProfile,
    framesPlayed: u64,
    cursor: Cursor,
    finished: bool
  )

  function Fresh(sound: DecodedSound, profile: VolumeProfile): Playback {
    Playback(sound, profile, 0, 0.0, false)
  }

  /** Unfolded source position of the device frame `j` frames ahead. */
  function PositionAt(pb: Playback, rate: nat, j: nat): Cursor {
    pb.cursor + Travel(Step(pb.sound, rate), j)
  }

  /** Device frame `j` carries source samples; otherwise it is silence. */
  predicate Audible(pb: Playback, rate: nat, j: nat) {
    !pb.finished && (pb.profile.repeat || PositionAt(pb, rate, j) < pb.sound.Frames() as real)
  }

  function SourceFrame(pb: Playback, rate: nat, j: nat): int {
    FramesTile(pb.sound);
    if pb.profile.repeat then Wrap(PositionAt(pb, rate, j), pb.sound.Frames()).Floor
    else PositionAt(pb, rate, j).Floor
  }

  /** `frames_played.saturating_add(n)`. */
  function Saturate(frames: nat): u64 {
    Min(frames, U64_MAX)
  }

  function Gain(profile: VolumeProfile, rate: nat, frame: nat): real {
    GainAt(profile.ramp, profile.target, frame as real / StepDen(rate) as real)
  }

  /** `samples.get(i).copied().unwrap_or(0.0)`. */
  function SampleAt(samples: seq<real>, i: int): real {
    if 0 <= i < |samples| then samples[i] else 0.0
  }

  /** Channel `c` of the device frame `j` frames ahead of `pb`. */
  function Cell(pb: Playback, rate: nat, j: nat, c: nat): real {
    if Audible(pb, rate, j) then
      SampleAt(pb.sound.samples, SourceFrame(pb, rate, j) * pb.sound.channels + c % pb.sound.channels)
        * Gain(pb.profile, rate, Saturate(pb.framesPlayed + j))
    else 0.0
  }

  /** How many of the next `n` device frames are audible. */
  function Live(pb: Playback, rate: nat, n: nat): (m: nat)
    ensures m <= n
  {
    if n == 0 then 0 else if Audible(pb, rate, n - 1) then n else Live(pb, rate, n - 1)
  }

  /** The playback state `n` device frames ahead. */
  function After(pb: Playback, rate: nat, n: nat): Playback {
    var m := Live(pb, rate, n);
    pb.(cursor := CursorAfter(pb, rate, m),
        framesPlayed := Saturate(pb.framesPlayed + m),
        finished := pb.finished || m < n)
  }

  function CursorAfter(pb: Playback, rate: nat, m: nat): Cursor {
    if pb.profile.repeat && m > 0 then
      FramesTile(pb.sound);
      Wrap(PositionAt(pb, rate, m - 1), pb.sound.Frames()) + Step(pb.sound, rate)
    else PositionAt(pb, rate, m)
  }

  // Looking ahead composes

  lemma StepsAdd(pb: Playback, rate: nat, a: nat, b: nat)
    ensures PositionAt(pb, rate, a + b) == PositionAt(pb, rate, a) + Travel(Step(pb.sound, rate), b)
  {
  }

  lemma AudibleDownward(pb: Playback, rate: nat, a: nat, b: nat)
    requires a <= b && Audible(pb, rate, b)
    ensures Audible(pb, rate, a)
  {
    StepsAdd(pb, rate, a, b - a);
  }

  lemma SilentOnward(pb: Playback, rate: nat, a: nat, b: nat)
    requires a <= b && !Audible(pb, rate, a)
    ensures !Audible(pb, rate, b)
  {
    StepsAdd(pb, rate, a, b - a);
  }

  /** The audible frames come first. */
  lemma {:induction false} LiveExact(pb: Playback, rate: nat, n: nat, j: nat)
    requires j < n
    ensures Audible(pb, rate, j) <==> j < Live(pb, rate, n)
  {
    if Audible(pb, rate, n - 1) {
      AudibleDownward(pb, rate, j, n - 1);
    } else if j < n - 1 {
      LiveExact(pb, rate, n - 1, j);
    }
  }

  /** Whichever way the cursor was folded, the source frame read later is the same. */
  lemma PositionShift(pb: Playback, rate: nat, n: nat, j: nat)
    requires Live(pb, rate, n) == n
    ensures if pb.profile.repeat then
              pb.sound.Frames() > 0
              && Wrap(PositionAt(After(pb, rate, n), rate, j), pb.sound.Frames())
                 == Wrap(PositionAt(pb, rate, n + j), pb.sound.Frames())
            else
              PositionAt(After(pb, rate, n), rate, j) == PositionAt(pb, rate, n + j)
  {
    FramesTile(pb.sound);
    if pb.profile.repeat && n > 0 {
      var s := Step(pb.sound, rate);
      StepsAdd(pb, rate, n - 1, 1 + j);
      TravelAdds(s, 1, j);
      WrapAdd(PositionAt(pb, rate, n - 1), s + Travel(s, j), pb.sound.Frames());
    } else {
      StepsAdd(pb, rate, n, j);
    }
  }

  lemma AudibleShift(pb: Playback, rate: nat, n: nat, j: nat)
    ensures Audible(After(pb, rate, n), rate, j) <==> Audible(pb, rate, n + j)
  {
    if Live(pb, rate, n) == n {
      PositionShift(pb, rate, n, j);
    } else {
      LiveExact(pb, rate, n, n - 1);
      SilentOnward(pb, rate, n - 1, n + j);
    }
  }

  lemma SourceShift(pb: Playback, rate: nat, n: nat, j: nat)
    requires Audible(pb, rate, n + j)
    ensures SourceFrame(After(pb, rate, n), rate, j) == SourceFrame(pb, rate, n + j)
    ensures After(pb, rate, n).framesPlayed == Saturate(pb.framesPlayed + n)
  {
    if n > 0 {
      AudibleDownward(pb, rate, n - 1, n + j);
      LiveExact(pb, rate, n, n - 1);
    }
    PositionShift(pb, rate, n, j);
  }

  lemma CellShift(pb: Playback, rate: nat, n: nat, j: nat, c: nat)
    ensures Cell(After(pb, rate, n), rate, j, c) == Cell(pb, rate, n + j, c)
  {
    var pb' := After(pb, rate, n);
    assert pb'.sound == pb.sound && pb'.profile == pb.profile;
    AudibleShift(pb, rate, n, j);
    if Audible(pb, rate, n + j) {
      SourceShift(pb, rate, n, j);
      assert Saturate(pb'.framesPlayed + j) == Saturate(pb.framesPlayed + (n + j));
    }
  }

  lemma {:induction false} LiveAdds(pb: Playback, rate: nat, n: nat, m: nat)
    ensures Live(pb, rate, n + m) ==
            if Live(pb, rate, n) == n then n + Live(After(pb, rate, n), rate, m) else Live(pb, rate, n)
  {
    if m > 0 {
      LiveAdds(pb, rate, n, m - 1);
      AudibleShift(pb, rate, n, m - 1);
      if Live(pb, rate, n) < n {
        LiveExact(pb, rate, n, n - 1);
        SilentOnward(pb, rate, n - 1, n + m - 1);
      }
    }
  }

  lemma {:induction false} FinishedIsSilent(pb: Playback, rate: nat, m: nat)
    requires pb.finished
    ensures Live(pb, rate, m) == 0
  {
    if m > 0 {
      FinishedIsSilent(pb, rate, m - 1);
    }
  }

  /** Rendering in two goes leaves the playback where rendering in one does. */
  lemma AfterAdds(pb: Playback, rate: nat, n: nat, m: nat)
    ensures After(After(pb, rate, n), rate, m) == After(pb, rate, n + m)
  {
    var mid := After(pb, rate, n);
    LiveAdds(pb, rate, n, m);
    if Live(pb, rate, n) < n {
      FinishedIsSilent(mid, rate, m);
    } else {
      var live := Live(mid, rate, m);
      if live > 0 {
        PositionShift(pb, rate, n, live);
        PositionShift(pb, rate, n, live - 1);
      }
    }
  }

  // A whole sound from its first frame

  /** Source frame read by device frame `k`: `k * sound.rate / rate`, folded when repeating. A device without a rate steps frame by frame. */
  function PureFrame(sound: DecodedSound, repeat: bool, rate: nat, k: nat): nat {
    FramesTile(sound);
    if rate == 0 then if repeat then k % sound.Frames() else k
    else if repeat then k * sound.rate % (sound.Frames() * rate) / rate
    else k * sound.rate / rate
  }

  /** Device frame `k` of a playback carries source samples. */
  predicate PureAudible(sound: DecodedSound, repeat: bool, rate: nat, k: nat) {
    repeat || if rate == 0 then k < sound.Frames() else k * sound.rate < sound.Frames() * rate
  }

  /** The gain of device frame `k`: the target, or the part of it the ramp has reached after `k / rate` seconds. */
  function PureGain(profile: VolumeProfile, rate: nat, k: u64): real {
    var seconds := if rate == 0 then k as real else k as real / rate as real;
    match profile.ramp
    case Immediate => profile.target
    case Linear(full) => if seconds >= full then profile.target else profile.target * (seconds / full)
  }

  lemma PureFrameInRange(sound: DecodedSound, repeat: bool, rate: nat, k: nat, c: nat)
    requires PureAudible(sound, repeat, rate, k)
    ensures PureFrame(sound, repeat, rate, k) < sound.Frames()
    ensures PureFrame(sound, repeat, rate, k) * sound.channels + c % sound.channels < |sound.samples|
  {
    FramesTile(sound);
    var total := sound.Frames();
    if rate > 0 {
      var n := k * sound.rate;
      assert total * rate > 0;
      IndexBelow(if repeat then n % (total * rate) else n, rate, total);
    }
    InterleavedBelow(PureFrame(sound, repeat, rate, k), sound.channels, c % sound.channels, total);
  }

  /** Channel `c` of device frame `k` of a playback: every index is in range. */
  function PureCell(sound: DecodedSound, profile: VolumeProfile, rate: nat, k: nat, c: nat): real {
    if PureAudible(sound, profile.repeat, rate, k) then
      PureFrameInRange(sound, profile.repeat, rate, k, c);
      sound.samples[PureFrame(sound, profile.repeat, rate, k) * sound.channels + c % sound.channels]
        * PureGain(profile, rate, Saturate(k))
    else 0.0
  }

  /** The gain computed from clamps is the ramp's. */
  lemma GainIsPure(profile: VolumeProfile, rate: nat, k: u64)
    ensures Gain(profile, rate, k) == PureGain(profile, rate, k)
  {
    var seconds := k as real / StepDen(rate) as real;
    if profile.ramp.Linear? && seconds < profile.ramp.duration {
      LinearGain(profile, seconds);
    } else {
      GainReachesTarget(profile, seconds);
    }
  }

  lemma FreshPosition(sound: DecodedSound, profile: VolumeProfile, rate: nat, k: nat)
    ensures PositionAt(Fresh(sound, profile), rate, k)
            == if rate == 0 then k as real else (k * sound.rate) as real / rate as real
  {
    TravelOfQuotient(StepNum(sound, rate), StepDen(rate), k);
    assert rate == 0 ==> k * StepNum(sound, rate) == k;
  }

  lemma FreshAudible(sound: DecodedSound, profile: VolumeProfile, rate: nat, k: nat)
    ensures Audible(Fresh(sound, profile), rate, k) <==> PureAudible(sound, profile.repeat, rate, k)
  {
    FreshPosition(sound, profile, rate, k);
    if rate > 0 {
      QuotientBelow(k * sound.rate, rate, sound.Frames());
    }
  }

  lemma FreshFrame(sound: DecodedSound, profile: VolumeProfile, rate: nat, k: nat)
    ensures SourceFrame(Fresh(sound, profile), rate, k) == PureFrame(sound, profile.repeat, rate, k)
  {
    FramesTile(sound);
    FreshPosition(sound, profile, rate, k);
    if rate == 0 {
      WholeFrame(k, sound.Frames());
    } else if profile.repeat {
      WrapOfQuotient(k * sound.rate, rate, sound.Frames());
      FloorOfQuotient(k * sound.rate % (sound.Frames() * rate), rate);
    } else {
      FloorOfQuotient(k * sound.rate, rate);
    }
  }

  lemma WholeFrame(k: nat, total: nat)
    requires total > 0
    ensures (k as real).Floor == k && Wrap(k as real, total).Floor == k % total
  {
    WrapOfQuotient(k, 1, total);
    assert total * 1 == total && k as real / 1.0 == k as real;
  }

  /** The cursor's stateful fold of a fresh playback is the integer formula: no drift, no fallback sample. */
  lemma CellIsPure(sound: DecodedSound, profile: VolumeProfile, rate: nat, k: nat, c: nat)
    ensures Cell(Fresh(sound, profile), rate, k, c) == PureCell(sound, profile, rate, k, c)
  {
    FreshAudible(sound, profile, rate, k);
    FreshFrame(sound, profile, rate, k);
    GainIsPure(profile, rate, Saturate(k));
    if PureAudible(sound, profile.repeat, rate, k) {
      PureFrameInRange(sound, profile.repeat, rate, k, c);
    }
  }

  /** The same without division: where `k * sound.rate / rate` source frames into a playback is. */
  lemma FrameFromRates(sound: DecodedSound, repeat: bool, rate: nat, k: nat, pass: nat, frame: nat, rest: nat)
    requires rest < rate && k * sound.rate == pass * (sound.Frames() * rate) + (frame * rate + rest)
    requires if repeat then frame < sound.Frames() else pass == 0
    ensures PureAudible(sound, repeat, rate, k) <==> frame < sound.Frames()
    ensures PureFrame(sound, repeat, rate, k) == frame
  {
    var n, total := k * sound.rate, sound.Frames();
    RemainderUnique(frame * rate + rest, rate, frame, rest);
    if frame < total {
      InterleavedBelow(frame, rate, rest, total);
    } else {
      assert frame * rate >= total * rate;
    }
    if repeat {
      RemainderUnique(n, total * rate, pass, frame * rate + rest);
    }
  }

  lemma CellFromRates(sound: DecodedSound, profile: VolumeProfile, rate: nat, k: nat, c: nat, pass: nat, frame: nat, rest: nat)
    requires k <= U64_MAX
    requires rest < rate && k * sound.rate == pass * (sound.Frames() * rate) + (frame * rate + rest)
    requires if profile.repeat then frame < sound.Frames() else pass == 0
    ensures PureCell(sound, profile, rate, k, c) ==
            if frame < sound.Frames()
            then SampleAt(sound.samples, frame * sound.channels + c % sound.channels) * PureGain(profile, rate, k)
            else 0.0
  {
    FrameFromRates(sound, profile.repeat, rate, k, pass, frame, rest);
    if frame < sound.Frames() {
      PureFrameInRange(sound, profile.repeat, rate, k, c);
    }
  }

  /** How many source-bearing device frames a non-repeating sound has. */
  function AudibleFrames(sound: DecodedSound, rate: nat): nat
    requires rate > 0 ==> sound.rate > 0
  {
    if rate == 0 then sound.Frames() else CeilDiv(sound.Frames() * rate, sound.rate)
  }

  /** A non-repeating sound has exactly `ceil(total * deviceRate / sourceRate)` audible frames, then silence for good. */
  lemma ExactLength(sound: DecodedSound, profile: VolumeProfile, rate: nat, k: nat)
    requires !profile.repeat && (rate > 0 ==> sound.rate > 0)
    ensures PureAudible(sound, false, rate, k) <==> k < AudibleFrames(sound, rate)
    ensures After(Fresh(sound, profile), rate, k).finished <==> k > AudibleFrames(sound, rate)
  {
    if rate > 0 {
      BelowIffBeforeCeil(k, sound.rate, sound.Frames() * rate);
    }
    if k > 0 {
      var pb := Fresh(sound, profile);
      if rate > 0 {
        BelowIffBeforeCeil(k - 1, sound.rate, sound.Frames() * rate);
      }
      FreshAudible(sound, profile, rate, k - 1);
      LiveExact(pb, rate, k, k - 1);
    }
  }

  lemma SameRateFrame(sound: DecodedSound, rate: nat, k: nat)
    requires sound.rate == rate > 0
    ensures PureFrame(sound, false, rate, k) == k
    ensures PureAudible(sound, false, rate, k) <==> k < sound.Frames()
  {
    RemainderUnique(k * rate, rate, k, 0);
    assert k < sound.Frames() ==> k * rate < sound.Frames() * rate;
    assert k >= sound.Frames() ==> k * rate >= sound.Frames() * rate;
  }

  /** Equal rates and channels at full volume: the output is the sample buffer itself, then silence. */
  lemma ExactCopy(sound: DecodedSound, rate: nat, i: nat)
    requires sound.rate == rate > 0
    ensures var full := RawProfile(1.0, Immediate, false);
            PureCell(sound, full, rate, i / sound.channels, i % sound.channels)
            == if i < |sound.samples| then sound.samples[i] else 0.0
  {
    var k := i / sound.channels;
    SameRateFrame(sound, rate, k);
    IndexIffFrame(sound, i);
    Reassemble(i, sound.channels);
    if k < sound.Frames() {
      var full := RawProfile(1.0, Immediate, false);
      assert PureGain(full, rate, Saturate(k)) == 1.0;
    }
  }

  lemma IndexIffFrame(sound: DecodedSound, i: nat)
    ensures i < |sound.samples| <==> i / sound.channels < sound.Frames()
  {
    FramesTile(sound);
    var k, c := i / sound.channels, i % sound.channels;
    assert i == k * sound.channels + c;
    if k < sound.Frames() {
      InterleavedBelow(k, sound.channels, c, sound.Frames());
    } else {
      assert k * sound.channels >= sound.Frames() * sound.channels;
    }
  }

  function Abs(x: real): real {
    if x < 0.0 then -x else x
  }

  lemma ScaledMagnitude(x: real, g: real, t: real)
    requires 0.0 <= g <= t
    ensures Abs(x * g) <= t * Abs(x)
  {
  }

  lemma ElapsedMonotone(a: nat, b: nat, rate: nat)
    requires a <= b
    ensures 0.0 <= a as real / StepDen(rate) as real <= b as real / StepDen(rate) as real
  {
  }

  /** Along one playback the gain only rises, within 0 and the target. */
  lemma GainRises(profile: VolumeProfile, rate: nat, k: nat, l: nat)
    requires k <= l
    ensures 0.0 <= Gain(profile, rate, Saturate(k)) <= Gain(profile, rate, Saturate(l)) <= profile.target
  {
    ElapsedMonotone(Saturate(k), Saturate(l), rate);
    GainShape(profile, Saturate(k) as real / StepDen(rate) as real, Saturate(l) as real / StepDen(rate) as real);
  }

  /** The gain is the target once the frames played cover the ramp's duration. */
  lemma GainSettles(profile: VolumeProfile, rate: nat, k: u64)
    requires profile.ramp.Linear? ==> k as real >= profile.ramp.duration * StepDen(rate) as real
    ensures Gain(profile, rate, Saturate(k)) == profile.target
  {
    if profile.ramp.Linear? {
      QuotientGe(k as real, StepDen(rate) as real, profile.ramp.duration);
    }
    GainReachesTarget(profile, k as real / StepDen(rate) as real);
  }

  /** No output sample is louder than the target volume times the source sample it came from. */
  lemma OutputBounded(sound: DecodedSound, profile: VolumeProfile, rate: nat, k: nat, c: nat)
    requires PureAudible(sound, profile.repeat, rate, k)
    ensures var i := PureFrame(sound, profile.repeat, rate, k) * sound.channels + c % sound.channels;
            i < |sound.samples| && Abs(PureCell(sound, profile, rate, k, c)) <= profile.target * Abs(sound.samples[i])
  {
    PureFrameInRange(sound, profile.repeat, rate, k, c);
    var i := PureFrame(sound, profile.repeat, rate, k) * sound.channels + c % sound.channels;
    GainRises(profile, rate, k, k);
    GainIsPure(profile, rate, Saturate(k));
    ScaledMagnitude(sound.samples[i], PureGain(profile, rate, Saturate(k)), profile.target);
  }
}
