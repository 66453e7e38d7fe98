/**
 Whole runs of the audio path at one device format: any interleaving of Play and
 Stop commands with output callbacks of any size.

 `Output` is what the stateful mixer emits. `PureOutput` is the reference: it
 remembers only which sound was last accepted and how many device frames ago, and
 reads every sample off the closed-form render.
 */
module Session {
  import opened Common
  import opened Position
  import opened Profile
  import opened Render
  import opened Mixer

  datatype Event =
    | Play(sound: DecodedSound, profile: VolumeProfile, streamPresent: bool)
    | Stop
    | Callback(frames: nat)

  /** The playback left by one event: what `HandlePlay`, `HandleStop` and `FillF32` establish. */
  function React(playback: Option<Playback>, rate: nat, ev: Event): Option<Playback> {
    match ev
    case Play(sound, profile, present) => if present then Some(Fresh(sound, profile)) else playback
    case Stop => None
    case Callback(n) => Remaining(playback, rate, n)
  }

  /** One device frame: a sample for each of the device's channels. */
  type Frame = seq<real>

  function FrameOf(playback: Option<Playback>, rate: nat, channels: nat, j: nat): Frame {
    seq(channels, c requires 0 <= c => CellOf(playback, rate, j, c))
  }

  function Emitted(playback: Option<Playback>, rate: nat, channels: nat, ev: Event): seq<Frame> {
    if ev.Callback? then seq(ev.frames, j requires 0 <= j => FrameOf(playback, rate, channels, j)) else []
  }

  function Output(playback: Option<Playback>, rate: nat, channels: nat, evs: seq<Event>): seq<Frame>
    decreases evs
  {
    if evs == [] then []
    else Emitted(playback, rate, channels, evs[0]) + Output(React(playback, rate, evs[0]), rate, channels, evs[1..])
  }

  function Final(playback: Option<Playback>, rate: nat, evs: seq<Event>): Option<Playback>
    decreases evs
  {
    if evs == [] then playback else Final(React(playback, rate, evs[0]), rate, evs[1..])
  }

  /** A callback event is one `FillF32` call on a buffer of whole frames. */
  method PlayOut(shared: Shared, output: array<real>, channels: nat, rate: nat, frames: nat)
    requires channels > 0 && output.Length == frames * channels
    modifies shared`playback, output
    ensures var emitted := Emitted(old(shared.playback), rate, channels, Callback(frames));
            forall i :: 0 <= i < output.Length ==>
              i / channels < frames && output[i] == emitted[i / channels][i % channels]
    ensures shared.playback == React(old(shared.playback), rate, Callback(frames))
  {
    ghost var before := shared.playback;
    ChunkCount(output.Length, channels, frames);
    shared.FillF32(output, channels, rate);
    ghost var cells := output[..];
    forall i | 0 <= i < output.Length
      ensures i / channels < frames
      ensures cells[i] == Emitted(before, rate, channels, Callback(frames))[i / channels][i % channels]
    {
      EmittedCell(before, rate, channels, frames, i);
    }
  }

  lemma EmittedCell(playback: Option<Playback>, rate: nat, channels: nat, frames: nat, i: nat)
    requires channels > 0 && i < frames * channels
    ensures i / channels < frames
    ensures Emitted(playback, rate, channels, Callback(frames))[i / channels][i % channels]
            == CellOf(playback, rate, i / channels, i % channels)
  {
    IndexBelow(i, channels, frames);
  }

  // The reference

  datatype Track = Track(sound: DecodedSound, profile: VolumeProfile, played: nat)

  function PureReact(track: Option<Track>, ev: Event): Option<Track> {
    match ev
    case Play(sound, profile, present) => if present then Some(Track(sound, profile, 0)) else track
    case Stop => None
    case Callback(n) => if track.Some? then Some(track.value.(played := track.value.played + n)) else None
  }

  function PureFrameOf(sound: DecodedSound, profile: VolumeProfile, rate: nat, channels: nat, k: nat): Frame {
    seq(channels, c requires 0 <= c => PureCell(sound, profile, rate, k, c))
  }

  /** `frames` device frames of the pure render of a sound, starting at frame `from`. */
  function PureRender(sound: DecodedSound, profile: VolumeProfile, rate: nat, channels: nat, from: nat, frames: nat): seq<Frame> {
    seq(frames, j requires 0 <= j => PureFrameOf(sound, profile, rate, channels, from + j))
  }

  function Silence(channels: nat, frames: nat): seq<Frame> {
    seq(frames, _ => seq(channels, _ => 0.0))
  }

  function PureEmitted(track: Option<Track>, rate: nat, channels: nat, ev: Event): seq<Frame> {
    if !ev.Callback? then []
    else
      match track
      case None => Silence(channels, ev.frames)
      case Some(t) => PureRender(t.sound, t.profile, rate, channels, t.played, ev.frames)
  }

  function PureOutput(track: Option<Track>, rate: nat, channels: nat, evs: seq<Event>): seq<Frame>
    decreases evs
  {
    if evs == [] then []
    else PureEmitted(track, rate, channels, evs[0]) + PureOutput(PureReact(track, evs[0]), rate, channels, evs[1..])
  }

  /** The mixer state that stands for a track of the reference. */
  function Standing(track: Option<Track>, rate: nat): Option<Playback> {
    match track
    case None => None
    case Some(t) => Remaining(Some(Fresh(t.sound, t.profile)), rate, t.played)
  }

  lemma RemainingAdds(pb: Playback, rate: nat, n: nat, m: nat)
    ensures Remaining(Remaining(Some(pb), rate, n), rate, m) == Remaining(Some(pb), rate, n + m)
  {
    AfterAdds(pb, rate, n, m);
  }

  lemma StandingStep(track: Option<Track>, rate: nat, ev: Event)
    ensures React(Standing(track, rate), rate, ev) == Standing(PureReact(track, ev), rate)
  {
    match ev
    case Callback(n) =>
      if track.Some? {
        RemainingAdds(Fresh(track.value.sound, track.value.profile), rate, track.value.played, n);
      }
    case Play(sound, profile, present) =>
      if present {
        AfterNothing(Fresh(sound, profile), rate);
      }
    case Stop =>
  }

  lemma AfterNothing(pb: Playback, rate: nat)
    ensures After(pb, rate, 0) == pb
  {
  }

  lemma StandingCell(t: Track, rate: nat, j: nat, c: nat)
    ensures CellOf(Standing(Some(t), rate), rate, j, c) == PureCell(t.sound, t.profile, rate, t.played + j, c)
  {
    var pb := Fresh(t.sound, t.profile);
    CellShift(pb, rate, t.played, j, c);
    CellIsPure(t.sound, t.profile, rate, t.played + j, c);
  }

  lemma StandingFrame(track: Option<Track>, rate: nat, channels: nat, j: nat)
    ensures FrameOf(Standing(track, rate), rate, channels, j) ==
            match track
            case None => seq(channels, _ => 0.0)
            case Some(t) => PureFrameOf(t.sound, t.profile, rate, channels, t.played + j)
  {
    if track.Some? {
      forall c: nat | c < channels
        ensures CellOf(Standing(track, rate), rate, j, c)
                == PureCell(track.value.sound, track.value.profile, rate, track.value.played + j, c)
      {
        StandingCell(track.value, rate, j, c);
      }
    }
  }

  lemma StandingEmitted(track: Option<Track>, rate: nat, channels: nat, ev: Event)
    ensures Emitted(Standing(track, rate), rate, channels, ev) == PureEmitted(track, rate, channels, ev)
  {
    if ev.Callback? {
      forall j: nat | j < ev.frames
        ensures Emitted(Standing(track, rate), rate, channels, ev)[j] == PureEmitted(track, rate, channels, ev)[j]
      {
        StandingFrame(track, rate, channels, j);
      }
    }
  }

  /** Every run of the stateful mixer sounds like the reference, and ends in the state that stands for it. */
  lemma {:induction false} OutputIsPure(track: Option<Track>, rate: nat, channels: nat, evs: seq<Event>)
    ensures Output(Standing(track, rate), rate, channels, evs) == PureOutput(track, rate, channels, evs)
    decreases evs
  {
    if evs != [] {
      StandingEmitted(track, rate, channels, evs[0]);
      StandingStep(track, rate, evs[0]);
      OutputIsPure(PureReact(track, evs[0]), rate, channels, evs[1..]);
    }
  }

  // Since the last accepted Play

  /** No accepted Play and no Stop. */
  predicate Undisturbed(evs: seq<Event>) {
    forall ev :: ev in evs ==> ev.Callback? || (ev.Play? && !ev.streamPresent)
  }

  function FramesAsked(evs: seq<Event>): nat {
    if evs == [] then 0 else (if evs[0].Callback? then evs[0].frames else 0) + FramesAsked(evs[1..])
  }

  lemma {:induction false} OutputSplits(playback: Option<Playback>, rate: nat, channels: nat, a: seq<Event>, b: seq<Event>)
    ensures Output(playback, rate, channels, a + b)
            == Output(playback, rate, channels, a) + Output(Final(playback, rate, a), rate, channels, b)
    decreases a
  {
    if a == [] {
      assert a + b == b;
    } else {
      assert (a + b)[1..] == a[1..] + b;
      OutputSplits(React(playback, rate, a[0]), rate, channels, a[1..], b);
    }
  }

  lemma RenderJoins(t: Track, rate: nat, channels: nat, n: nat, m: nat)
    ensures PureRender(t.sound, t.profile, rate, channels, t.played, n)
            + PureRender(t.sound, t.profile, rate, channels, t.played + n, m)
            == PureRender(t.sound, t.profile, rate, channels, t.played, n + m)
  {
  }

  lemma {:induction false} UndisturbedRender(t: Track, rate: nat, channels: nat, evs: seq<Event>)
    requires Undisturbed(evs)
    ensures PureOutput(Some(t), rate, channels, evs)
            == PureRender(t.sound, t.profile, rate, channels, t.played, FramesAsked(evs))
    decreases evs
  {
    if evs != [] {
      if evs[0].Callback? {
        var n := evs[0].frames;
        UndisturbedRender(t.(played := t.played + n), rate, channels, evs[1..]);
        RenderJoins(t, rate, channels, n, FramesAsked(evs[1..]));
      } else {
        UndisturbedRender(t, rate, channels, evs[1..]);
      }
    }
  }

  lemma {:induction false} UndisturbedSilence(rate: nat, channels: nat, evs: seq<Event>)
    requires Undisturbed(evs)
    ensures PureOutput(None, rate, channels, evs) == Silence(channels, FramesAsked(evs))
  {
    if evs != [] {
      UndisturbedSilence(rate, channels, evs[1..]);
    }
  }

  lemma OutputOfPlay(playback: Option<Playback>, rate: nat, channels: nat,
                     sound: DecodedSound, profile: VolumeProfile, evs: seq<Event>)
    ensures Output(playback, rate, channels, [Play(sound, profile, true)] + evs)
            == Output(Some(Fresh(sound, profile)), rate, channels, evs)
  {
  }

  lemma HeardAfterPlay(rate: nat, channels: nat, sound: DecodedSound, profile: VolumeProfile, evs: seq<Event>)
    requires Undisturbed(evs)
    ensures Output(Some(Fresh(sound, profile)), rate, channels, evs)
            == PureRender(sound, profile, rate, channels, 0, FramesAsked(evs))
  {
    var t := Track(sound, profile, 0);
    AfterNothing(Fresh(sound, profile), rate);
    OutputIsPure(Some(t), rate, channels, evs);
    UndisturbedRender(t, rate, channels, evs);
  }

  /**
   After any history, what is heard from an accepted Play on is one pure render of
   its sound from frame 0, however the device cuts it into buffers.
   */
  lemma SinceLastPlay(playback: Option<Playback>, rate: nat, channels: nat, history: seq<Event>,
                      sound: DecodedSound, profile: VolumeProfile, evs: seq<Event>)
    requires Undisturbed(evs)
    ensures Output(playback, rate, channels, history + ([Play(sound, profile, true)] + evs))
            == Output(playback, rate, channels, history)
               + PureRender(sound, profile, rate, channels, 0, FramesAsked(evs))
  {
    OutputSplits(playback, rate, channels, history, [Play(sound, profile, true)] + evs);
    OutputOfPlay(Final(playback, rate, history), rate, channels, sound, profile, evs);
    HeardAfterPlay(rate, channels, sound, profile, evs);
  }

  /** After a Stop nothing is heard until the next accepted Play. */
  lemma SinceStop(playback: Option<Playback>, rate: nat, channels: nat, history: seq<Event>, evs: seq<Event>)
    requires Undisturbed(evs)
    ensures Output(playback, rate, channels, history + ([Stop] + evs))
            == Output(playback, rate, channels, history) + Silence(channels, FramesAsked(evs))
  {
    OutputSplits(playback, rate, channels, history, [Stop] + evs);
    assert ([Stop] + evs)[1..] == evs;
    OutputIsPure(None, rate, channels, evs);
    UndisturbedSilence(rate, channels, evs);
  }

  lemma {:induction false} UndisturbedFinal(pb: Playback, rate: nat, evs: seq<Event>, n: nat)
    requires Undisturbed(evs)
    ensures Final(Remaining(Some(pb), rate, n), rate, evs) == Remaining(Some(pb), rate, n + FramesAsked(evs))
    decreases evs
  {
    if evs != [] {
      var m := if evs[0].Callback? then evs[0].frames else 0;
      RemainingAdds(pb, rate, n, m);
      UndisturbedFinal(pb, rate, evs[1..], n + m);
    }
  }

  /** A one-shot playback is dropped by the call that asks for a frame past its last audible one, and not before; a repeating one never. */
  lemma DroppedExactly(sound: DecodedSound, profile: VolumeProfile, rate: nat, evs: seq<Event>)
    requires Undisturbed(evs)
    ensures profile.repeat ==> Final(Some(Fresh(sound, profile)), rate, evs).Some?
    ensures !profile.repeat && (rate > 0 ==> sound.rate > 0) ==>
              (Final(Some(Fresh(sound, profile)), rate, evs).None? <==> FramesAsked(evs) > AudibleFrames(sound, rate))
  {
    var pb := Fresh(sound, profile);
    AfterNothing(pb, rate);
    UndisturbedFinal(pb, rate, evs, 0);
    if !profile.repeat && (rate > 0 ==> sound.rate > 0) {
      ExactLength(sound, profile, rate, FramesAsked(evs));
    }
  }

  lemma HeardCell(sound: DecodedSound, profile: VolumeProfile, rate: nat, channels: nat, evs: seq<Event>, k: nat, c: nat)
    requires Undisturbed(evs) && k < FramesAsked(evs) && c < channels
    ensures var out := Output(Some(Fresh(sound, profile)), rate, channels, evs);
            |out| == FramesAsked(evs) && |out[k]| == channels && out[k][c] == PureCell(sound, profile, rate, k, c)
  {
    HeardAfterPlay(rate, channels, sound, profile, evs);
    var render := PureRender(sound, profile, rate, channels, 0, FramesAsked(evs));
    assert render[k] == PureFrameOf(sound, profile, rate, channels, k);
  }

  /**
   Every sample of every run after an accepted Play, from the sound and the two rates.
   Device frame `k` lies `k * sound.rate / rate` source frames into the playback: after
   `pass` whole passes, in source frame `frame`. Each device channel carries the source
   channel of its number modulo the source's, at the gain the ramp has reached after
   `k / rate` seconds; a one-shot sound is followed by silence.
   */
  lemma HeardExactly(sound: DecodedSound, profile: VolumeProfile, rate: nat, channels: nat, evs: seq<Event>,
                     k: nat, c: nat, pass: nat, frame: nat, rest: nat)
    requires Undisturbed(evs) && k < FramesAsked(evs) && c < channels && k <= U64_MAX
    requires rest < rate && k * sound.rate == pass * (sound.Frames() * rate) + (frame * rate + rest)
    requires if profile.repeat then frame < sound.Frames() else pass == 0
    ensures var out := Output(Some(Fresh(sound, profile)), rate, channels, evs);
            && |out| == FramesAsked(evs) && |out[k]| == channels
            && out[k][c] ==
               if frame < sound.Frames()
               then SampleAt(sound.samples, frame * sound.channels + c % sound.channels) * PureGain(profile, rate, k)
               else 0.0
  {
    HeardCell(sound, profile, rate, channels, evs, k, c);
    CellFromRates(sound, profile, rate, k, c, pass, frame, rest);
  }

  /** The profile every trigger plays with. */
  const TRIGGER_PROFILE: VolumeProfile := RawProfile(1.0, Immediate, false)

  /** An alarm on a device of its own format is heard sample for sample, then silence, whatever the buffers. */
  lemma AlarmHeardExactly(sound: DecodedSound, rate: nat, evs: seq<Event>, i: nat)
    requires sound.rate == rate > 0 && Undisturbed(evs) && i < FramesAsked(evs) * sound.channels
    ensures NewProfile(1.0, Immediate, false) == Ok(TRIGGER_PROFILE)
    ensures var out := Output(Some(Fresh(sound, TRIGGER_PROFILE)), rate, sound.channels, evs);
            var k, c := i / sound.channels, i % sound.channels;
            k < |out| && c < |out[k]| && out[k][c] == if i < |sound.samples| then sound.samples[i] else 0.0
  {
    IndexBelow(i, sound.channels, FramesAsked(evs));
    HeardAfterPlay(rate, sound.channels, sound, TRIGGER_PROFILE, evs);
    ExactCopy(sound, rate, i);
  }
}
