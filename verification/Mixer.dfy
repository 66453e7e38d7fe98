/**
 The state shared between the audio worker and the output callback, and the
 callback's mixing loop (`audio/cpal_audio.rs`).
 */
module Mixer {
  import opened Common
  import opened Position
  import opened Profile
  import opened Render

  datatype AudioError = DeviceUnavailable

  function CellOf(playback: Option<Playback>, rate: nat, j: nat, c: nat): real {
    match playback
    case None => 0.0
    case Some(pb) => Cell(pb, rate, j, c)
  }

  /** The interleaved buffer of `len` cells that `playback` owes the device next. */
  function Mixed(playback: Option<Playback>, rate: nat, channels: nat, len: nat): (s: seq<real>)
    requires channels > 0
    ensures |s| == len
  {
    seq(len, i requires 0 <= i < len => CellOf(playback, rate, i / channels, i % channels))
  }

  /** What is left of `playback` after `n` device frames: a finished one-shot is dropped. */
  function Remaining(playback: Option<Playback>, rate: nat, n: nat): Option<Playback> {
    match playback
    case None => None
    case Some(pb) =>
      var pb' := After(pb, rate, n);
      if pb'.finished && !pb'.profile.repeat then None else Some(pb')
  }

  /** The loop reaches the end of a one-shot sound at this frame. */
  predicate Exhausted(pb: Playback) {
    pb.cursor.Floor >= pb.sound.Frames() && !pb.profile.repeat
  }

  /** The cursor after the loop's conditional wrap. */
  function Folded(pb: Playback): Cursor {
    FramesTile(pb.sound);
    if pb.cursor.Floor >= pb.sound.Frames() then Wrap(pb.cursor, pb.sound.Frames()) else pb.cursor
  }

  /** `After` one frame, in the terms the loop computes with. */
  lemma OneFrameState(pb: Playback, rate: nat)
    ensures After(pb, rate, 1) ==
            if pb.finished then pb
            else if Exhausted(pb) then pb.(finished := true)
            else pb.(cursor := Folded(pb) + Step(pb.sound, rate), framesPlayed := Saturate(pb.framesPlayed + 1))
  {
  }

  lemma OneFrameCell(pb: Playback, rate: nat, c: nat)
    ensures Cell(pb, rate, 0, c) ==
            if pb.finished || Exhausted(pb) then 0.0
            else SampleAt(pb.sound.samples, Folded(pb).Floor * pb.sound.channels + c % pb.sound.channels)
                 * Gain(pb.profile, rate, pb.framesPlayed)
  {
  }

  lemma ChunkCount(len: nat, channels: nat, j: nat)
    requires channels > 0 && j * channels >= len && (j > 0 ==> (j - 1) * channels < len)
    ensures j == CeilDiv(len, channels)
  {
    BelowIffBeforeCeil(j, channels, len);
    if j > 0 {
      BelowIffBeforeCeil(j - 1, channels, len);
    }
  }

  /** Where the next chunk ends. */
  lemma ChunkEnd(len: nat, channels: nat, j: nat, base: nat)
    requires channels > 0 && base == Min(j * channels, len) && base < len
    ensures base == j * channels && Min((j + 1) * channels, len) == Min(base + channels, len)
  {
  }

  /** `cells` is the start of the interleaved output that `pb` owes. */
  predicate Matches(cells: seq<real>, pb: Playback, rate: nat, channels: nat)
    requires channels > 0
  {
    forall i :: 0 <= i < |cells| ==> cells[i] == Cell(pb, rate, i / channels, i % channels)
  }

  lemma MatchesExtend(cells: seq<real>, frame: seq<real>, pb: Playback, rate: nat, channels: nat, j: nat)
    requires channels > 0 && |cells| == j * channels && |frame| <= channels
    requires Matches(cells, pb, rate, channels)
    requires forall c :: 0 <= c < |frame| ==> frame[c] == Cell(After(pb, rate, j), rate, 0, c)
    ensures Matches(cells + frame, pb, rate, channels)
  {
    forall i | |cells| <= i < |cells + frame|
      ensures (cells + frame)[i] == Cell(pb, rate, i / channels, i % channels)
    {
      var c := i - |cells|;
      RemainderUnique(i, channels, j, c);
      CellShift(pb, rate, j, 0, c);
    }
  }

  class Shared {
    var playback: Option<Playback>
    var deviceLost: bool

    constructor ()
      ensures playback == None && !deviceLost
    {
      playback := None;
      deviceLost := false;
    }

    /** `handle_play`: replaces any current playback, unless there is no stream. */
    method HandlePlay(sound: DecodedSound, profile: VolumeProfile, streamPresent: bool)
      returns (r: Result<(), AudioError>)
      modifies this`playback
      ensures streamPresent ==> r == Ok(()) && playback == Some(Fresh(sound, profile))
      ensures !streamPresent ==> r == Err(DeviceUnavailable) && playback == old(playback)
    {
      if !streamPresent {
        return Err(DeviceUnavailable);
      }
      playback := Some(Playback(sound, profile, 0, 0.0, false));
      return Ok(());
    }

    /** `handle_stop`. */
    method HandleStop()
      modifies this`playback
      ensures playback == None
    {
      playback := None;
    }

    /**
     `fill_f32`. Whatever playback state it finds and however long the buffer is,
     every cell is overwritten with the sample the formulas call for.
     */
    method FillF32(output: array<real>, deviceChannels: nat, deviceRate: nat)
      modifies this`playback, output
      ensures deviceChannels == 0 ==> output[..] == old(output[..]) && playback == old(playback)
      ensures deviceChannels > 0 ==>
                output[..] == Mixed(old(playback), deviceRate, deviceChannels, output.Length)
                && playback == Remaining(old(playback), deviceRate, CeilDiv(output.Length, deviceChannels))
    {
      if deviceChannels == 0 {
        return;
      }
      if playback.None? {
        WriteSilence(output, 0, output.Length);
        return;
      }
      var pb := playback.value;
      ghost var start := pb;
      ghost var j := 0;
      var base := 0;
      while base < output.Length
        invariant base == Min(j * deviceChannels, output.Length)
        invariant j > 0 ==> (j - 1) * deviceChannels < output.Length
        invariant pb == After(start, deviceRate, j)
        invariant Matches(output[..base], start, deviceRate, deviceChannels)
      {
        var end := Min(base + deviceChannels, output.Length);
        ghost var done := output[..base];
        ChunkEnd(output.Length, deviceChannels, j, base);
        pb := MixFrame(pb, output, base, end, deviceRate);
        MatchesExtend(done, output[base..end], start, deviceRate, deviceChannels, j);
        assert output[..end] == done + output[base..end];
        AfterAdds(start, deviceRate, j, 1);
        base := end;
        j := j + 1;
      }
      ChunkCount(output.Length, deviceChannels, j);
      assert output[..base] == output[..];
      playback := if pb.finished && !pb.profile.repeat then None else Some(pb);
    }

    /** One iteration of the loop over `chunks_mut`. */
    method MixFrame(pb: Playback, output: array<real>, lo: nat, hi: nat, deviceRate: nat) returns (pb': Playback)
      requires lo <= hi <= output.Length
      modifies output
      ensures pb' == After(pb, deviceRate, 1)
      ensures forall c :: 0 <= c < hi - lo ==> output[lo + c] == Cell(pb, deviceRate, 0, c)
      ensures output[..lo] == old(output[..lo]) && output[hi..] == old(output[hi..])
    {
      FramesTile(pb.sound);
      OneFrameState(pb, deviceRate);
      var srcChannels := pb.sound.channels;
      var totalFrames := pb.sound.Frames();
      pb' := pb;
      if pb.finished || totalFrames == 0 || srcChannels == 0 {
        WriteSilence(output, lo, hi);
      } else if pb.cursor.Floor >= totalFrames && !pb.profile.repeat {
        pb' := pb'.(finished := true);
        WriteSilence(output, lo, hi);
      } else {
        if pb'.cursor.Floor >= totalFrames {
          pb' := pb'.(cursor := Wrap(pb'.cursor, totalFrames));
        }
        var idx := pb'.cursor.Floor;
        var gain := GainAt(pb.profile.ramp, pb.profile.target, pb.framesPlayed as real / StepDen(deviceRate) as real);
        WriteSamples(output, lo, hi, pb.sound.samples, idx * srcChannels, srcChannels, gain);
        pb' := pb'.(cursor := pb'.cursor + Step(pb.sound, deviceRate),
                    framesPlayed := Saturate(pb'.framesPlayed + 1));
      }
      forall c | 0 <= c < hi - lo ensures output[lo + c] == Cell(pb, deviceRate, 0, c) {
        OneFrameCell(pb, deviceRate, c);
      }
    }

    method WriteSilence(output: array<real>, lo: nat, hi: nat)
      requires lo <= hi <= output.Length
      modifies output
      ensures forall i :: lo <= i < hi ==> output[i] == 0.0
      ensures output[..lo] == old(output[..lo]) && output[hi..] == old(output[hi..])
    {
      for i := lo to hi
        invariant forall k :: lo <= k < i ==> output[k] == 0.0
        invariant output[..lo] == old(output[..lo]) && output[hi..] == old(output[hi..])
      {
        output[i] := 0.0;
      }
    }

    /** The per-channel loop: source channels are repeated across the device's. */
    method WriteSamples(output: array<real>, lo: nat, hi: nat,
                        samples: seq<real>, srcBase: int, srcChannels: nat, gain: real)
      requires lo <= hi <= output.Length && srcChannels > 0
      modifies output
      ensures forall c :: 0 <= c < hi - lo ==>
                output[lo + c] == SampleAt(samples, srcBase + c % srcChannels) * gain
      ensures output[..lo] == old(output[..lo]) && output[hi..] == old(output[hi..])
    {
      for i := lo to hi
        invariant forall k :: lo <= k < i ==> output[k] == SampleAt(samples, srcBase + (k - lo) % srcChannels) * gain
        invariant output[..lo] == old(output[..lo]) && output[hi..] == old(output[hi..])
      {
        var srcChannel := (i - lo) % srcChannels;
        output[i] := SampleAt(samples, srcBase + srcChannel) * gain;
      }
    }
  }
}
