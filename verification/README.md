# Alarm daemon: a verified model

A Dafny 4.11 model of the Helm alarm daemon, with proofs about its three cores and
one smaller piece. `dafny verify dfyconfig.toml` checks everything.

**Audio** (`Profile`, `Position`, `Render`, `Mixer`, `Session`, `Worker`). The output
callback is a stateful nearest-neighbour resampler: it is called with buffers of any
size, keeps a cursor, folds it when the sound repeats, finishes and clears itself
otherwise, spreads source channels over device channels and applies ramp gain.
`Mixer.Shared.FillF32` is that loop over an array. It is proved equal to formulas
(`Render.Cell`, `Render.After`) for every playback state, device format and buffer
length. `Session` proves that every run of Play, Stop and callbacks sounds like a
reference that only remembers the last accepted sound and the number of frames since,
and reads each sample off an integer formula from frame 0. `Worker` is the retry loop,
with its timing bounds and the one race in which a lost device goes unnoticed.

**Lifecycle** (`Daemon`, `Lifecycle`, `Concurrent`, `Serial`, `Signals`, `Durability`,
`Strays`, `Control`, `Refinement`, `Overlap`, `Runs`). `Lifecycle` is a step machine: a step is
what a handler or a trigger does between two await points, so calls overlap freely,
saves and stops may fail, and the process may crash and restart at any step.
`Concurrent` and `Strays` hold in all its runs; `Serial`, `Signals` and `Durability`
in runs whose calls do not overlap, with trigger steps and crashes still anywhere;
`Overlap` gives runs showing that the serial results do fail for overlapping calls,
and `Concurrent` and `Strays` say exactly when. `Control` has the handlers as
imperative methods over mutable objects, each proved to be an uninterrupted run of the
machine, and `Refinement` shows that whole runs, with any trigger waking or firing at
any time and any save, stop or play failing, look like a small alarm clock.

**Persisted state** (`Utf8`, `Codec`). Encoder and decoder as buffer and cursor code,
proved equal to a grammar of the value layout, with exact round-trip, legacy,
trailing-byte and truncation results. UTF-8 follows the grammar in section 4 of RFC 3629.

**Sound library** (`Sounds`). Which ids are listed, which resolve, and where the two
differ, for any directory contents, read order and paths.

Modelling decisions. `f32`/`f64` samples, gains and cursors are exact reals. Clocks,
directory lookups, build, stop and save outcomes are inputs. `read_dir` is a sequence
of entries. The store is one atomically committed value. A tokio abort stops a trigger
that is asleep and has no effect on one past its sleep. Restart reschedules nothing, as
in the code. The documentation of `transition_to` says the caller "already observed"
the change when a save fails; the model follows the code, which answers only after the
save has been tried. The requirements ask that transitions be durable before they are
acknowledged (FR-9.2); the code answers also after a failed save, and so does the model.

Properties that hold only under a condition:

- A failed stream is flagged and rebuilt, unless the new stream errors between its
  rebuild and the reset of the flag (`UnnoticedExactly`, `UnnoticedForever`).
- After Disarm no trigger is left: true of serial runs (`OneSleeper`). With overlapping
  calls a trigger outlives it exactly when some step strands it and none after that
  rescues it (`StraysExactly`, `SurvivorsExactly`). Three steps strand a sleeper: a call
  stores its own handle over it (`OverlappingArmsLeak`), an Arm stores its handle after
  a Disarm has gone through (`OvertakenArmRings`), or a Disarm goes through after an Arm
  has stored a handle where the Disarm had already looked (`DisarmMissesArm`).
- The store equals memory: exactly when the state committed last is the state that took
  the lock last, given a sound id that fits (`StoreExactly`); saves that succeed in lock order are one way to get
  there (`InOrderCommits`), saves that finish out of order one way not to
  (`ReorderedSavesRevert`).
- The last signal equals Status: true of quiet points of serial runs from a well-formed
  store (`SignalsAlternate`). In every run it holds exactly when an even number of
  changes of status took the lock after the change announced last (`LastWordExactly`).
  It fails when a Disarm overtakes an Arm (`OvertakenArmRings`) or a Snooze
  (`OvertakenSnoozeIsSilent`), and after a served Snooze exactly when the store held a
  sound for a disarmed alarm (`SnoozeSilentExactly`).
- Save then load is the identity: exactly when the sound id has at most 65535 octets
  (`RoundTripExact`).
- An id is listed exactly when it resolves: what is listed resolves, and an id that
  resolves is listed exactly when its name is not empty and has no separator and its
  directory can be read (`ListedIffResolves`). `custom:/abs/x`
  resolves to `/abs/x.wav`, outside the library, and is never listed (`SeparatorHidden`,
  `SeparatorWitness`, `EmptyNameHidden`).

## Model

| member | source | states |
|---|---|---|
| Profile.GainShape | alarm-daemon/src/audio/profile.rs:92-106 | gain never falls as time passes and stays within 0 and the target |
| Profile.LinearGain | alarm-daemon/src/audio/profile.rs:97-104 | on a linear ramp the gain is the target times elapsed over duration, and the outer clamp never acts |
| Profile.GainReachesTarget | alarm-daemon/src/audio/profile.rs:94-104 | gain is the target once the ramp duration has elapsed |
| Profile.RampWithinBounds | alarm-daemon/src/audio/profile.rs:33-42 | a ramp accepted by the 2 to 10 s check is below target for its first 2 s and at target after 10 s |
| Profile.AcceptsExactly | alarm-daemon/src/audio/profile.rs:33-72 | exactly volumes from 0 to 1 and linear ramps of 2 to 10 s are accepted, kept as they are, and otherwise refused by value |
| Position.WrapAdd | alarm-daemon/src/audio/cpal_audio.rs:356-358 | folding the cursor early and then stepping lands where stepping and then folding does |
| Position.WrapOfQuotient | alarm-daemon/src/audio/cpal_audio.rs:344-358 | a folded rational cursor is an integer remainder over the device rate |
| Render.DecodeAcceptsExactly | alarm-daemon/src/audio/decoded.rs:72-129 | accepts exactly the sample buffers of one or more whole frames, keeps them as they are, and names the fault of any other |
| Render.FramesTile | alarm-daemon/src/audio/decoded.rs:114-150 | an accepted sound has at least one frame and its samples are exactly frames times channels |
| Render.LiveExact | alarm-daemon/src/audio/cpal_audio.rs:348-364 | the audible frames of any playback come first, silence after |
| Render.CellShift | alarm-daemon/src/audio/cpal_audio.rs:348-378 | rendering some frames and then looking ahead reads the same samples as looking ahead at once, through wraps and the end of the sound |
| Render.AfterAdds | alarm-daemon/src/audio/cpal_audio.rs:348-382 | the playback state after two stretches of frames is the state after one stretch of their sum |
| Render.PureFrameInRange | alarm-daemon/src/audio/cpal_audio.rs:354-373 | every sample index an audible frame reads is inside the sound, so the 0.0 fallback is never used |
| Render.CellIsPure | alarm-daemon/src/audio/cpal_audio.rs:342-378 | from frame 0 the stateful cursor and the clamped gain equal a reference written in the two rates alone: frame k reads source frame k*src div dst, folded as ((k*src) mod (total*dst)) div dst when repeating, and there is no drift |
| Render.GainIsPure | alarm-daemon/src/audio/cpal_audio.rs:366-367 | the gain of frame k is the target, or the target times k/dst over the ramp's duration while it lasts |
| Render.FrameFromRates | alarm-daemon/src/audio/cpal_audio.rs:342-358 | the same without division: which source frame lies k*src/dst frames into a playback, after how many passes |
| Render.ExactLength | alarm-daemon/src/audio/cpal_audio.rs:342-364 | a one-shot sound has exactly ceil(total*dst/src) audible frames, and is finished exactly when a frame beyond them is processed |
| Render.ExactCopy | alarm-daemon/src/audio/cpal_audio.rs:366-374 | equal rates and channels at gain 1 output the sample buffer itself, then silence |
| Render.GainRises | alarm-daemon/src/audio/cpal_audio.rs:366-377 | along one playback the gain is non-decreasing and within 0 and the target |
| Render.GainSettles | alarm-daemon/src/audio/cpal_audio.rs:366-367 | the gain is the target once the frames played cover the ramp |
| Render.OutputBounded | alarm-daemon/src/audio/cpal_audio.rs:370-374 | no output sample exceeds the target times the magnitude of its source sample |
| Mixer.OneFrameState | alarm-daemon/src/audio/cpal_audio.rs:349-378 | what one iteration does to the playback is one frame of the closed form |
| Mixer.OneFrameCell | alarm-daemon/src/audio/cpal_audio.rs:349-374 | what one iteration writes is one frame of the closed form |
| Mixer.Shared.constructor | alarm-daemon/src/audio/cpal_audio.rs:145-152 | starts with no playback and no lost device |
| Mixer.Shared.HandlePlay | alarm-daemon/src/audio/cpal_audio.rs:214-232 | replaces the playback by a fresh one, or refuses and changes nothing without a stream |
| Mixer.Shared.HandleStop | alarm-daemon/src/audio/cpal_audio.rs:234-237 | clears the playback |
| Mixer.Shared.FillF32 | alarm-daemon/src/audio/cpal_audio.rs:325-383 | for any playback, format and buffer length every cell is overwritten with the closed-form sample, the playback moves on by the number of chunks, and a finished one-shot is dropped; zero channels change nothing |
| Mixer.Shared.MixFrame | alarm-daemon/src/audio/cpal_audio.rs:348-378 | one chunk: its cells, its effect on the playback, nothing else touched |
| Mixer.Shared.WriteSilence | alarm-daemon/src/audio/cpal_audio.rs:336-352 | zeroes exactly the given cells |
| Mixer.Shared.WriteSamples | alarm-daemon/src/audio/cpal_audio.rs:369-374 | writes each channel from the source channel modulo the source's channels, scaled by the gain |
| Session.PlayOut | alarm-daemon/src/audio/cpal_audio.rs:302-311 | a device callback on whole frames emits exactly the frames of the run model |
| Session.OutputIsPure | alarm-daemon/src/audio/cpal_audio.rs:214-383 | every run of Play, Stop and callbacks emits what the memoryless reference emits |
| Session.SinceLastPlay | alarm-daemon/src/audio/cpal_audio.rs:214-383 | after any history, the output since an accepted Play is one pure render from frame 0, however it is cut into buffers and whatever Plays are refused meanwhile |
| Session.SinceStop | alarm-daemon/src/audio/cpal_audio.rs:234-237 | after a Stop only silence until the next accepted Play |
| Session.DroppedExactly | alarm-daemon/src/audio/cpal_audio.rs:359-382 | a one-shot playback is dropped exactly when more frames than its audible ones have been asked for, a repeating one never |
| Session.HeardExactly | alarm-daemon/src/audio/cpal_audio.rs:214-383 | every sample of every run after an accepted Play, from the sound, the profile and the two rates: resampled position, channel modulo, ramp gain, silence at the end |
| Session.AlarmHeardExactly | alarm-daemon/src/ipc/control.rs:95-104 | with the profile triggers use, a matching device hears the sound sample for sample, then silence |
| Worker.AudioWorker.constructor | alarm-daemon/src/audio/cpal_audio.rs:161-172 | the initial build, and the lost flag when it fails or has failed already |
| Worker.AudioWorker.DropFailed | alarm-daemon/src/audio/cpal_audio.rs:177-180 | a live stream flagged as lost is dropped |
| Worker.AudioWorker.Await | alarm-daemon/src/audio/cpal_audio.rs:182-193 | time passes and an error callback of the live stream sets the flag |
| Worker.AudioWorker.FlagLoss | alarm-daemon/src/audio/cpal_audio.rs:312-315 | the error callback sets the flag, and the first loss is the one remembered |
| Worker.AudioWorker.Retry | alarm-daemon/src/audio/cpal_audio.rs:195-207 | a rebuild is tried exactly when there is no stream and five seconds have passed, and clears the flag on success |
| Worker.AudioWorker.Iterate | alarm-daemon/src/audio/cpal_audio.rs:174-208 | one whole iteration, with the command it serves, the reply it sends and an error callback on the way back to the head |
| Worker.AudioWorker.Run | alarm-daemon/src/audio/cpal_audio.rs:174-212 | the loop is the fold of its iterations, and stops at Shutdown |
| Worker.StartExactly | alarm-daemon/src/audio/cpal_audio.rs:164-172 | a stream that was built is kept, flagged only if it has failed already, and a first Play is accepted exactly then |
| Worker.TurnExactly | alarm-daemon/src/audio/cpal_audio.rs:174-208 | what an iteration does, from what happens during it: stream, flag, attempts, the loss remembered and the reply, in terms of the five-second interval |
| Worker.ShutdownStops | alarm-daemon/src/audio/cpal_audio.rs:191-211 | a Shutdown ends the loop and nothing happens after it |
| Worker.SteadyRun | alarm-daemon/src/audio/cpal_audio.rs:164-207 | in every run without errors the worker has an unflagged stream exactly when its last attempt succeeded, and tries no more after a success |
| Worker.ErrorAnswered | alarm-daemon/src/audio/cpal_audio.rs:177-207 | after any history an error of the stream in use sets the flag, and the next attempt answers it at most ten seconds after the error if the loop runs on |
| Worker.EarlyErrorAnswered | alarm-daemon/src/audio/cpal_audio.rs:164-207 | the same for a stream that failed before the loop was entered |
| Worker.RetrySchedule | alarm-daemon/src/audio/cpal_audio.rs:161-208 | for all timings: no stream implies flagged; attempts at least 5 s apart, under 10 s apart while there is no stream, at most 10 s after the loss they answer; a pending loss is at most 5 s old at the loop head |
| Worker.UnnoticedExactly | alarm-daemon/src/audio/cpal_audio.rs:195-207 | an iteration leaves a failure unflagged exactly when its rebuild raced the reset, or one was unflagged already, and nothing more was raised |
| Worker.NoRaceAllNoticed | alarm-daemon/src/audio/cpal_audio.rs:312-315 | without such a race every failed live stream is flagged, in every run |
| Worker.UnnoticedForever | alarm-daemon/src/audio/cpal_audio.rs:195-207 | an unflagged failure gets no rebuild attempt in any continuation without a new error |
| Worker.RaceWitness | alarm-daemon/src/audio/cpal_audio.rs:196-200 | the race is reachable |
| Utf8.DecodeIffEncoded | alarm-daemon/src/daemon/persistence/mod.rs:284-287 | an octet sequence decodes to a string exactly when it is that string's encoding |
| Utf8.EncodeCharTable | alarm-daemon/src/daemon/persistence/mod.rs:196-196 | the table in section 3 of RFC 3629: octets per scalar value and where its bits are |
| Utf8.PrefixDecodes | alarm-daemon/src/daemon/persistence/mod.rs:209-209 | a cut encoding decodes exactly when the cut is a character boundary, and then to a prefix of the string |
| Codec.I64RoundTrip | alarm-daemon/src/daemon/persistence/mod.rs:188-191 | every i64 survives to_le_bytes and from_le_bytes |
| Codec.I64Octets | alarm-daemon/src/daemon/persistence/mod.rs:188-191 | to_le_bytes is two's complement, least significant octet first, and every eight octets are such a number |
| Codec.WriteBody | alarm-daemon/src/daemon/persistence/mod.rs:185-213 | appends the body layout to the buffer and keeps what was there |
| Codec.WriteNextFire | alarm-daemon/src/daemon/persistence/mod.rs:187-193 | appends the tagged fire time |
| Codec.WriteSound | alarm-daemon/src/daemon/persistence/mod.rs:194-212 | appends the tagged, length-prefixed sound id, cut at 65535 octets |
| Codec.WriteState | alarm-daemon/src/daemon/persistence/mod.rs:177-183 | magic, version, body |
| Codec.ReadBody | alarm-daemon/src/daemon/persistence/mod.rs:231-301 | the cursor decoder equals the field-by-field grammar on every byte string, with the same errors |
| Codec.ReadState | alarm-daemon/src/daemon/persistence/mod.rs:216-228 | the magic and version dispatch, total on all byte strings |
| Codec.LayoutExact | alarm-daemon/src/daemon/persistence/mod.rs:177-213 | every octet of every saved value, in numerals |
| Codec.DecodesExactly | alarm-daemon/src/daemon/persistence/mod.rs:216-301 | which byte strings load and as what: after the magic and version 1, or with neither, the fields of the state and then anything, or the same cut before an optional field |
| Codec.RefusesExactly | alarm-daemon/src/daemon/persistence/mod.rs:216-301 | which byte strings are refused and why: another version, unknown tags, missing octets, a sound that is not UTF-8 |
| Codec.RoundTripExact | alarm-daemon/src/daemon/persistence/mod.rs:177-301 | load of save is the state exactly when the sound id fits 65535 octets; otherwise it is the 65535-octet prefix if that ends on a character boundary, and Corrupted if not |
| Codec.LegacyBodySame | alarm-daemon/src/daemon/persistence/mod.rs:226-227 | an unprefixed body, with anything after it, loads like its versioned form |
| Codec.MagicShadowsNothing | alarm-daemon/src/daemon/persistence/mod.rs:217-227 | no value taken by the magic test would have been readable as a legacy body |
| Codec.TrailingBytesIgnored | alarm-daemon/src/daemon/persistence/mod.rs:231-301 | octets after an encoding never change what it loads as |
| Codec.ReencodeStable | alarm-daemon/src/daemon/persistence/mod.rs:216-301 | whatever loads can be saved and loads again unchanged |
| Codec.TruncationExact | alarm-daemon/src/daemon/persistence/mod.rs:231-301 | what every cut of four or more octets loads as: fields erased from the end, or the Corrupted error of the cut field |
| Codec.ShortTruncations | alarm-daemon/src/daemon/persistence/mod.rs:217-235 | what the shorter cuts load as, in full, including a wrong armed flag |
| Daemon.CommitRecovers | alarm-daemon/src/daemon/persistence/mod.rs:102-141 | a committed state is recovered exactly when its sound id fits |
| Daemon.FirstStart | alarm-daemon/src/daemon/persistence/mod.rs:102-119 | a daemon that has never saved comes up disarmed, with no fire time, no sound and nothing missed |
| Daemon.Store.constructor | alarm-daemon/src/daemon/persistence/mod.rs:84-91 | a store over a given committed value |
| Daemon.Store.LoadState | alarm-daemon/src/daemon/persistence/mod.rs:102-121 | disarmed and empty when nothing was saved, else the decoded value |
| Daemon.Store.Save | alarm-daemon/src/daemon/persistence/mod.rs:126-141 | commits the whole encoding or leaves the cell as it was |
| Daemon.AlarmDaemon.constructor | alarm-daemon/src/daemon/alarm_daemon.rs:45-51 | a daemon over a state and a store |
| Daemon.AlarmDaemon.NewPersistent | alarm-daemon/src/daemon/alarm_daemon.rs:27-52 | start-up fails exactly when the store does not decode; else memory is the stored state and the missed flag is exact; an empty store starts disarmed with nothing missed |
| Daemon.AlarmDaemon.TransitionTo | alarm-daemon/src/daemon/alarm_daemon.rs:107-137 | the reported transition, the new memory and the new store, which moves only on a real change and a successful save |
| Daemon.AlarmDaemon.ArmWithSound | alarm-daemon/src/daemon/alarm_daemon.rs:73-83 | transition to the armed state with that sound and fire time |
| Daemon.AlarmDaemon.Disarm | alarm-daemon/src/daemon/alarm_daemon.rs:86-88 | transition to the disarmed state, clearing sound and fire time |
| Concurrent.SignalLedger | alarm-daemon/src/ipc/control.rs:123-184 | in every run, signals true minus signals false, with those owed in flight and those Snooze discards, equal armed-now minus armed-at-start |
| Concurrent.PlainLedger | alarm-daemon/src/ipc/control.rs:123-148 | in every run without Snooze, signals true minus signals false plus those owed in flight equal armed-now minus armed-at-start, and without those owed once no call is in flight |
| Concurrent.LockOrderChain | alarm-daemon/src/daemon/alarm_daemon.rs:108-116 | in every run the reported transitions chain: each from is the previous to, first boot, last memory |
| Concurrent.LastWordExactly | alarm-daemon/src/ipc/control.rs:128-132 | in every run the last signal is the status of the change announced last, and equals Status exactly when an even number of changes of status took the lock after that one |
| Concurrent.StoreHoldsReal | alarm-daemon/src/daemon/alarm_daemon.rs:107-133 | in every run with failing and reordered saves, crashes and restarts, the store recovers to a whole state memory really held |
| Concurrent.StoreExactly | alarm-daemon/src/daemon/alarm_daemon.rs:107-133 | in every run, with no assumption on saves, the store is the state committed last: recovered whole exactly when its sound id fits, and then equal to memory exactly when it is the state that took the lock last |
| Concurrent.InOrderCommits | alarm-daemon/src/daemon/alarm_daemon.rs:116-133 | with saves that succeed in lock order, a daemon with no call in flight has its memory in the store |
| Concurrent.TriggersOnce | alarm-daemon/src/ipc/control.rs:86-105 | in every run each trigger plays at most once and never before its schedule time plus delay |
| Serial.OneSleeper | alarm-daemon/src/ipc/control.rs:48-106 | in every serial run at most one trigger is asleep, and none when Disarmed with no call in flight |
| Serial.LatePlays | alarm-daemon/src/ipc/control.rs:87-104 | after a Disarm and before the next Arm or Snooze, any sound that still starts comes from a trigger already past its sleep |
| Serial.DisarmStandsDown | alarm-daemon/src/ipc/control.rs:137-148 | a completed Disarm or Dismiss leaves the state the previous row starts from |
| Strays.OrphanedExactly | alarm-daemon/src/ipc/control.rs:106-106 | for every step of every run, a sleeping trigger passes out of reach of any handle exactly when a call stores its handle over that of a trigger still asleep |
| Strays.StrayExactly | alarm-daemon/src/ipc/control.rs:48-106 | for every step, a sleeper is out of place afterwards exactly when the step stranded it, or it was and the step did not rescue it |
| Strays.StraysExactly | alarm-daemon/src/ipc/control.rs:48-106 | the same over whole runs: stranded by some step and rescued by none since |
| Strays.SurvivorsExactly | alarm-daemon/src/ipc/control.rs:48-106 | from a started daemon and however calls overlap, with no call in flight a trigger sleeps on in a Disarmed daemon, or beside the one held, exactly when the run stranded it |
| Strays.SerialStrandsNone | alarm-daemon/src/ipc/control.rs:48-106 | serial runs strand no trigger |
| Signals.SignalsAlternate | alarm-daemon/src/ipc/control.rs:123-184 | in every serial run from a well-formed store, whatever saves do and even if ids are cut, signals strictly alternate, the last equals Status, Disarmed means no sound and no fire time, and Snooze never swallows a change |
| Durability.CrashAtomic | alarm-daemon/src/daemon/alarm_daemon.rs:107-137 | a crash at any step of a serial run with successful saves recovers memory as it stood, or the pre-call state while the call's save is in flight |
| Durability.CrashRecoversCommitted | alarm-daemon/src/daemon/alarm_daemon.rs:107-137 | in every run a crash recovers the state committed last since start, when its sound id fits |
| Durability.RestartAfterCommit | alarm-daemon/src/daemon/alarm_daemon.rs:27-52 | in any run, after a committed save and no later commit, a restart brings back exactly what was saved |
| Durability.MissedExactly | alarm-daemon/src/daemon/persistence/mod.rs:145-153 | after a committed Arm or Snooze a restart reports a missed alarm exactly when the clock has reached the saturating sum of call time and delay |
| Durability.NeverMissedDisarmed | alarm-daemon/src/daemon/persistence/mod.rs:150-151 | after a committed Disarm or Dismiss a restart never reports one |
| Control.Control.constructor | alarm-daemon/src/ipc/control.rs:31-44 | no handle, no triggers, nothing playing |
| Control.Control.CancelPending | alarm-daemon/src/ipc/control.rs:48-55 | the handle is taken, its trigger aborted if asleep, the player stopped if that succeeds |
| Control.Control.ScheduleTriggerWithDelay | alarm-daemon/src/ipc/control.rs:63-108 | an unresolvable sound changes nothing; else cancel, arm with the saturating fire time, save, spawn and keep the new trigger |
| Control.Control.EmitIfChanged | alarm-daemon/src/ipc/control.rs:128-132 | one signal for a real change of status, none otherwise |
| Control.Control.Arm | alarm-daemon/src/ipc/control.rs:123-134 | is the uninterrupted run of the machine for that request, with its reply |
| Control.Control.Disarm | alarm-daemon/src/ipc/control.rs:137-148 | the same for Disarm |
| Control.Control.Snooze | alarm-daemon/src/ipc/control.rs:153-167 | the same for Snooze |
| Control.Control.Dismiss | alarm-daemon/src/ipc/control.rs:173-184 | the same for Dismiss |
| Control.RejectedExactly | alarm-daemon/src/ipc/control.rs:68-71 | which requests are refused, that a refused request changes nothing, and what an accepted one amounts to |
| Control.AnswerServes | alarm-daemon/src/ipc/control.rs:63-184 | a call run on the step machine from a quiet state ends quiet with exactly that result |
| Control.AnswerIsRun | alarm-daemon/src/ipc/control.rs:63-184 | a served call is a serial run of the machine |
| Refinement.DaemonIsAlarmClock | alarm-daemon/src/ipc/control.rs:48-184 | over every sequence of requests, wakings and firings of any trigger, playback ends, crashes and restarts, with saves, stops and plays that may fail, the daemon shows exactly the states and signals of the alarm clock: only the latest setting can go off, once, when due |
| Refinement.EventsAreRun | alarm-daemon/src/ipc/control.rs:48-184 | each such sequence is a serial run of the step machine |
| Refinement.InitialSettled | alarm-daemon/src/daemon/alarm_daemon.rs:27-52 | a freshly started daemon on a proper store satisfies the refinement's invariant |
| Overlap.OverlappingArmsLeak | alarm-daemon/src/ipc/control.rs:78-106 | for any two Arms there is a run in which they overlap and a later Disarm returns with a trigger still asleep |
| Overlap.DisarmMissesArm | alarm-daemon/src/ipc/control.rs:48-106 | for any Arm there is a run with one overlapping Disarm that ends quiet and Disarmed with the trigger asleep and held |
| Overlap.OvertakenArmRings | alarm-daemon/src/ipc/control.rs:78-133 | from a Disarmed daemon there is a run of one Arm and one Disarm that ends quiet and Disarmed, with StateChanged(true) the last signal and the trigger asleep and held, which then rings |
| Overlap.ReorderedSavesRevert | alarm-daemon/src/daemon/alarm_daemon.rs:116-127 | there is a run that ends quiet, Disarmed in memory and Armed in the store |
| Overlap.OvertakenSnoozeIsSilent | alarm-daemon/src/ipc/control.rs:159-165 | there is a run that ends quiet and Armed with StateChanged(false) the last signal |
| Overlap.SnoozeSilentExactly | alarm-daemon/src/ipc/control.rs:153-167 | a served Snooze changes the status without a signal exactly when it finds a Disarmed daemon with a sound |
| Runs.EveryRun | alarm-daemon/src/ipc/control.rs:48-184 | the results for all runs, from a started daemon: signal balance, lock-order chain, punctual triggers, the exact conditions on store and last signal |
| Runs.EverySerialRun | alarm-daemon/src/ipc/control.rs:48-184 | the results for serial runs, from a daemon started on a well-formed store: triggers, signals and crashes |
| Sounds.CollectEntry | alarm-daemon/src/audio/sounds.rs:123-147 | one entry: an unreadable one or unreadable metadata fails, non-sounds are skipped, a sound's id, name, source and size replace what was known of that id |
| Sounds.Collect | alarm-daemon/src/audio/sounds.rs:114-149 | succeeds exactly when the directory and every sound's metadata can be read, and adds exactly its sound ids, each with what its last entry tells |
| Sounds.ListSounds | alarm-daemon/src/audio/sounds.rs:96-101 | exactly the sound ids of both directories, ascending and so without duplicates, each with the name, source and size of the last entry listed for it |
| Sounds.LessIsByteOrder | alarm-daemon/src/audio/sounds.rs:97-100 | the order used is the byte order of the map's string keys |
| Sounds.BuiltinsFirst | alarm-daemon/src/audio/sounds.rs:94-95 | every built-in id comes before every custom one |
| Sounds.OrderIndependent | alarm-daemon/src/audio/sounds.rs:114-149 | the listed ids do not depend on the order entries are read in |
| Sounds.ResolvesTo | alarm-daemon/src/audio/sounds.rs:104-159 | a namespaced id is looked up from its own directory, wav winning over flac, following separators and absolute paths, and reported unknown by its id otherwise |
| Sounds.InvalidExactly | alarm-daemon/src/audio/sounds.rs:104-112 | an id is invalid exactly when it has neither namespace |
| Sounds.JoinExactly | alarm-daemon/src/audio/sounds.rs:153-153 | the path looked up is the file in the directory, unless the name is absolute |
| Sounds.ListedIffResolves | alarm-daemon/src/audio/sounds.rs:104-159 | for every id: listed exactly when it resolves, its name is not empty and has no separator, and its directory can be read |
| Sounds.EmptyNameHidden | alarm-daemon/src/audio/sounds.rs:151-159 | a file named .wav resolves under the empty name and is never listed |
| Sounds.SeparatorHidden | alarm-daemon/src/audio/sounds.rs:151-159 | a name with a separator is never listed and resolves exactly when its path exists, below the directory or, if absolute, anywhere |
| Sounds.SeparatorWitness | alarm-daemon/src/audio/sounds.rs:151-159 | two such ids that resolve and are not listed |

## Left out

- Floating point: `f32`/`f64` rounding, NaN, and the overflow of `Duration::from_secs_f64` after 2^64 frames are not modelled.
- Device selection, stream building and sample-format conversion: foreign calls; a build succeeds or fails as an input.
- `send_and_wait`: a caller that gives up after one second while its command is still queued is not modelled.
- Worker.RetrySchedule: does not model the time `build_stream` and command handling take; both are instantaneous.
- Decoding packets with symphonia: only the checks on the collected samples are modelled, as the type of sounds.
- Database files, the cached handle and fsync: the store is one value committed atomically or not at all.
- Concurrent.StoreHoldsReal: assumes that a sound id that resolves to a file has at most 65535 octets, as file systems guarantee; without it the codec's exact condition applies.
- Refinement.DaemonIsAlarmClock: assumes sound ids that fit the store, and calls that run without interruption; crashes inside a call are in `CrashAtomic` and overlapping calls in `Concurrent` and `Strays`.
- Sounds.OrderIndependent: is about ids; when both formats of a name exist, the listed size is that of the entry read last.
- Names that are not UTF-8: skipped by the listing and not modelled; nor are directories that change between a listing and a lookup.
- The D-Bus client, configuration, logging, systemd notification and start-up wiring: nothing hard to prove.
- Requirements without code (escalation, anchor drag, RTC wake, repeating timers, rescheduling after restart): no code decides them.
