# midi2ffxiv in Dafny

midi2ffxiv turns MIDI input into keystrokes for the instrument performance
mode of Final Fantasy XIV. A MIDI keyboard or a MIDI file drives the game's
instrument keys while the tool respects the game's input cooldowns. This
project models the program's sequential core and proves properties of it:

- the keystroke state machine (`Keystroke`). It has the 256-entry table of held keys, the
  Ctrl/Alt/Shift modifiers, the skill and modifier cooldowns and the idle timer.
  Note-off, note-on and all-notes-off become batches of key transitions;
- the MIDI dispatch loop (`Dispatch`). It drops stale notes, waits out the skill cooldown
  and forwards messages. It also covers unpacking a short MIDI-in message from its
  window-message parameter;
- the MIDI input normaliser and the MIDI output encoders (`Realtime`);
- the MIDI file player (`Tempo`, `Playback`). `Tempo` is the tick-to-microsecond
  accumulation of the tempo map while a file is loaded. `Playback` is the
  per-wake-up decision of `playNextMidiEvent`, the reset and the setters;
- the NTP clock synchronisation (`Ntp`). It averages four clock offsets and keeps the
  largest root distance, behind a cooldown;
- the configuration reader (`Config`, `NoteNames`). It covers option lines, keybinding
  lines and the note-name tables;
- the defaults (`Preset`);
- the offline conflict optimiser (`Optimizer`). It nudges apart note-ons closer than 125 ms
  in a MIDI file.

Conventions throughout:
- Time is an integer number of nanoseconds. `None` stands for Go's zero time.
- A sleep advances the clock by exactly its duration.
- Each Go timer is the field holding its pending delay: `Some(d)` after `Reset(d)`, `None` after `Stop()`.
- What the program hands to another worker, a device or the operating system is
  appended to a sequence field: key batches, MIDI-out messages, pending notes,
  all-notes-off requests and queued playback events.
- Go index-out-of-range panics are preconditions. For example, `Realtime.Defined`
  says which messages `addMidiInEvent` can process.

The files come from different revisions of the program. `main.go` uses a
`midiMessage` record and `midi-realtime.go` a `midiRealtimeEvent`. Each file
is therefore modelled on its own terms, and the modules do not call one another
beyond shared vocabulary (`Common`, `Preset`, `Tempo`).

The state-changing methods model the code as written, including the two
defects listed under "## Findings". For each defect, a pair of pure functions
(as written and corrected) carries the counterexample and the corrected
property.

The optimiser's conflict rounds are specified by two reference functions.
`Optimizer.Iterate` gives the records after k rounds. Each round is
`NextRecords`: the maximal run of conflicts around the closest pair, nudged.
`Optimizer.Counts` gives the conflict count each scan sees. The loop of
`ResolveConflicts` is proved to compute exactly these.

## Model

| member | source | states |
|---|---|---|
| Preset.DefaultKeybinding | preset.go:65-106 | the default table has one row per MIDI note, each the sparse literal's entry or the zero binding |
| Preset.DefaultSettings | preset.go:56-110 | the default settings satisfy the table-size invariant |
| Preset.DefaultDurations | preset.go:56-64 | idle 1 s, max note delay 300 ms, skill cooldown 140 ms, modifier cooldown 50 ms, NTP timeout 5 s, NTP cooldown 10 s, minimum velocity 16 |
| Preset.DefaultMappedRange | preset.go:65-106 | exactly the notes 0x30..0x54 have a non-zero key code |
| Preset.DefaultOctaveLayout | preset.go:66-103 | for k in 0..11 the notes 0x30+k, 0x3c+k and 0x48+k share one key, with Ctrl, no modifier and Shift |
| Preset.DefaultNoAltAndTopNote | preset.go:65-106 | no default binding uses Alt; note 0x54 is Shift+'I' |
| Common.ParseUint | parse-config.go:113-117 | a value is accepted iff its syntax is valid and it fits in the bit size, and then it is below 2^bitSize |
| Config.Fields | parse-config.go:53 | every field is a non-empty run without white space |
| Config.FieldsOfJoin | parse-config.go:53 | splitting words joined by single spaces gives back exactly those words |
| Config.SplitLines | parse-config.go:47-49 | every line but the last ends in its only newline; the last has none |
| Config.SplitLinesConcat | parse-config.go:47-49 | reading line by line loses and adds nothing: the lines concatenate to the file |
| Config.ParseConfigDuration | parse-config.go:97-107 | succeeds iff there are exactly two fields and the second is a duration, giving that duration; otherwise the syntax error for the option |
| Config.ParseConfigUint8 | parse-config.go:109-119 | succeeds iff there are exactly two fields and the second is an unsigned literal below 256, giving its value |
| Config.ParseConfigString | parse-config.go:121-131 | more than two fields is the space error; one field gives ""; two give the second |
| Config.FirstNonModifier | parse-config.go:152-162 | none iff every word is Ctrl, Alt or Shift in any case; otherwise the first word that is not |
| Config.ParseModifiers | parse-config.go:152-162 | the modifier loop reports the first bad word, else sets each flag iff a word names that modifier |
| Config.UpperAscii | parse-config.go:144 | lower-case ASCII letters move up by 32, every other byte is kept |
| Config.KeyCode | parse-config.go:142-151 | a quoted `'x'` gives x upper-cased; otherwise an unsigned literal below 256, else its error |
| Config.QuotedKeyUpperCased | parse-config.go:143-144 | a quoted lower-case letter binds the upper-case key code |
| Config.KeybindingLine | parse-config.go:133-165 | succeeds iff at least 3 fields, a known note, a valid key code and only modifier words; then only the row of that note changes, to the parsed binding |
| Config.ParseConfigKeybinding | parse-config.go:133-165 | agrees with `KeybindingLine` and leaves the table unchanged on an error |
| Config.ApplyOption | parse-config.go:61-86 | an unknown first field is the "unrecognized option" error; a success keeps the settings valid and the config file name |
| Config.ParseConfigOption | parse-config.go:61-86 | the option dispatch returns the settings or the error `ApplyOption` gives |
| Config.ApplyLines | parse-config.go:48-93 | the effect of the lines keeps the settings valid and the config file name |
| Config.ParseConfigFile | parse-config.go:40-95 | a file that cannot be opened keeps the defaults without error; otherwise the result is the effect of the file's lines |
| Config.ApplyLinesAppend | parse-config.go:87-89 | the first error ends the reading, options applied before it stay applied, and no later line has an effect |
| Config.OnlySkippedLines | parse-config.go:50-59 | a file of comment and blank lines changes nothing |
| Config.UnknownOptionStops | parse-config.go:84-89 | a line with an unknown option stops the reading with that error, keeping the earlier lines' settings |
| NoteNames.NoteNameToIndex | parse-config.go:183-191 | succeeds iff the result is below 128; a failure returns 0xff |
| NoteNames.TableLookup | parse-config.go:171-173 | a found index is a note number that the name spells |
| NoteNames.FirstFromFinds | parse-config.go:171-173 | a search over the note numbers finds the only number the predicate holds for |
| NoteNames.TableLookupSpells | parse-config.go:171-173 | the name table maps a name to an index iff the name spells that index |
| NoteNames.NoteIndexToName | parse-config.go:176-181 | errors iff the index is above 0x7f; an index in range gets a name that spells it |
| NoteNames.NameRoundTrip | parse-config.go:168-191 | every note number 0..127 comes back from its own name |
| NoteNames.BothSpellingsAccepted | parse-config.go:171-173 | the sharp and the flat spelling of every note both name its number |
| NoteNames.MiddleCSharp | parse-config.go:172 | "C#4" and "Db4" both name 0x3d |
| NoteNames.NameFallback | parse-config.go:183-191 | a name outside the table is read as an unsigned literal below 128, otherwise 0xff with an error |
| NoteNames.ParseNameIn | parse-config.go:168-172 | reading a generated name back gives its note number (the tables follow pitch class and octave = i/12 - 1) |
| NoteNames.SpellsUnique | parse-config.go:171-173 | no name spells two note numbers |
| Keystroke.HeldCount | keystroke.go:351-373 | the number of held keys is at most the table size |
| Keystroke.HeldCountUpdate | keystroke.go:97-99 | replacing one key changes the held count by the change of that key alone |
| Keystroke.ReleasesOfHeld | keystroke.go:258-278 | all-notes-off emits one key-up per held key, none iff no key is held |
| Keystroke.ModifierInputsExact | keystroke.go:129-204 | exactly one transition per modifier in the wrong state, pressing what the binding wants and releasing what it does not |
| Keystroke.Toggle | keystroke.go:143-152 | a modifier transition sets the state and stamps the change and the press or the release |
| Keystroke.PressTimeBounds | keystroke.go:205-240 | the press is no earlier than the caller's release, the clock, the end of the previous note's skill cooldown and, in realtime, the end of the modifier cooldown |
| Keystroke.PressTime | keystroke.go:205-238 | neither the caller's release nor the press is before the clock, the press not before the release, and in playback the press follows the release at once |
| Keystroke.FlushesEarly | keystroke.go:205-238 | in realtime the pending inputs leave early iff the press waits after the caller's release; in playback an early send is followed by a full modifier cooldown |
| Keystroke.PressBatches | keystroke.go:205-289 | the batches of a press are non-empty, two when the pending inputs leave early and one otherwise, and together hold the pending inputs then the key-down |
| Keystroke.PressTimeRealtimeEarliest | keystroke.go:205-227 | in realtime the press happens at the earliest moment both cooldowns allow |
| Keystroke.PressTimePlayback | keystroke.go:205-222 | in playback the press waits for the skill cooldown or, if that does not apply, a full modifier cooldown |
| Keystroke.FlattenAppend | keystroke.go:279-289 | batches sent in turn add their inputs in order |
| Keystroke.KeystrokeStatus.constructor | keystroke.go:57-61 | the worker starts with no key held, last note 0xff and the idle timer armed for the idle duration |
| Keystroke.KeystrokeStatus.CheckPressedKeys | keystroke.go:351-373 | the check passes iff the count equals the number of held keys |
| Keystroke.KeystrokeStatus.SendInput | keystroke.go:279-289 | a non-empty batch is sent and the count check holds afterwards |
| Keystroke.KeystrokeStatus.ReleaseKey | keystroke.go:96-99 | releases a held key, stamps it and decrements the count |
| Keystroke.KeystrokeStatus.NoteOff | keystroke.go:80-104 | releases and stamps the bound key, with one key-up sent, only if it is held for this note; the idle timer is re-armed once a mapped note leaves no key held; nothing else changes |
| Keystroke.KeystrokeStatus.NoteOn | keystroke.go:104-256 | stops the idle timer; an unmapped note changes nothing else and releases the caller at once; a mapped note syncs the modifiers, records the note at the press time `PressTime` gives and holds its key for the note; the key-up (if it was held) and the modifier transitions go out on their own before a modifier-cooldown wait when `FlushesEarly` says so, else in one batch with the key-down |
| Keystroke.KeystrokeStatus.PressMapped | keystroke.go:111-256 | modifiers synced to the binding, the last note and its time recorded at the press time, the key held for the note, and exactly the batches `PressBatches` gives sent |
| Keystroke.KeystrokeStatus.PressKey | keystroke.go:239-255 | marks a released key held for the note and increments the count |
| Keystroke.KeystrokeStatus.ReleaseAndSyncModifiers | keystroke.go:111-204 | releases the bound key if held, then the modifier transitions, and returns those inputs |
| Keystroke.KeystrokeStatus.SyncModifiers | keystroke.go:129-204 | the modifier transitions for the binding, each modifier synced, and the modifier time stamped iff a transition happened |
| Keystroke.KeystrokeStatus.Flush | keystroke.go:211-233 | the pending inputs are sent as one batch before a sleep, none if nothing is pending, and nothing is left pending |
| Keystroke.KeystrokeStatus.AwaitAndPress | keystroke.go:205-289 | waits out the cooldowns as `PressTime` says, records the note at the press time and presses its key; the pending inputs go out on their own first exactly when `FlushesEarly` holds, else with the key-down |
| Keystroke.KeystrokeStatus.FinishPress | keystroke.go:239-289 | records the note and its time, holds the key for the note, and sends the pending inputs with the key-down as one batch |
| Keystroke.KeystrokeStatus.AwaitCooldowns | keystroke.go:205-238 | the caller's release and the press follow `PressTime`; when `FlushesEarly` holds the pending inputs are sent as their own batch before the modifier-cooldown wait and nothing stays pending, otherwise nothing is sent and all stay pending |
| Keystroke.KeystrokeStatus.AllNotesOff | keystroke.go:258-281 | every key released and stamped, count 0, one batch of the key-ups if any, idle timer at 0, modifiers and note times unchanged |
| Keystroke.KeystrokeStatus.ProduceKeystroke | keystroke.go:77-289 | 0x80 leaves the state `NoteOff` gives, 0x90 the state `NoteOn` gives, the all-notes-off controller the state `AllNotesOff` gives; any other message leaves the whole state unchanged; only a note-on holds the caller past the clock |
| Keystroke.KeystrokeStatus.ClearModifiers | keystroke.go:291-349 | releases exactly the modifiers that are down, in order, leaves all three up and never touches the key table |
| Dispatch.AfterCooldown | main.go:162-165 | the clock after the wait is the last note-on's time plus the cooldown when the message must wait, and the clock itself otherwise |
| Dispatch.IsStale | main.go:158 | only note-ons and after-touch are stale, and only when older than the maximum note delay |
| Dispatch.MustWait | main.go:162 | only a note-off or a note-on waits, and only while a last note-on lies less than one cooldown back |
| Dispatch.Dispatcher.constructor | main.go:97-109 | delay and cooldown from the settings, no last note-on, nothing forwarded yet |
| Dispatch.NoteOnSpacing | main.go:162-165 | a note-on is released at least one cooldown after the last note-on |
| Dispatch.Dispatcher.ProcessMidi | main.go:152-184 | stale note-ons and after-touch are dropped; every other message goes to MIDI out, 0x80/0x90 also to the keystroke worker; an admitted note-on becomes the last one with the post-wait time; note-on times stay a cooldown apart |
| Dispatch.UnpackShortMessage | main.go:232 | a short message is three bytes |
| Dispatch.UnpackPacked | main.go:232 | the three bytes are bits 0-7, 8-15 and 16-23, whatever the higher bits hold |
| Realtime.StatusOf | midi-realtime.go:203 | the status with its channel nibble cleared |
| Realtime.Normalize | midi-realtime.go:194-276 | channel 9 gives nothing; the status nibble is 0; 0xd0 is cut to 2 bytes; other bytes from 2 on are kept; a note message passes iff its (untransposed) note is in 0..127 and bound |
| Realtime.QuietNotesBecomeNoteOff | midi-realtime.go:234-252 | a note-on below the minimum velocity and an after-touch of 0 become note-offs with note and velocity unchanged |
| Realtime.SuppressedMessages | midi-realtime.go:254-267 | bank-select controllers, program change and pitch bend give nothing; channel pressure keeps 2 bytes |
| Realtime.SystemMessagesMasked | midi-realtime.go:195-269 | 0xfe passes as 0xf0, and 0xf9 (channel nibble 9) is dropped |
| Realtime.MidiRealtime.constructor | main.go:103-107 | no output device (-1), bank 0, patch 46, transpose 0, nothing queued, keybinding and minimum velocity from the settings |
| Realtime.MidiRealtime.CopyMasked | midi-realtime.go:201-203 | a fresh copy of the message with the channel nibble cleared |
| Realtime.MidiRealtime.RewriteNote | midi-realtime.go:204-253 | a note message is passed on iff `Normalize` gives a message, and then the copy is rewritten in place into it |
| Realtime.MidiRealtime.AddMidiInEvent | midi-realtime.go:194-276 | the copy rewritten in place is queued exactly when `Normalize` gives a message, with the input's time and realtime flag, and the input is untouched |
| Realtime.MidiRealtime.OnMidiInEvent | midi-realtime.go:183-192 | an empty message is ignored; any other is normalised as a realtime event now |
| Realtime.BankSelectAsWritten | midi-realtime.go:162-170 | the pair of bank-select messages as the code builds them |
| Realtime.BankSelectAsWrittenLosesBits | midi-realtime.go:164 | banks 0 and 128 (and 1 and 129) send the same messages |
| Realtime.BankSelect | midi-realtime.go:162-170 | the corrected pair: both data bytes are 7-bit |
| Realtime.BankSelectRoundTrip | midi-realtime.go:162-170 | the corrected pair encodes every 14-bit bank and tells different banks apart |
| Realtime.MidiRealtime.SetMidiOutBank | midi-realtime.go:162-170 | queues the as-written pair and records the bank |
| Realtime.MidiRealtime.SetMidiOutPatch | midi-realtime.go:172-177 | queues a program change with the patch's low 7 bits and records the patch |
| Realtime.MidiRealtime.SetMidiOutTranspose | midi-realtime.go:179-181 | records the transposition |
| Realtime.ShortWordAsWrittenWraps | midi-realtime.go:290-292 | with the as-written guard, note 0 transposed by -1 sends 0xffffff90 |
| Realtime.ShortWordAsWritten | midi-realtime.go:283-296 | the status byte is always the low byte; one- and two-byte messages leave the top two bytes zero |
| Realtime.ShortWordSound | midi-realtime.go:289-293 | with the intended guard a word is sent iff the transposed note is in range, packing status, note and velocity low byte first with a zero top byte |
| Realtime.ShortWordPlain | midi-realtime.go:294-296 | other three-byte messages are packed losslessly, low byte first |
| Realtime.Pack3Bytes | midi-realtime.go:287-295 | OR-ing b0, b1<<8 and b2<<16 of three bytes holds them in bytes 0, 1 and 2 |
| Realtime.MidiRealtime.SendMidiOutMessage | midi-realtime.go:278-324 | no device sends nothing; one to three bytes send the as-written word; longer messages a long message |
| Realtime.MidiRealtime.SendAllNoteOff | midi-realtime.go:326-330 | queues the all-notes-off controller message |
| Tempo.Vlq | midi-playback.go:137 | the last group holds the low 7 bits, and one group exactly for values below 0x80 |
| Tempo.VlqRoundTrip | midi-playback.go:137 | the encoded length decodes back to itself |
| Tempo.TempoWellFormed | midi-playback.go:140-143 | a set-tempo event is accepted iff it carries exactly three data bytes |
| Tempo.TempoOf | midi-playback.go:144 | OR-ing a<<16, b<<8 and c of three bytes gives a value below 2^24 |
| Tempo.PrefixMonotone | midi-playback.go:115-126 | the absolute tick never decreases along a track |
| Tempo.TempoAtSplit | midi-playback.go:117-123 | the tempo in force at a tick is that of the last entry passed |
| Tempo.IntegralConstant | midi-playback.go:119-125 | a stretch at one tempo adds its length times that tempo |
| Tempo.IntegralAppend | midi-playback.go:145-148 | a tempo entry at or after a tick does not change the time up to it |
| Tempo.AccumulatedPass | midi-playback.go:117-123 | passing a tempo entry adds the stretch up to it at the old tempo and switches to its tempo, keeping the accumulation equal to the integral |
| Tempo.AccumulatedRest | midi-playback.go:124-126 | the rest of the delta before the next entry is added at the current tempo, keeping the accumulation equal to the integral |
| Tempo.Advance | midi-playback.go:115-126 | passes the entries inside the delta and keeps the accumulated time equal to the reference integral |
| Tempo.AppendTempo | midi-playback.go:144-148 | an entry at the current tick keeps the accumulation and the stored times |
| Tempo.ReadEvent | midi-playback.go:113-167 | one event: the error texts of 142 and 157, or the stored event with its tick and time |
| Tempo.BuildTrack | midi-playback.go:105-171 | fails iff some event is bad, with the first bad event's error; otherwise one stored event per event and the track's tempo entries appended; when `InOrder(table0, events)` holds (always, by `Tempo.TablesInOrder`, in a format 2 file or one whose tempo changes are all in the first track) the stored times equal the integral of the tempo map |
| Tempo.TableAfterNonNeg | midi-playback.go:144 | no tempo in the table is negative |
| Tempo.IntegralMonotone | midi-playback.go:119-125 | later ticks are never earlier in time |
| Tempo.DurationMonotone | midi-playback.go:296-298 | `Duration` is monotone in the numerator |
| Tempo.Duration | midi-playback.go:296-298 | the nanoseconds truncated toward zero: 0 <= ns·d <= n·1000 < (ns+1)·d for n >= 0, mirrored for n < 0 |
| Tempo.TempoEntriesInRange | midi-playback.go:144-148 | a track's tempo entries are sorted and lie between tick 0 and the current tick |
| Tempo.NoTempoEntries | midi-playback.go:140-148 | a track without set-tempo events adds no entry |
| Tempo.TableBeforeIsFirstTrack | midi-playback.go:100-103 | in a format 0 or 1 file with every tempo change in the first track, each later track starts from the first track's entries |
| Tempo.TablesInOrder | midi-playback.go:100-148 | the starting table is in order for its track in a format 2 file and in a file whose tempo changes are all in the first track |
| Playback.Reduced | midi-playback.go:196-198 | the loop-reduced progress is below the loop length and otherwise unchanged |
| Playback.LoadedStep | midi-playback.go:100-171 | appending the next track keeps the stored tracks as loaded |
| Playback.LoadTracks | midi-playback.go:100-171 | succeeds iff every event of every track can be stored; the table is reset per track in format 2 |
| Playback.Player.constructor | midi-playback.go:69-72 | empty buffer and a timer that fires at once |
| Playback.Player.SetMidiPlaybackFile | midi-playback.go:88-176 | SMPTE is rejected with its message; any error leaves the buffer unchanged; success stores every track, the tempo map and the ticks per beat |
| Playback.Player.ResetMidiPlayback | midi-playback.go:282-294 | all notes off, index 0, wake at once, fast-forward on |
| Playback.Player.PlayNextMidiEvent | midi-playback.go:178-248 | disabled or bad track changes nothing; negative progress rewinds; end of track loops or silences; a schedule that went back resets; an event not yet due sleeps; a due one is queued at `now - progress + time` and the index advances |
| Playback.Player.PlayFrom | midi-playback.go:199-248 | with the progress known: end of track loops or silences; a schedule that went back resets; an event not yet due sleeps; a due one is queued and the index advances |
| Playback.DueNondecreasing | midi-playback.go:223-238 | in a loaded track with ordered tempo entries, due times never decrease along the track |
| Playback.LoadedTimesMatch | midi-playback.go:100-171 | in a format 2 file, or one whose tempo changes are all in the first track, every loaded track's times are the tempo map's integral |
| Playback.Player.SetMidiPlaybackTrack | midi-playback.go:250-256 | the same track changes nothing; another resets |
| Playback.Player.SetMidiPlaybackOffset | midi-playback.go:258-268 | records the offset, rewinds only an index past the end and wakes at once, fast-forward untouched |
| Playback.Player.GetMidiPlaybackScheduler | midi-playback.go:270-272 | returns the schedule settings |
| Playback.Player.SetMidiPlaybackScheduler | midi-playback.go:274-280 | records the schedule settings and resets |
| Ntp.FirstError | ntp.go:51-59 | no error iff every reply is a valid response |
| Ntp.TooSoon | ntp.go:41 | never too soon before the first synchronisation; otherwise only within the cooldown of the last one |
| Ntp.MaxRootDistance | ntp.go:50-63 | at least 0 and every root distance, and equal to one of them unless 0 |
| Ntp.FirstErrorSticks | ntp.go:53-58 | the first failing reply's error is the one returned |
| Ntp.AverageWithin | ntp.go:60-66 | the published offset lies between the smallest and the largest of the four |
| Ntp.NtpClock.SyncTime | ntp.go:39-71 | within the cooldown fails with "Time already synchronized"; otherwise the first query error, publishing nothing; else publishes the truncated average offset, the largest root distance and the sync time |
| Ntp.NtpClock.constructor | ntp.go:75-77 | not synchronised, offset and deviation 0, the cooldown from the settings |
| Ntp.NtpClock.GetNtpOffset | ntp.go:73-79 | synced iff a sync time is set, with the published offset and deviation |
| Optimizer.Insert | midi-optimizer/midi-optimizer.go:121-125 | inserting keeps every element and adds the new one |
| Optimizer.InsertSorted | midi-optimizer/midi-optimizer.go:121-125 | inserting into a sorted sequence keeps it sorted |
| Optimizer.SortBy | midi-optimizer/midi-optimizer.go:121-201 | the sort is a permutation ordered by its key |
| Optimizer.NoteOnRecordsValid | midi-optimizer/midi-optimizer.go:107-120 | every record names a note-on of the track and carries its key, its tick as both ticks and its time as both times |
| Optimizer.NoteOnRecordsIncreasing | midi-optimizer/midi-optimizer.go:107-120 | the records follow track order, each event at most once |
| Optimizer.NoteOnRecordsComplete | midi-optimizer/midi-optimizer.go:107-120 | every note-on of the track has a record |
| Optimizer.NoteOnRecordsExact | midi-optimizer/midi-optimizer.go:107-120 | the records are exactly the track's note-ons, one each, in track order, both ticks the event's and both times its time |
| Optimizer.BuildRecords | midi-optimizer/midi-optimizer.go:107-120 | the record loop builds those records |
| Optimizer.CountClose | midi-optimizer/midi-optimizer.go:131-134 | at most one conflict is counted per pair scanned |
| Optimizer.NoConflicts | midi-optimizer/midi-optimizer.go:131-134 | the count is 0 iff no neighbouring pair is closer than 125 ms |
| Optimizer.Closest | midi-optimizer/midi-optimizer.go:129-139 | the picked pair is -1 or one of the pairs scanned |
| Optimizer.ClosestPicks | midi-optimizer/midi-optimizer.go:129-139 | -1 iff there is no conflict; otherwise a conflicting pair with the strictly smallest gap, the first on a tie |
| Optimizer.ScanConflicts | midi-optimizer/midi-optimizer.go:129-139 | counts the conflicts (`CountClose`) and picks the pair with the strictly smallest gap, the first on a tie (`Closest`); -1 iff there is no conflict |
| Optimizer.Expand | midi-optimizer/midi-optimizer.go:156-161 | widens the pair to the maximal run of conflicts around it, within the records |
| Optimizer.Nudge | midi-optimizer/midi-optimizer.go:162-170 | the cluster's first record one tick earlier and its last one later, or, at tick 0, one and two ticks later; the span grows and no tick turns negative |
| Optimizer.NextIsNudged | midi-optimizer/midi-optimizer.go:156-170 | the next round's records are the closest pair's maximal run of conflicts, nudged |
| Optimizer.NudgeClosest | midi-optimizer/midi-optimizer.go:156-170 | expanding and nudging the closest pair gives the next round's records; only new ticks and times move and no tick turns negative |
| Optimizer.MaxOfIsMax | midi-optimizer/midi-optimizer.go:149-151 | the total is at least every count and equal to one of them, 0 for no count |
| Optimizer.MaxOfAppend | midi-optimizer/midi-optimizer.go:149-151 | a further count replaces the total iff it exceeds it |
| Optimizer.PositiveAppend | midi-optimizer/midi-optimizer.go:152-154 | a scan that found a conflict keeps every count so far positive |
| Optimizer.ResolveConflicts | midi-optimizer/midi-optimizer.go:126-171 | the records are the reference `Iterate` after `rounds` rounds; every scan before the last found a conflict; resolved iff the last found none, and not resolved only when the fuel ran out; the total is the largest count of all scans; only new ticks and times move |
| Optimizer.ShiftStep | midi-optimizer/midi-optimizer.go:178-190 | one record's shift keeps the track's shape and raises the latest tick to its new tick |
| Optimizer.ShiftAll | midi-optimizer/midi-optimizer.go:177-190 | the latest tick is at least 0 and every new tick |
| Optimizer.ShiftNoteOffs | midi-optimizer/midi-optimizer.go:177-190 | the shift loop computes `ShiftAll` |
| Optimizer.ShiftStepAt | midi-optimizer/midi-optimizer.go:182-189 | one record's shift moves its note-on and its note-off by `newTick - oldTick` and leaves every other event's tick alone |
| Optimizer.ShiftRecord | midi-optimizer/midi-optimizer.go:182-189 | the loop body computes one `ShiftStep` |
| Optimizer.ShiftMovesPairs | midi-optimizer/midi-optimizer.go:182-189 | without shared events, after the first k records every one's note-on and note-off have moved by its `newTick - oldTick` and every other event is where it was |
| Optimizer.NoteOnsLand | midi-optimizer/midi-optimizer.go:182-183 | each note-on ends at its record's new tick |
| Optimizer.ClampNoteOffs | midi-optimizer/midi-optimizer.go:191-195 | the clamp loop computes `ClampAll` |
| Optimizer.ClampRecord | midi-optimizer/midi-optimizer.go:192-194 | the loop body computes one `ClampStep` |
| Optimizer.ClampStepLowers | midi-optimizer/midi-optimizer.go:192-194 | one clamp step never moves a tick later, and afterwards the record's note-off is not after the next record's new tick when that one is not earlier |
| Optimizer.ClampedBeforeStep | midi-optimizer/midi-optimizer.go:191-195 | a step that lowers no tick's bound and clamps record k-1 extends the clamped prefix to k |
| Optimizer.ClampBounds | midi-optimizer/midi-optimizer.go:191-195 | the clamp never moves a tick later, and for each of the first k records no note-off outlasts the next record when that one is not earlier |
| Optimizer.ExtendLast | midi-optimizer/midi-optimizer.go:196-198 | the last event ends at the later of its tick and the latest tick; the others are kept |
| Optimizer.MoveEvents | midi-optimizer/midi-optimizer.go:177-198 | the shift, the clamp and the extension of the last event keep the track's shape |
| Optimizer.SortedRecordsIn | midi-optimizer/midi-optimizer.go:121-125 | sorting keeps the records inside the track with their times |
| Optimizer.FrozenKeepsOrder | midi-optimizer/midi-optimizer.go:126-171 | the rounds keep the records' order |
| Optimizer.OptimizeTrack | midi-optimizer/midi-optimizer.go:106-202 | one track: the sorted note-on records after `rounds` rounds as `ResolveConflicts` states them, the events moved as `MoveEvents` says, and the output those events reordered by tick and file position |

## Left out

- Windows bindings (winmm, user32, kernel32), device opening and closing, device names, sysex buffers and the long-message path of `sendMidiOutMessage` are left out, because they are foreign calls. A long message is recorded as handed over.
- `MapVirtualKey` is the identity: an input records the virtual key whose scan code is sent.
- Goroutines, executors, channels, cancellation and the NTP mutex are left out. Each operation runs as one step of its worker.
- The web interface and its HTTP handlers are left out, as are the round-trip correction in floating-point seconds, logging and printing.
- Standard MIDI file decoding and encoding are left out: a file is a decoded `Tempo.SmfFile`, and `ConvertAbsToDeltaTick` and `EncodeSMF` are not modelled.
- `midimark`'s `ConvertAbsTickToDuration` is the parameter `toTime`.
- `time.ParseDuration` and the lexical part of `strconv.ParseUint` are the oracle functions in `Common.Lexers`.
- The NTP query and its validation are the sequence of replies.
- The time-ordered queue behind `addMidiEvent` is not part of this model. Queued playback events are only appended.
- Go's 64-bit integer overflow and `time.Duration` saturation are not modelled. Examples are the sum of four NTP offsets, tick × tempo products and the `Sub` from a zero time, which is modelled as never blocking.
- The real `time.Now()` is a parameter. `Dispatch.Dispatcher.ProcessMidi` requires that reading to be no earlier than the last note-on's time, because the clock never runs backwards.
- `sort.Slice` is a stable insertion sort on values. The record comparator's clause for equal file positions only ever compares a record with itself, and the Go sort leaves ties unordered. A stable order is one of the outcomes it allows.
- Optimizer.ResolveConflicts: the Go loop has no termination argument. The model stops after `fuel` nudges and reports `resolved == false` when it runs out.
- Optimizer.ShiftMovesPairs: stated only for tracks where no two note-ons share a note-off, as the decoder pairs them one to one. The shift loop itself is modelled for any links.
- The records name their note-on by index in the track, with its key copied in. After the final reordering the note-off links are no longer used and are not kept meaningful.
- Playback.Player.PlayNextMidiEvent: does not model timer firing. It is called when the timer fires, and the timer field records the delay of the last `Reset`.
- Playback.Player.SetMidiPlaybackFile: the `smfio.Read` failure path belongs to the decoder and is not modelled.
- Keystroke.KeystrokeStatus.ProduceKeystroke: the `done` channel is one returned time, the moment the caller is released.
- The test `Message[0] == 0x80` inside the note-on branch can never hold there. It is kept as written.

## Findings

| source | as written | input that shows it | evidently intended | confidence | as-written member | corrected member |
|---|---|---|---|---|---|---|
| midi-realtime.go:164 | the bank-select MSB is `uint8(bank>>15) & 0x7f` | banks 0 and 128 send the same pair `[0xb0,0,0],[0xb0,0x20,0]` | `(bank>>7) & 0x7f`, the upper 7 bits of a 14-bit bank | not executed | Realtime.BankSelectAsWrittenLosesBits | Realtime.BankSelectRoundTrip |
| midi-realtime.go:291 | the range guard is `note >= 0x00 \|\| note <= 0x7f`, always true | note-on `[0x90,0,0x40]` with transposition -1 sends the word 0xffffff90 | `note >= 0x00 && note <= 0x7f`: nothing is sent for a note out of range | not executed | Realtime.ShortWordAsWrittenWraps | Realtime.ShortWordSound |
