/** The MIDI file player of midi-playback.go: loading a file
    (`setMidiPlaybackFile`), the wake-up step `playNextMidiEvent`,
    `resetMidiPlayback` and the setters.  The player's timer is the field
    `timer` (the delay of its last `Reset`); the events handed to
    `addMidiEvent` are appended to `queued`, and each `sendAllNoteOff`
    submitted to the real-time worker is counted in `allNotesOffRequests`. */
module Playback {
  import opened Common
  import opened Tempo

  /** `midiQueueEvent`. */
  datatype QueueEvent = QueueEvent(time: int, message: seq<Byte>, realtime: bool, fastForward: bool, alreadyTransposed: bool)

  /** The progress into the schedule after the loop reduction: Go's `%` on
      a non-negative progress and a positive loop interval. */
  function Reduced(progress: int, loopEnabled: bool, loop: int): (p: int)
    requires progress >= 0
    ensures 0 <= p <= progress
    ensures loopEnabled && loop > 0 ==> p < loop
    ensures !(loopEnabled && loop > 0) ==> p == progress
  {
    if loopEnabled && loop > 0 then progress % loop else progress
  }

  /** The due time of an event: its `Duration` into the schedule. */
  function Due(e: FileEvent): int
    requires e.microseconds.denominator > 0
  {
    Duration(e.microseconds)
  }

  /** The first `i` tracks of `file` hold no event that stops loading. */
  ghost predicate TracksOk(file: SmfFile, i: nat) {
    i <= |file.tracks| && forall t, k :: 0 <= t < i && 0 <= k < |file.tracks[t]| ==> BodyOk(file.tracks[t][k].body)
  }

  /** `tracks` holds the first `i` tracks of `file` as stored by
      `setMidiPlaybackFile`: one stored event per event, and the stored times
      are the tempo map's integral whenever the tempo entries come in order. */
  ghost predicate LoadedAs(file: SmfFile, tracks: seq<seq<FileEvent>>, i: nat)
    requires TracksOk(file, i)
  {
    |tracks| == i &&
    (forall t :: 0 <= t < i ==> |tracks[t]| == |file.tracks[t]|) &&
    (forall t, k :: 0 <= t < i && 0 <= k < |file.tracks[t]| ==> StoredAs(file.tracks[t], k, tracks[t][k], file.ticksPerBeat)) &&
    (forall t :: 0 <= t < i && InOrder(TableBefore(file, t), file.tracks[t]) ==> TimesMatch(tracks[t], TableAfter(file, t)))
  }

  /** Appending the next track keeps `LoadedAs`. */
  lemma LoadedStep(file: SmfFile, tracks: seq<seq<FileEvent>>, i: nat, track: seq<FileEvent>)
    requires TracksOk(file, i + 1) && LoadedAs(file, tracks, i)
    requires |track| == |file.tracks[i]|
    requires forall k :: 0 <= k < |track| ==> StoredAs(file.tracks[i], k, track[k], file.ticksPerBeat)
    requires InOrder(TableBefore(file, i), file.tracks[i]) ==> TimesMatch(track, TableAfter(file, i))
    ensures LoadedAs(file, tracks + [track], i + 1)
  {
    var grown := tracks + [track];
    assert grown[i] == track;
    assert forall t :: 0 <= t < i ==> grown[t] == tracks[t];
  }

  /** The track loop of `setMidiPlaybackFile`: each track is read in turn,
      each starting from the tempo table the previous ones built (from an
      empty one in a format 2 file); loading stops at the first bad event. */
  method LoadTracks(file: SmfFile) returns (tracks: seq<seq<FileEvent>>, table: seq<TempoEntry>, err: Option<string>)
    ensures err.None? <==> TracksOk(file, |file.tracks|)
    ensures err.None? ==> LoadedAs(file, tracks, |file.tracks|)
    ensures err.None? ==> table == (if |file.tracks| == 0 then [] else TableAfter(file, |file.tracks| - 1))
  {
    tracks, table, err := [], [], None;
    var i := 0;
    while i < |file.tracks|
      invariant TracksOk(file, i) && LoadedAs(file, tracks, i)
      invariant table == (if i == 0 then [] else TableAfter(file, i - 1))
    {
      if file.format == 2 {
        table := [];
      }
      assert table == TableBefore(file, i);
      var track, e;
      track, table, e := BuildTrack(file.tracks[i], table, file.ticksPerBeat);
      if e.Some? {
        return [], [], e;
      }
      LoadedStep(file, tracks, i, track);
      tracks := tracks + [track];
      i := i + 1;
    }
  }

  class Player {
    // midiFileBuffer
    var midiTracks: seq<seq<FileEvent>>
    var tempoTable: seq<TempoEntry>
    var ticksPerBeat: int
    var nextEventIndex: int
    var timer: Option<int>
    var fastForward: bool
    // the playback settings of `application`
    var scheduleEnabled: bool
    var schedule: int
    var loopEnabled: bool
    var loop: int
    var playbackTrack: int
    var playbackOffset: int
    // what the player hands to other workers
    var queued: seq<QueueEvent>
    var allNotesOffRequests: nat

    /** Every stored event's denominator is the file's ticks per beat. */
    ghost predicate Valid()
      reads this
    {
      nextEventIndex >= 0 && 0 <= playbackTrack < 0x1_0000 &&
      forall t, k :: 0 <= t < |midiTracks| && 0 <= k < |midiTracks[t]| ==> midiTracks[t][k].microseconds.denominator == ticksPerBeat
    }

    /** `processMidiPlayback`'s empty buffer with a timer that fires at once. */
    constructor ()
      ensures Valid() && midiTracks == [] && tempoTable == [] && ticksPerBeat == 0
      ensures nextEventIndex == 0 && timer == Some(0) && !fastForward
      ensures !scheduleEnabled && playbackTrack == 0 && playbackOffset == 0
      ensures queued == [] && allNotesOffRequests == 0
    {
      midiTracks, tempoTable, ticksPerBeat := [], [], 0;
      nextEventIndex, timer, fastForward := 0, Some(0), false;
      scheduleEnabled, schedule, loopEnabled, loop := false, 0, false, 0;
      playbackTrack, playbackOffset := 0, 0;
      queued, allNotesOffRequests := [], 0;
    }

    /** `setMidiPlaybackFile` on a decoded file: nothing changes on an
        error; otherwise every track is stored with its tempo map. */
    method SetMidiPlaybackFile(file: SmfFile) returns (err: Option<string>)
      requires Valid() && 0 <= file.ticksPerBeat < 0x1_0000
      modifies this`midiTracks, this`tempoTable, this`ticksPerBeat
      ensures Valid()
      ensures err.None? <==> Loadable(file)
      ensures file.smpte ==> err == Some("MIDI with SMTPE timestamps is unsupported")
      ensures err.Some? ==> midiTracks == old(midiTracks) && tempoTable == old(tempoTable) && ticksPerBeat == old(ticksPerBeat)
      ensures err.None? ==>
        ticksPerBeat == file.ticksPerBeat && LoadedAs(file, midiTracks, |file.tracks|) &&
        tempoTable == (if |file.tracks| == 0 then [] else TableAfter(file, |file.tracks| - 1))
    {
      if file.smpte {
        return Some("MIDI with SMTPE timestamps is unsupported");
      }
      var tracks, table;
      tracks, table, err := LoadTracks(file);
      if err.Some? {
        return err;
      }
      midiTracks, tempoTable, ticksPerBeat := tracks, table, file.ticksPerBeat;
      assert forall t, k :: 0 <= t < |file.tracks| && 0 <= k < |file.tracks[t]| ==> StoredAs(file.tracks[t], k, midiTracks[t][k], file.ticksPerBeat);
    }

    /** `resetMidiPlayback`: all notes off, back to the first event, wake
        at once, fast-forward on. */
    method ResetMidiPlayback()
      requires Valid()
      modifies this`allNotesOffRequests, this`nextEventIndex, this`timer, this`fastForward
      ensures Valid()
      ensures allNotesOffRequests == old(allNotesOffRequests) + 1
      ensures nextEventIndex == 0 && timer == Some(0) && fastForward
    {
      allNotesOffRequests := allNotesOffRequests + 1;
      nextEventIndex := 0;
      timer := Some(0);
      if !fastForward {
        fastForward := true;
      }
    }

    /** `playNextMidiEvent` when the timer fires at `now`, with the
        current NTP clock offset.  The ticks per beat are divided by only
        when an event of the track is about to be timed. */
    method PlayNextMidiEvent(now: int, ntpClockOffset: int)
      requires Valid()
      requires (scheduleEnabled && playbackTrack < |midiTracks| && now + ntpClockOffset + playbackOffset - schedule >= 0 &&
                nextEventIndex < |midiTracks[playbackTrack]|) ==> ticksPerBeat > 0
      modifies this`nextEventIndex, this`timer, this`fastForward, this`queued, this`allNotesOffRequests
      ensures Valid()
      ensures !scheduleEnabled || playbackTrack >= |midiTracks| ==>
        nextEventIndex == old(nextEventIndex) && timer == old(timer) && fastForward == old(fastForward) &&
        queued == old(queued) && allNotesOffRequests == old(allNotesOffRequests)
      ensures scheduleEnabled && playbackTrack < |midiTracks| ==>
        var raw := now + ntpClockOffset + playbackOffset - schedule;
        var track := midiTracks[playbackTrack];
        var i := old(nextEventIndex);
        if raw < 0 then
          // before the start: rewind and sleep until the start
          nextEventIndex == 0 && timer == Some(-raw) && !fastForward &&
          queued == old(queued) && allNotesOffRequests == old(allNotesOffRequests)
        else
          var p := Reduced(raw, loopEnabled, loop);
          if i >= |track| then
            if loopEnabled then
              // end of the track: wrap around and sleep until the next loop
              nextEventIndex == 0 && timer == Some(Max(loop - p, 0)) && !fastForward &&
              queued == old(queued) && allNotesOffRequests == old(allNotesOffRequests)
            else
              // end of the track: silence, and no further wake-up
              nextEventIndex == old(nextEventIndex) && timer == old(timer) && fastForward == old(fastForward) &&
              queued == old(queued) && allNotesOffRequests == old(allNotesOffRequests) + 1
          else if i > 0 && Due(track[i - 1]) > p then
            // the schedule moved backwards: reset and fast-forward
            nextEventIndex == 0 && timer == Some(0) && fastForward &&
            queued == old(queued) && allNotesOffRequests == old(allNotesOffRequests) + 1
          else if Due(track[i]) > p then
            // not yet due: sleep until it is
            nextEventIndex == i && timer == Some(Due(track[i]) - p) && !fastForward &&
            queued == old(queued) && allNotesOffRequests == old(allNotesOffRequests)
          else
            // due: hand it on, timed at its place in the schedule, and wake at once
            nextEventIndex == i + 1 && timer == Some(0) && fastForward == old(fastForward) &&
            queued == old(queued) + [QueueEvent(now - p + Due(track[i]), track[i].message, false, old(fastForward), true)] &&
            allNotesOffRequests == old(allNotesOffRequests)
    {
      if !scheduleEnabled {
        return;
      }
      if playbackTrack >= |midiTracks| {
        return;
      }
      var progress := now + ntpClockOffset + playbackOffset - schedule;
      if progress < 0 {
        nextEventIndex := 0;
        timer := Some(-progress);
        if fastForward {
          fastForward := false;
        }
        return;
      }
      if loopEnabled && loop > 0 {
        progress := progress % loop;
      }
      PlayFrom(now, progress);
    }

    /** The part of `playNextMidiEvent` after the progress is known (and
        reduced modulo the loop length). */
    method PlayFrom(now: int, progress: int)
      requires Valid() && playbackTrack < |midiTracks|
      requires nextEventIndex < |midiTracks[playbackTrack]| ==> ticksPerBeat > 0
      modifies this`nextEventIndex, this`timer, this`fastForward, this`queued, this`allNotesOffRequests
      ensures Valid()
      ensures var track := midiTracks[playbackTrack];
        var i := old(nextEventIndex);
        var p := progress;
        if i >= |track| then
          if loopEnabled then
            // end of the track: wrap around and sleep until the next loop
            nextEventIndex == 0 && timer == Some(Max(loop - p, 0)) && !fastForward &&
            queued == old(queued) && allNotesOffRequests == old(allNotesOffRequests)
          else
            // end of the track: silence, and no further wake-up
            nextEventIndex == old(nextEventIndex) && timer == old(timer) && fastForward == old(fastForward) &&
            queued == old(queued) && allNotesOffRequests == old(allNotesOffRequests) + 1
        else if i > 0 && Due(track[i - 1]) > p then
          // the schedule moved backwards: reset and fast-forward
          nextEventIndex == 0 && timer == Some(0) && fastForward &&
          queued == old(queued) && allNotesOffRequests == old(allNotesOffRequests) + 1
        else if Due(track[i]) > p then
          // not yet due: sleep until it is
          nextEventIndex == i && timer == Some(Due(track[i]) - p) && !fastForward &&
          queued == old(queued) && allNotesOffRequests == old(allNotesOffRequests)
        else
          // due: hand it on, timed at its place in the schedule, and wake at once
          nextEventIndex == i + 1 && timer == Some(0) && fastForward == old(fastForward) &&
          queued == old(queued) + [QueueEvent(now - p + Due(track[i]), track[i].message, false, old(fastForward), true)] &&
          allNotesOffRequests == old(allNotesOffRequests)
    {
      var index := nextEventIndex;
      var thisTrack := midiTracks[playbackTrack];
      if index >= |thisTrack| {
        if loopEnabled {
          nextEventIndex := 0;
          var waitTime := loop - progress;
          if waitTime < 0 {
            waitTime := 0;
          }
          timer := Some(waitTime);
          if fastForward {
            fastForward := false;
          }
        } else {
          allNotesOffRequests := allNotesOffRequests + 1;
        }
        return;
      }
      if index > 0 {
        var lastNoteProgress := Duration(thisTrack[index - 1].microseconds);
        if lastNoteProgress > progress {
          ResetMidiPlayback();
          return;
        }
      }
      var nextNoteProgress := Duration(thisTrack[index].microseconds);
      if nextNoteProgress > progress {
        timer := Some(nextNoteProgress - progress);
        if fastForward {
          fastForward := false;
        }
        return;
      }
      queued := queued + [QueueEvent(now - progress + nextNoteProgress, thisTrack[index].message, false, fastForward, true)];
      nextEventIndex := index + 1;
      timer := Some(0);
    }

    /** `setMidiPlaybackTrack`: a different track resets the playback. */
    method SetMidiPlaybackTrack(trackNumber: int)
      requires Valid() && 0 <= trackNumber < 0x1_0000
      modifies this`playbackTrack, this`allNotesOffRequests, this`nextEventIndex, this`timer, this`fastForward
      ensures Valid() && playbackTrack == trackNumber
      ensures old(playbackTrack) == trackNumber ==>
        allNotesOffRequests == old(allNotesOffRequests) && nextEventIndex == old(nextEventIndex) &&
        timer == old(timer) && fastForward == old(fastForward)
      ensures old(playbackTrack) != trackNumber ==>
        allNotesOffRequests == old(allNotesOffRequests) + 1 && nextEventIndex == 0 && timer == Some(0) && fastForward
    {
      if playbackTrack == trackNumber {
        return;
      }
      playbackTrack := trackNumber;
      ResetMidiPlayback();
    }

    /** `setMidiPlaybackOffset`: records the offset and wakes the player at
        once, rewinding only an index past the end of the track; the
        fast-forward flag is left alone. */
    method SetMidiPlaybackOffset(offset: int)
      requires Valid()
      modifies this`playbackOffset, this`nextEventIndex, this`timer
      ensures Valid() && playbackOffset == offset
      ensures playbackTrack >= |midiTracks| ==> nextEventIndex == old(nextEventIndex) && timer == old(timer)
      ensures playbackTrack < |midiTracks| ==>
        timer == Some(0) &&
        nextEventIndex == (if old(nextEventIndex) >= |midiTracks[playbackTrack]| then 0 else old(nextEventIndex))
    {
      playbackOffset := offset;
      if playbackTrack >= |midiTracks| {
        return;
      }
      if nextEventIndex >= |midiTracks[playbackTrack]| {
        nextEventIndex := 0;
      }
      timer := Some(0);
    }

    /** `getMidiPlaybackScheduler`. */
    method GetMidiPlaybackScheduler() returns (enabled: bool, startTime: int, loopOn: bool, loopInterval: int)
      ensures enabled == scheduleEnabled && startTime == schedule && loopOn == loopEnabled && loopInterval == loop
    {
      return scheduleEnabled, schedule, loopEnabled, loop;
    }

    /** `setMidiPlaybackScheduler`: records the schedule and resets. */
    method SetMidiPlaybackScheduler(enabled: bool, startTime: int, loopOn: bool, loopInterval: int)
      requires Valid()
      modifies this`scheduleEnabled, this`schedule, this`loopEnabled, this`loop
      modifies this`allNotesOffRequests, this`nextEventIndex, this`timer, this`fastForward
      ensures Valid()
      ensures scheduleEnabled == enabled && schedule == startTime && loopEnabled == loopOn && loop == loopInterval
      ensures allNotesOffRequests == old(allNotesOffRequests) + 1 && nextEventIndex == 0 && timer == Some(0) && fastForward
    {
      scheduleEnabled, schedule, loopEnabled, loop := enabled, startTime, loopOn, loopInterval;
      ResetMidiPlayback();
    }
  }

  /** In a format 2 file, and in a file whose tempo changes are all in the
      first track, every loaded track's times are the tempo map's integral. */
  lemma LoadedTimesMatch(file: SmfFile, tracks: seq<seq<FileEvent>>)
    requires TracksOk(file, |file.tracks|) && LoadedAs(file, tracks, |file.tracks|)
    requires file.format == 2 || TempoOnlyInFirstTrack(file)
    ensures forall t :: 0 <= t < |file.tracks| ==> TimesMatch(tracks[t], TableAfter(file, t))
  {
    forall t | 0 <= t < |file.tracks|
      ensures TimesMatch(tracks[t], TableAfter(file, t))
    {
      TablesInOrder(file, t);
    }
  }

  /** In a loaded track whose tempo entries come in order, the due times
      never decrease along the track: the player walks the track by index
      and treats an earlier due time as the schedule having moved back. */
  lemma DueNondecreasing(file: SmfFile, tracks: seq<seq<FileEvent>>, t: nat, j: nat, k: nat)
    requires TracksOk(file, |file.tracks|) && LoadedAs(file, tracks, |file.tracks|)
    requires t < |file.tracks| && InOrder(TableBefore(file, t), file.tracks[t])
    requires file.ticksPerBeat > 0 && j <= k < |tracks[t]|
    ensures Due(tracks[t][j]) <= Due(tracks[t][k])
  {
    var events := file.tracks[t];
    assert StoredAs(events, j, tracks[t][j], file.ticksPerBeat);
    assert StoredAs(events, k, tracks[t][k], file.ticksPerBeat);
    PrefixMonotone(events, j + 1, k + 1);
    TableAfterNonNeg(file, t);
    IntegralMonotone(TableAfter(file, t), tracks[t][j].ticksElapsed, tracks[t][k].ticksElapsed);
    DurationMonotone(tracks[t][j].microseconds, tracks[t][k].microseconds);
  }
}
