/** The MIDI dispatch loop of main.go: `processMidi`, which drops stale
    notes, waits out the skill cooldown, sends every admitted message to the
    MIDI output, forwards note-on and note-off to the keystroke worker and
    remembers the last note-on; and the unpacking of a short MIDI-in message
    from the `lParam` of `windowProc`. */
module Dispatch {
  import opened Common

  /** main.go's `midiMessage`. */
  datatype MidiMessage = MidiMessage(time: int, msg: seq<Byte>)

  /** A note-on or after-touch that waited more than `maxNoteDelay` in the
      queue is dropped; other messages never are. */
  predicate IsStale(m: MidiMessage, now: int, maxNoteDelay: int): (stale: bool)
    requires |m.msg| >= 1
    ensures stale ==> m.msg[0] in {0x90, 0xa0}
    ensures now <= m.time + maxNoteDelay ==> !stale
  {
    (m.msg[0] == 0x90 || m.msg[0] == 0xa0) && now - m.time > maxNoteDelay
  }

  /** The inputs on which `processMidi` indexes within the messages. */
  predicate Indexable(m: MidiMessage, last: Option<MidiMessage>) {
    |m.msg| >= 1 && (m.msg[0] == 0x80 && last.Some? ==> |m.msg| >= 2 && |last.value.msg| >= 2)
  }

  /** The message has to wait for the skill cooldown: there is a last
      note-on less than `skillCooldown` ago, and this is a note-on or the
      note-off of that note-on's pitch. */
  predicate MustWait(m: MidiMessage, last: Option<MidiMessage>, now: int, skillCooldown: int): (w: bool)
    requires Indexable(m, last)
    ensures w ==> last.Some? && now < last.value.time + skillCooldown
    ensures m.msg[0] != 0x80 && m.msg[0] != 0x90 ==> !w
  {
    last.Some? &&
    ((m.msg[0] == 0x80 && m.msg[1] == last.value.msg[1]) || m.msg[0] == 0x90) &&
    now - last.value.time < skillCooldown
  }

  /** The clock after the cooldown wait: the wait is
      `last.time + skillCooldown - now`, which is positive whenever it is taken. */
  function AfterCooldown(m: MidiMessage, last: Option<MidiMessage>, now: int, skillCooldown: int): (t: int)
    requires Indexable(m, last)
    ensures t >= now
    ensures MustWait(m, last, now, skillCooldown) ==> t == last.value.time + skillCooldown
    ensures !MustWait(m, last, now, skillCooldown) ==> t == now
  {
    if MustWait(m, last, now, skillCooldown) then Sleep(now, last.value.time + skillCooldown - now) else now
  }

  /** Every time in `times` is at least `gap` after the one before it. */
  ghost predicate SpacedBy(times: seq<int>, gap: int) {
    forall i :: 0 < i < |times| ==> times[i - 1] + gap <= times[i]
  }

  /** An admitted note-on is released no earlier than `skillCooldown` after
      the last one, whatever the clock says when it is dequeued (provided the
      clock does not run backwards). */
  lemma NoteOnSpacing(m: MidiMessage, last: Option<MidiMessage>, now: int, skillCooldown: int)
    requires Indexable(m, last) && m.msg[0] == 0x90 && last.Some?
    requires now >= last.value.time
    ensures AfterCooldown(m, last, now, skillCooldown) >= last.value.time + skillCooldown
  {
  }

  /** The loop state of `processMidi`: the last admitted note-on, the
      messages handed to the MIDI worker (`sendMidiOutMessage`) and to the
      keystroke worker (`produceKeystroke`), and, as a ghost, the release
      times of all admitted note-ons. */
  class Dispatcher {
    const maxNoteDelay: int
    const skillCooldown: int
    var lastNoteOn: Option<MidiMessage>
    var midiOut: seq<MidiMessage>
    var keystrokes: seq<MidiMessage>
    ghost var noteOnTimes: seq<int>

    ghost predicate Valid()
      reads this
    {
      (lastNoteOn.None? <==> noteOnTimes == []) &&
      (lastNoteOn.Some? ==> |lastNoteOn.value.msg| >= 1 && lastNoteOn.value.msg[0] == 0x90 &&
                            lastNoteOn.value.time == noteOnTimes[|noteOnTimes| - 1]) &&
      SpacedBy(noteOnTimes, skillCooldown)
    }

    constructor (maxNoteDelay: int, skillCooldown: int)
      ensures Valid() && this.maxNoteDelay == maxNoteDelay && this.skillCooldown == skillCooldown
      ensures lastNoteOn == None && midiOut == [] && keystrokes == []
    {
      this.maxNoteDelay := maxNoteDelay;
      this.skillCooldown := skillCooldown;
      lastNoteOn := None;
      midiOut := [];
      keystrokes := [];
      noteOnTimes := [];
    }

    /** One turn of the `processMidi` loop for the dequeued `next`, with the
        clock reading `now`; returns the clock after the turn.  The clock
        never runs backwards, so `now` is not before the last note-on. */
    method ProcessMidi(next: MidiMessage, now: int) returns (clock: int)
      requires Valid() && Indexable(next, lastNoteOn)
      requires lastNoteOn.Some? ==> now >= lastNoteOn.value.time
      modifies this`lastNoteOn, this`midiOut, this`keystrokes, this`noteOnTimes
      ensures Valid()
      ensures IsStale(next, now, maxNoteDelay) ==>
        clock == now && lastNoteOn == old(lastNoteOn) && midiOut == old(midiOut) && keystrokes == old(keystrokes)
      ensures !IsStale(next, now, maxNoteDelay) ==>
        clock == AfterCooldown(next, old(lastNoteOn), now, skillCooldown) &&
        midiOut == old(midiOut) + [next] &&
        keystrokes == old(keystrokes) + (if next.msg[0] == 0x80 || next.msg[0] == 0x90 then [next] else []) &&
        lastNoteOn == (if next.msg[0] == 0x90 then Some(MidiMessage(clock, next.msg)) else old(lastNoteOn))
      ensures old(lastNoteOn).Some? && lastNoteOn != old(lastNoteOn) ==>
        lastNoteOn.value.time >= old(lastNoteOn).value.time + skillCooldown
    {
      clock := now;
      if (next.msg[0] == 0x90 || next.msg[0] == 0xa0) && clock - next.time > maxNoteDelay {
        return;
      }
      if lastNoteOn.Some? && ((next.msg[0] == 0x80 && next.msg[1] == lastNoteOn.value.msg[1]) || next.msg[0] == 0x90) && clock - lastNoteOn.value.time < skillCooldown {
        clock := Sleep(clock, lastNoteOn.value.time + skillCooldown - clock);
      }
      midiOut := midiOut + [next];
      if next.msg[0] == 0x80 || next.msg[0] == 0x90 {
        keystrokes := keystrokes + [next];
      }
      if next.msg[0] == 0x90 {
        if lastNoteOn.Some? {
          NoteOnSpacing(next, lastNoteOn, now, skillCooldown);
        }
        lastNoteOn := Some(MidiMessage(clock, next.msg));
        noteOnTimes := noteOnTimes + [clock];
      }
    }
  }

  /** The largest `uintptr` plus one. */
  const UintptrRange: int := 0x1_0000_0000_0000_0000

  /** The three bytes `windowProc` takes from `lParam` for a short MIDI-in
      message, `byte(lParam)`, `byte(lParam >> 8)` and `byte(lParam >> 16)`:
      bits 0-7, 8-15 and 16-23. */
  function UnpackShortMessage(lParam: int): (msg: seq<Byte>)
    requires 0 <= lParam < UintptrRange
    ensures |msg| == 3
  {
    [lParam % 0x100, lParam / 0x100 % 0x100, lParam / 0x1_0000 % 0x100]
  }

  /** A short message packed low byte first, status in bits 0-7 and the two
      data bytes above it, is unpacked into the same three bytes, whatever
      the driver leaves in the bits above 23. */
  lemma {:induction false} UnpackPacked(b0: Byte, b1: Byte, b2: Byte, high: int)
    requires 0 <= high < 0x100_0000_0000
    ensures UnpackShortMessage(b0 + 0x100 * b1 + 0x1_0000 * b2 + 0x100_0000 * high) == [b0, b1, b2]
  {
    var l := b0 + 0x100 * b1 + 0x1_0000 * b2 + 0x100_0000 * high;
    assert l == b0 + 0x100 * (b1 + 0x100 * (b2 + 0x100 * high));
    assert l / 0x100 == b1 + 0x100 * (b2 + 0x100 * high);
    assert l / 0x1_0000 == (b1 + 0x100 * (b2 + 0x100 * high)) / 0x100;
  }
}
