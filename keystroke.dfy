/** The keystroke state machine (keystroke.go): the table of held keys, the
    three modifiers, the cooldown clocks and the idle timer, driven by
    note-off, note-on and all-notes-off messages.

    Time is an integer count of nanoseconds; `None` is Go's zero time.  A
    sleep advances the clock by exactly its duration.  The idle timer is
    its pending delay: `Some(d)` after `Reset(d)`, `None` after `Stop()`.
    `SendInput` appends its batch to `sent`. */
module Keystroke {
  import opened Common
  import opened Preset

  const KeyCount: int := 256

  /** The virtual-key codes of the modifiers. */
  const VkShift: Byte := 0x10
  const VkControl: Byte := 0x11
  const VkMenu: Byte := 0x12

  /** The state of one key (the `keystroke` struct). */
  datatype Key = Key(pressed: bool, midiNote: Byte, lastChange: Option<int>, lastPress: Option<int>, lastRelease: Option<int>)

  /** The Go zero value of a key. */
  const Idle: Key := Key(false, 0, None, None, None)

  /** One keyboard input given to `SendInput`: the virtual key whose scan
      code is sent, and whether it is a key-up. */
  datatype Input = Input(virtualKey: Byte, keyUp: bool)

  /** The mutable part of the worker's state at one moment. */
  datatype Snapshot = Snapshot(
    keys: seq<Key>, count: int, ctrl: Key, alt: Key, shift: Key, lastNote: Byte,
    lastNoteTime: Option<int>, lastModifierTime: Option<int>, timer: Option<int>, sent: seq<seq<Input>>)

  /** The number of held keys in a table. */
  function HeldCount(keys: seq<Key>): (n: nat)
    ensures n <= |keys|
  {
    if keys == [] then 0
    else HeldCount(keys[..|keys| - 1]) + (if keys[|keys| - 1].pressed then 1 else 0)
  }

  /** The key-up inputs for every held key, in increasing key order. */
  function Releases(keys: seq<Key>): seq<Input>
    requires |keys| <= KeyCount
  {
    if keys == [] then []
    else Releases(keys[..|keys| - 1]) + (if keys[|keys| - 1].pressed then [Input(|keys| - 1, true)] else [])
  }

  /** All inputs of a sequence of `SendInput` batches, in order. */
  function Flatten(batches: seq<seq<Input>>): seq<Input> {
    if batches == [] then [] else Flatten(batches[..|batches| - 1]) + batches[|batches| - 1]
  }

  /** A modifier after a transition to `down`, at time `now`. */
  function Toggle(k: Key, down: bool, now: int): (k': Key)
    ensures k'.pressed == down && k'.lastChange == Some(now) && k'.midiNote == k.midiNote
    ensures down ==> k'.lastPress == Some(now) && k'.lastRelease == k.lastRelease
    ensures !down ==> k'.lastRelease == Some(now) && k'.lastPress == k.lastPress
  {
    if down then k.(pressed := true, lastChange := Some(now), lastPress := Some(now))
    else k.(pressed := false, lastChange := Some(now), lastRelease := Some(now))
  }

  /** A modifier brought to the state `down` wants, changed only if needed. */
  function Sync(k: Key, down: bool, now: int): Key {
    if k.pressed != down then Toggle(k, down, now) else k
  }

  /** The transitions that bring Ctrl, Alt and Shift, in this order, to the
      state a binding asks for. */
  function ModifierInputs(ctrl: Key, alt: Key, shift: Key, b: Binding): seq<Input> {
    (if ctrl.pressed != b.ctrl then [Input(VkControl, !b.ctrl)] else []) +
    (if alt.pressed != b.alt then [Input(VkMenu, !b.alt)] else []) +
    (if shift.pressed != b.shift then [Input(VkShift, !b.shift)] else [])
  }

  /** A key of the table released by all-notes-off at time `now`. */
  function Lift(k: Key, now: int): Key {
    if k.pressed then k.(pressed := false, lastChange := Some(now), lastRelease := Some(now)) else k
  }

  /** When the press of a note-on happens.  The first component is the
      moment the caller is released (`close(done)`), after the skill
      cooldown or, in playback, after the modifier cooldown; the second is
      the press itself, after the realtime modifier cooldown.  The
      `lastModifierTime` given is the one after the modifier transitions. */
  function PressTime(realtime: bool, lastNoteTime: Option<int>, lastModifierTime: Option<int>, now: int,
                     skillCooldown: int, modifierCooldown: int): (p: (int, int))
    ensures now <= p.0 <= p.1
    ensures !realtime ==> p.1 == p.0
  {
    var t1 :=
      if lastNoteTime.Some? && now - lastNoteTime.value < skillCooldown then Sleep(now, lastNoteTime.value + skillCooldown - now)
      else if !realtime then Sleep(now, modifierCooldown)
      else now;
    var t2 :=
      if realtime && lastModifierTime.Some? && t1 - lastModifierTime.value < modifierCooldown then
        Sleep(t1, lastModifierTime.value + modifierCooldown - t1)
      else t1;
    (t1, t2)
  }

  /** Whether the inputs pending before a press go out on their own, ahead
      of a modifier-cooldown wait: in playback when no skill cooldown
      applies, and in realtime when the modifier cooldown still runs after
      the skill wait.  Otherwise they go out with the key-down. */
  function FlushesEarly(realtime: bool, lastNoteTime: Option<int>, lastModifierTime: Option<int>, now: int,
                        skillCooldown: int, modifierCooldown: int): (early: bool)
    ensures var p := PressTime(realtime, lastNoteTime, lastModifierTime, now, skillCooldown, modifierCooldown);
      (realtime ==> (early <==> p.0 < p.1)) &&
      (!realtime && early ==> p.0 == Sleep(now, modifierCooldown))
  {
    var p := PressTime(realtime, lastNoteTime, lastModifierTime, now, skillCooldown, modifierCooldown);
    if realtime then lastModifierTime.Some? && p.0 - lastModifierTime.value < modifierCooldown
    else !(lastNoteTime.Some? && now - lastNoteTime.value < skillCooldown)
  }

  /** The `SendInput` call for pending inputs: none when nothing is pending. */
  function Batch(inputs: seq<Input>): seq<seq<Input>> {
    if inputs == [] then [] else [inputs]
  }

  /** The batches a press of `vk` sends: the pending inputs on their own
      first when they go out early, else together with the key-down. */
  function PressBatches(pending: seq<Input>, vk: Byte, early: bool): (bs: seq<seq<Input>>)
    ensures Flatten(bs) == pending + [Input(vk, false)]
    ensures forall j :: 0 <= j < |bs| ==> bs[j] != []
    ensures |bs| == (if early && pending != [] then 2 else 1)
  {
    var down := [Input(vk, false)];
    if early then
      FlattenAppend(Batch(pending), down);
      assert Flatten(Batch(pending)) == pending by {
        if pending != [] { FlattenAppend([], pending); assert [] + [pending] == [pending]; }
      }
      Batch(pending) + [down]
    else
      FlattenAppend([], pending + down);
      assert [] + [pending + down] == [pending + down];
      [pending + down]
  }

  lemma {:induction false} HeldCountUpdate(keys: seq<Key>, i: int, k: Key)
    requires 0 <= i < |keys|
    ensures HeldCount(keys[i := k]) == HeldCount(keys) - (if keys[i].pressed then 1 else 0) + (if k.pressed then 1 else 0)
    decreases |keys|
  {
    var n := |keys|;
    if i == n - 1 {
      assert keys[i := k][..n - 1] == keys[..n - 1];
    } else {
      assert keys[i := k][..n - 1] == keys[..n - 1][i := k];
      HeldCountUpdate(keys[..n - 1], i, k);
    }
  }

  /** No key is held exactly when the count is 0, and then all-notes-off has
      nothing to release; otherwise it releases one key per held key. */
  lemma {:induction false} ReleasesOfHeld(keys: seq<Key>)
    requires |keys| <= KeyCount
    ensures |Releases(keys)| == HeldCount(keys)
    ensures HeldCount(keys) == 0 <==> forall i :: 0 <= i < |keys| ==> !keys[i].pressed
    ensures forall j :: 0 <= j < |Releases(keys)| ==> Releases(keys)[j].keyUp
    decreases |keys|
  {
    if keys != [] {
      var n := |keys|;
      ReleasesOfHeld(keys[..n - 1]);
      assert forall i :: 0 <= i < n - 1 ==> keys[..n - 1][i] == keys[i];
    }
  }

  lemma FlattenAppend(batches: seq<seq<Input>>, b: seq<Input>)
    ensures Flatten(batches + [b]) == Flatten(batches) + b
  {
    assert (batches + [b])[..|batches|] == batches;
  }

  /** The modifier transitions are exactly one per modifier in the wrong
      state; each presses a modifier the binding wants and releases one it
      does not. */
  lemma ModifierInputsExact(ctrl: Key, alt: Key, shift: Key, b: Binding)
    ensures var m := ModifierInputs(ctrl, alt, shift, b);
      |m| == (if ctrl.pressed != b.ctrl then 1 else 0) + (if alt.pressed != b.alt then 1 else 0) + (if shift.pressed != b.shift then 1 else 0) &&
      (m == [] <==> ctrl.pressed == b.ctrl && alt.pressed == b.alt && shift.pressed == b.shift) &&
      (forall j :: 0 <= j < |m| ==>
        (m[j].virtualKey == VkControl && m[j].keyUp == !b.ctrl) ||
        (m[j].virtualKey == VkMenu && m[j].keyUp == !b.alt) ||
        (m[j].virtualKey == VkShift && m[j].keyUp == !b.shift))
  {
  }

  /** The press never precedes the caller's release, the clock, or the end
      of the skill cooldown of the previous note; in realtime it does not
      precede the end of the modifier cooldown either. */
  lemma PressTimeBounds(realtime: bool, lastNoteTime: Option<int>, lastModifierTime: Option<int>, now: int,
                        skillCooldown: int, modifierCooldown: int)
    ensures var (done, press) := PressTime(realtime, lastNoteTime, lastModifierTime, now, skillCooldown, modifierCooldown);
      now <= done <= press &&
      (lastNoteTime.Some? ==> press >= lastNoteTime.value + skillCooldown) &&
      (realtime && lastModifierTime.Some? ==> press >= lastModifierTime.value + modifierCooldown)
  {
  }

  /** In realtime the press happens at the earliest moment that respects
      both cooldowns. */
  lemma PressTimeRealtimeEarliest(lastNoteTime: Option<int>, lastModifierTime: Option<int>, now: int,
                                  skillCooldown: int, modifierCooldown: int)
    ensures var skillReady := if lastNoteTime.Some? then lastNoteTime.value + skillCooldown else now;
      var modifierReady := if lastModifierTime.Some? then lastModifierTime.value + modifierCooldown else now;
      PressTime(true, lastNoteTime, lastModifierTime, now, skillCooldown, modifierCooldown).1 == Max(Max(now, skillReady), modifierReady)
  {
  }

  /** In playback the press waits either for the skill cooldown or, when
      that does not apply, for a full modifier cooldown, and the caller is
      released at the press. */
  lemma PressTimePlayback(lastNoteTime: Option<int>, lastModifierTime: Option<int>, now: int,
                          skillCooldown: int, modifierCooldown: int)
    ensures var (done, press) := PressTime(false, lastNoteTime, lastModifierTime, now, skillCooldown, modifierCooldown);
      done == press &&
      press == (if lastNoteTime.Some? && now < lastNoteTime.value + skillCooldown then lastNoteTime.value + skillCooldown
                else now + Max(modifierCooldown, 0))
  {
  }

  /** The state of the keystroke worker (`keystrokeStatus`) with the
      settings it reads. */
  class KeystrokeStatus {
    const keybinding: seq<Binding>
    const idleDuration: int
    const skillCooldown: int
    const modifierCooldown: int
    const pressedKeys: array<Key>
    var pressedKeysCount: int
    var ctrl: Key
    var alt: Key
    var shift: Key
    var lastNote: Byte
    var lastNoteTime: Option<int>
    var lastModifierTime: Option<int>
    var clearModifiersTimer: Option<int>
    var sent: seq<seq<Input>>

    /** The count matches the table, and `SendInput` is never given an
        empty batch. */
    ghost predicate Valid()
      reads this, pressedKeys
    {
      pressedKeys.Length == KeyCount && |keybinding| == NoteCount &&
      pressedKeysCount == HeldCount(pressedKeys[..]) &&
      forall j :: 0 <= j < |sent| ==> |sent[j]| > 0
    }

    ghost function State(): Snapshot
      reads this, pressedKeys
    {
      Snapshot(pressedKeys[..], pressedKeysCount, ctrl, alt, shift, lastNote, lastNoteTime, lastModifierTime,
               clearModifiersTimer, sent)
    }

    /** What a note-off leaves behind, starting from `s0`: the bound key is
        released (its release stamped) only when it is held for this very
        note, with one key-up sent for it; the idle timer is re-armed once a
        mapped note leaves no key held; nothing else changes. */
    ghost predicate NoteOffDone(s0: Snapshot, note: Byte, now: int)
      requires |keybinding| == NoteCount && note < NoteCount && |s0.keys| == KeyCount
      reads this, pressedKeys
    {
      var vk := keybinding[note].virtualKeyCode;
      var k := s0.keys[vk];
      var hit := vk != 0 && k.pressed && k.midiNote == note;
      pressedKeys[..] == (if hit then s0.keys[vk := k.(pressed := false, lastRelease := Some(now))] else s0.keys) &&
      pressedKeysCount == s0.count - (if hit then 1 else 0) &&
      sent == s0.sent + (if hit then [[Input(vk, true)]] else []) &&
      clearModifiersTimer == (if vk != 0 && pressedKeysCount == 0 then Some(idleDuration) else s0.timer) &&
      ctrl == s0.ctrl && alt == s0.alt && shift == s0.shift && lastNote == s0.lastNote &&
      lastNoteTime == s0.lastNoteTime && lastModifierTime == s0.lastModifierTime
    }

    /** What a note-on leaves behind, starting from `s0`, with the caller
        released at `doneAt`: the idle timer stopped; an unmapped note
        changes nothing else; a mapped one brings the modifiers to the
        binding, records the note at the press time `PressTime` gives, and
        leaves its key held for the note, after the key-up (if it was held),
        the modifier transitions and the key-down, sent in this order. */
    ghost predicate NoteOnDone(s0: Snapshot, note: Byte, realtime: bool, now: int, doneAt: int)
      requires |keybinding| == NoteCount && note < NoteCount && |s0.keys| == KeyCount
      reads this, pressedKeys
    {
      var b := keybinding[note];
      var vk := b.virtualKeyCode;
      var k := s0.keys[vk];
      clearModifiersTimer.None? &&
      if vk == 0 then
        doneAt == now && pressedKeys[..] == s0.keys && pressedKeysCount == s0.count &&
        ctrl == s0.ctrl && alt == s0.alt && shift == s0.shift && lastNote == s0.lastNote &&
        lastNoteTime == s0.lastNoteTime && lastModifierTime == s0.lastModifierTime && sent == s0.sent
      else
        var mods := ModifierInputs(s0.ctrl, s0.alt, s0.shift, b);
        ctrl == Sync(s0.ctrl, b.ctrl, now) && alt == Sync(s0.alt, b.alt, now) && shift == Sync(s0.shift, b.shift, now) &&
        lastModifierTime == (if mods != [] then Some(now) else s0.lastModifierTime) &&
        lastNoteTime.Some? && lastNote == note &&
        (doneAt, lastNoteTime.value) == PressTime(realtime, s0.lastNoteTime, lastModifierTime, now, skillCooldown, modifierCooldown) &&
        pressedKeys[..] == s0.keys[vk := Key(true, note, lastNoteTime, lastNoteTime, if k.pressed then Some(now) else k.lastRelease)] &&
        pressedKeysCount == s0.count + (if k.pressed then 0 else 1) &&
        sent == s0.sent + PressBatches((if k.pressed then [Input(vk, true)] else []) + mods, vk,
                                       FlushesEarly(realtime, s0.lastNoteTime, lastModifierTime, now, skillCooldown, modifierCooldown))
    }

    /** What all-notes-off leaves behind, starting from `s0`: every held key
        released and stamped, none held, one batch of their key-ups (if
        any), the idle timer set to fire at once, and nothing else changed. */
    ghost predicate AllNotesOffDone(s0: Snapshot, now: int)
      requires |s0.keys| == KeyCount
      reads this, pressedKeys
    {
      var r := Releases(s0.keys);
      pressedKeys.Length == KeyCount &&
      (forall i :: 0 <= i < KeyCount ==> pressedKeys[i] == Lift(s0.keys[i], now)) &&
      pressedKeysCount == 0 &&
      sent == s0.sent + (if r == [] then [] else [r]) &&
      clearModifiersTimer == Some(0) &&
      ctrl == s0.ctrl && alt == s0.alt && shift == s0.shift && lastNote == s0.lastNote &&
      lastNoteTime == s0.lastNoteTime && lastModifierTime == s0.lastModifierTime
    }

    /** The state `processKeystrokes` starts from. */
    constructor (s: Settings)
      requires s.Valid()
      ensures Valid() && fresh(pressedKeys)
      ensures keybinding == s.keybinding && idleDuration == s.idleDuration
      ensures skillCooldown == s.skillCooldown && modifierCooldown == s.modifierCooldown
      ensures forall i :: 0 <= i < KeyCount ==> pressedKeys[i] == Idle
      ensures pressedKeysCount == 0 && ctrl == Idle && alt == Idle && shift == Idle
      ensures lastNote == 0xff && lastNoteTime.None? && lastModifierTime.None?
      ensures clearModifiersTimer == Some(s.idleDuration) && sent == []
    {
      keybinding := s.keybinding;
      idleDuration := s.idleDuration;
      skillCooldown := s.skillCooldown;
      modifierCooldown := s.modifierCooldown;
      pressedKeys := new Key[KeyCount](_ => Idle);
      pressedKeysCount := 0;
      ctrl, alt, shift := Idle, Idle, Idle;
      lastNote := 0xff;
      lastNoteTime, lastModifierTime := None, None;
      clearModifiersTimer := Some(s.idleDuration);
      sent := [];
      new;
      ReleasesOfHeld(pressedKeys[..]);
    }

    /** The consistency check of `printPressedKeys`, which panics when the
        count of held keys differs from `pressedKeysCount`. */
    method CheckPressedKeys() returns (ok: bool)
      requires pressedKeys.Length == KeyCount
      ensures ok <==> pressedKeysCount == HeldCount(pressedKeys[..])
    {
      var count := 0;
      var i := 0;
      while i < KeyCount
        invariant 0 <= i <= KeyCount
        invariant count == HeldCount(pressedKeys[..i])
      {
        assert pressedKeys[..i + 1][..i] == pressedKeys[..i];
        if pressedKeys[i].pressed {
          count := count + 1;
        }
        i := i + 1;
      }
      assert pressedKeys[..KeyCount] == pressedKeys[..];
      ok := count == pressedKeysCount;
    }

    /** `SendInput` followed by `printPressedKeys`; the check never fails. */
    method SendInput(batch: seq<Input>)
      requires Valid() && |batch| > 0
      modifies this`sent
      ensures sent == old(sent) + [batch]
      ensures Valid()
    {
      sent := sent + [batch];
      var ok := CheckPressedKeys();
      assert ok;
    }

    /** Marks a table key released (and counts it), the way the note-off
        branch does (`LastRelease` only) or the note-on one does (also
        `LastChange`). */
    method ReleaseKey(vk: Byte, now: int, stampChange: bool)
      requires Valid() && pressedKeys[vk].pressed
      modifies pressedKeys, this`pressedKeysCount
      ensures pressedKeys[..] == old(pressedKeys[..])[vk := old(pressedKeys[vk]).(pressed := false, lastRelease := Some(now),
                                   lastChange := if stampChange then Some(now) else old(pressedKeys[vk]).lastChange)]
      ensures pressedKeysCount == old(pressedKeysCount) - 1
      ensures Valid()
    {
      var k := pressedKeys[vk];
      var k' := k.(pressed := false, lastRelease := Some(now), lastChange := if stampChange then Some(now) else k.lastChange);
      HeldCountUpdate(pressedKeys[..], vk, k');
      pressedKeys[vk] := k';
      pressedKeysCount := pressedKeysCount - 1;
    }

    /** Note-off: releases the bound key only when it is held for this very
        note, and re-arms the idle timer once no key is held. */
    method NoteOff(note: Byte, now: int)
      requires Valid() && note < NoteCount
      modifies pressedKeys, this`pressedKeysCount, this`clearModifiersTimer, this`sent
      ensures Valid()
      ensures NoteOffDone(old(State()), note, now)
    {
      var vk := keybinding[note].virtualKeyCode;
      if vk == 0 {
        return;
      }
      var inputs: seq<Input> := [];
      if pressedKeys[vk].pressed && pressedKeys[vk].midiNote == note {
        inputs := [Input(vk, true)];
        ReleaseKey(vk, now, false);
      }
      if pressedKeysCount == 0 {
        clearModifiersTimer := Some(idleDuration);
      }
      if |inputs| != 0 {
        SendInput(inputs);
      }
    }

    /** Note-on: stops the idle timer; for a mapped note releases the bound
        key if it is held, brings the modifiers to the binding, waits for
        the cooldowns and presses the key for this note.  `doneAt` is when
        the caller is released. */
    method NoteOn(note: Byte, realtime: bool, now: int) returns (doneAt: int)
      requires Valid() && note < NoteCount
      modifies pressedKeys, this
      ensures Valid()
      ensures NoteOnDone(old(State()), note, realtime, now, doneAt)
    {
      clearModifiersTimer := None;
      var b := keybinding[note];
      if b.virtualKeyCode == 0 {
        return now;
      }
      doneAt := PressMapped(b, note, realtime, now);
    }

    /** A note-on whose binding names a key. */
    method PressMapped(b: Binding, note: Byte, realtime: bool, now: int) returns (doneAt: int)
      requires Valid() && b.virtualKeyCode != 0
      modifies pressedKeys, this`pressedKeysCount, this`ctrl, this`alt, this`shift, this`lastModifierTime,
               this`lastNote, this`lastNoteTime, this`sent
      ensures Valid()
      ensures ctrl == Sync(old(ctrl), b.ctrl, now) && alt == Sync(old(alt), b.alt, now) && shift == Sync(old(shift), b.shift, now)
      ensures lastModifierTime == (if ModifierInputs(old(ctrl), old(alt), old(shift), b) != [] then Some(now) else old(lastModifierTime))
      ensures lastNoteTime.Some? && lastNote == note
      ensures (doneAt, lastNoteTime.value) == PressTime(realtime, old(lastNoteTime), lastModifierTime, now, skillCooldown, modifierCooldown)
      ensures var vk := b.virtualKeyCode; var k := old(pressedKeys[vk]);
        pressedKeys[..] == old(pressedKeys[..])[vk := Key(true, note, lastNoteTime, lastNoteTime, if k.pressed then Some(now) else k.lastRelease)] &&
        pressedKeysCount == old(pressedKeysCount) + (if k.pressed then 0 else 1)
      ensures var vk := b.virtualKeyCode; var k := old(pressedKeys[vk]);
        sent == old(sent) + PressBatches((if k.pressed then [Input(vk, true)] else []) + ModifierInputs(old(ctrl), old(alt), old(shift), b), vk,
                                         FlushesEarly(realtime, old(lastNoteTime), lastModifierTime, now, skillCooldown, modifierCooldown))
    {
      var inputs := ReleaseAndSyncModifiers(b, now);
      doneAt := AwaitAndPress(inputs, b.virtualKeyCode, note, realtime, now);
    }

    /** The rest of a mapped note-on once its key is released: the
        cooldowns, then the press of the key with the inputs still pending. */
    method AwaitAndPress(inputs: seq<Input>, vk: Byte, note: Byte, realtime: bool, now: int) returns (doneAt: int)
      requires Valid() && !pressedKeys[vk].pressed
      modifies pressedKeys, this`pressedKeysCount, this`lastNote, this`lastNoteTime, this`sent
      ensures Valid()
      ensures lastNoteTime.Some? && lastNote == note
      ensures (doneAt, lastNoteTime.value) == PressTime(realtime, old(lastNoteTime), lastModifierTime, now, skillCooldown, modifierCooldown)
      ensures pressedKeys[..] == old(pressedKeys[..])[vk := Key(true, note, lastNoteTime, lastNoteTime, old(pressedKeys[vk]).lastRelease)]
      ensures pressedKeysCount == old(pressedKeysCount) + 1
      ensures sent == old(sent) + PressBatches(inputs, vk, FlushesEarly(realtime, old(lastNoteTime), lastModifierTime, now, skillCooldown, modifierCooldown))
    {
      var rest, t;
      ghost var early := FlushesEarly(realtime, lastNoteTime, lastModifierTime, now, skillCooldown, modifierCooldown);
      rest, doneAt, t := AwaitCooldowns(inputs, note, realtime, now);
      FinishPress(vk, note, t, rest);
      if early {
        assert rest + [Input(vk, false)] == [Input(vk, false)];
        assert sent == old(sent) + (Batch(inputs) + [[Input(vk, false)]]);
      }
    }

    /** The end of a mapped note-on: records the note, holds its key from
        `t` and sends the pending inputs with the key press. */
    method FinishPress(vk: Byte, note: Byte, t: int, inputs: seq<Input>)
      requires Valid() && !pressedKeys[vk].pressed
      modifies pressedKeys, this`pressedKeysCount, this`lastNote, this`lastNoteTime, this`sent
      ensures Valid()
      ensures lastNote == note && lastNoteTime == Some(t)
      ensures pressedKeys[..] == old(pressedKeys[..])[vk := Key(true, note, Some(t), Some(t), old(pressedKeys[vk]).lastRelease)]
      ensures pressedKeysCount == old(pressedKeysCount) + 1
      ensures sent == old(sent) + [inputs + [Input(vk, false)]]
    {
      lastNote := note;
      lastNoteTime := Some(t);
      PressKey(vk, note, t);
      SendInput(inputs + [Input(vk, false)]);
    }

    /** Marks a released table key held for `note` from time `t`. */
    method PressKey(vk: Byte, note: Byte, t: int)
      requires Valid() && !pressedKeys[vk].pressed
      modifies pressedKeys, this`pressedKeysCount
      ensures pressedKeys[..] == old(pressedKeys[..])[vk := Key(true, note, Some(t), Some(t), old(pressedKeys[vk]).lastRelease)]
      ensures pressedKeysCount == old(pressedKeysCount) + 1
      ensures Valid()
    {
      var k := Key(true, note, Some(t), Some(t), pressedKeys[vk].lastRelease);
      HeldCountUpdate(pressedKeys[..], vk, k);
      pressedKeys[vk] := k;
      pressedKeysCount := pressedKeysCount + 1;
    }

    /** The first part of a mapped note-on: the release of the bound key if
        it is held, then the modifier transitions.  Returns those inputs. */
    method ReleaseAndSyncModifiers(b: Binding, now: int) returns (inputs: seq<Input>)
      requires Valid() && b.virtualKeyCode != 0
      modifies pressedKeys, this`pressedKeysCount, this`ctrl, this`alt, this`shift, this`lastModifierTime
      ensures Valid()
      ensures var vk := b.virtualKeyCode;
        var k := old(pressedKeys[vk]);
        var mods := ModifierInputs(old(ctrl), old(alt), old(shift), b);
        inputs == (if k.pressed then [Input(vk, true)] else []) + mods &&
        pressedKeys[..] == (if k.pressed then old(pressedKeys[..])[vk := k.(pressed := false, lastChange := Some(now), lastRelease := Some(now))]
                            else old(pressedKeys[..])) &&
        pressedKeysCount == old(pressedKeysCount) - (if k.pressed then 1 else 0) &&
        ctrl == Sync(old(ctrl), b.ctrl, now) && alt == Sync(old(alt), b.alt, now) && shift == Sync(old(shift), b.shift, now) &&
        lastModifierTime == (if mods != [] then Some(now) else old(lastModifierTime))
    {
      var vk := b.virtualKeyCode;
      inputs := [];
      if pressedKeys[vk].pressed {
        inputs := [Input(vk, true)];
        ReleaseKey(vk, now, true);
      }
      var mods := SyncModifiers(b, now);
      inputs := inputs + mods;
    }

    /** The modifier transitions of a note-on: Ctrl, Alt and Shift in this
        order are brought to the binding's state, stamping each change. */
    method SyncModifiers(b: Binding, now: int) returns (mods: seq<Input>)
      requires Valid()
      modifies this`ctrl, this`alt, this`shift, this`lastModifierTime
      ensures Valid()
      ensures mods == ModifierInputs(old(ctrl), old(alt), old(shift), b)
      ensures ctrl == Sync(old(ctrl), b.ctrl, now) && alt == Sync(old(alt), b.alt, now) && shift == Sync(old(shift), b.shift, now)
      ensures lastModifierTime == (if mods != [] then Some(now) else old(lastModifierTime))
    {
      mods := ModifierInputs(ctrl, alt, shift, b);
      if ctrl.pressed != b.ctrl {
        ctrl := Toggle(ctrl, b.ctrl, now);
        lastModifierTime := Some(now);
      }
      if alt.pressed != b.alt {
        alt := Toggle(alt, b.alt, now);
        lastModifierTime := Some(now);
      }
      if shift.pressed != b.shift {
        shift := Toggle(shift, b.shift, now);
        lastModifierTime := Some(now);
      }
    }

    /** The cooldowns of a note-on: the skill cooldown, or in playback the
        modifier cooldown, then in realtime the rest of the modifier
        cooldown.  Inputs still pending are sent before a modifier
        cooldown, as `FlushesEarly` says; `rest` is what is still pending
        afterwards. */
    method AwaitCooldowns(inputs: seq<Input>, note: Byte, realtime: bool, now: int) returns (rest: seq<Input>, doneAt: int, t: int)
      requires Valid()
      modifies this`sent
      ensures Valid()
      ensures (doneAt, t) == PressTime(realtime, lastNoteTime, lastModifierTime, now, skillCooldown, modifierCooldown)
      ensures var early := FlushesEarly(realtime, lastNoteTime, lastModifierTime, now, skillCooldown, modifierCooldown);
        (early ==> rest == [] && sent == old(sent) + Batch(inputs)) &&
        (!early ==> rest == inputs && sent == old(sent))
    {
      rest := inputs;
      t := now;
      // The source also tests for a note-off of the last note here, which
      // cannot be the case inside the note-on branch.
      var status := 0x90;
      if lastNoteTime.Some? && ((status == 0x80 && note == lastNote) || status == 0x90) && t - lastNoteTime.value < skillCooldown {
        t := Sleep(t, lastNoteTime.value + skillCooldown - t);
      } else if !realtime {
        rest := Flush(rest);
        t := Sleep(t, modifierCooldown);
      }
      doneAt := t;
      if realtime && lastModifierTime.Some? && t - lastModifierTime.value < modifierCooldown {
        rest := Flush(rest);
        t := Sleep(t, lastModifierTime.value + modifierCooldown - t);
      }
    }

    /** Sends the pending inputs, if there are any, before a wait. */
    method Flush(pending: seq<Input>) returns (rest: seq<Input>)
      requires Valid()
      modifies this`sent
      ensures Valid() && rest == []
      ensures sent == old(sent) + Batch(pending)
    {
      if |pending| != 0 {
        SendInput(pending);
      }
      rest := [];
    }

    /** All-notes-off (controller 0x7b): releases every held key in key
        order and arms the idle timer to fire at once. */
    method AllNotesOff(now: int)
      requires Valid()
      modifies pressedKeys, this`pressedKeysCount, this`clearModifiersTimer, this`sent
      ensures Valid()
      ensures AllNotesOffDone(old(State()), now)
    {
      ghost var keys0 := pressedKeys[..];
      var inputs: seq<Input> := [];
      var i := 0;
      while i < KeyCount
        invariant 0 <= i <= KeyCount
        invariant forall j :: 0 <= j < i ==> pressedKeys[j] == Lift(keys0[j], now)
        invariant forall j :: i <= j < KeyCount ==> pressedKeys[j] == keys0[j]
        invariant inputs == Releases(keys0[..i])
        invariant pressedKeysCount == HeldCount(pressedKeys[..])
        invariant sent == old(sent)
      {
        assert keys0[..i + 1][..i] == keys0[..i];
        if pressedKeys[i].pressed {
          inputs := inputs + [Input(i, true)];
          var k := pressedKeys[i];
          HeldCountUpdate(pressedKeys[..], i, Lift(k, now));
          pressedKeys[i] := Lift(k, now);
          pressedKeysCount := pressedKeysCount - 1;
        }
        i := i + 1;
      }
      assert keys0[..KeyCount] == keys0;
      ReleasesOfHeld(pressedKeys[..]);
      clearModifiersTimer := Some(0);
      if |inputs| != 0 {
        SendInput(inputs);
      }
    }

    /** `produceKeystroke`: dispatches on the status byte; every other
        message, and a control change other than all-notes-off, changes
        nothing.  `doneAt` is when the caller is released. */
    method ProduceKeystroke(message: seq<Byte>, realtime: bool, now: int) returns (doneAt: int)
      requires Valid() && |message| >= 1
      requires message[0] == 0x80 || message[0] == 0x90 ==> |message| >= 2 && message[1] < NoteCount
      modifies pressedKeys, this
      ensures Valid()
      ensures message[0] != 0x90 ==> doneAt == now
      ensures message[0] == 0x80 ==> NoteOffDone(old(State()), message[1], now)
      ensures message[0] == 0x90 ==> NoteOnDone(old(State()), message[1], realtime, now, doneAt) && doneAt >= now
      ensures message[0] == 0xb0 && |message| > 1 && message[1] == 0x7b ==> AllNotesOffDone(old(State()), now)
      ensures !(message[0] == 0x80 || message[0] == 0x90 || (message[0] == 0xb0 && |message| > 1 && message[1] == 0x7b)) ==>
        State() == old(State())
    {
      doneAt := now;
      if message[0] == 0x80 {
        NoteOff(message[1], now);
      } else if message[0] == 0x90 {
        doneAt := NoteOn(message[1], realtime, now);
        PressTimeBounds(realtime, old(lastNoteTime), lastModifierTime, now, skillCooldown, modifierCooldown);
      } else if message[0] == 0xb0 {
        if |message| > 1 && message[1] == 0x7b {
          AllNotesOff(now);
        }
      }
    }

    /** `clearModifiers`: releases exactly the modifiers that are down, in
        the order Ctrl, Alt, Shift, and leaves all three up.  The table of
        keys is outside its frame. */
    method ClearModifiers(now: int)
      requires Valid()
      modifies this`ctrl, this`alt, this`shift, this`lastModifierTime, this`sent
      ensures Valid()
      ensures !ctrl.pressed && !alt.pressed && !shift.pressed
      ensures ctrl == Sync(old(ctrl), false, now) && alt == Sync(old(alt), false, now) && shift == Sync(old(shift), false, now)
      ensures var r := ModifierInputs(old(ctrl), old(alt), old(shift), Unbound);
        sent == old(sent) + (if r == [] then [] else [r]) &&
        lastModifierTime == (if r == [] then old(lastModifierTime) else Some(now))
    {
      var inputs := ModifierInputs(ctrl, alt, shift, Unbound);
      if ctrl.pressed {
        ctrl := Toggle(ctrl, false, now);
        lastModifierTime := Some(now);
      }
      if alt.pressed {
        alt := Toggle(alt, false, now);
        lastModifierTime := Some(now);
      }
      if shift.pressed {
        shift := Toggle(shift, false, now);
        lastModifierTime := Some(now);
      }
      if |inputs| != 0 {
        SendInput(inputs);
      }
    }
  }
}
