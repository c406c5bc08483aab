/** The MIDI input normaliser and the MIDI output encoders
    (midi-realtime.go): `addMidiInEvent`, `onMidiInEvent`, the bank, patch
    and transpose setters, and the short-message word of
    `sendMidiOutMessage`. */
module Realtime {
  import opened Common
  import opened Preset

  /** A `midiRealtimeEvent`; `time` is `None` for Go's zero time. */
  datatype RealtimeEvent = RealtimeEvent(time: Option<int>, message: seq<Byte>, realtime: bool, alreadyTransposed: bool)

  /** The status byte with its channel forced to 0 (`&= 0xf0`). */
  function StatusOf(b: Byte): (s: Byte)
    ensures s % 16 == 0 && s <= b && b - s < 16
  {
    b - b % 16
  }

  predicate IsNoteStatus(s: int) {
    s == 0x80 || s == 0x90 || s == 0xa0
  }

  /** The note a note-off, note-on or after-touch refers to after undoing the
      output transposition of an event that carries it. */
  function NoteOf(msg: seq<Byte>, alreadyTransposed: bool, transpose: int): int
    requires |msg| >= 2
  {
    if alreadyTransposed then msg[1] - transpose else msg[1]
  }

  /** The note survives the transposition check and has a key bound to it. */
  predicate NotePasses(msg: seq<Byte>, alreadyTransposed: bool, transpose: int, keybinding: seq<Binding>)
    requires |msg| >= 2 && |keybinding| == NoteCount
    requires !alreadyTransposed ==> msg[1] < NoteCount
  {
    var note := NoteOf(msg, alreadyTransposed, transpose);
    0 <= note < NoteCount && keybinding[note].virtualKeyCode != 0
  }

  /** The inputs on which `addMidiInEvent` does not index past the end of a
      slice or of the 128-row keybinding table. */
  predicate Defined(msg: seq<Byte>, alreadyTransposed: bool, transpose: int, keybinding: seq<Binding>) {
    |keybinding| == NoteCount && |msg| >= 1 &&
    (msg[0] % 16 != 9 ==>
      var s := StatusOf(msg[0]);
      (IsNoteStatus(s) ==> |msg| >= 2 && (!alreadyTransposed ==> msg[1] < NoteCount) &&
                           ((s == 0x90 || s == 0xa0) && NotePasses(msg, alreadyTransposed, transpose, keybinding) ==> |msg| >= 3)) &&
      (s == 0xb0 || s == 0xd0 ==> |msg| >= 2))
  }

  /** The message `addMidiInEvent` passes on for `msg`, if any. */
  function Normalize(msg: seq<Byte>, alreadyTransposed: bool, transpose: int, keybinding: seq<Binding>, minVelocity: Byte): (r: Option<seq<Byte>>)
    requires Defined(msg, alreadyTransposed, transpose, keybinding)
    ensures msg[0] % 16 == 9 ==> r.None?
    ensures r.Some? ==> |r.value| >= 1 && r.value[0] % 16 == 0
    ensures r.Some? ==> |r.value| == (if StatusOf(msg[0]) == 0xd0 then 2 else |msg|)
    ensures r.Some? ==> forall i :: 2 <= i < |r.value| ==> r.value[i] == msg[i]
    ensures r.Some? && !IsNoteStatus(StatusOf(msg[0])) ==> r.value[0] == StatusOf(msg[0]) && r.value[1..] == msg[1..|r.value|]
    ensures msg[0] % 16 != 9 && IsNoteStatus(StatusOf(msg[0])) ==>
      (r.Some? <==> NotePasses(msg, alreadyTransposed, transpose, keybinding)) &&
      (r.Some? ==> r.value[1] == NoteOf(msg, alreadyTransposed, transpose) && (r.value[0] == StatusOf(msg[0]) || r.value[0] == 0x80))
  {
    if msg[0] % 16 == 9 then None
    else
      var s := StatusOf(msg[0]);
      var m := [s] + msg[1..];
      assert |m| == |msg| && m[0] == s && m[1..] == msg[1..];
      if IsNoteStatus(s) then
        if !NotePasses(msg, alreadyTransposed, transpose, keybinding) then None
        else
          var m1 := m[1 := NoteOf(msg, alreadyTransposed, transpose)];
          if s == 0x90 && msg[2] < minVelocity then Some(m1[0 := 0x80])
          else if s == 0xa0 && msg[2] == 0 then Some(m1[0 := 0x80])
          else Some(m1)
      else if s == 0xb0 then
        if msg[1] == 0x00 || msg[1] == 0x20 then None else Some(m)
      else if s == 0xc0 || s == 0xe0 then None
      else if s == 0xd0 then Some(m[..2])
      else Some(m)
  }

  /** A quiet note-on becomes a note-off with the same note and velocity,
      and after-touch 0 becomes a note-off. */
  lemma QuietNotesBecomeNoteOff(msg: seq<Byte>, alreadyTransposed: bool, transpose: int, keybinding: seq<Binding>, minVelocity: Byte)
    requires Defined(msg, alreadyTransposed, transpose, keybinding) && msg[0] % 16 != 9
    requires IsNoteStatus(StatusOf(msg[0])) && NotePasses(msg, alreadyTransposed, transpose, keybinding)
    ensures var r := Normalize(msg, alreadyTransposed, transpose, keybinding, minVelocity);
      r.Some? &&
      (StatusOf(msg[0]) == 0x90 ==> (r.value[0] == 0x80 <==> msg[2] < minVelocity) && r.value[2] == msg[2]) &&
      (StatusOf(msg[0]) == 0xa0 ==> (r.value[0] == 0x80 <==> msg[2] == 0)) &&
      (StatusOf(msg[0]) == 0x80 ==> r.value[0] == 0x80)
  {
    var s := StatusOf(msg[0]);
    var m1 := ([s] + msg[1..])[1 := NoteOf(msg, alreadyTransposed, transpose)];
    assert |m1| == |msg| && (|msg| >= 3 ==> m1[2] == msg[2]);
  }

  /** Bank select (controllers 0x00 and 0x20), program change and pitch bend
      are dropped; channel pressure keeps two bytes; other controllers pass. */
  lemma SuppressedMessages(msg: seq<Byte>, alreadyTransposed: bool, transpose: int, keybinding: seq<Binding>, minVelocity: Byte)
    requires Defined(msg, alreadyTransposed, transpose, keybinding) && msg[0] % 16 != 9
    ensures var s := StatusOf(msg[0]);
      var r := Normalize(msg, alreadyTransposed, transpose, keybinding, minVelocity);
      (s == 0xb0 ==> (r.None? <==> msg[1] == 0x00 || msg[1] == 0x20)) &&
      (s == 0xc0 || s == 0xe0 ==> r.None?) &&
      (s == 0xd0 ==> r == Some([0xd0, msg[1]]))
  {
    var s := StatusOf(msg[0]);
    if s == 0xd0 {
      assert ([s] + msg[1..])[..2] == [0xd0, msg[1]];
    }
  }

  /** A system message keeps only the high nibble of its status byte: the
      real-time message 0xfe (active sensing) comes out as 0xf0, while 0xf9
      is dropped like a percussion message. */
  lemma SystemMessagesMasked(keybinding: seq<Binding>, minVelocity: Byte)
    requires |keybinding| == NoteCount
    ensures Normalize([0xfe], false, 0, keybinding, minVelocity) == Some([0xf0])
    ensures Normalize([0xf9], false, 0, keybinding, minVelocity) == None
  {
    assert StatusOf(0xfe) == 0xf0;
    assert [0xf0] + [0xfe][1..] == [0xf0];
  }

  // ---- the output side ----

  /** The bank-select pair `setMidiOutBank` sends, as written: the most
      significant part is `(bank >> 15) & 0x7f`. */
  function BankSelectAsWritten(bank: int): (msgs: seq<seq<Byte>>)
    requires 0 <= bank < 0x1_0000
    ensures |msgs| == 2 && |msgs[0]| == 3 && |msgs[1]| == 3
    ensures msgs[0][..2] == [0xb0, 0x00] && msgs[1][..2] == [0xb0, 0x20]
  {
    [[0xb0, 0x00, (bank / 0x8000) % 0x80], [0xb0, 0x20, bank % 0x100 % 0x80]]
  }

  /** Banks 0 and 128 are selected by the same pair of messages. */
  lemma BankSelectAsWrittenLosesBits()
    ensures BankSelectAsWritten(0) == BankSelectAsWritten(128)
    ensures BankSelectAsWritten(1) == BankSelectAsWritten(129)
  {
  }

  /** The bank-select pair with the most significant 7 bits, `(bank >> 7) & 0x7f`. */
  function BankSelect(bank: int): (msgs: seq<seq<Byte>>)
    requires 0 <= bank < 0x1_0000
    ensures |msgs| == 2 && |msgs[0]| == 3 && |msgs[1]| == 3
    ensures msgs[0][..2] == [0xb0, 0x00] && msgs[1][..2] == [0xb0, 0x20]
    ensures msgs[0][2] < 0x80 && msgs[1][2] < 0x80
  {
    [[0xb0, 0x00, (bank / 0x80) % 0x80], [0xb0, 0x20, bank % 0x80]]
  }

  /** The corrected pair encodes every 14-bit bank, and different banks get
      different pairs. */
  lemma BankSelectRoundTrip(bank: int, other: int)
    requires 0 <= bank < 0x4000 && 0 <= other < 0x4000
    ensures (BankSelect(bank)[0][2] as int) * 0x80 + BankSelect(bank)[1][2] == bank
    ensures BankSelect(bank) == BankSelect(other) ==> bank == other
  {
    assert (BankSelect(other)[0][2] as int) * 0x80 + BankSelect(other)[1][2] == other;
  }

  /** Go's `uint32(b)` of a byte. */
  function B32(b: Byte): bv32 {
    (b as bv8) as bv32
  }

  /** Go's `uint32(n)` of an `int`: the value modulo 2^32. */
  function Uint32(n: int): bv32 {
    (n % 0x1_0000_0000) as bv32
  }

  /** `b0 | b1 << 8 | b2 << 16` in 32 bits. */
  function Pack3(b0: bv32, b1: bv32, b2: bv32): bv32 {
    b0 | (b1 << 8) | (b2 << 16)
  }

  /** The word `sendMidiOutMessage` gives `midiOutShortMsg` for a one- to
      three-byte message, as written.  The guard `note >= 0x00 || note <= 0x7f`
      holds for every note, so a transposed note outside 0..127 is sent
      wrapped to 32 bits. */
  function ShortWordAsWritten(msg: seq<Byte>, transpose: int): (w: bv32)
    requires 1 <= |msg| <= 3
    ensures w & 0xff == B32(msg[0])
    ensures |msg| <= 2 ==> w >> 16 == 0
  {
    if |msg| == 1 then B32(msg[0])
    else if |msg| == 2 then B32(msg[0]) | (B32(msg[1]) << 8)
    else if IsNoteStatus(msg[0]) then Pack3(B32(msg[0]), Uint32(msg[1] + transpose), B32(msg[2]))
    else Pack3(B32(msg[0]), B32(msg[1]), B32(msg[2]))
  }

  /** Transposing note 0 down by one sends 0xffffff90: the note byte is 0xff
      and the high-order bytes are filled with ones. */
  lemma ShortWordAsWrittenWraps()
    ensures ShortWordAsWritten([0x90, 0x00, 0x40], -1) == 0xffff_ff90
  {
    assert (0 + -1) % 0x1_0000_0000 == 0xffff_ffff;
    assert Uint32(0 + -1) == 0xffff_ffff;
    assert B32(0x90) == 0x90 && B32(0x40) == 0x40;
  }

  /** The short-message word with the intended guard `note >= 0x00 && note <= 0x7f`:
      `None` when the transposed note is out of range and nothing is sent. */
  function ShortWord(msg: seq<Byte>, transpose: int): Option<bv32>
    requires 1 <= |msg| <= 3
  {
    if |msg| == 3 && IsNoteStatus(msg[0]) then
      var note := msg[1] + transpose;
      if note >= 0x00 && note <= 0x7f then Some(Pack3(B32(msg[0]), Uint32(note), B32(msg[2]))) else None
    else Some(ShortWordAsWritten(msg, transpose))
  }

  /** The packed bytes of a word, low byte first. */
  function WordBytes(w: bv32): seq<bv8> {
    [(w & 0xff) as bv8, ((w >> 8) & 0xff) as bv8, ((w >> 16) & 0xff) as bv8]
  }

  lemma Pack3Bits(c0: bv8, c1: bv8, c2: bv8)
    ensures WordBytes(Pack3(c0 as bv32, c1 as bv32, c2 as bv32)) == [c0, c1, c2]
    ensures Pack3(c0 as bv32, c1 as bv32, c2 as bv32) >> 24 == 0
  {
  }

  /** Three bytes packed into a word read back as the same bytes, with
      nothing in the top byte. */
  lemma Pack3Bytes(b0: Byte, b1: Byte, b2: Byte)
    ensures WordBytes(Pack3(B32(b0), B32(b1), B32(b2))) == [b0 as bv8, b1 as bv8, b2 as bv8]
    ensures Pack3(B32(b0), B32(b1), B32(b2)) >> 24 == 0
  {
    var c0, c1, c2 := b0 as bv8, b1 as bv8, b2 as bv8;
    assert B32(b0) == c0 as bv32 && B32(b1) == c1 as bv32 && B32(b2) == c2 as bv32;
    Pack3Bits(c0, c1, c2);
  }

  lemma SmallUint32(n: Byte)
    ensures Uint32(n) == B32(n)
  {
    assert n % 0x1_0000_0000 == n;
  }

  /** With the intended guard every word sent carries the status, the
      transposed note (a data byte below 0x80) and the velocity, and nothing
      in its top byte; a note that leaves the range is not sent. */
  lemma ShortWordSound(msg: seq<Byte>, transpose: int)
    requires |msg| == 3 && IsNoteStatus(msg[0])
    ensures ShortWord(msg, transpose).Some? <==> 0 <= msg[1] + transpose <= 0x7f
    ensures ShortWord(msg, transpose).Some? ==>
      WordBytes(ShortWord(msg, transpose).value) == [msg[0] as bv8, (msg[1] + transpose) as bv8, msg[2] as bv8] &&
      ShortWord(msg, transpose).value >> 24 == 0
  {
    var note := msg[1] + transpose;
    if 0 <= note <= 0x7f {
      SmallUint32(note);
      Pack3Bytes(msg[0], note, msg[2]);
    }
  }

  /** Other three-byte messages are packed losslessly. */
  lemma ShortWordPlain(msg: seq<Byte>, transpose: int)
    requires |msg| == 3 && !IsNoteStatus(msg[0])
    ensures ShortWord(msg, transpose) == Some(ShortWordAsWritten(msg, transpose))
    ensures WordBytes(ShortWordAsWritten(msg, transpose)) == [msg[0] as bv8, msg[1] as bv8, msg[2] as bv8]
  {
    Pack3Bytes(msg[0], msg[1], msg[2]);
  }

  /** What `sendMidiOutMessage` hands to the device. */
  datatype OutMessage = ShortMsg(word: bv32) | LongMsg(bytes: seq<Byte>)

  /** The real-time part of the application: the settings these functions
      read, the output settings they write, the `pendingNotes` queue and the
      messages given to the MIDI output device. */
  class MidiRealtime {
    const keybinding: seq<Binding>
    const minTriggerVelocity: Byte
    var midiOutDevice: int
    var midiOutBank: int
    var midiOutPatch: Byte
    var midiOutTranspose: int
    var pendingNotes: seq<RealtimeEvent>
    var midiOut: seq<OutMessage>

    ghost predicate Valid()
      reads this
    {
      |keybinding| == NoteCount && 0 <= midiOutBank < 0x1_0000
    }

    /** The output state `run` starts from: no output device, bank 0, patch
        46, no transposition. */
    constructor (s: Settings)
      requires s.Valid()
      ensures Valid() && keybinding == s.keybinding && minTriggerVelocity == s.minTriggerVelocity
      ensures midiOutDevice == -1 && midiOutBank == 0 && midiOutPatch == 46 && midiOutTranspose == 0
      ensures pendingNotes == [] && midiOut == []
    {
      keybinding := s.keybinding;
      minTriggerVelocity := s.minTriggerVelocity;
      midiOutDevice := -1;
      midiOutBank := 0;
      midiOutPatch := 46;
      midiOutTranspose := 0;
      pendingNotes := [];
      midiOut := [];
    }

    /** `addMidiInEvent`: copies the message, rewrites the copy in place and
        queues at most one event, keeping the input's time and realtime
        flag.  The caller's message is a value and cannot change. */
    method AddMidiInEvent(e: RealtimeEvent)
      requires Valid() && Defined(e.message, e.alreadyTransposed, midiOutTranspose, keybinding)
      modifies this`pendingNotes
      ensures var r := Normalize(e.message, e.alreadyTransposed, midiOutTranspose, keybinding, minTriggerVelocity);
        pendingNotes == old(pendingNotes) + (if r.Some? then [RealtimeEvent(e.time, r.value, e.realtime, false)] else [])
    {
      var msg := e.message;
      var channel := msg[0] % 16;
      if channel == 9 {
        return;
      }
      var filtered := CopyMasked(msg);
      ghost var m := [StatusOf(msg[0])] + msg[1..];
      var len := filtered.Length;
      var status := filtered[0];
      if status == 0x80 || status == 0x90 || status == 0xa0 {
        var pass := RewriteNote(filtered, msg, e.alreadyTransposed);
        if !pass {
          return;
        }
        assert filtered[..len] == filtered[..];
      } else if status == 0xb0 {
        if filtered[1] == 0x00 || filtered[1] == 0x20 {
          return;
        }
        assert filtered[..len] == m;
      } else if status == 0xc0 {
        return;
      } else if status == 0xd0 {
        len := 2;
        assert filtered[..len] == m[..2];
      } else if status == 0xe0 {
        return;
      } else {
        assert filtered[..len] == m;
      }
      assert Normalize(msg, e.alreadyTransposed, midiOutTranspose, keybinding, minTriggerVelocity) == Some(filtered[..len]);
      pendingNotes := pendingNotes + [RealtimeEvent(e.time, filtered[..len], e.realtime, false)];
    }

    /** The copy of a message that `addMidiInEvent` rewrites, with the
        channel nibble of its status cleared. */
    static method CopyMasked(msg: seq<Byte>) returns (filtered: array<Byte>)
      requires |msg| >= 1
      ensures fresh(filtered) && filtered[..] == [StatusOf(msg[0])] + msg[1..]
    {
      filtered := new Byte[|msg|](i requires 0 <= i < |msg| => msg[i]);
      filtered[0] := filtered[0] - filtered[0] % 16;
    }

    /** The note branch of `addMidiInEvent` on the copy `filtered` of `msg`
        (channel already masked): undoes the transposition, drops notes out
        of range or without a key, and turns quiet note-ons and after-touch 0
        into note-offs. */
    method RewriteNote(filtered: array<Byte>, msg: seq<Byte>, alreadyTransposed: bool) returns (pass: bool)
      requires Valid() && Defined(msg, alreadyTransposed, midiOutTranspose, keybinding) && msg[0] % 16 != 9
      requires IsNoteStatus(StatusOf(msg[0])) && filtered[..] == [StatusOf(msg[0])] + msg[1..]
      modifies filtered
      ensures var r := Normalize(msg, alreadyTransposed, midiOutTranspose, keybinding, minTriggerVelocity);
        pass == r.Some? && (pass ==> filtered[..] == r.value)
    {
      ghost var m: seq<int> := filtered[..];
      var status := filtered[0];
      var note: int := filtered[1];
      if alreadyTransposed {
        note := note - midiOutTranspose;
        if note < 0x00 || note > 0x7f {
          return false;
        }
        filtered[1] := note;
      }
      assert filtered[..] == m[1 := NoteOf(msg, alreadyTransposed, midiOutTranspose)];
      if keybinding[note].virtualKeyCode == 0 {
        return false;
      }
      if status == 0x90 && filtered[2] < minTriggerVelocity {
        filtered[0] := 0x80;
      } else if status == 0xa0 && filtered[2] == 0 {
        filtered[0] := 0x80;
      }
      return true;
    }

    /** `onMidiInEvent`: an empty message is ignored; any other becomes a
        realtime event stamped `now`. */
    method OnMidiInEvent(event: seq<Byte>, now: int)
      requires Valid()
      requires |event| > 0 ==> Defined(event, false, midiOutTranspose, keybinding)
      modifies this`pendingNotes
      ensures |event| == 0 ==> pendingNotes == old(pendingNotes)
      ensures |event| > 0 ==>
        var r := Normalize(event, false, midiOutTranspose, keybinding, minTriggerVelocity);
        pendingNotes == old(pendingNotes) + (if r.Some? then [RealtimeEvent(Some(now), r.value, true, false)] else [])
    {
      if |event| == 0 {
        return;
      }
      AddMidiInEvent(RealtimeEvent(Some(now), event, true, false));
    }

    /** `setMidiOutBank`: queues the bank-select pair, as written, and
        records the bank. */
    method SetMidiOutBank(bank: int)
      requires Valid() && 0 <= bank < 0x1_0000
      modifies this`pendingNotes, this`midiOutBank
      ensures Valid() && midiOutBank == bank
      ensures var msgs := BankSelectAsWritten(bank);
        pendingNotes == old(pendingNotes) + [RealtimeEvent(None, msgs[0], false, false), RealtimeEvent(None, msgs[1], false, false)]
    {
      pendingNotes := pendingNotes + [RealtimeEvent(None, [0xb0, 0x00, (bank / 0x8000) % 0x80], false, false)];
      pendingNotes := pendingNotes + [RealtimeEvent(None, [0xb0, 0x20, bank % 0x100 % 0x80], false, false)];
      midiOutBank := bank;
    }

    /** `setMidiOutPatch`: queues a program change with the low 7 bits of
        the patch and records the patch. */
    method SetMidiOutPatch(patch: Byte)
      requires Valid()
      modifies this`pendingNotes, this`midiOutPatch
      ensures Valid() && midiOutPatch == patch
      ensures pendingNotes == old(pendingNotes) + [RealtimeEvent(None, [0xc0, patch % 0x80], false, false)]
    {
      pendingNotes := pendingNotes + [RealtimeEvent(None, [0xc0, patch % 0x80], false, false)];
      midiOutPatch := patch;
    }

    method SetMidiOutTranspose(transpose: int)
      modifies this`midiOutTranspose
      ensures midiOutTranspose == transpose
    {
      midiOutTranspose := transpose;
    }

    /** `sendMidiOutMessage`: nothing without an output device; a one- to
        three-byte message as a short word (as written, see
        `ShortWordAsWritten`); a longer one as a long message. */
    method SendMidiOutMessage(e: RealtimeEvent)
      requires |e.message| >= 1
      modifies this`midiOut
      ensures midiOutDevice == -1 ==> midiOut == old(midiOut)
      ensures midiOutDevice != -1 && |e.message| <= 3 ==>
        midiOut == old(midiOut) + [ShortMsg(ShortWordAsWritten(e.message, midiOutTranspose))]
      ensures midiOutDevice != -1 && |e.message| > 3 ==> midiOut == old(midiOut) + [LongMsg(e.message)]
    {
      if midiOutDevice == -1 {
        return;
      }
      var msg := e.message;
      if |msg| == 1 {
        midiOut := midiOut + [ShortMsg(B32(msg[0]))];
      } else if |msg| == 2 {
        midiOut := midiOut + [ShortMsg(B32(msg[0]) | (B32(msg[1]) << 8))];
      } else if |msg| == 3 {
        if msg[0] == 0x80 || msg[0] == 0x90 || msg[0] == 0xa0 {
          var note := msg[1] + midiOutTranspose;
          if note >= 0x00 || note <= 0x7f {
            midiOut := midiOut + [ShortMsg(Pack3(B32(msg[0]), Uint32(note), B32(msg[2])))];
          }
        } else {
          midiOut := midiOut + [ShortMsg(Pack3(B32(msg[0]), B32(msg[1]), B32(msg[2])))];
        }
      } else {
        midiOut := midiOut + [LongMsg(msg)];
      }
    }

    /** `sendAllNoteOff`: queues the all-notes-off controller message. */
    method SendAllNoteOff()
      modifies this`pendingNotes
      ensures pendingNotes == old(pendingNotes) + [RealtimeEvent(None, [0xb0, 0x7b, 0x00], false, false)]
    {
      pendingNotes := pendingNotes + [RealtimeEvent(None, [0xb0, 0x7b, 0x00], false, false)];
    }
  }
}
