/** The default settings and the default note-to-key table (preset.go). */
module Preset {
  import opened Common

  /** One row of the keybinding table: the modifiers a note needs and the
      Windows virtual-key code it presses (0 = the note is unmapped). */
  datatype Binding = Binding(ctrl: bool, alt: bool, shift: bool, virtualKeyCode: Byte)

  /** The Go zero value of a binding: an unmapped note. */
  const Unbound: Binding := Binding(false, false, false, 0)

  /** The configurable part of the application (the `preset` struct).
      Durations are in nanoseconds. */
  datatype Settings = Settings(
    configFile: string,
    idleDuration: int,
    maxNoteDelay: int,
    skillCooldown: int,
    modifierCooldown: int,
    ntpSyncTimeout: int,
    ntpCooldown: int,
    minTriggerVelocity: Byte,
    keybinding: seq<Binding>,
    webListenAddr: string,
    webUsername: string,
    webPassword: string)
  {
    /** The table has one row per MIDI note, as the Go array `[128]keybindingPreset`. */
    predicate Valid() {
      |keybinding| == NoteCount
    }
  }

  /** The default keybinding of one note: the sparse array literal of the
      source, rows 0x30..0x54, every other row the zero value. */
  function DefaultBinding(note: int): Binding {
    match note
    case 0x30 => Binding(true, false, false, 'Q' as Byte)
    case 0x31 => Binding(true, false, false, '2' as Byte)
    case 0x32 => Binding(true, false, false, 'W' as Byte)
    case 0x33 => Binding(true, false, false, '3' as Byte)
    case 0x34 => Binding(true, false, false, 'E' as Byte)
    case 0x35 => Binding(true, false, false, 'R' as Byte)
    case 0x36 => Binding(true, false, false, '5' as Byte)
    case 0x37 => Binding(true, false, false, 'T' as Byte)
    case 0x38 => Binding(true, false, false, '6' as Byte)
    case 0x39 => Binding(true, false, false, 'Y' as Byte)
    case 0x3a => Binding(true, false, false, '7' as Byte)
    case 0x3b => Binding(true, false, false, 'U' as Byte)

    case 0x3c => Binding(false, false, false, 'Q' as Byte)
    case 0x3d => Binding(false, false, false, '2' as Byte)
    case 0x3e => Binding(false, false, false, 'W' as Byte)
    case 0x3f => Binding(false, false, false, '3' as Byte)
    case 0x40 => Binding(false, false, false, 'E' as Byte)
    case 0x41 => Binding(false, false, false, 'R' as Byte)
    case 0x42 => Binding(false, false, false, '5' as Byte)
    case 0x43 => Binding(false, false, false, 'T' as Byte)
    case 0x44 => Binding(false, false, false, '6' as Byte)
    case 0x45 => Binding(false, false, false, 'Y' as Byte)
    case 0x46 => Binding(false, false, false, '7' as Byte)
    case 0x47 => Binding(false, false, false, 'U' as Byte)

    case 0x48 => Binding(false, false, true, 'Q' as Byte)
    case 0x49 => Binding(false, false, true, '2' as Byte)
    case 0x4a => Binding(false, false, true, 'W' as Byte)
    case 0x4b => Binding(false, false, true, '3' as Byte)
    case 0x4c => Binding(false, false, true, 'E' as Byte)
    case 0x4d => Binding(false, false, true, 'R' as Byte)
    case 0x4e => Binding(false, false, true, '5' as Byte)
    case 0x4f => Binding(false, false, true, 'T' as Byte)
    case 0x50 => Binding(false, false, true, '6' as Byte)
    case 0x51 => Binding(false, false, true, 'Y' as Byte)
    case 0x52 => Binding(false, false, true, '7' as Byte)
    case 0x53 => Binding(false, false, true, 'U' as Byte)

    case 0x54 => Binding(false, false, true, 'I' as Byte)
    case _ => Unbound
  }

  /** The default table, one row per MIDI note. */
  function DefaultKeybinding(): (t: seq<Binding>)
    ensures |t| == NoteCount
    ensures forall note :: 0 <= note < NoteCount ==> t[note] == DefaultBinding(note)
  {
    seq(NoteCount, note => DefaultBinding(note))
  }

  /** `defaultPreset`. */
  function DefaultSettings(): (s: Settings)
    ensures s.Valid()
  {
    Settings(
      configFile := "midi2ffxiv.conf",
      idleDuration := 1 * Second,
      maxNoteDelay := 300 * Millisecond,
      skillCooldown := 140 * Millisecond,
      modifierCooldown := 50 * Millisecond,
      ntpSyncTimeout := 5 * Second,
      ntpCooldown := 10 * Second,
      minTriggerVelocity := 16,
      keybinding := DefaultKeybinding(),
      webListenAddr := ":65300",
      webUsername := "",
      webPassword := "")
  }

  /** The twelve keys of one octave, from C to B, as the game lays them out. */
  const OctaveKeys: string := "Q2W3ER5T6Y7U"

  /** The default durations and velocity threshold. */
  lemma DefaultDurations()
    ensures DefaultSettings().idleDuration == 1_000_000_000
    ensures DefaultSettings().maxNoteDelay == 300_000_000
    ensures DefaultSettings().skillCooldown == 140_000_000
    ensures DefaultSettings().modifierCooldown == 50_000_000
    ensures DefaultSettings().minTriggerVelocity == 16
    ensures DefaultSettings().ntpCooldown == 10_000_000_000
    ensures DefaultSettings().ntpSyncTimeout == 5_000_000_000
  {
  }

  /** Exactly the notes 0x30..0x54 (C3 to C6) are mapped by default. */
  lemma DefaultMappedRange(note: int)
    requires 0 <= note < NoteCount
    ensures DefaultKeybinding()[note].virtualKeyCode != 0 <==> 0x30 <= note <= 0x54
  {
  }

  /** The three octaves C3..B3, C4..B4 and C5..B5 share the keys of
      `OctaveKeys`; the lower octave adds Ctrl, the upper one Shift, and
      no default binding uses Alt. */
  lemma DefaultOctaveLayout(k: int)
    requires 0 <= k < 12
    ensures DefaultBinding(0x30 + k) == Binding(true, false, false, OctaveKeys[k] as Byte)
    ensures DefaultBinding(0x3c + k) == Binding(false, false, false, OctaveKeys[k] as Byte)
    ensures DefaultBinding(0x48 + k) == Binding(false, false, true, OctaveKeys[k] as Byte)
  {
  }

  /** No default binding needs Alt; C6 is Shift+I. */
  lemma DefaultNoAltAndTopNote(note: int)
    requires 0 <= note < NoteCount
    ensures !DefaultKeybinding()[note].alt
    ensures DefaultKeybinding()[0x54] == Binding(false, false, true, 'I' as Byte)
  {
  }
}
