/** Note names and their MIDI note numbers (parse-config.go, the two
    tables and `noteIndexToName` / `noteNameToIndex`).  The source writes
    both tables out; here they are generated from the twelve pitch-class
    spellings and the octave number `index / 12 - 1`. */
module NoteNames {
  import opened Common

  /** Sharp and flat spellings of the twelve pitch classes; the name-to-index
      table accepts both. */
  const SharpSpellings: seq<string> := ["C", "C#", "D", "D#", "E", "F", "F#", "G", "G#", "A", "A#", "B"]
  const FlatSpellings: seq<string> := ["C", "Db", "D", "Eb", "E", "F", "Gb", "G", "Ab", "A", "Bb", "B"]
  /** The spelling `noteIndexToNameTable` uses for each pitch class. */
  const TableSpellings: seq<string> := ["C", "C#", "D", "Eb", "E", "F", "F#", "G", "Ab", "A", "Bb", "B"]

  /** The octave part of a name: "-1" or one decimal digit (octaves -1..9
      are the only ones note numbers reach). */
  function OctaveString(octave: int): string {
    if octave == -1 then "-1" else if 0 <= octave <= 9 then [('0' as int + octave) as char] else ""
  }

  /** The name of a note number in a given set of spellings, e.g. "C#4". */
  function NameIn(spellings: seq<string>, index: int): string
    requires |spellings| == 12 && 0 <= index < NoteCount
  {
    spellings[index % 12] + OctaveString(index / 12 - 1)
  }

  /** True when `name` is a key of `noteNameToIndexTable` mapping to `index`. */
  predicate Spells(name: string, index: int)
    requires 0 <= index < NoteCount
  {
    name == NameIn(SharpSpellings, index) || name == NameIn(FlatSpellings, index)
  }

  /** The lookup `noteNameToIndexTable[name]`, as a search over the note numbers. */
  function TableLookup(name: string): (r: Option<int>)
    ensures r.Some? ==> 0 <= r.value < NoteCount && Spells(name, r.value)
  {
    FirstFrom(i => 0 <= i < NoteCount && Spells(name, i), 0, NoteCount)
  }

  /** The first `i` in `[from, n)` that satisfies `p`. */
  function FirstFrom(p: int -> bool, from: nat, n: nat): (r: Option<int>)
    requires from <= n
    ensures r.Some? ==> from <= r.value < n && p(r.value)
    decreases n - from
  {
    if from == n then None
    else if p(from) then Some(from)
    else FirstFrom(p, from + 1, n)
  }

  function HexDigit(d: int): char
    requires 0 <= d < 16
  {
    "0123456789abcdef"[d]
  }

  /** `noteIndexToName`: the table name, or "0x%02x" together with an error
      for an index past 0x7f. */
  function NoteIndexToName(index: Byte): (r: (string, Option<string>))
    ensures r.1.Some? <==> index > 0x7f
    ensures index <= 0x7f ==> Spells(r.0, index as int)
  {
    if index > 0x7f then
      var hex := ['0', 'x', HexDigit(index / 16), HexDigit(index % 16)];
      (hex, Some("note " + hex + " out of range"))
    else
      SpellingShape(TableSpellings, index % 12);
      assert TableSpellings[index % 12] == SharpSpellings[index % 12] || TableSpellings[index % 12] == FlatSpellings[index % 12];
      (NameIn(TableSpellings, index), None)
  }

  /** The error `noteNameToIndex` reports for a name it cannot read. */
  function UnrecognizedNote(name: string): string {
    "unrecognized note name \"" + name + "\""
  }

  /** `noteNameToIndex`: a table name, else an unsigned literal that fits in
      7 bits, else 0xff together with an error. */
  function NoteNameToIndex(name: string, lex: Lexers): (r: (Byte, Option<string>))
    ensures r.1.None? <==> r.0 < NoteCount
    ensures r.1.Some? ==> r.0 == 0xff
  {
    match TableLookup(name)
    case Some(i) => (i, None)
    case None =>
      var parsed := ParseUint(lex, name, 7);
      Pow2Bytes();
      assert parsed.Ok? ==> parsed.value < 128;
      if parsed.Ok? then (parsed.value, None)
      else (0xff, Some(UnrecognizedNote(name)))
  }

  // ---- A parser for names, used to show that names are unambiguous ----

  function LetterBase(c: char): int {
    match c
    case 'C' => 0
    case 'D' => 2
    case 'E' => 4
    case 'F' => 5
    case 'G' => 7
    case 'A' => 9
    case 'B' => 11
    case _ => -100
  }

  function PitchClassOf(s: string): int {
    if |s| == 1 then LetterBase(s[0])
    else if |s| == 2 && s[1] == '#' then LetterBase(s[0]) + 1
    else if |s| == 2 && s[1] == 'b' then LetterBase(s[0]) - 1
    else -100
  }

  function OctaveOf(s: string): int {
    if s == "-1" then -1
    else if |s| == 1 && '0' <= s[0] <= '9' then s[0] as int - '0' as int
    else -100
  }

  /** Reads a name back as pitch spelling followed by octave. */
  function ParseName(s: string): int {
    if |s| >= 2 && (s[1] == '#' || s[1] == 'b') then
      12 * (OctaveOf(s[2..]) + 1) + PitchClassOf(s[..2])
    else if |s| >= 1 then
      12 * (OctaveOf(s[1..]) + 1) + PitchClassOf(s[..1])
    else -100
  }

  lemma SpellingShape(spellings: seq<string>, pc: int)
    requires spellings == SharpSpellings || spellings == FlatSpellings || spellings == TableSpellings
    requires 0 <= pc < 12
    ensures PitchClassOf(spellings[pc]) == pc
    ensures 1 <= |spellings[pc]| <= 2
    ensures |spellings[pc]| == 2 ==> spellings[pc][1] == '#' || spellings[pc][1] == 'b'
  {
  }

  lemma {:induction false} ParseNameIn(spellings: seq<string>, index: int)
    requires spellings == SharpSpellings || spellings == FlatSpellings || spellings == TableSpellings
    requires 0 <= index < NoteCount
    ensures ParseName(NameIn(spellings, index)) == index
  {
    var pc, oct := index % 12, index / 12 - 1;
    var p, o := spellings[pc], OctaveString(oct);
    SpellingShape(spellings, pc);
    var s := p + o;
    assert OctaveOf(o) == oct;
    assert o[0] == '-' || '0' <= o[0] <= '9';
    if |p| == 2 {
      assert s[..2] == p && s[2..] == o;
    } else {
      assert s[1] == o[0];
      assert s[..1] == p && s[1..] == o;
    }
  }

  /** Different note numbers never share a spelling. */
  lemma SpellsUnique(name: string, i: int, j: int)
    requires 0 <= i < NoteCount && 0 <= j < NoteCount
    requires Spells(name, i) && Spells(name, j)
    ensures i == j
  {
    if name == NameIn(SharpSpellings, i) { ParseNameIn(SharpSpellings, i); } else { ParseNameIn(FlatSpellings, i); }
    if name == NameIn(SharpSpellings, j) { ParseNameIn(SharpSpellings, j); } else { ParseNameIn(FlatSpellings, j); }
  }

  /** A search finds the only index that satisfies its predicate. */
  lemma {:induction false} FirstFromFinds(p: int -> bool, from: nat, n: nat, index: int)
    requires from <= index < n && p(index)
    requires forall j :: from <= j < n && p(j) ==> j == index
    ensures FirstFrom(p, from, n) == Some(index)
    decreases n - from
  {
    if !p(from) {
      FirstFromFinds(p, from + 1, n, index);
    }
  }

  /** The table lookup finds exactly the note a name spells. */
  lemma TableLookupSpells(name: string, index: int)
    requires 0 <= index < NoteCount
    ensures TableLookup(name) == Some(index) <==> Spells(name, index)
  {
    if Spells(name, index) {
      var p := i => 0 <= i < NoteCount && Spells(name, i);
      forall j | 0 <= j < NoteCount && p(j)
        ensures j == index
      {
        SpellsUnique(name, j, index);
      }
      FirstFromFinds(p, 0, NoteCount, index);
    }
  }

  /** Every note number survives the round trip through its name. */
  lemma NameRoundTrip(index: Byte, lex: Lexers)
    requires index <= 0x7f
    ensures NoteNameToIndex(NoteIndexToName(index).0, lex) == (index, None)
  {
    TableLookupSpells(NoteIndexToName(index).0, index as int);
  }

  /** Both the sharp and the flat spelling of a note name its number. */
  lemma BothSpellingsAccepted(index: int, lex: Lexers)
    requires 0 <= index < NoteCount
    ensures NoteNameToIndex(NameIn(SharpSpellings, index), lex) == (index, None)
    ensures NoteNameToIndex(NameIn(FlatSpellings, index), lex) == (index, None)
  {
    TableLookupSpells(NameIn(SharpSpellings, index), index);
    TableLookupSpells(NameIn(FlatSpellings, index), index);
  }

  /** "C#4" and "Db4" both name 0x3d. */
  lemma MiddleCSharp(lex: Lexers)
    ensures NoteNameToIndex("C#4", lex) == (0x3d, None)
    ensures NoteNameToIndex("Db4", lex) == (0x3d, None)
  {
    assert NameIn(SharpSpellings, 0x3d) == "C#4";
    assert NameIn(FlatSpellings, 0x3d) == "Db4";
    BothSpellingsAccepted(0x3d, lex);
  }

  /** A name outside the table falls back to an unsigned literal of at most
      7 bits, and otherwise yields 0xff with an error. */
  lemma NameFallback(name: string, lex: Lexers)
    requires TableLookup(name).None?
    ensures var (i, err) := NoteNameToIndex(name, lex);
      (err.None? <==> lex.unsignedSyntax(name).Some? && lex.unsignedSyntax(name).value < 128) &&
      (err.None? ==> i == lex.unsignedSyntax(name).value) &&
      (err.Some? ==> i == 0xff)
  {
  }
}
