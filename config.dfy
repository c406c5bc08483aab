/** The configuration file reader (parse-config.go): line splitting, the
    option dispatch, the per-option parsers and the keybinding line.

    Configuration text is a sequence of Unicode code points.  The Go code
    works on UTF-8 bytes; the one place where the byte length matters (the
    quoted key code `'x'`, three bytes long) is written out below. */
module Config {
  import opened Common
  import opened Preset
  import opened NoteNames

  // ---- strings.Fields ----

  /** `unicode.IsSpace`: the ASCII white space, U+0085, U+00A0 and the
      Unicode space separators. */
  predicate IsSpace(c: char) {
    var n := c as int;
    (9 <= n <= 13) || n == 32 || n == 0x85 || n == 0xA0 || n == 0x1680 ||
    (0x2000 <= n <= 0x200A) || n == 0x2028 || n == 0x2029 || n == 0x202F ||
    n == 0x205F || n == 0x3000
  }

  /** A field of `strings.Fields`: non-empty, without white space. */
  predicate IsWord(w: string) {
    |w| > 0 && forall i :: 0 <= i < |w| ==> !IsSpace(w[i])
  }

  /** The end of the run of non-space characters that starts at or before `i`. */
  function WordEnd(s: string, i: nat): (n: nat)
    requires i <= |s|
    ensures i <= n <= |s|
    ensures forall j :: i <= j < n ==> !IsSpace(s[j])
    ensures n == |s| || IsSpace(s[n])
    decreases |s| - i
  {
    if i == |s| || IsSpace(s[i]) then i else WordEnd(s, i + 1)
  }

  /** `strings.Fields`: the maximal runs of non-space characters, in order. */
  function Fields(s: string): (r: seq<string>)
    ensures forall k :: 0 <= k < |r| ==> IsWord(r[k])
    decreases |s|
  {
    if s == [] then []
    else if IsSpace(s[0]) then Fields(s[1..])
    else
      var n := WordEnd(s, 1);
      [s[..n]] + Fields(s[n..])
  }

  /** Words joined by single spaces. */
  function JoinWords(ws: seq<string>): string {
    if |ws| == 0 then ""
    else if |ws| == 1 then ws[0]
    else ws[0] + " " + JoinWords(ws[1..])
  }

  lemma {:induction false} WordEndOfWord(w: string, rest: string, i: nat)
    requires IsWord(w) && 1 <= i <= |w|
    requires rest == [] || IsSpace(rest[0])
    ensures WordEnd(w + rest, i) == |w|
    decreases |w| - i
  {
    if i < |w| {
      WordEndOfWord(w, rest, i + 1);
    }
  }

  /** `strings.Fields` splits words joined by spaces back into those words. */
  lemma {:induction false} FieldsOfJoin(ws: seq<string>)
    requires forall k :: 0 <= k < |ws| ==> IsWord(ws[k])
    ensures Fields(JoinWords(ws)) == ws
  {
    if |ws| == 0 {
    } else if |ws| == 1 {
      var w := ws[0];
      WordEndOfWord(w, [], 1);
      assert w + [] == w;
      assert w[|w|..] == [];
    } else {
      var w, rest := ws[0], JoinWords(ws[1..]);
      var s := w + " " + rest;
      assert s == w + (" " + rest);
      WordEndOfWord(w, " " + rest, 1);
      assert s[..|w|] == w;
      assert s[|w|..] == " " + rest;
      assert (" " + rest)[1..] == rest;
      FieldsOfJoin(ws[1..]);
    }
  }

  // ---- bufio.Reader.ReadString('\n') ----

  /** The index of the first newline at or after `i`, if any. */
  function NextNewline(s: string, i: nat): (r: Option<nat>)
    requires i <= |s|
    ensures r.Some? ==> i <= r.value < |s| && s[r.value] == '\n'
    ensures r.Some? ==> forall j :: i <= j < r.value ==> s[j] != '\n'
    ensures r.None? ==> forall j :: i <= j < |s| ==> s[j] != '\n'
    decreases |s| - i
  {
    if i == |s| then None
    else if s[i] == '\n' then Some(i)
    else NextNewline(s, i + 1)
  }

  predicate NoNewline(s: string) {
    forall j :: 0 <= j < |s| ==> s[j] != '\n'
  }

  /** The successive results of `ReadString('\n')` on a file with `content`:
      every line but the last ends with its newline, and the last one (the
      one read together with `io.EOF`, possibly empty) has none. */
  function SplitLines(content: string): (lines: seq<string>)
    ensures |lines| >= 1
    ensures forall k :: 0 <= k < |lines| - 1 ==> |lines[k]| > 0 && lines[k][|lines[k]| - 1] == '\n'
    ensures forall k, j :: 0 <= k < |lines| - 1 && 0 <= j < |lines[k]| - 1 ==> lines[k][j] != '\n'
    ensures NoNewline(lines[|lines| - 1])
    decreases |content|
  {
    match NextNewline(content, 0)
    case None => [content]
    case Some(k) =>
      var rest := SplitLines(content[k + 1..]);
      assert ([content[..k + 1]] + rest)[|rest|] == rest[|rest| - 1];
      [content[..k + 1]] + rest
  }

  function Concat(lines: seq<string>): string {
    if lines == [] then "" else lines[0] + Concat(lines[1..])
  }

  /** Reading line by line loses nothing and adds nothing. */
  lemma {:induction false} SplitLinesConcat(content: string)
    ensures Concat(SplitLines(content)) == content
    decreases |content|
  {
    match NextNewline(content, 0)
    case None =>
      assert SplitLines(content) == [content];
      assert content + "" == content;
    case Some(k) =>
      SplitLinesConcat(content[k + 1..]);
      assert content == content[..k + 1] + content[k + 1..];
  }

  // ---- the options ----

  /** The errors the option parsers return. */
  datatype ConfigError =
    | SyntaxError(option: string)
    | SpaceNotAllowed(option: string)
    | UnrecognizedOption(option: string)
    | UnrecognizedModifier(word: string)
    | UnrecognizedNoteName(name: string)
    | InvalidValue(text: string)

  /** `parseConfigDuration`: exactly one argument, a Go duration. */
  function ParseConfigDuration(fields: seq<string>, lex: Lexers): (r: Result<int, ConfigError>)
    requires |fields| >= 1
    ensures r.Ok? <==> |fields| == 2 && lex.durationSyntax(fields[1]).Some?
    ensures r.Ok? ==> r.value == lex.durationSyntax(fields[1]).value
    ensures |fields| != 2 ==> r == Err(SyntaxError(fields[0]))
  {
    if |fields| != 2 then Err(SyntaxError(fields[0]))
    else match lex.durationSyntax(fields[1])
      case None => Err(InvalidValue(fields[1]))
      case Some(d) => Ok(d)
  }

  /** `parseConfigUint8`: exactly one argument, an unsigned literal that
      fits in 8 bits. */
  function ParseConfigUint8(fields: seq<string>, lex: Lexers): (r: Result<Byte, ConfigError>)
    requires |fields| >= 1
    ensures r.Ok? <==> |fields| == 2 && lex.unsignedSyntax(fields[1]).Some? && lex.unsignedSyntax(fields[1]).value < 256
    ensures r.Ok? ==> r.value == lex.unsignedSyntax(fields[1]).value
    ensures |fields| != 2 ==> r == Err(SyntaxError(fields[0]))
  {
    if |fields| != 2 then Err(SyntaxError(fields[0]))
    else
      Pow2Bytes();
      match ParseUint(lex, fields[1], 8)
      case Err(_) => Err(InvalidValue(fields[1]))
      case Ok(v) => Ok(v)
  }

  /** `parseConfigString`: at most one argument; none means "". */
  function ParseConfigString(fields: seq<string>): (r: Result<string, ConfigError>)
    requires |fields| >= 1
    ensures r.Err? <==> |fields| > 2
    ensures r.Err? ==> r.error == SpaceNotAllowed(fields[0])
    ensures |fields| == 1 ==> r == Ok("")
    ensures |fields| == 2 ==> r == Ok(fields[1])
  {
    if |fields| > 2 then Err(SpaceNotAllowed(fields[0]))
    else if |fields| == 1 then Ok("")
    else Ok(fields[1])
  }

  // ---- the keybinding line ----

  /** The case-folding class of a character, enough to compare against an
      ASCII word as `strings.EqualFold` does: ASCII letters fold to lower
      case, U+017F (long s) to 's' and U+212A (Kelvin sign) to 'k'. */
  function FoldClass(c: char): char {
    if 'A' <= c <= 'Z' then (c as int + 32) as char
    else if c as int == 0x017F then 's'
    else if c as int == 0x212A then 'k'
    else c
  }

  /** `strings.EqualFold(w, word)` for an ASCII `word`. */
  predicate EqualFold(w: string, word: string) {
    |w| == |word| && forall i :: 0 <= i < |w| ==> FoldClass(w[i]) == FoldClass(word[i])
  }

  predicate IsModifierWord(w: string) {
    EqualFold(w, "Ctrl") || EqualFold(w, "Alt") || EqualFold(w, "Shift")
  }

  /** True when one of `words` names the modifier `m`. */
  predicate HasModifier(words: seq<string>, m: string) {
    exists i :: 0 <= i < |words| && EqualFold(words[i], m)
  }

  /** The first word that names no modifier. */
  function FirstNonModifier(words: seq<string>): (r: Option<string>)
    ensures r.None? <==> forall i :: 0 <= i < |words| ==> IsModifierWord(words[i])
    ensures r.Some? ==> exists i :: 0 <= i < |words| && r.value == words[i] && !IsModifierWord(words[i]) &&
                                    forall j :: 0 <= j < i ==> IsModifierWord(words[j])
  {
    if words == [] then None
    else if !IsModifierWord(words[0]) then Some(words[0])
    else
      var r := FirstNonModifier(words[1..]);
      assert r.Some? ==> exists i :: 1 <= i < |words| && r.value == words[i] && !IsModifierWord(words[i]) &&
                                     forall j :: 0 <= j < i ==> IsModifierWord(words[j]) by {
        if r.Some? {
          var i :| 0 <= i < |words| - 1 && r.value == words[1..][i] && !IsModifierWord(words[1..][i]) &&
                   forall j :: 0 <= j < i ==> IsModifierWord(words[1..][j]);
          assert forall j :: 0 <= j < i + 1 ==> IsModifierWord(words[j]) by {
            forall j | 0 <= j < i + 1 ensures IsModifierWord(words[j]) {
              if j > 0 { assert words[j] == words[1..][j - 1]; }
            }
          }
        }
      }
      assert r.None? ==> forall i :: 0 <= i < |words| ==> IsModifierWord(words[i]) by {
        if r.None? {
          forall i | 0 <= i < |words| ensures IsModifierWord(words[i]) {
            if i > 0 { assert words[i] == words[1..][i - 1]; }
          }
        }
      }
      r
  }

  /** The modifier loop of `parseConfigKeybinding`: sets a flag per
      recognised word and stops at the first word that is none of them. */
  method ParseModifiers(words: seq<string>) returns (ctrl: bool, alt: bool, shift: bool, bad: Option<string>)
    ensures bad == FirstNonModifier(words)
    ensures bad.None? ==> ctrl == HasModifier(words, "Ctrl")
    ensures bad.None? ==> alt == HasModifier(words, "Alt")
    ensures bad.None? ==> shift == HasModifier(words, "Shift")
  {
    ctrl, alt, shift := false, false, false;
    var i := 0;
    while i < |words|
      invariant 0 <= i <= |words|
      invariant forall j :: 0 <= j < i ==> IsModifierWord(words[j])
      invariant ctrl == HasModifier(words[..i], "Ctrl")
      invariant alt == HasModifier(words[..i], "Alt")
      invariant shift == HasModifier(words[..i], "Shift")
    {
      var w := words[i];
      assert words[..i + 1] == words[..i] + [w];
      if EqualFold(w, "Ctrl") {
        ctrl := true;
      } else if EqualFold(w, "Alt") {
        alt := true;
      } else if EqualFold(w, "Shift") {
        shift := true;
      } else {
        bad := Some(w);
        return;
      }
      i := i + 1;
    }
    assert words[..i] == words;
    bad := None;
  }

  /** `bytes.ToUpper` of one ASCII byte. */
  function UpperAscii(c: char): (b: Byte)
    requires (c as int) < 0x80
    ensures 'a' <= c <= 'z' ==> b == c as int - 32
    ensures !('a' <= c <= 'z') ==> b == c as int
  {
    if 'a' <= c <= 'z' then c as int - 32 else c as int
  }

  /** The key code written as `'x'`: a quote, one byte, a quote. */
  predicate IsQuotedKey(vk: string) {
    |vk| == 3 && vk[0] == '\'' && vk[2] == '\'' && (vk[1] as int) < 0x80
  }

  /** The key code of a keybinding line: a quoted character, upper-cased,
      or an unsigned literal that fits in 8 bits. */
  function KeyCode(vk: string, lex: Lexers): (r: Result<Byte, ConfigError>)
    ensures IsQuotedKey(vk) ==> r == Ok(UpperAscii(vk[1]))
    ensures !IsQuotedKey(vk) ==> (r.Ok? <==> lex.unsignedSyntax(vk).Some? && lex.unsignedSyntax(vk).value < 256)
    ensures !IsQuotedKey(vk) && r.Ok? ==> r.value == lex.unsignedSyntax(vk).value
  {
    if IsQuotedKey(vk) then Ok(UpperAscii(vk[1]))
    else
      Pow2Bytes();
      match ParseUint(lex, vk, 8)
      case Err(_) => Err(InvalidValue(vk))
      case Ok(v) => Ok(v)
  }

  /** `parseConfigKeybinding` on a table: `Keybinding <note> <modifier>... <key>`.
      On success exactly the row of the note is replaced. */
  function KeybindingLine(fields: seq<string>, table: seq<Binding>, lex: Lexers): (r: Result<seq<Binding>, ConfigError>)
    requires |fields| >= 1 && |table| == NoteCount
    ensures r.Ok? <==> |fields| >= 3 && NoteNameToIndex(fields[1], lex).1.None? &&
                       KeyCode(fields[|fields| - 1], lex).Ok? &&
                       FirstNonModifier(fields[2..|fields| - 1]).None?
    ensures r.Ok? ==>
      var note := NoteNameToIndex(fields[1], lex).0;
      var mods := fields[2..|fields| - 1];
      |r.value| == NoteCount && note < NoteCount &&
      r.value[note] == Binding(HasModifier(mods, "Ctrl"), HasModifier(mods, "Alt"), HasModifier(mods, "Shift"),
                               KeyCode(fields[|fields| - 1], lex).value) &&
      forall j :: 0 <= j < NoteCount && j != note ==> r.value[j] == table[j]
    ensures |fields| < 3 ==> r == Err(SyntaxError(fields[0]))
  {
    if |fields| < 3 then Err(SyntaxError(fields[0]))
    else
      var (note, noteErr) := NoteNameToIndex(fields[1], lex);
      if noteErr.Some? then Err(UnrecognizedNoteName(fields[1]))
      else match KeyCode(fields[|fields| - 1], lex)
        case Err(e) => Err(e)
        case Ok(vk) =>
          var mods := fields[2..|fields| - 1];
          match FirstNonModifier(mods)
          case Some(w) => Err(UnrecognizedModifier(w))
          case None =>
            Ok(table[note := Binding(HasModifier(mods, "Ctrl"), HasModifier(mods, "Alt"), HasModifier(mods, "Shift"), vk)])
  }

  /** `parseConfigKeybinding`, with its modifier loop. */
  method ParseConfigKeybinding(fields: seq<string>, table: seq<Binding>, lex: Lexers)
    returns (table': seq<Binding>, err: Option<ConfigError>)
    requires |fields| >= 1 && |table| == NoteCount
    ensures err.None? <==> KeybindingLine(fields, table, lex).Ok?
    ensures err.None? ==> table' == KeybindingLine(fields, table, lex).value
    ensures err.Some? ==> table' == table && err.value == KeybindingLine(fields, table, lex).error
  {
    table' := table;
    if |fields| < 3 {
      return table, Some(SyntaxError(fields[0]));
    }
    var note, noteErr := NoteNameToIndex(fields[1], lex).0, NoteNameToIndex(fields[1], lex).1;
    if noteErr.Some? {
      return table, Some(UnrecognizedNoteName(fields[1]));
    }
    var vk := fields[|fields| - 1];
    var code := KeyCode(vk, lex);
    if code.Err? {
      return table, Some(code.error);
    }
    var ctrl, alt, shift, bad := ParseModifiers(fields[2..|fields| - 1]);
    if bad.Some? {
      return table, Some(UnrecognizedModifier(bad.value));
    }
    table' := table[note := Binding(ctrl, alt, shift, code.value)];
    err := None;
  }

  /** A quoted lower-case letter binds the upper-case key. */
  lemma QuotedKeyUpperCased(c: char, lex: Lexers)
    requires 'a' <= c <= 'z'
    ensures KeyCode(['\'', c, '\''], lex) == Ok(c as int - 32)
  {
  }

  // ---- the option dispatch and the line loop ----

  /** The option names `parseConfigFile` recognises. */
  const OptionNames: set<string> := {"IdleDuration", "MaxNoteDelay", "SkillCooldown", "ModifierCooldown",
    "NtpSyncTimeout", "NtpCooldown", "MinTriggerVelocity", "Keybinding", "WebListenAddr", "WebUsername", "WebPassword"}

  /** One option line, dispatched on its first field. */
  function ApplyOption(s: Settings, fields: seq<string>, lex: Lexers): (r: Result<Settings, ConfigError>)
    requires s.Valid() && |fields| >= 1
    ensures r.Ok? ==> r.value.Valid()
    ensures fields[0] !in OptionNames ==> r == Err(UnrecognizedOption(fields[0]))
    ensures r.Ok? ==> r.value.configFile == s.configFile
  {
    var name := fields[0];
    if name == "IdleDuration" then
      match ParseConfigDuration(fields, lex) case Err(e) => Err(e) case Ok(d) => Ok(s.(idleDuration := d))
    else if name == "MaxNoteDelay" then
      match ParseConfigDuration(fields, lex) case Err(e) => Err(e) case Ok(d) => Ok(s.(maxNoteDelay := d))
    else if name == "SkillCooldown" then
      match ParseConfigDuration(fields, lex) case Err(e) => Err(e) case Ok(d) => Ok(s.(skillCooldown := d))
    else if name == "ModifierCooldown" then
      match ParseConfigDuration(fields, lex) case Err(e) => Err(e) case Ok(d) => Ok(s.(modifierCooldown := d))
    else if name == "NtpSyncTimeout" then
      match ParseConfigDuration(fields, lex) case Err(e) => Err(e) case Ok(d) => Ok(s.(ntpSyncTimeout := d))
    else if name == "NtpCooldown" then
      match ParseConfigDuration(fields, lex) case Err(e) => Err(e) case Ok(d) => Ok(s.(ntpCooldown := d))
    else if name == "MinTriggerVelocity" then
      match ParseConfigUint8(fields, lex) case Err(e) => Err(e) case Ok(v) => Ok(s.(minTriggerVelocity := v))
    else if name == "Keybinding" then
      match KeybindingLine(fields, s.keybinding, lex) case Err(e) => Err(e) case Ok(t) => Ok(s.(keybinding := t))
    else if name == "WebListenAddr" then
      match ParseConfigString(fields) case Err(e) => Err(e) case Ok(v) => Ok(s.(webListenAddr := v))
    else if name == "WebUsername" then
      match ParseConfigString(fields) case Err(e) => Err(e) case Ok(v) => Ok(s.(webUsername := v))
    else if name == "WebPassword" then
      match ParseConfigString(fields) case Err(e) => Err(e) case Ok(v) => Ok(s.(webPassword := v))
    else Err(UnrecognizedOption(name))
  }

  /** A line the loop skips: a comment (a '#' in the very first column) or
      one without fields. */
  predicate Skipped(line: string) {
    (|line| > 0 && line[0] == '#') || Fields(line) == []
  }

  /** The effect of a sequence of lines on the settings: skipped lines do
      nothing, the first failing option stops the loop with its error and the
      options before it stay applied. */
  function ApplyLines(s: Settings, lines: seq<string>, lex: Lexers): (r: (Settings, Option<ConfigError>))
    requires s.Valid()
    ensures r.0.Valid()
    ensures r.0.configFile == s.configFile
    decreases |lines|
  {
    if lines == [] then (s, None)
    else if Skipped(lines[0]) then ApplyLines(s, lines[1..], lex)
    else match ApplyOption(s, Fields(lines[0]), lex)
      case Err(e) => (s, Some(e))
      case Ok(s') => ApplyLines(s', lines[1..], lex)
  }

  /** `parseConfigFile`: `None` stands for a file that cannot be opened,
      which keeps the current settings and is no error. */
  method ParseConfigFile(s: Settings, file: Option<string>, lex: Lexers) returns (s': Settings, err: Option<ConfigError>)
    requires s.Valid()
    ensures file.None? ==> s' == s && err.None?
    ensures file.Some? ==> (s', err) == ApplyLines(s, SplitLines(file.value), lex)
    ensures s'.Valid()
  {
    if file.None? {
      return s, None;
    }
    var lines := SplitLines(file.value);
    var i := 0;
    s' := s;
    while i < |lines|
      invariant 0 <= i <= |lines|
      invariant s'.Valid()
      invariant ApplyLines(s', lines[i..], lex) == ApplyLines(s, lines, lex)
    {
      var line, eof := lines[i], i == |lines| - 1;
      assert lines[i..][1..] == lines[i + 1..];
      if |line| > 0 && line[0] == '#' {
        i := i + 1;
        continue;
      }
      var fields := Fields(line);
      if |fields| == 0 {
        if eof {
          i := i + 1;
          break;
        }
        i := i + 1;
        continue;
      }
      var next, e := ParseConfigOption(s', fields, lex);
      if e.Some? {
        return s', e;
      }
      s' := next;
      i := i + 1;
      if eof {
        break;
      }
    }
    assert lines[i..] == [];
    err := None;
  }

  /** The `switch` on the option name for one line with fields; a
      keybinding line gives the settings with the table that has that
      note's row replaced. */
  method ParseConfigOption(s: Settings, fields: seq<string>, lex: Lexers) returns (next: Settings, e: Option<ConfigError>)
    requires s.Valid() && |fields| >= 1
    ensures e.None? ==> ApplyOption(s, fields, lex) == Ok(next)
    ensures e.Some? ==> ApplyOption(s, fields, lex) == Err(e.value)
  {
    if fields[0] == "Keybinding" {
      var table, kerr := ParseConfigKeybinding(fields, s.keybinding, lex);
      next, e := s.(keybinding := table), kerr;
    } else {
      var r := ApplyOption(s, fields, lex);
      next, e := if r.Ok? then r.value else s, if r.Err? then Some(r.error) else None;
    }
  }

  /** Lines after the first failing option have no effect, and the options
      before it stay applied. */
  lemma {:induction false} ApplyLinesAppend(s: Settings, a: seq<string>, b: seq<string>, lex: Lexers)
    requires s.Valid()
    ensures ApplyLines(s, a, lex).1.Some? ==> ApplyLines(s, a + b, lex) == ApplyLines(s, a, lex)
    ensures ApplyLines(s, a, lex).1.None? ==> ApplyLines(s, a + b, lex) == ApplyLines(ApplyLines(s, a, lex).0, b, lex)
    decreases |a|
  {
    if a == [] {
      assert a + b == b;
    } else {
      assert (a + b)[0] == a[0];
      assert (a + b)[1..] == a[1..] + b;
      if Skipped(a[0]) {
        ApplyLinesAppend(s, a[1..], b, lex);
      } else {
        match ApplyOption(s, Fields(a[0]), lex)
        case Err(_) =>
        case Ok(s') => ApplyLinesAppend(s', a[1..], b, lex);
      }
    }
  }

  /** A file of comments and blank lines changes nothing. */
  lemma {:induction false} OnlySkippedLines(s: Settings, lines: seq<string>, lex: Lexers)
    requires s.Valid()
    requires forall k :: 0 <= k < |lines| ==> Skipped(lines[k])
    ensures ApplyLines(s, lines, lex) == (s, None)
    decreases |lines|
  {
    if lines != [] {
      assert forall k :: 0 <= k < |lines| - 1 ==> lines[1..][k] == lines[k + 1];
      OnlySkippedLines(s, lines[1..], lex);
    }
  }

  /** A line whose first field is no option name stops the loop with an
      error and leaves the settings as they were before it. */
  lemma UnknownOptionStops(s: Settings, pre: seq<string>, line: string, post: seq<string>, lex: Lexers)
    requires s.Valid()
    requires ApplyLines(s, pre, lex).1.None?
    requires !Skipped(line) && Fields(line)[0] !in OptionNames
    ensures ApplyLines(s, pre + [line] + post, lex) == (ApplyLines(s, pre, lex).0, Some(UnrecognizedOption(Fields(line)[0])))
  {
    ApplyLinesAppend(s, pre, [line] + post, lex);
    assert pre + [line] + post == pre + ([line] + post);
    assert ([line] + post)[1..] == post;
  }
}
