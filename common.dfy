/** Small shared vocabulary: results, optional values, bytes and the Go
    integer operations whose rounding differs from Dafny's. */
module Common {

  datatype Option<+T> = None | Some(value: T)

  datatype Result<+T, +E> = Ok(value: T) | Err(error: E)

  /** A Go `byte`/`uint8`. */
  type Byte = b: int | 0 <= b < 256

  /** Number of MIDI notes (note numbers 0..127). */
  const NoteCount: int := 128

  /** Nanoseconds in a millisecond and a second (Go `time.Duration` units). */
  const Millisecond: int := 1_000_000
  const Second: int := 1_000_000_000

  /** Go's integer division, which truncates toward zero. */
  function TruncDiv(a: int, d: int): int
    requires d > 0
  {
    if a >= 0 then a / d else -((-a) / d)
  }

  function Max(a: int, b: int): (m: int)
    ensures m >= a && m >= b && (m == a || m == b)
  {
    if a >= b then a else b
  }

  /** The clock after `time.Sleep(d)`: Go returns at once for d <= 0. */
  function Sleep(now: int, d: int): (t: int)
    ensures t >= now && t >= now + d
    ensures d <= 0 ==> t == now
  {
    if d > 0 then now + d else now
  }

  /** The parts of Go's `strconv` and `time` parsers that this model does
      not restate: the syntax of an unsigned integer literal with base
      prefix (`strconv.ParseUint(s, 0, _)` before its range check) and of
      a duration (`time.ParseDuration`, in nanoseconds). */
  datatype Lexers = Lexers(unsignedSyntax: string -> Option<nat>, durationSyntax: string -> Option<int>)

  function Pow2(n: nat): (p: nat)
    ensures p >= 1
  {
    if n == 0 then 1 else 2 * Pow2(n - 1)
  }

  /** The ranges of 7- and 8-bit unsigned values. */
  lemma Pow2Bytes()
    ensures Pow2(7) == 128 && Pow2(8) == 256
  {
    assert Pow2(2) == 4;
    assert Pow2(4) == 16;
    assert Pow2(6) == 64;
  }

  /** `strconv.ParseUint(s, 0, bitSize)`: a syntax error, a range error when
      the value does not fit in `bitSize` bits, or the value. */
  function ParseUint(lex: Lexers, s: string, bitSize: nat): (r: Result<nat, string>)
    ensures r.Ok? ==> r.value < Pow2(bitSize)
    ensures r.Ok? <==> lex.unsignedSyntax(s).Some? && lex.unsignedSyntax(s).value < Pow2(bitSize)
  {
    match lex.unsignedSyntax(s)
    case None => Err("invalid syntax")
    case Some(v) => if v < Pow2(bitSize) then Ok(v) else Err("value out of range")
  }
}
