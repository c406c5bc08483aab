/** The tempo map of `setMidiPlaybackFile` (midi-playback.go): every event
    of a Standard MIDI File track gets its absolute tick and its absolute
    time in microseconds times ticks-per-beat, accumulated over the tempo
    changes (`tempoTable`) met so far. */
module Tempo {
  import opened Common

  /** `tempoEntry`: from `ticksElapsed` on, a beat lasts `microsecondsPerBeat`. */
  datatype TempoEntry = TempoEntry(ticksElapsed: int, microsecondsPerBeat: int)

  /** `midiFileAbsoluteTime`: `numerator / denominator` microseconds. */
  datatype AbsoluteTime = AbsoluteTime(numerator: int, denominator: int)

  /** `midiFileEvent`. */
  datatype FileEvent = FileEvent(ticksElapsed: int, microseconds: AbsoluteTime, message: seq<Byte>)

  /** An event as the SMF decoder delivers it: channel, meta, system
      exclusive or something else. */
  datatype SmfBody =
    | ChannelEvent(status: Byte, data: seq<Byte>)
    | MetaEvent(metaType: Byte, data: seq<Byte>)
    | SysexEvent(status: Byte, data: seq<Byte>)
    | OtherEvent

  /** A decoded event with its delta time in ticks (a `uint32`). */
  datatype SmfEvent = SmfEvent(delta: nat, body: SmfBody)

  /** A decoded file: format, whether its division is SMPTE, its ticks per
      beat (a `uint16`) and its tracks. */
  datatype SmfFile = SmfFile(format: nat, smpte: bool, ticksPerBeat: int, tracks: seq<seq<SmfEvent>>)

  const MetaStatus: Byte := 0xff
  const MetaSetTempo: Byte := 0x51
  /** 120 beats per minute, the tempo before any set-tempo event. */
  const DefaultTempo: int := 500000

  // ---- message bytes ----

  /** The variable-length quantity of the SMF format: 7-bit groups, most
      significant first, with bit 7 set on every group but the last. */
  function Vlq(n: nat): (v: seq<Byte>)
    ensures |v| >= 1 && v[|v| - 1] == n % 0x80
    ensures n < 0x80 <==> |v| == 1
  {
    VlqHigh(n / 0x80) + [n % 0x80]
  }

  function VlqHigh(n: nat): (v: seq<Byte>)
    ensures n == 0 <==> |v| == 0
    ensures forall i :: 0 <= i < |v| ==> v[i] >= 0x80
  {
    if n == 0 then [] else VlqHigh(n / 0x80) + [0x80 + n % 0x80]
  }

  /** The value a `Vlq` encodes. */
  function VlqValue(v: seq<Byte>): int {
    if |v| == 0 then 0 else VlqValue(v[..|v| - 1]) * 0x80 + v[|v| - 1] % 0x80
  }

  lemma {:induction false} VlqHighValue(n: nat)
    ensures VlqValue(VlqHigh(n)) == n
    decreases n
  {
    if n > 0 {
      VlqHighValue(n / 0x80);
      var v := VlqHigh(n / 0x80) + [0x80 + n % 0x80];
      assert v[..|v| - 1] == VlqHigh(n / 0x80);
    }
  }

  /** `Vlq` is decoded back to the length it encodes. */
  lemma VlqRoundTrip(n: nat)
    ensures VlqValue(Vlq(n)) == n
  {
    VlqHighValue(n / 0x80);
    var v := Vlq(n);
    assert v[..|v| - 1] == VlqHigh(n / 0x80);
  }

  /** The message bytes stored for an event; `None` for an event kind the
      player does not know. */
  function EventMessage(body: SmfBody): Option<seq<Byte>> {
    match body
    case ChannelEvent(status, data) => Some([status] + data)
    case MetaEvent(metaType, data) => Some([MetaStatus, metaType] + Vlq(|data|) + data)
    case SysexEvent(status, data) => Some([status] + Vlq(|data|) + data)
    case OtherEvent => None
  }

  /** A meta event whose bytes announce a tempo change. */
  predicate SetsTempo(body: SmfBody) {
    body.MetaEvent? && var m := EventMessage(body).value; |m| > 2 && m[1] == MetaSetTempo
  }

  /** The event is stored without error: a known kind, and a tempo change
      of exactly `ff 51 03 tt tt tt`. */
  predicate BodyOk(body: SmfBody) {
    !body.OtherEvent? &&
    (SetsTempo(body) ==> var m := EventMessage(body).value; |m| == 6 && m[2] == 3)
  }

  function BodyError(body: SmfBody): string {
    if body.OtherEvent? then "Unrecognized MIDI event" else "Unrecognized MIDI tempo settings"
  }

  /** A tempo change is accepted exactly when it carries three data bytes. */
  lemma TempoWellFormed(data: seq<Byte>)
    ensures SetsTempo(MetaEvent(MetaSetTempo, data))
    ensures BodyOk(MetaEvent(MetaSetTempo, data)) <==> |data| == 3
  {
    var v := Vlq(|data|);
    if |data| >= 0x80 {
      assert |VlqHigh(|data| / 0x80)| >= 1;
    }
  }

  /** `a<<16 | b<<8 | c` of the three tempo bytes. */
  function TempoOf(m: seq<Byte>): (t: int)
    requires |m| == 6
    ensures 0 <= t < 0x100_0000
  {
    (m[3] as int) * 0x1_0000 + (m[4] as int) * 0x100 + m[5]
  }

  // ---- ticks and the tempo table a track produces ----

  /** The absolute tick after the first `k` events. */
  function Prefix(events: seq<SmfEvent>, k: nat): int
    requires k <= |events|
  {
    if k == 0 then 0 else Prefix(events, k - 1) + events[k - 1].delta
  }

  lemma {:induction false} PrefixMonotone(events: seq<SmfEvent>, i: nat, k: nat)
    requires i <= k <= |events|
    ensures 0 <= Prefix(events, i) <= Prefix(events, k)
    decreases k
  {
    if k > 0 {
      PrefixMonotone(events, 0, k - 1);
      if i < k {
        PrefixMonotone(events, i, k - 1);
      }
    }
  }

  /** The entries the first `k` events add to the tempo table. */
  function TempoEntries(events: seq<SmfEvent>, k: nat): seq<TempoEntry>
    requires k <= |events|
    requires forall i :: 0 <= i < k ==> BodyOk(events[i].body)
  {
    if k == 0 then []
    else
      var body := events[k - 1].body;
      assert BodyOk(body);
      TempoEntries(events, k - 1) +
      (if SetsTempo(body) then [TempoEntry(Prefix(events, k), TempoOf(EventMessage(body).value))] else [])
  }

  // ---- the reference semantics of a tempo table ----

  ghost predicate Sorted(table: seq<TempoEntry>) {
    forall i, j :: 0 <= i < j < |table| ==> table[i].ticksElapsed <= table[j].ticksElapsed
  }

  /** The microseconds per beat in force during tick `u`: the latest entry
      starting at or before `u`, else the default. */
  function TempoAt(table: seq<TempoEntry>, u: int): int {
    if |table| == 0 then DefaultTempo
    else if table[|table| - 1].ticksElapsed <= u then table[|table| - 1].microsecondsPerBeat
    else TempoAt(table[..|table| - 1], u)
  }

  /** Microseconds times ticks-per-beat from tick 0 to tick `t`: each tick
      weighs the tempo in force during it. */
  function Integral(table: seq<TempoEntry>, t: int): int
    decreases if t > 0 then t else 0
  {
    if t <= 0 then 0 else Integral(table, t - 1) + TempoAt(table, t - 1)
  }

  /** The tempo after the first `next` entries have been passed. */
  function TempoOfPrefix(table: seq<TempoEntry>, next: int): int
    requires 0 <= next <= |table|
  {
    if next == 0 then DefaultTempo else table[next - 1].microsecondsPerBeat
  }

  lemma {:induction false} TempoAtSplit(table: seq<TempoEntry>, next: int, u: int)
    requires 0 <= next <= |table|
    requires forall j :: 0 <= j < next ==> table[j].ticksElapsed <= u
    requires forall j :: next <= j < |table| ==> table[j].ticksElapsed > u
    ensures TempoAt(table, u) == TempoOfPrefix(table, next)
    decreases |table|
  {
    if |table| > 0 && next < |table| {
      var front := table[..|table| - 1];
      TempoAtSplit(front, next, u);
    }
  }

  lemma {:induction false} IntegralConstant(table: seq<TempoEntry>, a: int, b: int, tempo: int)
    requires 0 <= a <= b
    requires forall u :: a <= u < b ==> TempoAt(table, u) == tempo
    ensures Integral(table, b) == Integral(table, a) + (b - a) * tempo
    decreases b
  {
    if b > a {
      IntegralConstant(table, a, b - 1, tempo);
      assert (b - 1 - a) * tempo + tempo == (b - a) * tempo;
    }
  }

  lemma {:induction false} IntegralAppend(table: seq<TempoEntry>, e: TempoEntry, t: int)
    requires e.ticksElapsed >= t
    ensures Integral(table + [e], t) == Integral(table, t)
    decreases if t > 0 then t else 0
  {
    if t > 0 {
      IntegralAppend(table, e, t - 1);
      assert (table + [e])[..|table|] == table;
    }
  }

  /** The state of the inner loop of the tempo accumulation when the table
      is sorted: the entries passed start no later than `ticks`, the others
      no earlier; `perBeat` is the tempo of the last entry passed, unless an
      entry starting exactly at `ticks` is still to be passed; and `num` is
      the reference integral up to `ticks`. */
  ghost predicate Accumulated(table: seq<TempoEntry>, next: int, ticks: int, perBeat: int, num: int) {
    Sorted(table) && 0 <= next <= |table| && ticks >= 0 &&
    (forall j :: 0 <= j < next ==> table[j].ticksElapsed <= ticks) &&
    (forall j :: next <= j < |table| ==> table[j].ticksElapsed >= ticks) &&
    ((next < |table| && table[next].ticksElapsed == ticks) || perBeat == TempoOfPrefix(table, next)) &&
    num == Integral(table, ticks)
  }

  /** Passing the next entry, which starts at or after `ticks`, keeps the
      accumulation. */
  lemma AccumulatedPass(table: seq<TempoEntry>, next: int, ticks: int, perBeat: int, num: int)
    requires Accumulated(table, next, ticks, perBeat, num) && next < |table|
    ensures var start := table[next].ticksElapsed;
      Accumulated(table, next + 1, start, table[next].microsecondsPerBeat, num + (start - ticks) * perBeat)
  {
    var start := table[next].ticksElapsed;
    if start != ticks {
      forall u | ticks <= u < start
        ensures TempoAt(table, u) == perBeat
      {
        TempoAtSplit(table, next, u);
      }
      IntegralConstant(table, ticks, start, perBeat);
    }
  }

  /** Advancing by `delta` ticks before the next entry keeps the
      accumulation. */
  lemma AccumulatedRest(table: seq<TempoEntry>, next: int, ticks: int, perBeat: int, num: int, delta: int)
    requires Accumulated(table, next, ticks, perBeat, num) && delta >= 0
    requires next == |table| || table[next].ticksElapsed >= ticks + delta
    ensures Accumulated(table, next, ticks + delta, perBeat, num + delta * perBeat)
  {
    if delta > 0 {
      forall u | ticks <= u < ticks + delta
        ensures TempoAt(table, u) == perBeat
      {
        TempoAtSplit(table, next, u);
      }
      IntegralConstant(table, ticks, ticks + delta, perBeat);
    }
  }

  /** The inner loop of the accumulation and the step after it: passes
      every entry that starts strictly inside the next `delta` ticks and
      advances `ticks` and `num` by `delta` ticks. */
  method Advance(table: seq<TempoEntry>, next0: int, ticks0: int, delta0: int, perBeat0: int, num0: int)
    returns (next: int, ticks: int, perBeat: int, num: int)
    requires 0 <= next0 <= |table| && delta0 >= 0
    ensures next0 <= next <= |table| && ticks == ticks0 + delta0
    ensures Accumulated(table, next0, ticks0, perBeat0, num0) ==> Accumulated(table, next, ticks, perBeat, num)
  {
    ghost var good := Accumulated(table, next0, ticks0, perBeat0, num0);
    next, ticks, perBeat, num := next0, ticks0, perBeat0, num0;
    var delta := delta0;
    while next < |table| && ticks + delta > table[next].ticksElapsed
      invariant next0 <= next <= |table| && ticks + delta == ticks0 + delta0
      invariant good ==> Accumulated(table, next, ticks, perBeat, num) && delta >= 0
      decreases |table| - next
    {
      var start := table[next].ticksElapsed;
      if good {
        AccumulatedPass(table, next, ticks, perBeat, num);
      }
      delta := delta - (start - ticks);
      num := num + (start - ticks) * perBeat;
      perBeat := table[next].microsecondsPerBeat;
      ticks := start;
      next := next + 1;
    }
    if good {
      AccumulatedRest(table, next, ticks, perBeat, num, delta);
    }
    num := num + delta * perBeat;
    ticks := ticks + delta;
  }

  /** The starting table is sorted, starts at tick 0 or later, and every
      tempo change of the track comes at or after all of its entries; then
      the table stays sorted while the track is read. */
  ghost predicate InOrder(table0: seq<TempoEntry>, events: seq<SmfEvent>) {
    Sorted(table0) && (forall j :: 0 <= j < |table0| ==> table0[j].ticksElapsed >= 0) &&
    forall k :: 0 <= k < |events| && SetsTempo(events[k].body) ==>
      forall j :: 0 <= j < |table0| ==> table0[j].ticksElapsed <= Prefix(events, k + 1)
  }

  /** The stored form of a track's `k`-th event. */
  ghost predicate StoredAs(events: seq<SmfEvent>, k: nat, e: FileEvent, ticksPerBeat: int)
    requires k < |events|
  {
    e.ticksElapsed == Prefix(events, k + 1) &&
    EventMessage(events[k].body) == Some(e.message) &&
    e.microseconds.denominator == ticksPerBeat
  }

  /** Each stored event's time is the reference integral up to its tick. */
  ghost predicate TimesMatch(track: seq<FileEvent>, table: seq<TempoEntry>) {
    forall i :: 0 <= i < |track| ==> track[i].microseconds.numerator == Integral(table, track[i].ticksElapsed)
  }

  ghost predicate TicksUpTo(track: seq<FileEvent>, ticks: int) {
    forall i :: 0 <= i < |track| ==> track[i].ticksElapsed <= ticks
  }

  /** Appending a tempo change at the current tick, when no entry starts
      later, keeps the accumulation state and the times already stored. */
  lemma AppendTempo(table: seq<TempoEntry>, next: int, ticks: int, perBeat: int, num: int, entry: TempoEntry, track: seq<FileEvent>)
    requires Accumulated(table, next, ticks, perBeat, num)
    requires entry.ticksElapsed == ticks
    requires forall j :: 0 <= j < |table| ==> table[j].ticksElapsed <= ticks
    requires TimesMatch(track, table) && TicksUpTo(track, ticks)
    ensures Accumulated(table + [entry], next, ticks, entry.microsecondsPerBeat, num)
    ensures TimesMatch(track, table + [entry])
  {
    var t := table + [entry];
    forall i | 0 <= i < |track|
      ensures Integral(t, track[i].ticksElapsed) == Integral(table, track[i].ticksElapsed)
    {
      IntegralAppend(table, entry, track[i].ticksElapsed);
    }
    IntegralAppend(table, entry, ticks);
  }

  /** What holds after the first `k` events of a track have been stored. */
  ghost predicate TrackRead(events: seq<SmfEvent>, k: int, table0: seq<TempoEntry>, ticksPerBeat: int,
                            track: seq<FileEvent>, table: seq<TempoEntry>, next: int, ticks: int, perBeat: int, num: int)
  {
    0 <= k <= |events| && |track| == k && 0 <= next <= |table| &&
    (forall i :: 0 <= i < k ==> BodyOk(events[i].body)) &&
    ticks == Prefix(events, k) &&
    table == table0 + TempoEntries(events, k) &&
    (forall i :: 0 <= i < k ==> StoredAs(events, i, track[i], ticksPerBeat)) &&
    (forall j :: |table0| <= j < |table| ==> table[j].ticksElapsed <= ticks) &&
    TicksUpTo(track, ticks) &&
    (InOrder(table0, events) ==> Accumulated(table, next, ticks, perBeat, num) && TimesMatch(track, table))
  }

  /** One turn of the track loop: reads event `k`, or reports why it
      cannot be stored. */
  method ReadEvent(events: seq<SmfEvent>, k: int, table0: seq<TempoEntry>, ticksPerBeat: int,
                   track0: seq<FileEvent>, table1: seq<TempoEntry>, next0: int, ticks0: int, perBeat0: int, num0: int)
    returns (track: seq<FileEvent>, table: seq<TempoEntry>, next: int, ticks: int, perBeat: int, num: int, err: Option<string>)
    requires k < |events| && TrackRead(events, k, table0, ticksPerBeat, track0, table1, next0, ticks0, perBeat0, num0)
    ensures err.None? <==> BodyOk(events[k].body)
    ensures err.Some? ==> err.value == BodyError(events[k].body)
    ensures err.None? ==> TrackRead(events, k + 1, table0, ticksPerBeat, track, table, next, ticks, perBeat, num)
  {
    ghost var good := InOrder(table0, events);
    var event := events[k];
    track, table := track0, table1;
    next, ticks, perBeat, num := Advance(table, next0, ticks0, event.delta, perBeat0, num0);
    err := None;
    if event.body.OtherEvent? {
      err := Some("Unrecognized MIDI event");
      return;
    }
    var message := EventMessage(event.body).value;
    if event.body.MetaEvent? && |message| > 2 && message[1] == MetaSetTempo {
      if |message| != 6 || message[2] != 3 {
        err := Some("Unrecognized MIDI tempo settings");
        return;
      }
      var entry := TempoEntry(ticks, TempoOf(message));
      if good {
        assert forall j :: 0 <= j < |table| ==> table[j].ticksElapsed <= ticks by {
          assert forall j :: 0 <= j < |table0| ==> table0[j].ticksElapsed <= Prefix(events, k + 1);
        }
        AppendTempo(table, next, ticks, perBeat, num, entry, track);
      }
      perBeat := entry.microsecondsPerBeat;
      table := table + [entry];
    }
    track := track + [FileEvent(ticks, AbsoluteTime(num, ticksPerBeat), message)];
  }

  /** The track loop body of `setMidiPlaybackFile`: reads one track with
      the tempo table `table0` left by the tracks before it (empty for a
      format 2 file).  Stops at the first event it cannot store.  When the
      table stays in order, each event's time is the reference integral of
      the tempo map up to its tick. */
  method BuildTrack(events: seq<SmfEvent>, table0: seq<TempoEntry>, ticksPerBeat: int)
    returns (track: seq<FileEvent>, table: seq<TempoEntry>, err: Option<string>)
    ensures err.None? <==> forall k :: 0 <= k < |events| ==> BodyOk(events[k].body)
    ensures err.Some? ==> exists k :: 0 <= k < |events| && !BodyOk(events[k].body) &&
                                 (forall j :: 0 <= j < k ==> BodyOk(events[j].body)) && err.value == BodyError(events[k].body)
    ensures err.None? ==> |track| == |events| && table == table0 + TempoEntries(events, |events|)
    ensures err.None? ==> forall k :: 0 <= k < |events| ==> StoredAs(events, k, track[k], ticksPerBeat)
    ensures err.None? && InOrder(table0, events) ==> TimesMatch(track, table)
  {
    track, table, err := [], table0, None;
    var ticks, num, perBeat, next := 0, 0, DefaultTempo, 0;
    var k := 0;
    if InOrder(table0, events) {
      assert Integral(table, 0) == 0;
      assert Accumulated(table, 0, 0, DefaultTempo, 0);
    }
    while k < |events|
      invariant TrackRead(events, k, table0, ticksPerBeat, track, table, next, ticks, perBeat, num)
    {
      var e;
      track, table, next, ticks, perBeat, num, e := ReadEvent(events, k, table0, ticksPerBeat, track, table, next, ticks, perBeat, num);
      if e.Some? {
        err := e;
        return;
      }
      k := k + 1;
    }
  }

  /** The tempo table at the start of track `i`: empty for the first track
      and for every track of a format 2 file, else what the tracks before
      left. */
  function TableBefore(file: SmfFile, i: nat): seq<TempoEntry>
    requires i <= |file.tracks|
    requires forall t, k :: 0 <= t < i && 0 <= k < |file.tracks[t]| ==> BodyOk(file.tracks[t][k].body)
    decreases i, 0
  {
    if i == 0 || file.format == 2 then [] else TableAfter(file, i - 1)
  }

  function TableAfter(file: SmfFile, i: nat): seq<TempoEntry>
    requires i < |file.tracks|
    requires forall t, k :: 0 <= t <= i && 0 <= k < |file.tracks[t]| ==> BodyOk(file.tracks[t][k].body)
    decreases i, 1
  {
    TableBefore(file, i) + TempoEntries(file.tracks[i], |file.tracks[i]|)
  }

  /** The file can be loaded: ticks-per-beat division and no event that
      stops `BuildTrack`. */
  predicate Loadable(file: SmfFile) {
    !file.smpte && forall t, k :: 0 <= t < |file.tracks| && 0 <= k < |file.tracks[t]| ==> BodyOk(file.tracks[t][k].body)
  }

  /** Every set-tempo event of a format 0 or 1 file is in its first track. */
  ghost predicate TempoOnlyInFirstTrack(file: SmfFile) {
    forall t, k :: 1 <= t < |file.tracks| && 0 <= k < |file.tracks[t]| ==> !SetsTempo(file.tracks[t][k].body)
  }

  /** A track's tempo entries are sorted and lie between tick 0 and the
      track's current tick. */
  lemma {:induction false} TempoEntriesInRange(events: seq<SmfEvent>, k: nat)
    requires k <= |events|
    requires forall i :: 0 <= i < k ==> BodyOk(events[i].body)
    ensures Sorted(TempoEntries(events, k))
    ensures forall j :: 0 <= j < |TempoEntries(events, k)| ==>
      0 <= TempoEntries(events, k)[j].ticksElapsed <= Prefix(events, k)
  {
    if k > 0 {
      TempoEntriesInRange(events, k - 1);
      PrefixMonotone(events, k - 1, k);
    }
  }

  /** A track without set-tempo events adds no tempo entry. */
  lemma {:induction false} NoTempoEntries(events: seq<SmfEvent>, k: nat)
    requires k <= |events|
    requires forall i :: 0 <= i < k ==> BodyOk(events[i].body) && !SetsTempo(events[i].body)
    ensures TempoEntries(events, k) == []
  {
    if k > 0 {
      NoTempoEntries(events, k - 1);
    }
  }

  /** With every tempo change in the first track, each later track of a
      format 0 or 1 file starts from the first track's tempo entries. */
  lemma {:induction false} TableBeforeIsFirstTrack(file: SmfFile, i: nat)
    requires 1 <= i <= |file.tracks| && file.format != 2 && TempoOnlyInFirstTrack(file)
    requires forall t, k :: 0 <= t < i && 0 <= k < |file.tracks[t]| ==> BodyOk(file.tracks[t][k].body)
    ensures TableBefore(file, i) == TempoEntries(file.tracks[0], |file.tracks[0]|)
  {
    if i == 1 {
      assert TableBefore(file, 0) == [];
    } else {
      TableBeforeIsFirstTrack(file, i - 1);
      NoTempoEntries(file.tracks[i - 1], |file.tracks[i - 1]|);
    }
  }

  /** The tempo table each track starts from is in order for that track in
      a format 2 file, whose table restarts empty at every track, and in a
      file whose tempo changes are all in the first track. */
  lemma TablesInOrder(file: SmfFile, i: nat)
    requires i < |file.tracks|
    requires forall t, k :: 0 <= t < i && 0 <= k < |file.tracks[t]| ==> BodyOk(file.tracks[t][k].body)
    requires file.format == 2 || TempoOnlyInFirstTrack(file)
    ensures InOrder(TableBefore(file, i), file.tracks[i])
  {
    if i > 0 && file.format != 2 {
      TableBeforeIsFirstTrack(file, i);
      TempoEntriesInRange(file.tracks[0], |file.tracks[0]|);
    }
  }

  /** No tempo in the table is negative. */
  ghost predicate NonNegTempos(table: seq<TempoEntry>) {
    forall j :: 0 <= j < |table| ==> table[j].microsecondsPerBeat >= 0
  }

  lemma {:induction false} TempoEntriesNonNeg(events: seq<SmfEvent>, k: nat)
    requires k <= |events|
    requires forall i :: 0 <= i < k ==> BodyOk(events[i].body)
    ensures NonNegTempos(TempoEntries(events, k))
  {
    if k > 0 {
      TempoEntriesNonNeg(events, k - 1);
    }
  }

  /** The tempo table after any track holds no negative tempo. */
  lemma {:induction false} TableAfterNonNeg(file: SmfFile, i: nat)
    requires i < |file.tracks|
    requires forall t, k :: 0 <= t <= i && 0 <= k < |file.tracks[t]| ==> BodyOk(file.tracks[t][k].body)
    ensures NonNegTempos(TableAfter(file, i))
  {
    TempoEntriesNonNeg(file.tracks[i], |file.tracks[i]|);
    if i > 0 && file.format != 2 {
      TableAfterNonNeg(file, i - 1);
    }
  }

  lemma {:induction false} TempoAtNonNeg(table: seq<TempoEntry>, u: int)
    requires NonNegTempos(table)
    ensures TempoAt(table, u) >= 0
    decreases |table|
  {
    if |table| > 0 && table[|table| - 1].ticksElapsed > u {
      TempoAtNonNeg(table[..|table| - 1], u);
    }
  }

  /** Without negative tempos, later ticks are never earlier in time. */
  lemma {:induction false} IntegralMonotone(table: seq<TempoEntry>, a: int, b: int)
    requires NonNegTempos(table) && a <= b
    ensures Integral(table, a) <= Integral(table, b)
    decreases b - a
  {
    if a < b {
      IntegralMonotone(table, a, b - 1);
      TempoAtNonNeg(table, b - 1);
    }
  }

  /** `Duration()`: `numerator` microseconds over `denominator`, in
      nanoseconds, rounded toward zero. */
  function Duration(m: AbsoluteTime): (ns: int)
    requires m.denominator > 0
    ensures m.numerator >= 0 ==> 0 <= ns * m.denominator <= m.numerator * 1000 < (ns + 1) * m.denominator
    ensures m.numerator < 0 ==> (ns - 1) * m.denominator < m.numerator * 1000 <= ns * m.denominator <= 0
  {
    TruncDiv(m.numerator * 1000, m.denominator)
  }

  /** Later events are not earlier: `Duration` is monotone in the numerator. */
  lemma DurationMonotone(a: AbsoluteTime, b: AbsoluteTime)
    requires a.denominator == b.denominator > 0 && a.numerator <= b.numerator
    ensures Duration(a) <= Duration(b)
  {
    var d := a.denominator;
    var x, y := a.numerator * 1000, b.numerator * 1000;
    if x >= 0 {
      DivMonotone(x, y, d);
    } else if y >= 0 {
      assert TruncDiv(x, d) <= 0 <= TruncDiv(y, d);
    } else {
      DivMonotone(-y, -x, d);
    }
  }

  lemma DivMonotone(x: int, y: int, d: int)
    requires 0 <= x <= y && d > 0
    ensures x / d <= y / d
  {
    var qx, qy := x / d, y / d;
    assert d * qx <= x && y < d * (qy + 1);
    MulCancel(d, qx, qy + 1);
  }

  lemma MulCancel(d: int, a: int, b: int)
    requires d > 0 && d * a < d * b
    ensures a < b
  {
  }
}
