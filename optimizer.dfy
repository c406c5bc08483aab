/** The offline conflict optimiser of midi-optimizer/midi-optimizer.go,
    one track at a time: it collects the track's note-on events into
    records, sorts them by tick and key, and then runs rounds.  Each round
    picks the closest pair of neighbouring note-ons closer than the skill
    cooldown, widens it to the whole cluster of close neighbours, and
    pushes the cluster's ends apart by a tick or two.  Afterwards every
    note-on and its note-off are moved by the note-on's shift, note-offs
    that now overlap the next note-on are cut back, the last event is
    extended to the latest tick and the events are put back in order.

    The decoder and encoder of the file are not part of this model: a track
    is a sequence of events whose note-ons name their note-off by index in
    the same track, and the tick-to-time conversion of the track's tempo
    map is the parameter `toTime`. */
module Optimizer {
  import opened Common

  /** The cooldown the optimiser keeps between note-ons: 125 ms. */
  const SkillCooldown: int := 125 * Millisecond

  datatype EventBody =
    | NoteOn(key: Byte, relatedNoteOff: Option<nat>)
    | OtherEvent

  datatype Event = Event(absTick: int, filePosition: int, body: EventBody)

  /** `NoteOnRecord`: the note-on's index in the track (with its key), its
      tick and time before and after the optimisation. */
  datatype NoteOnRecord = NoteOnRecord(event: nat, key: Byte, oldTick: int, oldTime: int, newTick: int, newTime: int)

  // ---- sorting on values (`sort.Slice`) ----

  /** Lexicographic order on pairs. */
  predicate LexLe(a: (int, int), b: (int, int)) {
    a.0 < b.0 || (a.0 == b.0 && a.1 <= b.1)
  }

  ghost predicate SortedBy<T>(s: seq<T>, key: T -> (int, int)) {
    forall i, j :: 0 <= i < j < |s| ==> LexLe(key(s[i]), key(s[j]))
  }

  /** Inserts `x` before the first element it does not follow. */
  function Insert<T>(x: T, s: seq<T>, key: T -> (int, int)): (r: seq<T>)
    ensures multiset(r) == multiset(s) + multiset{x}
  {
    if |s| == 0 then [x]
    else if LexLe(key(x), key(s[0])) then [x] + s
    else
      assert s == [s[0]] + s[1..];
      [s[0]] + Insert(x, s[1..], key)
  }

  lemma {:induction false} InsertSorted<T>(x: T, s: seq<T>, key: T -> (int, int))
    requires SortedBy(s, key)
    ensures SortedBy(Insert(x, s, key), key)
  {
    if |s| > 0 && !LexLe(key(x), key(s[0])) {
      var tail := Insert(x, s[1..], key);
      InsertSorted(x, s[1..], key);
      forall j | 0 <= j < |tail|
        ensures LexLe(key(s[0]), key(tail[j]))
      {
        var y := tail[j];
        assert y in multiset(tail);
        if y != x {
          assert y in multiset(s[1..]);
          var m :| 0 <= m < |s[1..]| && s[1..][m] == y;
          assert s[m + 1] == y;
        }
      }
    }
  }

  /** A stable insertion sort by `key`. */
  function SortBy<T>(s: seq<T>, key: T -> (int, int)): (r: seq<T>)
    ensures multiset(r) == multiset(s) && SortedBy(r, key)
  {
    if |s| == 0 then []
    else
      assert s == [s[0]] + s[1..];
      var rest := SortBy(s[1..], key);
      InsertSorted(s[0], rest, key);
      Insert(s[0], rest, key)
  }

  function RecordKey(r: NoteOnRecord): (int, int) {
    (r.oldTick, r.key)
  }

  function EventKey(e: Event): (int, int) {
    (e.absTick, e.filePosition)
  }

  // ---- the records of a track ----

  /** The record of the note-on at index `i`: both ticks are its tick and
      both times the tick's time. */
  function FreshRecord(events: seq<Event>, toTime: int -> int, i: nat): NoteOnRecord
    requires i < |events| && events[i].body.NoteOn?
  {
    var tick := events[i].absTick;
    NoteOnRecord(i, events[i].body.key, tick, toTime(tick), tick, toTime(tick))
  }

  /** The records of the note-ons among the first `k` events, in track
      order. */
  function NoteOnRecords(events: seq<Event>, toTime: int -> int, k: nat): (r: seq<NoteOnRecord>)
    requires k <= |events|
    ensures |r| <= k
  {
    if k == 0 then []
    else
      NoteOnRecords(events, toTime, k - 1) +
      (if events[k - 1].body.NoteOn? then [FreshRecord(events, toTime, k - 1)] else [])
  }

  /** Every record is that of a note-on among the first `k` events. */
  ghost predicate RecordsOfNoteOns(events: seq<Event>, toTime: int -> int, k: nat, r: seq<NoteOnRecord>)
    requires k <= |events|
  {
    forall j :: 0 <= j < |r| ==>
      r[j].event < k && events[r[j].event].body.NoteOn? && r[j] == FreshRecord(events, toTime, r[j].event)
  }

  lemma {:induction false} NoteOnRecordsValid(events: seq<Event>, toTime: int -> int, k: nat)
    requires k <= |events|
    ensures RecordsOfNoteOns(events, toTime, k, NoteOnRecords(events, toTime, k))
  {
    if k > 0 {
      NoteOnRecordsValid(events, toTime, k - 1);
      var prev := NoteOnRecords(events, toTime, k - 1);
      var r := NoteOnRecords(events, toTime, k);
      assert RecordsOfNoteOns(events, toTime, k - 1, prev);
      forall j | 0 <= j < |r|
        ensures r[j].event < k && events[r[j].event].body.NoteOn? && r[j] == FreshRecord(events, toTime, r[j].event)
      {
        if j < |prev| {
          assert r[j] == prev[j];
        } else {
          assert r[j] == FreshRecord(events, toTime, k - 1);
        }
      }
    }
  }

  /** The records follow the track order. */
  ghost predicate InTrackOrder(r: seq<NoteOnRecord>) {
    forall i, j :: 0 <= i < j < |r| ==> r[i].event < r[j].event
  }

  lemma {:induction false} NoteOnRecordsIncreasing(events: seq<Event>, toTime: int -> int, k: nat)
    requires k <= |events|
    ensures InTrackOrder(NoteOnRecords(events, toTime, k))
  {
    if k > 0 {
      NoteOnRecordsIncreasing(events, toTime, k - 1);
      NoteOnRecordsValid(events, toTime, k - 1);
      var prev := NoteOnRecords(events, toTime, k - 1);
      var r := NoteOnRecords(events, toTime, k);
      assert InTrackOrder(prev) && RecordsOfNoteOns(events, toTime, k - 1, prev);
      if events[k - 1].body.NoteOn? {
        var f := FreshRecord(events, toTime, k - 1);
        assert r == prev + [f];
        forall i, j | 0 <= i < j < |r| ensures r[i].event < r[j].event {
          assert r[i] == prev[i];
          if j < |prev| {
            assert r[j] == prev[j];
          } else {
            assert r[j] == f;
          }
        }
      } else {
        assert r == prev;
      }
    }
  }

  /** Every note-on among the first `k` events has a record. */
  ghost predicate CoversNoteOns(events: seq<Event>, k: nat, r: seq<NoteOnRecord>)
    requires k <= |events|
  {
    forall i :: 0 <= i < k && events[i].body.NoteOn? ==> exists j :: 0 <= j < |r| && r[j].event == i
  }

  lemma {:induction false} NoteOnRecordsComplete(events: seq<Event>, toTime: int -> int, k: nat)
    requires k <= |events|
    ensures CoversNoteOns(events, k, NoteOnRecords(events, toTime, k))
  {
    if k > 0 {
      NoteOnRecordsComplete(events, toTime, k - 1);
      var prev := NoteOnRecords(events, toTime, k - 1);
      var r := NoteOnRecords(events, toTime, k);
      assert CoversNoteOns(events, k - 1, prev);
      forall i | 0 <= i < k && events[i].body.NoteOn?
        ensures exists j :: 0 <= j < |r| && r[j].event == i
      {
        if i == k - 1 {
          assert r == prev + [FreshRecord(events, toTime, k - 1)];
          assert r[|prev|].event == i;
        } else {
          var j :| 0 <= j < |prev| && prev[j].event == i;
          assert r[j] == prev[j];
        }
      }
    }
  }

  /** The records are exactly the note-ons, one each, in track order. */
  lemma NoteOnRecordsExact(events: seq<Event>, toTime: int -> int, k: nat)
    requires k <= |events|
    ensures var r := NoteOnRecords(events, toTime, k);
      (forall j :: 0 <= j < |r| ==>
         r[j].event < k && events[r[j].event].body.NoteOn? && r[j] == FreshRecord(events, toTime, r[j].event)) &&
      (forall i, j :: 0 <= i < j < |r| ==> r[i].event < r[j].event) &&
      (forall i :: 0 <= i < k && events[i].body.NoteOn? ==> exists j :: 0 <= j < |r| && r[j].event == i)
  {
    NoteOnRecordsValid(events, toTime, k);
    NoteOnRecordsIncreasing(events, toTime, k);
    NoteOnRecordsComplete(events, toTime, k);
  }

  /** The record loop over the track's events. */
  method BuildRecords(events: seq<Event>, toTime: int -> int) returns (records: seq<NoteOnRecord>)
    ensures records == NoteOnRecords(events, toTime, |events|)
  {
    records := [];
    var i := 0;
    while i < |events|
      invariant 0 <= i <= |events| && records == NoteOnRecords(events, toTime, i)
    {
      if events[i].body.NoteOn? {
        records := records + [FreshRecord(events, toTime, i)];
      }
      i := i + 1;
    }
  }

  // ---- conflicts between neighbouring records ----

  /** The number of neighbouring pairs among `n` records. */
  function Pairs(n: int): nat {
    if n <= 0 then 0 else n - 1
  }

  function Gap(rs: seq<NoteOnRecord>, i: nat): int
    requires i + 1 < |rs|
  {
    rs[i + 1].newTime - rs[i].newTime
  }

  /** The pair at `i` is a conflict: closer than the cooldown. */
  predicate Close(rs: seq<NoteOnRecord>, i: nat)
    requires i + 1 < |rs|
  {
    Gap(rs, i) < SkillCooldown
  }

  /** The number of conflicts among the first `n` pairs. */
  function CountClose(rs: seq<NoteOnRecord>, n: nat): (c: nat)
    requires n <= Pairs(|rs|)
    ensures c <= n
  {
    if n == 0 then 0 else CountClose(rs, n - 1) + (if Close(rs, n - 1) then 1 else 0)
  }

  /** No conflict is counted exactly when no pair is a conflict. */
  lemma {:induction false} NoConflicts(rs: seq<NoteOnRecord>, n: nat)
    requires n <= Pairs(|rs|)
    ensures CountClose(rs, n) == 0 <==> forall i :: 0 <= i < n ==> !Close(rs, i)
  {
    if n > 0 {
      NoConflicts(rs, n - 1);
    }
  }

  /** Among the conflicts in the first `n` pairs, the one at `left` has
      the smallest gap, and no earlier conflict has a gap as small. */
  ghost predicate ClosestUpTo(rs: seq<NoteOnRecord>, left: nat, n: nat)
    requires left + 1 < |rs|
  {
    (forall i :: 0 <= i < n && i + 1 < |rs| && Close(rs, i) ==> Gap(rs, left) <= Gap(rs, i)) &&
    (forall i :: 0 <= i < left && Close(rs, i) ==> Gap(rs, left) < Gap(rs, i))
  }

  /** The pair a scan of the first `n` pairs has picked: the closest
      conflict, the first one on a tie, or `-1` when there is none. */
  function Closest(rs: seq<NoteOnRecord>, n: nat): (l: int)
    requires n <= Pairs(|rs|)
    ensures -1 <= l < n
  {
    if n == 0 then -1
    else
      var l := Closest(rs, n - 1);
      if Close(rs, n - 1) && (l < 0 || Gap(rs, n - 1) < Gap(rs, l)) then n - 1 else l
  }

  /** The pick is `-1` exactly when there is no conflict, and otherwise a
      conflict with the smallest gap, the first on a tie. */
  lemma {:induction false} ClosestPicks(rs: seq<NoteOnRecord>, n: nat)
    requires n <= Pairs(|rs|)
    ensures var l := Closest(rs, n);
      (l == -1 <==> CountClose(rs, n) == 0) && (l >= 0 ==> Close(rs, l) && ClosestUpTo(rs, l, n))
  {
    if n > 0 {
      ClosestPicks(rs, n - 1);
      NoConflicts(rs, n - 1);
    }
  }

  /** The start of the run of conflicts that ends at record `i`. */
  function RunStart(rs: seq<NoteOnRecord>, i: nat): (l: nat)
    requires i < |rs|
    ensures l <= i
  {
    if i == 0 || !Close(rs, i - 1) then i else RunStart(rs, i - 1)
  }

  /** The end of the run of conflicts that starts at record `i`. */
  function RunEnd(rs: seq<NoteOnRecord>, i: nat): (r: nat)
    requires i < |rs|
    ensures i <= r < |rs|
    decreases |rs| - i
  {
    if i == |rs| - 1 || !Close(rs, i) then i else RunEnd(rs, i + 1)
  }

  /** The records after the nudge of the cluster `left..right`. */
  function Nudged(rs: seq<NoteOnRecord>, left: nat, right: nat, toTime: int -> int): (rs': seq<NoteOnRecord>)
    requires left < right < |rs|
    ensures |rs'| == |rs|
  {
    var up := rs[left].newTick > 0;
    var lt := if up then rs[left].newTick - 1 else rs[left].newTick + 1;
    var rt := rs[right].newTick + (if up then 1 else 2);
    rs[left := rs[left].(newTick := lt, newTime := toTime(lt))][right := rs[right].(newTick := rt, newTime := toTime(rt))]
  }

  /** The records after one round that found a conflict: the closest
      pair widened to its run of conflicts and nudged. */
  function NextRecords(rs: seq<NoteOnRecord>, toTime: int -> int): (rs': seq<NoteOnRecord>)
    requires CountClose(rs, Pairs(|rs|)) > 0
    ensures |rs'| == |rs|
  {
    ClosestPicks(rs, Pairs(|rs|));
    var left := Closest(rs, Pairs(|rs|));
    Nudged(rs, RunStart(rs, left), RunEnd(rs, left + 1), toTime)
  }

  /** A round's records are its cluster nudged. */
  lemma NextIsNudged(rs: seq<NoteOnRecord>, toTime: int -> int, left: nat, right: nat)
    requires CountClose(rs, Pairs(|rs|)) > 0 && 0 <= Closest(rs, Pairs(|rs|))
    requires left == RunStart(rs, Closest(rs, Pairs(|rs|))) && right == RunEnd(rs, Closest(rs, Pairs(|rs|)) + 1)
    ensures NextRecords(rs, toTime) == Nudged(rs, left, right, toTime)
  {
  }

  /** The records after `k` rounds from `rs0`: each round that finds a
      conflict nudges its cluster, and once none is left nothing changes. */
  function Iterate(rs0: seq<NoteOnRecord>, toTime: int -> int, k: nat): (rs: seq<NoteOnRecord>)
    ensures |rs| == |rs0|
  {
    if k == 0 then rs0
    else
      var prev := Iterate(rs0, toTime, k - 1);
      if CountClose(prev, Pairs(|prev|)) > 0 then NextRecords(prev, toTime) else prev
  }

  /** The conflict counts the first `n` scans see, in order. */
  function Counts(rs0: seq<NoteOnRecord>, toTime: int -> int, n: nat): (c: seq<nat>)
    ensures |c| == n
  {
    if n == 0 then []
    else
      var rs := Iterate(rs0, toTime, n - 1);
      Counts(rs0, toTime, n - 1) + [CountClose(rs, Pairs(|rs|))]
  }

  /** Every count is positive: each of those scans found a conflict. */
  ghost predicate Positive(s: seq<nat>) {
    forall k :: 0 <= k < |s| ==> s[k] > 0
  }

  lemma PositiveAppend(s: seq<nat>, x: nat)
    requires Positive(s) && x > 0
    ensures Positive(s + [x])
  {
    assert forall k :: 0 <= k < |s| ==> (s + [x])[k] == s[k];
  }

  /** The largest of some counts, 0 for none: what `totalUnresolved`
      reports. */
  function MaxOf(s: seq<nat>): nat {
    if s == [] then 0
    else
      var m := MaxOf(s[..|s| - 1]);
      if s[|s| - 1] > m then s[|s| - 1] else m
  }

  /** It is the largest: no count is larger, and one of them equals it. */
  lemma {:induction false} MaxOfIsMax(s: seq<nat>)
    ensures forall i :: 0 <= i < |s| ==> s[i] <= MaxOf(s)
    ensures s == [] ==> MaxOf(s) == 0
    ensures s != [] ==> exists i :: 0 <= i < |s| && s[i] == MaxOf(s)
  {
    if s != [] {
      var p := s[..|s| - 1];
      MaxOfIsMax(p);
      assert forall i :: 0 <= i < |p| ==> p[i] == s[i];
      if s[|s| - 1] >= MaxOf(p) {
        assert s[|s| - 1] == MaxOf(s);
      } else {
        var j :| 0 <= j < |p| && p[j] == MaxOf(p);
        assert s[j] == MaxOf(s);
      }
    }
  }

  lemma MaxOfAppend(s: seq<nat>, x: nat)
    ensures MaxOf(s + [x]) == if x > MaxOf(s) then x else MaxOf(s)
  {
    assert (s + [x])[..|s|] == s;
  }

  /** The scan of a round: counts the conflicts and picks the closest
      pair, the first one on a tie; `-1` when there is none. */
  method ScanConflicts(rs: seq<NoteOnRecord>) returns (numUnresolved: nat, left: int, right: int)
    ensures numUnresolved == CountClose(rs, Pairs(|rs|))
    ensures left == Closest(rs, Pairs(|rs|)) && right == (if left < 0 then -1 else left + 1)
    ensures numUnresolved == 0 <==> left == -1
    ensures numUnresolved > 0 ==> 0 <= left && right == left + 1 < |rs|
  {
    numUnresolved, left, right := 0, -1, -1;
    var i := 0;
    while i < |rs| - 1
      invariant 0 <= i <= Pairs(|rs|)
      invariant numUnresolved == CountClose(rs, i)
      invariant left == Closest(rs, i) && right == (if left < 0 then -1 else left + 1)
    {
      if rs[i + 1].newTime - rs[i].newTime < SkillCooldown {
        numUnresolved := numUnresolved + 1;
        if left < 0 || right < 0 || rs[i + 1].newTime - rs[i].newTime < rs[right].newTime - rs[left].newTime {
          left := i;
          right := i + 1;
        }
      }
      i := i + 1;
    }
    ClosestPicks(rs, Pairs(|rs|));
  }

  /** Widens the pair `left0, right0` to the whole run of conflicts around
      it: every pair inside is a conflict and neither end can grow. */
  method Expand(rs: seq<NoteOnRecord>, left0: nat, right0: nat) returns (left: nat, right: nat)
    requires right0 == left0 + 1 < |rs|
    ensures left <= left0 && right0 <= right < |rs|
    ensures forall i :: left <= i < left0 ==> Close(rs, i)
    ensures forall i :: right0 <= i < right ==> Close(rs, i)
    ensures left == 0 || !Close(rs, left - 1)
    ensures right == |rs| - 1 || !Close(rs, right)
    ensures left == RunStart(rs, left0) && right == RunEnd(rs, right0)
  {
    left, right := left0, right0;
    while left != 0 && rs[left].newTime - rs[left - 1].newTime < SkillCooldown
      invariant left <= left0
      invariant forall i :: left <= i < left0 ==> Close(rs, i)
      invariant RunStart(rs, left) == RunStart(rs, left0)
    {
      left := left - 1;
    }
    while right < |rs| - 1 && rs[right + 1].newTime - rs[right].newTime < SkillCooldown
      invariant right0 <= right < |rs|
      invariant forall i :: right0 <= i < right ==> Close(rs, i)
      invariant RunEnd(rs, right) == RunEnd(rs, right0)
    {
      right := right + 1;
    }
  }

  /** Each record's new time is the time of its new tick. */
  ghost predicate TimesAgree(rs: seq<NoteOnRecord>, toTime: int -> int) {
    forall i :: 0 <= i < |rs| ==> rs[i].newTime == toTime(rs[i].newTick)
  }

  ghost predicate TicksNonNegative(rs: seq<NoteOnRecord>) {
    forall i :: 0 <= i < |rs| ==> rs[i].newTick >= 0
  }

  /** The rounds only move new ticks and times. */
  ghost predicate Frozen(a: seq<NoteOnRecord>, b: seq<NoteOnRecord>) {
    |a| == |b| &&
    forall i :: 0 <= i < |a| ==>
      a[i].event == b[i].event && a[i].key == b[i].key && a[i].oldTick == b[i].oldTick && a[i].oldTime == b[i].oldTime
  }

  /** The nudge of a round: the cluster's first record moves a tick earlier
      and its last a tick later, unless the first is at tick 0, which then
      moves a tick later and the last two later.  Either way the cluster
      grows by at least a tick and no tick becomes negative. */
  method Nudge(rs: seq<NoteOnRecord>, left: nat, right: nat, toTime: int -> int) returns (rs': seq<NoteOnRecord>)
    requires left < right < |rs|
    ensures rs' == Nudged(rs, left, right, toTime)
    ensures Frozen(rs, rs')
    ensures forall i :: 0 <= i < |rs| && i != left && i != right ==> rs'[i] == rs[i]
    ensures rs'[left].newTick == (if rs[left].newTick > 0 then rs[left].newTick - 1 else rs[left].newTick + 1)
    ensures rs'[right].newTick == rs[right].newTick + (if rs[left].newTick > 0 then 1 else 2)
    ensures rs'[left].newTime == toTime(rs'[left].newTick) && rs'[right].newTime == toTime(rs'[right].newTick)
    ensures rs'[right].newTick - rs'[left].newTick > rs[right].newTick - rs[left].newTick
    ensures TimesAgree(rs, toTime) ==> TimesAgree(rs', toTime)
    ensures TicksNonNegative(rs) ==> TicksNonNegative(rs')
  {
    var l, r := rs[left], rs[right];
    if l.newTick > 0 {
      l := l.(newTick := l.newTick - 1);
      r := r.(newTick := r.newTick + 1);
    } else {
      l := l.(newTick := l.newTick + 1);
      r := r.(newTick := r.newTick + 2);
    }
    l := l.(newTime := toTime(l.newTick));
    r := r.(newTime := toTime(r.newTick));
    rs' := rs[left := l][right := r];
  }

  /** The second half of a round that found a conflict: widens the closest
      pair to its run of conflicts and nudges that cluster. */
  method NudgeClosest(rs: seq<NoteOnRecord>, left: int, right: int, toTime: int -> int) returns (rs': seq<NoteOnRecord>)
    requires CountClose(rs, Pairs(|rs|)) > 0
    requires left == Closest(rs, Pairs(|rs|)) && right == left + 1
    ensures rs' == NextRecords(rs, toTime)
    ensures Frozen(rs, rs')
    ensures TimesAgree(rs, toTime) ==> TimesAgree(rs', toTime)
    ensures TicksNonNegative(rs) ==> TicksNonNegative(rs')
  {
    ClosestPicks(rs, Pairs(|rs|));
    var l, r := Expand(rs, left, right);
    NextIsNudged(rs, toTime, l, r);
    rs' := Nudge(rs, l, r, toTime);
  }

  /** The rounds, with at most `fuel` nudges: each round scans, records the
      largest conflict count seen, stops when there is no conflict, and
      otherwise widens the closest pair and nudges it.  The records are
      those after `rounds` rounds, every scan before the last saw a
      conflict, `resolved` says the last saw none (it is false only when
      the fuel ran out), and `totalUnresolved` is the largest count any
      scan saw. */
  method ResolveConflicts(rs0: seq<NoteOnRecord>, toTime: int -> int, fuel: nat)
    returns (rs: seq<NoteOnRecord>, rounds: nat, totalUnresolved: nat, resolved: bool)
    requires TimesAgree(rs0, toTime)
    ensures rounds <= fuel && rs == Iterate(rs0, toTime, rounds)
    ensures Positive(Counts(rs0, toTime, rounds))
    ensures resolved <==> CountClose(rs, Pairs(|rs|)) == 0
    ensures !resolved ==> rounds == fuel
    ensures totalUnresolved == MaxOf(Counts(rs0, toTime, rounds + 1))
    ensures Frozen(rs0, rs) && TimesAgree(rs, toTime)
    ensures TicksNonNegative(rs0) ==> TicksNonNegative(rs)
    ensures resolved ==> forall i :: 0 <= i < Pairs(|rs|) ==> !Close(rs, i)
  {
    rs, rounds, totalUnresolved, resolved := rs0, 0, 0, false;
    while true
      invariant rounds <= fuel && rs == Iterate(rs0, toTime, rounds)
      invariant Positive(Counts(rs0, toTime, rounds))
      invariant totalUnresolved == MaxOf(Counts(rs0, toTime, rounds))
      invariant Frozen(rs0, rs) && TimesAgree(rs, toTime)
      invariant TicksNonNegative(rs0) ==> TicksNonNegative(rs)
      decreases fuel - rounds
    {
      var numUnresolved, left, right := ScanConflicts(rs);
      assert Counts(rs0, toTime, rounds + 1) == Counts(rs0, toTime, rounds) + [numUnresolved];
      MaxOfAppend(Counts(rs0, toTime, rounds), numUnresolved);
      if totalUnresolved < numUnresolved {
        totalUnresolved := numUnresolved;
      }
      if left < 0 || right < 0 {
        resolved := true;
        NoConflicts(rs, Pairs(|rs|));
        return;
      }
      if rounds == fuel {
        return;
      }
      PositiveAppend(Counts(rs0, toTime, rounds), numUnresolved);
      rs := NudgeClosest(rs, left, right, toTime);
      rounds := rounds + 1;
    }
  }

  // ---- moving the events ----

  /** The note-off the event at `i` links to, if it is a note-on with one. */
  function LinkOf(events: seq<Event>, i: int): Option<nat> {
    if 0 <= i < |events| && events[i].body.NoteOn? then events[i].body.relatedNoteOff else None
  }

  /** Every note-on's note-off is another, non-note-on event of the track. */
  ghost predicate Linked(events: seq<Event>) {
    forall i {:trigger LinkOf(events, i)} :: LinkOf(events, i).Some? ==>
      LinkOf(events, i).value < |events| && events[LinkOf(events, i).value].body.OtherEvent?
  }

  /** Every record names a note-on of the track. */
  ghost predicate RecordsIn(rs: seq<NoteOnRecord>, events: seq<Event>) {
    forall j :: 0 <= j < |rs| ==> rs[j].event < |events| && events[rs[j].event].body.NoteOn?
  }

  /** Only ticks differ. */
  ghost predicate SameShape(a: seq<Event>, b: seq<Event>) {
    |a| == |b| && forall i :: 0 <= i < |a| ==> a[i].body == b[i].body && a[i].filePosition == b[i].filePosition
  }

  lemma ShapeKeepsLinks(a: seq<Event>, b: seq<Event>, rs: seq<NoteOnRecord>)
    requires SameShape(a, b) && Linked(a) && RecordsIn(rs, a)
    ensures Linked(b) && RecordsIn(rs, b)
  {
    forall i | LinkOf(b, i).Some?
      ensures LinkOf(b, i).value < |b| && b[LinkOf(b, i).value].body.OtherEvent?
    {
      assert a[i].body == b[i].body;
      assert LinkOf(b, i) == LinkOf(a, i);
      assert a[LinkOf(a, i).value].body == b[LinkOf(a, i).value].body;
    }
    assert forall j :: 0 <= j < |rs| ==> a[rs[j].event].body == b[rs[j].event].body;
  }

  /** The note-off of record `r`, if it has one. */
  function NoteOffOf(events: seq<Event>, r: NoteOnRecord): Option<nat>
    requires r.event < |events| && events[r.event].body.NoteOn?
  {
    LinkOf(events, r.event)
  }

  /** One turn of the shift loop: the note-on and its note-off move by the
      record's shift, and the latest tick seen grows to the new tick and
      to the note-off's shifted tick. */
  function ShiftStep(events: seq<Event>, maxTick: int, r: NoteOnRecord): (res: (seq<Event>, int))
    requires r.event < |events| && events[r.event].body.NoteOn? && Linked(events)
    ensures SameShape(events, res.0)
    ensures res.1 >= maxTick && res.1 >= r.newTick
  {
    var m := if r.newTick > maxTick then r.newTick else maxTick;
    var offset := r.newTick - r.oldTick;
    var on := events[r.event];
    var moved := events[r.event := on.(absTick := on.absTick + offset)];
    match NoteOffOf(events, r)
    case None => (moved, m)
    case Some(off) =>
      var shifted := moved[off].absTick + offset;
      (moved[off := moved[off].(absTick := shifted)], if shifted > m then shifted else m)
  }

  /** The shift loop over the first `k` records, from a latest tick of 0. */
  function ShiftAll(events: seq<Event>, rs: seq<NoteOnRecord>, k: nat): (res: (seq<Event>, int))
    requires k <= |rs| && Linked(events) && RecordsIn(rs, events)
    ensures SameShape(events, res.0)
    ensures res.1 >= 0 && forall j :: 0 <= j < k ==> res.1 >= rs[j].newTick
  {
    if k == 0 then (events, 0)
    else
      var p := ShiftAll(events, rs, k - 1);
      ShapeKeepsLinks(events, p.0, rs);
      var q := ShiftStep(p.0, p.1, rs[k - 1]);
      q
  }

  method ShiftNoteOffs(events: seq<Event>, rs: seq<NoteOnRecord>) returns (moved: seq<Event>, maxTick: int)
    requires Linked(events) && RecordsIn(rs, events)
    ensures (moved, maxTick) == ShiftAll(events, rs, |rs|)
  {
    moved, maxTick := events, 0;
    var i := 0;
    while i < |rs|
      invariant 0 <= i <= |rs| && (moved, maxTick) == ShiftAll(events, rs, i)
      invariant Linked(moved) && RecordsIn(rs, moved)
    {
      ghost var p := (moved, maxTick);
      moved, maxTick := ShiftRecord(moved, maxTick, rs[i]);
      assert ShiftAll(events, rs, i + 1) == ShiftStep(p.0, p.1, rs[i]);
      ShapeKeepsLinks(events, moved, rs);
      i := i + 1;
    }
  }

  /** One pass of the shift loop: moves the record's note-on and its
      note-off and raises the latest tick. */
  method ShiftRecord(events: seq<Event>, maxTick0: int, r: NoteOnRecord) returns (moved: seq<Event>, maxTick: int)
    requires r.event < |events| && events[r.event].body.NoteOn? && Linked(events)
    ensures (moved, maxTick) == ShiftStep(events, maxTick0, r)
  {
    maxTick := maxTick0;
    if r.newTick > maxTick {
      maxTick := r.newTick;
    }
    var offset := r.newTick - r.oldTick;
    var on := events[r.event];
    moved := events[r.event := on.(absTick := on.absTick + offset)];
    var link := NoteOffOf(events, r);
    if link.Some? {
      var off := link.value;
      var shifted := moved[off].absTick + offset;
      moved := moved[off := moved[off].(absTick := shifted)];
      if shifted > maxTick {
        maxTick := shifted;
      }
    }
  }

  /** No two records share a note-on or a note-off. */
  ghost predicate Unaliased(rs: seq<NoteOnRecord>, events: seq<Event>)
    requires RecordsIn(rs, events)
  {
    (forall i, j :: 0 <= i < j < |rs| ==> rs[i].event != rs[j].event) &&
    (forall i, j :: 0 <= i < j < |rs| && NoteOffOf(events, rs[i]).Some? && NoteOffOf(events, rs[j]).Some? ==>
       NoteOffOf(events, rs[i]) != NoteOffOf(events, rs[j]))
  }

  /** The effect of one turn of the shift loop on the event at `x`: moved
      by the record's shift if it is the record's note-on or note-off. */
  lemma ShiftStepAt(p: seq<Event>, m: int, r: NoteOnRecord, x: int)
    requires r.event < |p| && p[r.event].body.NoteOn? && Linked(p) && 0 <= x < |p|
    ensures var off := NoteOffOf(p, r);
      ShiftStep(p, m, r).0[x].absTick ==
        p[x].absTick + (if x == r.event || (off.Some? && x == off.value) then r.newTick - r.oldTick else 0)
  {
    assert LinkOf(p, r.event) == NoteOffOf(p, r);
  }

  /** After the first `k` turns each record's note-on and note-off have
      moved by the record's shift, and those of the later records not at
      all. */
  ghost predicate MovedBy(events: seq<Event>, rs: seq<NoteOnRecord>, moved: seq<Event>, k: nat)
    requires k <= |rs| && Linked(events) && RecordsIn(rs, events) && |moved| == |events|
  {
    forall j :: 0 <= j < |rs| ==>
      var offset := if j < k then rs[j].newTick - rs[j].oldTick else 0;
      moved[rs[j].event].absTick == events[rs[j].event].absTick + offset &&
      (NoteOffOf(events, rs[j]).Some? ==>
         moved[NoteOffOf(events, rs[j]).value].absTick == events[NoteOffOf(events, rs[j]).value].absTick + offset)
  }

  /** With no sharing, the shift loop moves each note-on and its note-off
      by exactly that record's `newTick - oldTick`. */
  lemma {:induction false} ShiftMovesPairs(events: seq<Event>, rs: seq<NoteOnRecord>, k: nat)
    requires k <= |rs| && Linked(events) && RecordsIn(rs, events) && Unaliased(rs, events)
    ensures MovedBy(events, rs, ShiftAll(events, rs, k).0, k)
  {
    if k > 0 {
      ShiftMovesPairs(events, rs, k - 1);
      var p := ShiftAll(events, rs, k - 1);
      ShapeKeepsLinks(events, p.0, rs);
      var r := rs[k - 1];
      var q := ShiftAll(events, rs, k).0;
      assert q == ShiftStep(p.0, p.1, r).0;
      var off := NoteOffOf(events, r);
      assert NoteOffOf(p.0, r) == off;
      assert MovedBy(events, rs, p.0, k - 1);
      forall j | 0 <= j < |rs|
        ensures var offset := if j < k then rs[j].newTick - rs[j].oldTick else 0;
          q[rs[j].event].absTick == events[rs[j].event].absTick + offset &&
          (NoteOffOf(events, rs[j]).Some? ==>
             q[NoteOffOf(events, rs[j]).value].absTick == events[NoteOffOf(events, rs[j]).value].absTick + offset)
      {
        var e := rs[j].event;
        ShiftStepAt(p.0, p.1, r, e);
        assert off.Some? ==> e != off.value;
        if NoteOffOf(events, rs[j]).Some? {
          var o := NoteOffOf(events, rs[j]).value;
          ShiftStepAt(p.0, p.1, r, o);
          assert o != r.event;
          assert j != k - 1 && off.Some? ==> o != off.value;
        }
      }
    }
  }

  /** The note-on of a record built from it ends at the record's new tick. */
  lemma NoteOnsLand(events: seq<Event>, rs: seq<NoteOnRecord>, j: nat)
    requires Linked(events) && RecordsIn(rs, events) && Unaliased(rs, events)
    requires j < |rs| && events[rs[j].event].absTick == rs[j].oldTick
    ensures ShiftAll(events, rs, |rs|).0[rs[j].event].absTick == rs[j].newTick
  {
    ShiftMovesPairs(events, rs, |rs|);
  }

  /** One turn of the clamp loop: a note-off after the next record's new
      tick is cut back to it, when that record does not start earlier. */
  function ClampStep(events: seq<Event>, rs: seq<NoteOnRecord>, i: nat): (res: seq<Event>)
    requires i + 1 < |rs| && Linked(events) && RecordsIn(rs, events)
    ensures SameShape(events, res)
  {
    match NoteOffOf(events, rs[i])
    case None => events
    case Some(off) =>
      if events[off].absTick > rs[i + 1].newTick && rs[i + 1].newTick >= rs[i].newTick
      then events[off := events[off].(absTick := rs[i + 1].newTick)]
      else events
  }

  function ClampAll(events: seq<Event>, rs: seq<NoteOnRecord>, k: nat): (res: seq<Event>)
    requires k <= Pairs(|rs|) && Linked(events) && RecordsIn(rs, events)
    ensures SameShape(events, res)
  {
    if k == 0 then events
    else
      var p := ClampAll(events, rs, k - 1);
      ShapeKeepsLinks(events, p, rs);
      ClampStep(p, rs, k - 1)
  }

  method ClampNoteOffs(events: seq<Event>, rs: seq<NoteOnRecord>) returns (clamped: seq<Event>)
    requires Linked(events) && RecordsIn(rs, events)
    ensures clamped == ClampAll(events, rs, Pairs(|rs|))
  {
    clamped := events;
    var i := 0;
    while i < |rs| - 1
      invariant 0 <= i <= Pairs(|rs|) && clamped == ClampAll(events, rs, i)
      invariant Linked(clamped) && RecordsIn(rs, clamped)
    {
      ghost var p := clamped;
      clamped := ClampRecord(clamped, rs, i);
      assert ClampAll(events, rs, i + 1) == ClampStep(p, rs, i);
      ShapeKeepsLinks(events, clamped, rs);
      i := i + 1;
    }
  }

  /** One pass of the clamp loop. */
  method ClampRecord(events: seq<Event>, rs: seq<NoteOnRecord>, i: nat) returns (clamped: seq<Event>)
    requires i + 1 < |rs| && Linked(events) && RecordsIn(rs, events)
    ensures clamped == ClampStep(events, rs, i)
  {
    clamped := events;
    var link := NoteOffOf(events, rs[i]);
    if link.Some? {
      var off := link.value;
      if events[off].absTick > rs[i + 1].newTick && rs[i + 1].newTick >= rs[i].newTick {
        clamped := events[off := events[off].(absTick := rs[i + 1].newTick)];
      }
    }
  }

  /** No tick of `c` is later than the same event's tick in `a`. */
  ghost predicate NoLater(a: seq<Event>, c: seq<Event>)
    requires |a| == |c|
  {
    forall p :: 0 <= p < |a| ==> c[p].absTick <= a[p].absTick
  }

  /** In `c`, the note-off of each of the first `k` records lasts no longer
      than the start of the next record, when that one is not earlier. */
  ghost predicate ClampedBefore(events: seq<Event>, rs: seq<NoteOnRecord>, c: seq<Event>, k: nat)
    requires k <= Pairs(|rs|) && RecordsIn(rs, events)
  {
    forall i :: 0 <= i < k && NoteOffOf(events, rs[i]).Some? && rs[i + 1].newTick >= rs[i].newTick &&
                NoteOffOf(events, rs[i]).value < |c| ==>
      c[NoteOffOf(events, rs[i]).value].absTick <= rs[i + 1].newTick
  }

  /** One clamp lowers at most the record's note-off, and to no later than
      the next record's start when that one is not earlier. */
  lemma ClampStepLowers(events: seq<Event>, rs: seq<NoteOnRecord>, i: nat)
    requires i + 1 < |rs| && Linked(events) && RecordsIn(rs, events)
    ensures var c := ClampStep(events, rs, i);
      NoLater(events, c) &&
      (NoteOffOf(events, rs[i]).Some? && rs[i + 1].newTick >= rs[i].newTick ==>
         c[NoteOffOf(events, rs[i]).value].absTick <= rs[i + 1].newTick)
  {
  }

  lemma NoLaterTransitive(a: seq<Event>, b: seq<Event>, c: seq<Event>)
    requires |a| == |b| == |c| && NoLater(a, b) && NoLater(b, c)
    ensures NoLater(a, c)
  {
  }

  /** Lowering ticks keeps the earlier records clamped, and the clamp of
      record `k - 1` adds it. */
  lemma ClampedBeforeStep(events: seq<Event>, rs: seq<NoteOnRecord>, p: seq<Event>, c: seq<Event>, k: nat)
    requires 0 < k <= Pairs(|rs|) && RecordsIn(rs, events) && |p| == |c|
    requires ClampedBefore(events, rs, p, k - 1) && NoLater(p, c)
    requires NoteOffOf(events, rs[k - 1]).Some? && rs[k].newTick >= rs[k - 1].newTick &&
             NoteOffOf(events, rs[k - 1]).value < |c| ==>
      c[NoteOffOf(events, rs[k - 1]).value].absTick <= rs[k].newTick
    ensures ClampedBefore(events, rs, c, k)
  {
    forall i | 0 <= i < k - 1 && NoteOffOf(events, rs[i]).Some? && rs[i + 1].newTick >= rs[i].newTick &&
               NoteOffOf(events, rs[i]).value < |c|
      ensures c[NoteOffOf(events, rs[i]).value].absTick <= rs[i + 1].newTick
    {
      var off := NoteOffOf(events, rs[i]).value;
      assert c[off].absTick <= p[off].absTick;
    }
  }

  /** The clamp loop never moves a tick later, and after it no note-off of
      the first `k` records with a following record that does not start
      earlier lasts past that record's start. */
  lemma {:induction false} ClampBounds(events: seq<Event>, rs: seq<NoteOnRecord>, k: nat)
    requires k <= Pairs(|rs|) && Linked(events) && RecordsIn(rs, events)
    ensures NoLater(events, ClampAll(events, rs, k)) && ClampedBefore(events, rs, ClampAll(events, rs, k), k)
  {
    if k > 0 {
      ClampBounds(events, rs, k - 1);
      var p := ClampAll(events, rs, k - 1);
      ShapeKeepsLinks(events, p, rs);
      var c := ClampAll(events, rs, k);
      assert c == ClampStep(p, rs, k - 1);
      assert NoteOffOf(p, rs[k - 1]) == NoteOffOf(events, rs[k - 1]);
      ClampStepLowers(p, rs, k - 1);
      NoLaterTransitive(events, p, c);
      ClampedBeforeStep(events, rs, p, c, k);
    }
  }

  /** The last event is moved to the latest tick if it is earlier. */
  function ExtendLast(events: seq<Event>, maxTick: int): (res: seq<Event>)
    ensures SameShape(events, res)
    ensures |events| > 0 ==> res[|events| - 1].absTick == Max(events[|events| - 1].absTick, maxTick)
    ensures forall i :: 0 <= i < |events| - 1 ==> res[i] == events[i]
  {
    if |events| != 0 && events[|events| - 1].absTick < maxTick
    then events[|events| - 1 := events[|events| - 1].(absTick := maxTick)]
    else events
  }

  /** The track after the rounds, as a reference: every record's note-on
      and note-off shifted, the note-offs clamped, and the last event
      moved to the latest tick. */
  function MoveEvents(events: seq<Event>, rs: seq<NoteOnRecord>): (res: seq<Event>)
    requires Linked(events) && RecordsIn(rs, events)
    ensures SameShape(events, res)
  {
    var shifted := ShiftAll(events, rs, |rs|);
    ShapeKeepsLinks(events, shifted.0, rs);
    ExtendLast(ClampAll(shifted.0, rs, Pairs(|rs|)), shifted.1)
  }

  /** The track's note-on records in the order the rounds take them. */
  function SortedRecords(events: seq<Event>, toTime: int -> int): seq<NoteOnRecord> {
    SortBy(NoteOnRecords(events, toTime, |events|), RecordKey)
  }

  /** Sorting keeps every record inside the track and every time agreeing
      with its tick. */
  lemma SortedRecordsIn(rs: seq<NoteOnRecord>, events: seq<Event>, toTime: int -> int)
    requires RecordsIn(rs, events) && TimesAgree(rs, toTime)
    ensures RecordsIn(SortBy(rs, RecordKey), events) && TimesAgree(SortBy(rs, RecordKey), toTime)
  {
    var s := SortBy(rs, RecordKey);
    forall j | 0 <= j < |s|
      ensures s[j].event < |events| && events[s[j].event].body.NoteOn? && s[j].newTime == toTime(s[j].newTick)
    {
      assert s[j] in multiset(rs);
    }
  }

  /** The rounds keep the records' order and their events. */
  lemma FrozenKeepsOrder(a: seq<NoteOnRecord>, b: seq<NoteOnRecord>, events: seq<Event>)
    requires Frozen(a, b) && SortedBy(a, RecordKey) && RecordsIn(a, events)
    ensures SortedBy(b, RecordKey) && RecordsIn(b, events)
  {
    assert forall i :: 0 <= i < |a| ==> RecordKey(a[i]) == RecordKey(b[i]);
  }

  /** One track of the optimiser: records, sort, rounds, shift, clamp,
      extension of the last event and the final reordering by tick and
      file position.  `records` are the track's note-on records after the
      rounds and `processed` the track before the final reordering. */
  method OptimizeTrack(events: seq<Event>, toTime: int -> int, fuel: nat)
    returns (out: seq<Event>, processed: seq<Event>, records: seq<NoteOnRecord>, rounds: nat, resolved: bool, totalUnresolved: nat)
    requires Linked(events)
    ensures SortedBy(out, EventKey) && multiset(out) == multiset(processed)
    ensures RecordsIn(records, events) && processed == MoveEvents(events, records)
    ensures rounds <= fuel && records == Iterate(SortedRecords(events, toTime), toTime, rounds)
    ensures Positive(Counts(SortedRecords(events, toTime), toTime, rounds))
    ensures resolved <==> CountClose(records, Pairs(|records|)) == 0
    ensures !resolved ==> rounds == fuel
    ensures totalUnresolved == MaxOf(Counts(SortedRecords(events, toTime), toTime, rounds + 1))
    ensures Frozen(SortedRecords(events, toTime), records)
    ensures SortedBy(records, RecordKey) && TimesAgree(records, toTime)
    ensures resolved ==> forall i :: 0 <= i < Pairs(|records|) ==> !Close(records, i)
  {
    records := BuildRecords(events, toTime);
    NoteOnRecordsExact(events, toTime, |events|);
    SortedRecordsIn(records, events, toTime);
    records := SortBy(records, RecordKey);
    var sortedRecords := records;
    records, rounds, totalUnresolved, resolved := ResolveConflicts(records, toTime, fuel);
    FrozenKeepsOrder(sortedRecords, records, events);
    var moved, maxTick := ShiftNoteOffs(events, records);
    ShapeKeepsLinks(events, moved, records);
    var clamped := ClampNoteOffs(moved, records);
    processed := ExtendLast(clamped, maxTick);
    out := SortBy(processed, EventKey);
  }
}
