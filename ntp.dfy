/** The clock synchronisation of ntp.go.  `syncTime` queries an NTP server
    four times and publishes the average clock offset and the largest root
    distance, unless the last synchronisation is more recent than the
    cooldown; `getNtpOffset` reads what was published.  The network query
    and its validation are an oracle: the sequence of replies the four
    queries receive.  Times and durations are nanoseconds. */
module Ntp {
  import opened Common

  /** What one `ntp.QueryWithOptions` followed by `Validate` gives: the
      query's error, or a response whose validation may fail. */
  datatype Reply =
    | QueryFailed(queryError: string)
    | Response(clockOffset: int, rootDistance: int, invalid: Option<string>)

  /** The error the reply makes `syncTime` return, if any. */
  function ReplyError(r: Reply): Option<string> {
    match r
    case QueryFailed(e) => Some(e)
    case Response(_, _, invalid) => invalid
  }

  /** The first error among the first `n` replies. */
  function FirstError(replies: seq<Reply>, n: nat): (e: Option<string>)
    requires n <= |replies|
    ensures e.None? <==> forall i :: 0 <= i < n ==> ReplyError(replies[i]).None?
  {
    if n == 0 then None
    else if FirstError(replies, n - 1).Some? then FirstError(replies, n - 1)
    else ReplyError(replies[n - 1])
  }

  /** The sum of the clock offsets of the first `n` replies (all responses). */
  function SumOffsets(replies: seq<Reply>, n: nat): int
    requires n <= |replies| && forall i :: 0 <= i < n ==> replies[i].Response?
  {
    if n == 0 then 0 else SumOffsets(replies, n - 1) + replies[n - 1].clockOffset
  }

  /** The largest root distance among the first `n` replies, starting from 0. */
  function MaxRootDistance(replies: seq<Reply>, n: nat): (d: int)
    requires n <= |replies| && forall i :: 0 <= i < n ==> replies[i].Response?
    ensures d >= 0 && forall i :: 0 <= i < n ==> replies[i].rootDistance <= d
    ensures d == 0 || exists i :: 0 <= i < n && replies[i].rootDistance == d
  {
    if n == 0 then 0
    else
      var r := replies[n - 1].rootDistance;
      var d := MaxRootDistance(replies, n - 1);
      if r > d then r else d
  }

  /** Once a reply has failed, the first error stays that reply's. */
  lemma {:induction false} FirstErrorSticks(replies: seq<Reply>, i: nat, n: nat)
    requires i < n <= |replies|
    requires FirstError(replies, i).None? && ReplyError(replies[i]).Some?
    ensures FirstError(replies, n) == ReplyError(replies[i])
    decreases n
  {
    if n > i + 1 {
      FirstErrorSticks(replies, i, n - 1);
    }
  }

  /** The offsets of the first `n` replies all lie in `[lo, hi]`. */
  ghost predicate OffsetsWithin(replies: seq<Reply>, n: nat, lo: int, hi: int)
    requires n <= |replies| && forall i :: 0 <= i < n ==> replies[i].Response?
  {
    forall i :: 0 <= i < n ==> lo <= replies[i].clockOffset <= hi
  }

  lemma {:induction false} SumWithin(replies: seq<Reply>, n: nat, lo: int, hi: int)
    requires n <= |replies| && forall i :: 0 <= i < n ==> replies[i].Response?
    requires OffsetsWithin(replies, n, lo, hi)
    ensures n * lo <= SumOffsets(replies, n) <= n * hi
  {
    if n > 0 {
      SumWithin(replies, n - 1, lo, hi);
    }
  }

  /** The published offset, the truncated average of the four, lies
      between the smallest and the largest of them. */
  lemma AverageWithin(replies: seq<Reply>, lo: int, hi: int)
    requires |replies| >= 4 && forall i :: 0 <= i < 4 ==> replies[i].Response?
    requires OffsetsWithin(replies, 4, lo, hi)
    ensures lo <= TruncDiv(SumOffsets(replies, 4), 4) <= hi
  {
    SumWithin(replies, 4, lo, hi);
    var s := SumOffsets(replies, 4);
    if s >= 0 {
      assert 4 * (s / 4) <= s < 4 * (s / 4 + 1);
    } else {
      assert 4 * ((-s) / 4) <= -s < 4 * ((-s) / 4 + 1);
    }
  }

  /** The cooldown gate: a zero `NtpLastSync` never blocks. */
  predicate TooSoon(lastSync: Option<int>, now: int, cooldown: int): (soon: bool)
    ensures lastSync.None? ==> !soon
    ensures soon ==> now < lastSync.value + cooldown
  {
    lastSync.Some? && now - lastSync.value < cooldown
  }

  /** The synchronisation state of `application`. */
  class NtpClock {
    const cooldown: int
    var clockOffset: int
    var maxDeviation: int
    /** `NtpLastSync`; `None` is Go's zero time. */
    var lastSync: Option<int>

    constructor (cooldown: int)
      ensures this.cooldown == cooldown && clockOffset == 0 && maxDeviation == 0 && lastSync == None
    {
      this.cooldown := cooldown;
      clockOffset, maxDeviation, lastSync := 0, 0, None;
    }

    /** `syncTime` with the clock reading `now` at the gate and `later`
        after the four queries, which receive `replies`. */
    method SyncTime(now: int, replies: seq<Reply>, later: int) returns (err: Option<string>)
      requires |replies| >= 4
      modifies this`clockOffset, this`maxDeviation, this`lastSync
      ensures TooSoon(old(lastSync), now, cooldown) ==> err == Some("Time already synchronized")
      ensures !TooSoon(old(lastSync), now, cooldown) ==> err == FirstError(replies, 4)
      ensures err.Some? ==>
        clockOffset == old(clockOffset) && maxDeviation == old(maxDeviation) && lastSync == old(lastSync)
      ensures err.None? ==>
        clockOffset == TruncDiv(SumOffsets(replies, 4), 4) &&
        maxDeviation == MaxRootDistance(replies, 4) && lastSync == Some(later)
    {
      if TooSoon(lastSync, now, cooldown) {
        return Some("Time already synchronized");
      }
      var sum := 0;
      var rootDistance := 0;
      var i := 0;
      while i < 4
        invariant 0 <= i <= 4
        invariant FirstError(replies, i).None?
        invariant sum == SumOffsets(replies, i) && rootDistance == MaxRootDistance(replies, i)
      {
        match replies[i]
        case QueryFailed(e) =>
          FirstErrorSticks(replies, i, 4);
          return Some(e);
        case Response(offset, distance, invalid) =>
          if invalid.Some? {
            FirstErrorSticks(replies, i, 4);
            return invalid;
          }
          sum := sum + offset;
          if distance > rootDistance {
            rootDistance := distance;
          }
        i := i + 1;
      }
      clockOffset := TruncDiv(sum, 4);
      maxDeviation := rootDistance;
      lastSync := Some(later);
      return None;
    }

    /** `getNtpOffset`: whether a synchronisation ever succeeded, and the
        published offset and deviation. */
    method GetNtpOffset() returns (synced: bool, offset: int, deviation: int)
      ensures synced <==> lastSync.Some?
      ensures offset == clockOffset && deviation == maxDeviation
    {
      synced := lastSync.Some?;
      offset := clockOffset;
      deviation := maxDeviation;
    }
  }
}
