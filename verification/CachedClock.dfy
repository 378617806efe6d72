/**
 `ns_since_midnight` run by one thread against a recorded sequence of clock readings.
 Every look at the clock, at line 56 or at line 62, consumes the next reading.  A call
 that is still retrying when the readings end has not returned.
 */
module CachedClock {
  import opened DayTime

  datatype Outcome =
    | Returned(at: nat, ns: nat, epoch: nat) // `at` indexes the reading the result was computed from
    | Waiting(epoch: nat)

  /** One call that starts at reading `pos` with cached midnight `epoch`. */
  function Call(clock: seq<nat>, pos: nat, epoch: nat): Outcome
    decreases |clock| - pos
  {
    if pos >= |clock| then Waiting(epoch)
    else if Fresh(clock[pos], epoch) then Returned(pos, Offset(clock[pos], epoch), epoch)
    else if pos + 1 >= |clock| then Waiting(epoch)
    else Call(clock, pos + 2, MidnightSec(clock[pos + 1]))
  }

  ghost predicate InHorizon(clock: seq<nat>) {
    forall i :: 0 <= i < |clock| ==> clock[i] < HORIZON
  }

  ghost predicate NonDecreasing(clock: seq<nat>) {
    forall i, j :: 0 <= i <= j < |clock| ==> clock[i] <= clock[j]
  }

  // ---------------------------------------------------------------------------
  // Any clock, forward or backward: the cache refines "reading mod one day"
  // ---------------------------------------------------------------------------

  /** A call that retries `j` times uses the reading 2j looks on, with the initial cache or the midnight of
      the reading just before it. */
  lemma {:induction false} CallShape(clock: seq<nat>, pos: nat, epoch: nat) returns (j: nat)
    requires Call(clock, pos, epoch).Returned?
    ensures
      var r := Call(clock, pos, epoch);
      && r.at == pos + 2 * j < |clock|
      && r.epoch == if j == 0 then epoch else MidnightSec(clock[r.at - 1])
    decreases |clock| - pos
  {
    if Fresh(clock[pos], epoch) {
      j := 0;
    } else {
      j := CallShape(clock, pos + 2, MidnightSec(clock[pos + 1]));
      j := j + 1;
    }
  }

  /** The cache a call ends with is fresh for the reading it uses. */
  lemma {:induction false} CallEndsFresh(clock: seq<nat>, pos: nat, epoch: nat)
    requires Call(clock, pos, epoch).Returned?
    ensures
      var r := Call(clock, pos, epoch);
      r.at < |clock| && Fresh(clock[r.at], r.epoch) && r.ns == Offset(clock[r.at], r.epoch)
    decreases |clock| - pos
  {
    if Fresh(clock[pos], epoch) {
    } else {
      CallEndsFresh(clock, pos + 2, MidnightSec(clock[pos + 1]));
    }
  }

  /** The cache a call ends with is a midnight, whatever the clock did. */
  lemma CallKeepsMidnight(clock: seq<nat>, pos: nat, epoch: nat)
    requires InHorizon(clock) && IsMidnight(epoch) && Call(clock, pos, epoch).Returned?
    ensures
      var r := Call(clock, pos, epoch);
      && r.at < |clock| && (r.at == pos || pos + 2 <= r.at) && IsMidnight(r.epoch)
      && r.epoch == if r.at == pos then epoch else MidnightSec(clock[r.at - 1])
  {
    var j := CallShape(clock, pos, epoch);
    if j > 0 {
      RefreshIsMidnight(clock[pos + 2 * j - 1]);
    }
  }

  /** Whatever the clock did, a returned value is right for the reading it was computed from, and the
      cache is a midnight: the initial one or that of the reading just before. */
  lemma CallRefinesModDay(clock: seq<nat>, pos: nat, epoch: nat)
    requires InHorizon(clock) && IsMidnight(epoch) && Call(clock, pos, epoch).Returned?
    ensures
      var r := Call(clock, pos, epoch);
      && r.at < |clock| && (r.at == pos || pos + 2 <= r.at)
      && IsStampOf(r.ns, clock[r.at]) && clock[r.at] == r.epoch * NS_PER_SEC + r.ns
      && IsMidnight(r.epoch) && r.epoch == (if r.at == pos then epoch else MidnightSec(clock[r.at - 1]))
  {
    CallKeepsMidnight(clock, pos, epoch);
    CallEndsFresh(clock, pos, epoch);
    var r := Call(clock, pos, epoch);
    FreshIsExact(clock[r.at], r.epoch);
  }

  /** Over readings and midnights alone: the first of readings pos, pos + 2, ... to lie within a day after the
      midnight it is measured from lies at least `least` and at most `most` after it. */
  predicate EndsBetween(clock: seq<nat>, pos: nat, epoch: nat, least: nat, most: nat)
    decreases |clock| - pos
  {
    pos < |clock| &&
    var start := epoch * NS_PER_SEC;
    if start <= clock[pos] <= start + DAY then start + least <= clock[pos] <= start + most
    else pos + 1 < |clock| && EndsBetween(clock, pos + 2, MidnightSec(clock[pos + 1]), least, most)
  }

  /** What a call returns, decided from the readings and midnights: no wrapping arithmetic is left. */
  lemma {:induction false} StampLiesBetween(clock: seq<nat>, pos: nat, epoch: nat, least: nat, most: nat)
    requires InHorizon(clock) && IsMidnight(epoch)
    ensures Call(clock, pos, epoch).Returned? && least <= Call(clock, pos, epoch).ns <= most <==>
            EndsBetween(clock, pos, epoch, least, most)
    ensures Call(clock, pos, epoch).Returned? ==> Call(clock, pos, epoch).ns <= DAY
    decreases |clock| - pos
  {
    if pos >= |clock| {
    } else {
      FreshIsExact(clock[pos], epoch);
      if !Fresh(clock[pos], epoch) && pos + 1 < |clock| {
        RefreshIsMidnight(clock[pos + 1]);
        StampLiesBetween(clock, pos + 2, MidnightSec(clock[pos + 1]), least, most);
      }
    }
  }

  /** The result is a whole day, outside the range below a day that the timestamp is documented to have, exactly
      for these clocks and caches. */
  lemma StampIsDayExactly(clock: seq<nat>, pos: nat, epoch: nat)
    requires InHorizon(clock) && IsMidnight(epoch)
    ensures Call(clock, pos, epoch).Returned? && Call(clock, pos, epoch).ns == DAY <==>
            EndsBetween(clock, pos, epoch, DAY, DAY)
  {
    StampLiesBetween(clock, pos, epoch, DAY, DAY);
  }

  /** On every day but the last before the horizon: the midnight that ends a day is stamped DAY while that
      day's own midnight is cached. */
  lemma MidnightStampedDay(d: nat)
    requires d + 1 < HORIZON_DAYS
    ensures Call([(d + 1) * DAY], 0, d * SEC_PER_DAY) == Returned(0, DAY, d * SEC_PER_DAY)
  {
    FreshIsExact((d + 1) * DAY, d * SEC_PER_DAY);
  }

  /** Every cache test of a call but the last one, the j-th counting from 0, finds the cache stale. */
  lemma {:induction false} EarlierTestsWereStale(clock: seq<nat>, pos: nat, epoch: nat, j: nat)
    ensures match Call(clock, pos, epoch)
      case Returned(at, _, _) =>
        pos + 2 * j < at ==>
          && pos + 2 * j < |clock|
          && !Fresh(clock[pos + 2 * j], if j == 0 then epoch else MidnightSec(clock[pos + 2 * j - 1]))
      case Waiting(_) => true
    decreases j
  {
    if Call(clock, pos, epoch).Returned? {
      var _ := CallShape(clock, pos, epoch);
      if j > 0 && !Fresh(clock[pos], epoch) {
        EarlierTestsWereStale(clock, pos + 2, MidnightSec(clock[pos + 1]), j - 1);
      }
    }
  }

  // ---------------------------------------------------------------------------
  // A clock that never goes back: how often a call retries
  // ---------------------------------------------------------------------------

  /** Once the cache holds the midnight of the previous reading, each retry costs a midnight. */
  lemma {:induction false} RetriesAfterRefresh(clock: seq<nat>, pos: nat)
    requires InHorizon(clock) && NonDecreasing(clock) && 0 < pos <= |clock|
    ensures match Call(clock, pos, MidnightSec(clock[pos - 1]))
      case Returned(at, _, _) => pos <= at < |clock| && (at - pos) / 2 <= Day(clock[at]) - Day(clock[pos - 1])
      case Waiting(_) => |clock| - pos <= 2 * (Day(clock[|clock| - 1]) - Day(clock[pos - 1]))
    decreases |clock| - pos
  {
    var epoch := MidnightSec(clock[pos - 1]);
    RefreshIsMidnight(clock[pos - 1]);
    DayMonotone(clock[pos - 1], clock[|clock| - 1]);
    if pos == |clock| {
    } else {
      FreshIsExact(clock[pos], epoch);
      if Fresh(clock[pos], epoch) {
        DayMonotone(clock[pos - 1], clock[pos]);
      } else {
        PastMidnight(Day(clock[pos - 1]), clock[pos]);
        DayMonotone(clock[pos], clock[|clock| - 1]);
        if pos + 1 < |clock| {
          DayMonotone(clock[pos], clock[pos + 1]);
          RetriesAfterRefresh(clock, pos + 2);
        }
      }
    }
  }

  /** From any cache, even one left in the future: at most one retry, plus one for each midnight
      that passed between the first refresh and the reading that was used. */
  lemma RetryBound(clock: seq<nat>, pos: nat, epoch: nat)
    requires InHorizon(clock) && NonDecreasing(clock)
    ensures match Call(clock, pos, epoch)
      case Returned(at, _, _) =>
        at == pos || (pos + 1 < at < |clock| && (at - pos) / 2 <= 1 + Day(clock[at]) - Day(clock[pos + 1]))
      case Waiting(_) => true
  {
    if Call(clock, pos, epoch).Returned? && !Fresh(clock[pos], epoch) {
      RetriesAfterRefresh(clock, pos + 2);
    }
  }

  /** A call returns once the clock has been read more often than the midnights it passed can explain. */
  lemma CallReturns(clock: seq<nat>, pos: nat, epoch: nat)
    requires InHorizon(clock) && NonDecreasing(clock) && pos < |clock|
    requires |clock| - pos > 2 + 2 * (Day(clock[|clock| - 1]) - Day(clock[pos]))
    ensures Call(clock, pos, epoch).Returned?
  {
    DayMonotone(clock[pos], clock[|clock| - 1]);
    if !Fresh(clock[pos], epoch) {
      DayMonotone(clock[pos], clock[pos + 1]);
      RetriesAfterRefresh(clock, pos + 2);
    }
  }

  // ---------------------------------------------------------------------------
  // Runs of many calls
  // ---------------------------------------------------------------------------

  datatype Stamp = Stamp(at: nat, ns: nat, epoch: nat)

  /** The results of up to `n` calls made one after the other. */
  function Calls(clock: seq<nat>, pos: nat, epoch: nat, n: nat): seq<Stamp>
    decreases n
  {
    if n == 0 then []
    else match Call(clock, pos, epoch)
      case Waiting(_) => []
      case Returned(at, ns, e) => [Stamp(at, ns, e)] + Calls(clock, at + 1, e, n - 1)
  }

  /** Whole histories, clock steps backward included: every value returned is right for its reading, and
      the cache is the initial one or the midnight of an earlier reading. */
  lemma {:induction false} CallsRefineModDay(clock: seq<nat>, pos: nat, epoch: nat, n: nat, i: nat)
    requires InHorizon(clock) && IsMidnight(epoch) && i < |Calls(clock, pos, epoch, n)|
    ensures
      var s := Calls(clock, pos, epoch, n)[i];
      && pos <= s.at < |clock| && IsMidnight(s.epoch)
      && IsStampOf(s.ns, clock[s.at]) && clock[s.at] == s.epoch * NS_PER_SEC + s.ns
      && (s.epoch == epoch || exists k :: pos < k < s.at && s.epoch == MidnightSec(clock[k]))
    decreases n
  {
    CallRefinesModDay(clock, pos, epoch);
    var r := Call(clock, pos, epoch);
    assert r.epoch == epoch || (pos < r.at - 1 < r.at && r.epoch == MidnightSec(clock[r.at - 1]));
    if i == 0 {
    } else {
      CallsRefineModDay(clock, r.at + 1, r.epoch, n - 1, i - 1);
    }
  }

  /** Each call of a run starts from the cache and the clock position its predecessor left. */
  lemma {:induction false} CallsFollow(clock: seq<nat>, pos: nat, epoch: nat, n: nat, i: nat)
    requires i < |Calls(clock, pos, epoch, n)|
    ensures
      var ss := Calls(clock, pos, epoch, n);
      var start, e := (if i == 0 then pos else ss[i - 1].at + 1), (if i == 0 then epoch else ss[i - 1].epoch);
      Call(clock, start, e) == Returned(ss[i].at, ss[i].ns, ss[i].epoch)
    decreases n
  {
    var r := Call(clock, pos, epoch);
    if i == 0 {
    } else {
      CallsFollow(clock, r.at + 1, r.epoch, n - 1, i - 1);
    }
  }

  // ---------------------------------------------------------------------------
  // On a clock that never goes back, neither does the cache
  // ---------------------------------------------------------------------------

  /** The cached midnight is not ahead of any reading still to come. */
  ghost predicate NotAhead(clock: seq<nat>, pos: nat, epoch: nat) {
    pos < |clock| ==> epoch * NS_PER_SEC <= clock[pos]
  }

  /** The readings one call takes at line 62, in order; it stores the midnight of each. */
  function Refreshes(clock: seq<nat>, pos: nat, epoch: nat): seq<nat>
    decreases |clock| - pos
  {
    if pos + 1 >= |clock| || Fresh(clock[pos], epoch) then []
    else [clock[pos + 1]] + Refreshes(clock, pos + 2, MidnightSec(clock[pos + 1]))
  }

  /** The readings a run of calls takes at line 62, in order. */
  function RefreshesOfCalls(clock: seq<nat>, pos: nat, epoch: nat, n: nat): seq<nat>
    decreases n
  {
    if n == 0 then []
    else match Call(clock, pos, epoch)
      case Waiting(_) => Refreshes(clock, pos, epoch)
      case Returned(at, _, e) => Refreshes(clock, pos, epoch) + RefreshesOfCalls(clock, at + 1, e, n - 1)
  }

  function DaysOf(nows: seq<nat>): seq<nat> {
    seq(|nows|, i requires 0 <= i < |nows| => Day(nows[i]))
  }

  ghost predicate Increasing(xs: seq<nat>) {
    forall i, j :: 0 <= i < j < |xs| ==> xs[i] < xs[j]
  }

  ghost predicate AllAbove(xs: seq<nat>, x: nat) {
    forall i :: 0 <= i < |xs| ==> x < xs[i]
  }

  /** The last of `xs`, or `x` if there is none. */
  function LastOf(xs: seq<nat>, x: nat): nat {
    if xs == [] then x else xs[|xs| - 1]
  }

  lemma IncreasingConcat(a: seq<nat>, b: seq<nat>, x: nat)
    requires Increasing(a) && Increasing(b) && AllAbove(b, LastOf(a, x))
    ensures Increasing(a + b) && LastOf(a + b, x) == LastOf(b, LastOf(a, x))
    ensures AllAbove(a, x) ==> AllAbove(a + b, x)
  {
    forall i, j | 0 <= i < j < |a + b|
      ensures (a + b)[i] < (a + b)[j]
    {
      if i < |a| <= j {
        assert a[i] <= LastOf(a, x) < b[j - |a|];
      }
    }
  }

  lemma DaysConcat(a: seq<nat>, b: seq<nat>, day: nat)
    requires Increasing(DaysOf(a)) && Increasing(DaysOf(b)) && AllAbove(DaysOf(b), LastOf(DaysOf(a), day))
    ensures Increasing(DaysOf(a + b)) && LastOf(DaysOf(a + b), day) == LastOf(DaysOf(b), LastOf(DaysOf(a), day))
    ensures AllAbove(DaysOf(a), day) ==> AllAbove(DaysOf(a + b), day)
  {
    assert DaysOf(a + b) == DaysOf(a) + DaysOf(b);
    IncreasingConcat(DaysOf(a), DaysOf(b), day);
  }

  /** Within one call every refresh falls on a later day than the one before and, unless the cache is ahead of the
      clock, than the cached one; the call leaves the last one's midnight in the cache. */
  lemma {:induction false} CallRefreshesAdvance(clock: seq<nat>, pos: nat, epoch: nat)
    requires InHorizon(clock) && NonDecreasing(clock) && IsMidnight(epoch)
    ensures
      var nows := Refreshes(clock, pos, epoch);
      Increasing(DaysOf(nows)) && (NotAhead(clock, pos, epoch) ==> AllAbove(DaysOf(nows), epoch / SEC_PER_DAY))
    ensures match Call(clock, pos, epoch)
      case Returned(at, _, e) =>
        var nows := Refreshes(clock, pos, epoch);
        && |nows| == (at - pos) / 2 && LastOf(DaysOf(nows), epoch / SEC_PER_DAY) == e / SEC_PER_DAY
        && IsMidnight(e) && NotAhead(clock, at + 1, e)
      case Waiting(_) => true
    decreases |clock| - pos
  {
    if Call(clock, pos, epoch).Returned? {
      CallRefinesModDay(clock, pos, epoch);
    }
    if pos >= |clock| {
    } else {
      FreshIsExact(clock[pos], epoch);
      if !Fresh(clock[pos], epoch) && pos + 1 < |clock| {
        var now := clock[pos + 1];
        RefreshIsMidnight(now);
        assert NotAhead(clock, pos + 2, MidnightSec(now));
        CallRefreshesAdvance(clock, pos + 2, MidnightSec(now));
        assert DaysOf([now]) == [Day(now)];
        DaysConcat([now], Refreshes(clock, pos + 2, MidnightSec(now)), epoch / SEC_PER_DAY);
        if NotAhead(clock, pos, epoch) {
          PastMidnight(epoch / SEC_PER_DAY, now);
        }
      }
    }
  }

  /** Over a whole run each refresh falls on a later day. */
  lemma {:induction false} RefreshesAdvance(clock: seq<nat>, pos: nat, epoch: nat, n: nat)
    requires InHorizon(clock) && NonDecreasing(clock) && IsMidnight(epoch)
    ensures
      var nows := RefreshesOfCalls(clock, pos, epoch, n);
      Increasing(DaysOf(nows)) && (NotAhead(clock, pos, epoch) ==> AllAbove(DaysOf(nows), epoch / SEC_PER_DAY))
    decreases n
  {
    if n == 0 {
    } else {
      CallRefreshesAdvance(clock, pos, epoch);
      var r := Call(clock, pos, epoch);
      if r.Returned? {
        RefreshesAdvance(clock, r.at + 1, r.epoch, n - 1);
        var more := RefreshesOfCalls(clock, r.at + 1, r.epoch, n - 1);
        DaysConcat(Refreshes(clock, pos, epoch), more, epoch / SEC_PER_DAY);
      }
    }
  }

  // ---------------------------------------------------------------------------
  // What a run of calls costs
  // ---------------------------------------------------------------------------

  /** A call spends two readings on each day it moves the cache by, at most. */
  lemma {:induction false} CallCost(clock: seq<nat>, pos: nat, epoch: nat)
    requires InHorizon(clock) && NonDecreasing(clock) && IsMidnight(epoch) && NotAhead(clock, pos, epoch)
    ensures match Call(clock, pos, epoch)
      case Returned(at, _, e) =>
        && pos <= at < |clock| && at - pos <= 2 * (e / SEC_PER_DAY - epoch / SEC_PER_DAY)
        && IsMidnight(e) && e / SEC_PER_DAY <= Day(clock[at]) && NotAhead(clock, at + 1, e)
      case Waiting(_) => pos < |clock| ==> |clock| - pos <= 2 * (Day(clock[|clock| - 1]) - epoch / SEC_PER_DAY)
    decreases |clock| - pos
  {
    if pos >= |clock| {
    } else {
      FreshIsExact(clock[pos], epoch);
      DayMonotone(clock[pos], clock[|clock| - 1]);
      if !Fresh(clock[pos], epoch) {
        PastMidnight(epoch / SEC_PER_DAY, clock[pos]);
        if pos + 1 < |clock| {
          RefreshIsMidnight(clock[pos + 1]);
          DayMonotone(clock[pos], clock[pos + 1]);
          DayMonotone(clock[pos + 1], clock[|clock| - 1]);
          CallCost(clock, pos + 2, MidnightSec(clock[pos + 1]));
        }
      }
    }
  }

  /** With one reading a call and two for each day still to come, every call of a run returns. */
  lemma {:induction false} RunReturnsFrom(clock: seq<nat>, pos: nat, epoch: nat, n: nat)
    requires InHorizon(clock) && NonDecreasing(clock) && IsMidnight(epoch) && NotAhead(clock, pos, epoch)
    requires pos <= |clock| && 0 < |clock|
    requires |clock| - pos >= n + 2 * (Day(clock[|clock| - 1]) - epoch / SEC_PER_DAY)
    requires epoch / SEC_PER_DAY <= Day(clock[|clock| - 1])
    ensures |Calls(clock, pos, epoch, n)| == n
    decreases n
  {
    if n == 0 {
    } else {
      CallCost(clock, pos, epoch);
      var r := Call(clock, pos, epoch);
      DayMonotone(clock[r.at], clock[|clock| - 1]);
      RunReturnsFrom(clock, r.at + 1, r.epoch, n - 1);
    }
  }

  /** Amortised cost: from any cache, n calls on a clock that never goes back all return within n readings
      and two more for each day the readings span. */
  lemma RunReturns(clock: seq<nat>, pos: nat, epoch: nat, n: nat)
    requires InHorizon(clock) && NonDecreasing(clock) && IsMidnight(epoch) && pos < |clock|
    requires |clock| - pos >= n + 2 * (1 + Day(clock[|clock| - 1]) - Day(clock[pos]))
    ensures |Calls(clock, pos, epoch, n)| == n
  {
    FreshIsExact(clock[pos], epoch);
    DayMonotone(clock[pos], clock[|clock| - 1]);
    if Fresh(clock[pos], epoch) {
      assert epoch / SEC_PER_DAY <= Day(clock[pos]) <= epoch / SEC_PER_DAY + 1;
      RunReturnsFrom(clock, pos, epoch, n);
    } else {
      var e := MidnightSec(clock[pos + 1]);
      RefreshIsMidnight(clock[pos + 1]);
      DayMonotone(clock[pos], clock[pos + 1]);
      DayMonotone(clock[pos + 1], clock[|clock| - 1]);
      RunReturnsFrom(clock, pos + 2, e, n);
      assert Calls(clock, pos, epoch, n) == Calls(clock, pos + 2, e, n);
    }
  }

  // ---------------------------------------------------------------------------
  // Refresh economy
  // ---------------------------------------------------------------------------

  /** The different numbers in `xs`. */
  ghost function SetOf(xs: seq<nat>): set<nat> {
    set x | x in xs
  }

  lemma {:induction false} IncreasingIsSetOf(xs: seq<nat>)
    requires Increasing(xs)
    ensures |SetOf(xs)| == |xs|
    decreases |xs|
  {
    if xs == [] {
      assert SetOf(xs) == {};
    } else {
      var init, last := xs[..|xs| - 1], xs[|xs| - 1];
      IncreasingIsSetOf(init);
      assert xs == init + [last];
      assert SetOf(xs) == SetOf(init) + {last};
      assert last !in SetOf(init);
    }
  }

  /** A call refreshes from every other reading, and returns or waits at the reading after the last of them. */
  lemma {:induction false} RefreshesOfCall(clock: seq<nat>, pos: nat, epoch: nat)
    requires pos <= |clock|
    ensures
      var nows := Refreshes(clock, pos, epoch);
      && pos + 2 * |nows| <= |clock|
      && (forall i :: 0 <= i < |nows| ==> nows[i] == clock[pos + 2 * i + 1])
      && match Call(clock, pos, epoch)
         case Returned(at, _, _) => at == pos + 2 * |nows|
         case Waiting(_) => |clock| <= pos + 2 * |nows| + 1
    decreases |clock| - pos
  {
    if pos + 1 >= |clock| || Fresh(clock[pos], epoch) {
    } else {
      RefreshesOfCall(clock, pos + 2, MidnightSec(clock[pos + 1]));
    }
  }

  /** The readings of a run, on any clock: one for each call's result and two for each refresh; if a call does not
      return, that is all the readings there are, but for one that a last stale test may have taken. */
  lemma {:induction false} ReadingsOfCalls(clock: seq<nat>, pos: nat, epoch: nat, n: nat)
    requires pos <= |clock|
    ensures
      var ss, used := Calls(clock, pos, epoch, n), 2 * |RefreshesOfCalls(clock, pos, epoch, n)|;
      && |ss| <= n
      && (|ss| == n > 0 ==> used + n == ss[n - 1].at + 1 - pos)
      && (|ss| < n ==> used + |ss| <= |clock| - pos <= used + |ss| + 1)
      && (n == 0 ==> used == 0)
    decreases n
  {
    if n == 0 {
    } else {
      var r := Call(clock, pos, epoch);
      RefreshesOfCall(clock, pos, epoch);
      if r.Returned? {
        var j := CallShape(clock, pos, epoch);
        ReadingsOfCalls(clock, r.at + 1, r.epoch, n - 1);
        var more := Calls(clock, r.at + 1, r.epoch, n - 1);
        assert n > 1 && |more| == n - 1 ==> Calls(clock, pos, epoch, n)[n - 1] == more[n - 2];
      }
    }
  }

  /** Refresh economy: on a clock that never goes back, from any cached midnight, even one a clock set back has
      left ahead, a run refreshes on later and later days, exactly as often as there are different days among
      its line-62 readings, however many calls it makes. */
  lemma RefreshEconomy(clock: seq<nat>, pos: nat, epoch: nat, n: nat)
    requires InHorizon(clock) && NonDecreasing(clock) && IsMidnight(epoch)
    ensures
      var nows := RefreshesOfCalls(clock, pos, epoch, n);
      Increasing(DaysOf(nows)) && |nows| == |SetOf(DaysOf(nows))|
  {
    RefreshesAdvance(clock, pos, epoch, n);
    IncreasingIsSetOf(DaysOf(RefreshesOfCalls(clock, pos, epoch, n)));
  }

  // ---------------------------------------------------------------------------
  // Reading the stamps back
  // ---------------------------------------------------------------------------

  /** Time between two readings. */
  function Between(clock: seq<nat>, i: nat, j: nat): int
    requires i < |clock| && j < |clock|
  {
    clock[j] as int - clock[i]
  }

  /** Time between reading `j` and the one before it. */
  function GapBefore(clock: seq<nat>, j: nat): int
    requires 0 < j < |clock|
  {
    Between(clock, j - 1, j)
  }

  /** What a reader of two successive timestamps takes for the time between them. */
  function ReaderGap(before: nat, after: nat): int {
    after - before + if after < before then DAY else 0
  }

  /** The reader's clock at timestamp `i`, counted from the first timestamp. */
  function ReaderClock(stamps: seq<nat>, i: nat): int
    requires i < |stamps|
  {
    if i == 0 then 0 else ReaderClock(stamps, i - 1) + ReaderGap(stamps[i - 1], stamps[i])
  }

  function Timestamps(ss: seq<Stamp>): seq<nat> {
    seq(|ss|, i requires 0 <= i < |ss| => ss[i].ns)
  }

  /** The gap the reader can follow: less than a day, or a whole day after a stamp of 0. */
  predicate ReadableGap(gap: int, before: nat) {
    gap < DAY || (gap == DAY && before == 0)
  }

  /** The cached midnight moved by `k` days between the two stamps. */
  lemma ReaderGapArithmetic(before: nat, after: nat, gap: nat, k: nat)
    requires before <= DAY && after <= DAY && gap == k * DAY + after - before
    requires k > 0 ==> before + gap > DAY
    ensures ReaderGap(before, after) <= gap
    ensures ReaderGap(before, after) == gap <==> ReadableGap(gap, before)
  {
  }

  ghost predicate IsStampAt(clock: seq<nat>, s: Stamp) {
    s.at < |clock| && IsMidnight(s.epoch) && clock[s.at] == s.epoch * NS_PER_SEC + s.ns && s.ns <= DAY
  }

  /** Two calls in a row: the reading advances by the days the cache moved and by the stamps' difference. */
  lemma CacheMovesByDays(clock: seq<nat>, a: Stamp, b: Stamp) returns (k: nat)
    requires InHorizon(clock) && NonDecreasing(clock) && IsStampAt(clock, a)
    requires Call(clock, a.at + 1, a.epoch) == Returned(b.at, b.ns, b.epoch)
    ensures a.at < b.at && IsStampAt(clock, b) && clock[a.at] <= clock[b.at]
    ensures Between(clock, a.at, b.at) == k * DAY + b.ns - a.ns
    ensures k > 0 <==> b.at > a.at + 1
    ensures k > 0 ==> a.ns + Between(clock, a.at, b.at) > DAY
  {
    CallRefinesModDay(clock, a.at + 1, a.epoch);
    CallRefreshesAdvance(clock, a.at + 1, a.epoch);
    FreshIsExact(clock[a.at + 1], a.epoch);
    k := b.epoch / SEC_PER_DAY - a.epoch / SEC_PER_DAY;
    assert clock[a.at + 1] <= clock[b.at];
  }

  /** One step of the reader is exact if and only if the gap is readable, and is otherwise short. */
  lemma ReaderGapExact(clock: seq<nat>, a: Stamp, b: Stamp)
    requires InHorizon(clock) && NonDecreasing(clock) && IsStampAt(clock, a)
    ensures Call(clock, a.at + 1, a.epoch) == Returned(b.at, b.ns, b.epoch) ==>
      && a.at < b.at < |clock|
      && ReaderGap(a.ns, b.ns) <= Between(clock, a.at, b.at)
      && (ReaderGap(a.ns, b.ns) == Between(clock, a.at, b.at) <==> ReadableGap(Between(clock, a.at, b.at), a.ns))
  {
    if Call(clock, a.at + 1, a.epoch) == Returned(b.at, b.ns, b.epoch) {
      var k := CacheMovesByDays(clock, a, b);
      ReaderGapArithmetic(a.ns, b.ns, Between(clock, a.at, b.at), k);
    }
  }

  ghost predicate AllStampsAt(clock: seq<nat>, ss: seq<Stamp>) {
    forall i :: 0 <= i < |ss| ==> ss[i].at < |clock|
  }

  /** The readings the stamps of a run were computed from. */
  function Times(clock: seq<nat>, ss: seq<Stamp>): seq<nat>
    requires AllStampsAt(clock, ss)
  {
    seq(|ss|, i requires 0 <= i < |ss| => clock[ss[i].at])
  }

  /** The reader's clock agrees with the real one, which showed `times`, between any two of the `stamps`. */
  ghost predicate ReaderIsExact(times: seq<nat>, stamps: seq<nat>)
    requires |times| == |stamps|
  {
    forall i, j :: 0 <= i <= j < |stamps| ==>
      ReaderClock(stamps, j) - ReaderClock(stamps, i) == Between(times, i, j)
  }

  ghost predicate GapsReadable(times: seq<nat>, stamps: seq<nat>)
    requires |times| == |stamps|
  {
    forall j :: 0 < j < |stamps| ==> ReadableGap(GapBefore(times, j), stamps[j - 1])
  }

  lemma StampOfRun(clock: seq<nat>, pos: nat, epoch: nat, n: nat, j: nat)
    requires InHorizon(clock) && NonDecreasing(clock) && IsMidnight(epoch)
    requires j < |Calls(clock, pos, epoch, n)|
    ensures
      var ss := Calls(clock, pos, epoch, n);
      && IsStampAt(clock, ss[j])
      && (j > 0 ==>
            && IsStampAt(clock, ss[j - 1])
            && (ReaderGap(ss[j - 1].ns, ss[j].ns) == Between(clock, ss[j - 1].at, ss[j].at) <==>
                ReadableGap(Between(clock, ss[j - 1].at, ss[j].at), ss[j - 1].ns)))
  {
    CallsRefineModDay(clock, pos, epoch, n, j);
    if j > 0 {
      CallsRefineModDay(clock, pos, epoch, n, j - 1);
      CallsFollow(clock, pos, epoch, n, j);
      var ss := Calls(clock, pos, epoch, n);
      ReaderGapExact(clock, ss[j - 1], ss[j]);
    }
  }

  lemma AllStampsOfRun(clock: seq<nat>, pos: nat, epoch: nat, n: nat)
    requires InHorizon(clock) && IsMidnight(epoch)
    ensures AllStampsAt(clock, Calls(clock, pos, epoch, n))
  {
    forall i | 0 <= i < |Calls(clock, pos, epoch, n)|
      ensures Calls(clock, pos, epoch, n)[i].at < |clock|
    {
      CallsRefineModDay(clock, pos, epoch, n, i);
    }
  }

  ghost predicate StepsExact(times: seq<nat>, stamps: seq<nat>)
    requires |times| == |stamps|
  {
    forall j :: 0 < j < |stamps| ==> ReaderGap(stamps[j - 1], stamps[j]) == GapBefore(times, j)
  }

  /** The reader is exact over a log if and only if it is exact over each of its steps. */
  lemma ExactStepByStep(times: seq<nat>, stamps: seq<nat>)
    requires |times| == |stamps|
    ensures ReaderIsExact(times, stamps) <==> StepsExact(times, stamps)
  {
    if StepsExact(times, stamps) {
      forall i, j | 0 <= i <= j < |stamps|
        ensures ReaderClock(stamps, j) - ReaderClock(stamps, i) == Between(times, i, j)
      {
        GapsAddUp(times, stamps, i, j);
      }
    }
    if ReaderIsExact(times, stamps) {
      forall j | 0 < j < |stamps|
        ensures ReaderGap(stamps[j - 1], stamps[j]) == GapBefore(times, j)
      {
        var i := j - 1;
        assert ReaderClock(stamps, j) - ReaderClock(stamps, i) == Between(times, i, j);
      }
    }
  }

  lemma {:induction false} GapsAddUp(times: seq<nat>, stamps: seq<nat>, i: nat, j: nat)
    requires |times| == |stamps| && i <= j < |stamps| && StepsExact(times, stamps)
    ensures ReaderClock(stamps, j) - ReaderClock(stamps, i) == Between(times, i, j)
    decreases j
  {
    if i == j {
    } else {
      GapsAddUp(times, stamps, i, j - 1);
    }
  }

  /** Unwrapping a sequential log: on a clock that never goes back, the reader recovers the exact time
      between any two stamps if and only if every gap is readable. */
  lemma UnwrapIsExact(clock: seq<nat>, pos: nat, epoch: nat, n: nat)
    requires InHorizon(clock) && NonDecreasing(clock) && IsMidnight(epoch)
    ensures
      var ss := Calls(clock, pos, epoch, n);
      && AllStampsAt(clock, ss)
      && (ReaderIsExact(Times(clock, ss), Timestamps(ss)) <==> GapsReadable(Times(clock, ss), Timestamps(ss)))
  {
    AllStampsOfRun(clock, pos, epoch, n);
    var ss := Calls(clock, pos, epoch, n);
    var times, stamps := Times(clock, ss), Timestamps(ss);
    forall j | 0 < j < |ss|
      ensures ReaderGap(stamps[j - 1], stamps[j]) == GapBefore(times, j) <==>
              ReadableGap(GapBefore(times, j), stamps[j - 1])
    {
      StampOfRun(clock, pos, epoch, n, j);
    }
    assert StepsExact(times, stamps) <==> GapsReadable(times, stamps);
    ExactStepByStep(times, stamps);
  }

  // ---------------------------------------------------------------------------
  // The unit test's expectation: a second call returns more than the first
  // ---------------------------------------------------------------------------

  /** On any clock and from any cached midnight: a call returns more than `ns` exactly under this condition on
      the readings and the midnight. */
  lemma SecondStampIsLater(clock: seq<nat>, pos: nat, epoch: nat, ns: nat)
    requires InHorizon(clock) && IsMidnight(epoch)
    ensures Call(clock, pos, epoch).Returned? && ns < Call(clock, pos, epoch).ns <==>
            EndsBetween(clock, pos, epoch, ns + 1, DAY)
  {
    StampLiesBetween(clock, pos, epoch, ns + 1, DAY);
  }

  /** Any two calls of any run, however far apart: whether the later one returns more is decided by the readings
      from where its predecessor stopped, and the midnight that one left. */
  lemma LaterStampIsLarger(clock: seq<nat>, pos: nat, epoch: nat, n: nat, i: nat, j: nat)
    requires InHorizon(clock) && IsMidnight(epoch) && i < j < |Calls(clock, pos, epoch, n)|
    ensures
      var ss := Calls(clock, pos, epoch, n);
      ss[i].ns < ss[j].ns <==> EndsBetween(clock, ss[j - 1].at + 1, ss[j - 1].epoch, ss[i].ns + 1, DAY)
  {
    var ss := Calls(clock, pos, epoch, n);
    CallsRefineModDay(clock, pos, epoch, n, j - 1);
    CallsFollow(clock, pos, epoch, n, j);
    SecondStampIsLater(clock, ss[j - 1].at + 1, ss[j - 1].epoch, ss[i].ns);
  }

  /** On a clock that never goes back and has less than a day to run, the expectation holds exactly when the
      clock ticked and the second call's first reading is still within a day after the cached midnight. */
  lemma SecondStampWithinADay(clock: seq<nat>, a: Stamp)
    requires InHorizon(clock) && NonDecreasing(clock) && IsStampAt(clock, a) && a.at + 1 < |clock|
    requires Between(clock, a.at, |clock| - 1) < DAY
    ensures match Call(clock, a.at + 1, a.epoch)
      case Returned(_, ns, _) => a.ns < ns <==> clock[a.at] < clock[a.at + 1] <= a.epoch * NS_PER_SEC + DAY
      case Waiting(_) => true
  {
    match Call(clock, a.at + 1, a.epoch)
    case Waiting(_) =>
    case Returned(at, ns, e) =>
      var k := CacheMovesByDays(clock, a, Stamp(at, ns, e));
      FreshIsExact(clock[a.at + 1], a.epoch);
  }

  /** The expectation fails over every midnight: one call just before it, the next just after. */
  lemma SecondStampSmallerOverMidnight(d: nat)
    requires d + 2 < HORIZON_DAYS
    ensures
      var before, after := d * DAY + DAY - 1, d * DAY + DAY + 1;
      var clock := [before, after, after, after];
      && Call(clock, 0, d * SEC_PER_DAY) == Returned(0, DAY - 1, d * SEC_PER_DAY)
      && Call(clock, 1, d * SEC_PER_DAY) == Returned(3, 1, (d + 1) * SEC_PER_DAY)
  {
    var before, after := d * DAY + DAY - 1, d * DAY + DAY + 1;
    var clock := [before, after, after, after];
    FreshIsExact(before, d * SEC_PER_DAY);
    FreshIsExact(after, d * SEC_PER_DAY);
    FreshIsExact(after, (d + 1) * SEC_PER_DAY);
    assert MidnightSec(after) == (d + 1) * SEC_PER_DAY;
    assert Call(clock, 3, (d + 1) * SEC_PER_DAY) == Returned(3, 1, (d + 1) * SEC_PER_DAY);
  }

  /** After k days the expectation compares the times of day alone: it fails for every gap of k days, and of up
      to a day less, that ends at the same time of day or an earlier one. */
  lemma SecondStampDaysLater(d: nat, k: nat, ns: nat, ns': nat)
    requires k > 0 && d + k + 1 < HORIZON_DAYS && ns <= DAY && 0 < ns' < DAY
    ensures
      var after := (d + k) * DAY + ns';
      var clock := [d * DAY + ns, after, after, after];
      && Call(clock, 0, d * SEC_PER_DAY) == Returned(0, ns, d * SEC_PER_DAY)
      && Call(clock, 1, d * SEC_PER_DAY) == Returned(3, ns', (d + k) * SEC_PER_DAY)
      && Between(clock, 0, 3) == k * DAY + ns' - ns
  {
    var after := (d + k) * DAY + ns';
    var clock := [d * DAY + ns, after, after, after];
    FreshIsExact(d * DAY + ns, d * SEC_PER_DAY);
    FreshIsExact(after, d * SEC_PER_DAY);
    FreshIsExact(after, (d + k) * SEC_PER_DAY);
    assert MidnightSec(after) == (d + k) * SEC_PER_DAY;
    assert Call(clock, 3, (d + k) * SEC_PER_DAY) == Returned(3, ns', (d + k) * SEC_PER_DAY);
  }
}
