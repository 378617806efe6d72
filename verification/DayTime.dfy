/**
 The arithmetic of the cached-midnight clock.  A clock reading is a number of
 nanoseconds since the epoch; the cache holds the epoch second of a midnight (UTC).
 */
module DayTime {

  const NS_PER_SEC: nat := 1_000_000_000
  const SEC_PER_DAY: nat := 86_400
  const DAY: nat := 86_400_000_000_000       // nanoseconds in a day
  const WORD: nat := 0x1_0000_0000_0000_0000 // uint64_t arithmetic is modulo this

  // The number of days over which 64-bit arithmetic cannot confuse two midnights.
  const HORIZON_DAYS: nat := 213_503
  const HORIZON: nat := 18_446_659_200_000_000_000 // HORIZON_DAYS * DAY

  function Day(t: nat): nat {
    t / DAY
  }

  /** The epoch second of the midnight at or before `now`: floor to whole days, then back to seconds. */
  function MidnightSec(now: nat): nat {
    Day(now) * SEC_PER_DAY
  }

  /** Nanoseconds from the cached midnight to reading `t`, in wrapping 64-bit arithmetic as the source has it. */
  function Offset(t: nat, epoch: nat): nat {
    ((t / NS_PER_SEC - epoch) % WORD * NS_PER_SEC % WORD + t % NS_PER_SEC) % WORD
  }

  /** The source's one comparison: the cached midnight may be used for reading `t`. */
  predicate Fresh(t: nat, epoch: nat) {
    Offset(t, epoch) <= DAY
  }

  /** `r` is a correct "nanoseconds past midnight" for `t`: an exact midnight has two representatives, 0 and DAY. */
  predicate IsStampOf(r: nat, t: nat) {
    r == t % DAY || (r == DAY && t % DAY == 0)
  }

  /** `epoch` is a midnight (in seconds) before the horizon. */
  predicate IsMidnight(epoch: nat) {
    epoch % SEC_PER_DAY == 0 && epoch / SEC_PER_DAY < HORIZON_DAYS
  }

  lemma AddWords(a: int, k: int)
    ensures (a + k * WORD) % WORD == a % WORD
  {
  }

  /** Line 58 computes the true difference, modulo 2^64. */
  lemma OffsetIsWrappedDifference(t: nat, epoch: nat)
    ensures Offset(t, epoch) == (t - epoch * NS_PER_SEC) % WORD
  {
    var d, n := t / NS_PER_SEC - epoch, t % NS_PER_SEC;
    var q, r := d / WORD, d % WORD;
    var y, x := r * NS_PER_SEC / WORD, r * NS_PER_SEC % WORD;
    assert t - epoch * NS_PER_SEC == x + n + (q * NS_PER_SEC + y) * WORD;
    AddWords(x + n, q * NS_PER_SEC + y);
  }

  /** For a reading before the horizon and any cached second at least a day before it, midnight or not, the
      wrapped difference tells the two signs apart: the test passes exactly within a day after that second. */
  lemma FreshIsExactFromAnySecond(t: nat, epoch: nat)
    requires t < HORIZON && epoch * NS_PER_SEC <= HORIZON - DAY
    ensures
      var diff := t - epoch * NS_PER_SEC;
      Offset(t, epoch) == if diff >= 0 then diff else diff + WORD
    ensures Fresh(t, epoch) <==> epoch * NS_PER_SEC <= t <= epoch * NS_PER_SEC + DAY
    ensures t < epoch * NS_PER_SEC ==> Offset(t, epoch) > DAY
  {
    OffsetIsWrappedDifference(t, epoch);
    var diff := t - epoch * NS_PER_SEC;
    if diff < 0 {
      AddWords(diff, 1);
      assert 0 <= diff + WORD < WORD;
    }
  }

  lemma MidnightPlus(epoch: nat, r: nat, t: nat)
    requires epoch % SEC_PER_DAY == 0 && t == epoch * NS_PER_SEC + r && r <= DAY
    ensures IsStampOf(r, t)
  {
    var k := epoch / SEC_PER_DAY;
    assert t == k * DAY + r;
  }

  /** Of a cached midnight before the horizon: a fresh test moreover gives a right time of day. */
  lemma FreshIsExact(t: nat, epoch: nat)
    requires t < HORIZON && IsMidnight(epoch)
    ensures Fresh(t, epoch) <==> epoch * NS_PER_SEC <= t <= epoch * NS_PER_SEC + DAY
    ensures Fresh(t, epoch) ==> Offset(t, epoch) == t - epoch * NS_PER_SEC && IsStampOf(Offset(t, epoch), t)
    ensures t < epoch * NS_PER_SEC ==> Offset(t, epoch) > DAY
  {
    assert epoch * NS_PER_SEC <= HORIZON - DAY;
    FreshIsExactFromAnySecond(t, epoch);
    if Fresh(t, epoch) {
      MidnightPlus(epoch, Offset(t, epoch), t);
    }
  }

  /** The freshness test is exact for every reading and every cached midnight of the first `days` days. */
  ghost predicate ExactForDays(days: nat) {
    forall t: nat, epoch: nat :: t < days * DAY && epoch < days * SEC_PER_DAY && epoch % SEC_PER_DAY == 0 ==>
      (Fresh(t, epoch) <==> epoch * NS_PER_SEC <= t <= epoch * NS_PER_SEC + DAY)
  }

  /** The horizon is tight: one more day and a clock set back to the epoch is taken for fresh. */
  lemma HorizonIsTight(days: nat)
    ensures ExactForDays(days) <==> days <= HORIZON_DAYS
  {
    if days <= HORIZON_DAYS {
      forall t: nat, epoch: nat | t < days * DAY && epoch < days * SEC_PER_DAY && epoch % SEC_PER_DAY == 0
        ensures Fresh(t, epoch) <==> epoch * NS_PER_SEC <= t <= epoch * NS_PER_SEC + DAY
      {
        FreshIsExact(t, epoch);
      }
    } else {
      var epoch := HORIZON_DAYS * SEC_PER_DAY;
      OffsetIsWrappedDifference(0, epoch);
      assert Fresh(0, epoch);
    }
  }

  /** A refresh leaves the cache on the midnight of its reading. */
  lemma RefreshIsMidnight(now: nat)
    requires now < HORIZON
    ensures IsMidnight(MidnightSec(now))
    ensures MidnightSec(now) * NS_PER_SEC == Day(now) * DAY <= now < Day(now) * DAY + DAY
  {
  }

  lemma DayMonotone(t: nat, u: nat)
    requires t <= u
    ensures Day(t) <= Day(u)
  {
  }

  /** Past the end of a day that began at a midnight, a later day has begun. */
  lemma PastMidnight(k: nat, t: nat)
    requires k * DAY + DAY <= t
    ensures k + 1 <= Day(t)
  {
  }
}
