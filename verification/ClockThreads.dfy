/**
 `ns_since_midnight` called by any number of threads at once.  The cached midnight is one
 shared atomic; each thread steps through reading the clock (line 56), loading the cache and
 testing it (58-59), reading the clock again (62) and storing the new midnight (64), and the
 steps of different threads interleave freely.
 */
module ClockThreads {
  import opened DayTime
  import CachedClock

  datatype Pc =
    | Idle                    // between calls
    | HaveReading(t: nat)     // after line 56
    | NeedNow                 // the test at line 59 found the cache stale
    | HaveNow(midnight: nat)  // after line 63, the store at line 64 still to come
    | Retry                   // the call at line 65

  datatype Result = Result(t: nat, ns: nat)

  datatype State = State(epoch: nat, pcs: seq<Pc>, results: seq<Result>)

  datatype Action =
    | Read(i: nat, t: nat)
    | Load(i: nat)
    | Now(i: nat, now: nat)
    | Store(i: nat)

  predicate Enabled(s: State, a: Action) {
    a.i < |s.pcs| &&
    match a
    case Read(i, t) => (s.pcs[i].Idle? || s.pcs[i].Retry?) && t < HORIZON
    case Load(i) => s.pcs[i].HaveReading?
    case Now(i, now) => s.pcs[i].NeedNow? && now < HORIZON
    case Store(i) => s.pcs[i].HaveNow?
  }

  /** The step is a load that finds the cache stale. */
  predicate IsRetry(s: State, a: Action)
    requires Enabled(s, a)
  {
    a.Load? && !Fresh(s.pcs[a.i].t, s.epoch)
  }

  function Next(s: State, a: Action): State
    requires Enabled(s, a)
  {
    match a
    case Read(i, t) => s.(pcs := s.pcs[i := HaveReading(t)])
    case Load(i) =>
      var t := s.pcs[i].t;
      if Fresh(t, s.epoch) then
        s.(pcs := s.pcs[i := Idle], results := s.results + [Result(t, Offset(t, s.epoch))])
      else
        s.(pcs := s.pcs[i := NeedNow])
    case Now(i, now) => s.(pcs := s.pcs[i := HaveNow(MidnightSec(now))])
    case Store(i) => s.(epoch := s.pcs[i].midnight, pcs := s.pcs[i := Retry])
  }

  /** The interleaving `acts` can happen from `s`. */
  predicate CanRun(s: State, acts: seq<Action>)
    decreases |acts|
  {
    acts == [] || (Enabled(s, acts[0]) && CanRun(Next(s, acts[0]), acts[1..]))
  }

  function Run(s: State, acts: seq<Action>): State
    requires CanRun(s, acts)
    decreases |acts|
  {
    if acts == [] then s else Run(Next(s, acts[0]), acts[1..])
  }

  predicate Init(s: State) {
    && s.epoch == 0 && s.results == []
    && forall i :: 0 <= i < |s.pcs| ==> s.pcs[i] == Idle
  }

  // ---------------------------------------------------------------------------
  // Safety
  // ---------------------------------------------------------------------------

  predicate SoundPc(pc: Pc) {
    match pc
    case HaveReading(t) => t < HORIZON
    case HaveNow(m) => IsMidnight(m)
    case _ => true
  }

  predicate SoundResult(r: Result) {
    IsStampOf(r.ns, r.t)
  }

  ghost predicate Inv(s: State) {
    && IsMidnight(s.epoch)
    && (forall i :: 0 <= i < |s.pcs| ==> SoundPc(s.pcs[i]))
    && (forall k :: 0 <= k < |s.results| ==> SoundResult(s.results[k]))
  }

  lemma StepKeepsInv(s: State, a: Action)
    requires Inv(s) && Enabled(s, a)
    ensures Inv(Next(s, a))
  {
    match a
    case Read(i, t) =>
    case Load(i) =>
      assert SoundPc(s.pcs[i]);
      FreshIsExact(s.pcs[i].t, s.epoch);
    case Now(i, now) =>
      RefreshIsMidnight(now);
    case Store(i) =>
      assert SoundPc(s.pcs[i]);
  }

  lemma {:induction false} RunKeepsInv(s: State, acts: seq<Action>)
    requires Inv(s) && CanRun(s, acts)
    ensures Inv(Run(s, acts))
    decreases |acts|
  {
    if acts == [] {
    } else {
      StepKeepsInv(s, acts[0]);
      RunKeepsInv(Next(s, acts[0]), acts[1..]);
    }
  }

  /** Interleaving safety: whatever the threads and the clock do, every value ever returned is the
      reading it was computed from modulo a day; it is DAY instead of 0 only at an exact midnight. */
  lemma ResultsAreTimesOfDay(s: State, acts: seq<Action>)
    requires Init(s) && CanRun(s, acts)
    ensures forall k :: 0 <= k < |Run(s, acts).results| ==>
      var r := Run(s, acts).results[k];
      0 <= r.ns <= DAY && r.ns % DAY == r.t % DAY && (r.ns == DAY ==> r.t % DAY == 0)
  {
    assert IsMidnight(s.epoch);
    RunKeepsInv(s, acts);
    forall k | 0 <= k < |Run(s, acts).results|
      ensures
        var r := Run(s, acts).results[k];
        0 <= r.ns <= DAY && r.ns % DAY == r.t % DAY && (r.ns == DAY ==> r.t % DAY == 0)
    {
      assert SoundResult(Run(s, acts).results[k]);
    }
  }

  /** The midnights the second clock readings of a run have produced. */
  ghost predicate Observed(acts: seq<Action>, midnight: nat) {
    exists k :: 0 <= k < |acts| && acts[k].Now? && MidnightSec(acts[k].now) == midnight
  }

  ghost predicate Known(s: State, acts: seq<Action>) {
    && (s.epoch == 0 || Observed(acts, s.epoch))
    && (forall i :: 0 <= i < |s.pcs| && s.pcs[i].HaveNow? ==> Observed(acts, s.pcs[i].midnight))
  }

  lemma {:induction false} KnownAlongRun(s: State, past: seq<Action>, acts: seq<Action>)
    requires Known(s, past) && CanRun(s, acts)
    ensures Known(Run(s, acts), past + acts)
    decreases |acts|
  {
    if acts == [] {
      assert past + acts == past;
    } else {
      var a, s' := acts[0], Next(s, acts[0]);
      var past' := past + [a];
      assert past'[|past|] == a;
      forall m | Observed(past, m)
        ensures Observed(past', m)
      {
        var k :| 0 <= k < |past| && past[k].Now? && MidnightSec(past[k].now) == m;
        assert past'[k] == past[k];
      }
      assert a.Now? ==> Observed(past', MidnightSec(a.now));
      assert Known(s', past');
      KnownAlongRun(s', past', acts[1..]);
      assert past' + acts[1..] == past + acts;
    }
  }

  /** The shared cache never holds anything but its initial 0 or the midnight of a reading some thread
      took at line 62, however late that thread's store came. */
  lemma CacheIsAnObservedMidnight(s: State, acts: seq<Action>)
    requires Init(s) && CanRun(s, acts)
    ensures Run(s, acts).epoch == 0 || Observed(acts, Run(s, acts).epoch)
  {
    KnownAlongRun(s, [], acts);
    assert [] + acts == acts;
  }

  // ---------------------------------------------------------------------------
  // Counting retries
  // ---------------------------------------------------------------------------

  /** The number of threads whose state satisfies `p`. */
  function Count(pcs: seq<Pc>, p: Pc -> bool): (c: nat)
    ensures c <= |pcs|
  {
    if pcs == [] then 0 else Count(pcs[..|pcs| - 1], p) + if p(pcs[|pcs| - 1]) then 1 else 0
  }

  lemma {:induction false} CountUpdate(pcs: seq<Pc>, i: nat, pc: Pc, p: Pc -> bool)
    requires i < |pcs|
    ensures Count(pcs[i := pc], p) == Count(pcs, p) - (if p(pcs[i]) then 1 else 0) + if p(pc) then 1 else 0
    decreases |pcs|
  {
    var last := |pcs| - 1;
    if i == last {
      assert pcs[i := pc][..last] == pcs[..last];
    } else {
      assert pcs[i := pc][..last] == pcs[..last][i := pc];
      CountUpdate(pcs[..last], i, pc, p);
    }
  }

  lemma {:induction false} CountWeaker(pcs: seq<Pc>, p: Pc -> bool, q: Pc -> bool)
    requires forall pc :: p(pc) ==> q(pc)
    ensures Count(pcs, p) <= Count(pcs, q)
    decreases |pcs|
  {
    if pcs == [] {
    } else {
      CountWeaker(pcs[..|pcs| - 1], p, q);
    }
  }

  lemma {:induction false} CountDisjoint(pcs: seq<Pc>, p: Pc -> bool, q: Pc -> bool)
    requires forall pc :: !(p(pc) && q(pc))
    ensures Count(pcs, p) + Count(pcs, q) <= |pcs|
    decreases |pcs|
  {
    if pcs == [] {
    } else {
      CountDisjoint(pcs[..|pcs| - 1], p, q);
    }
  }

  lemma {:induction false} CountAll(pcs: seq<Pc>, p: Pc -> bool)
    requires forall i :: 0 <= i < |pcs| ==> p(pcs[i])
    ensures Count(pcs, p) == |pcs|
    decreases |pcs|
  {
    if pcs == [] {
    } else {
      CountAll(pcs[..|pcs| - 1], p);
    }
  }

  /** The thread is about to store the midnight of another day than `day`. */
  function Late(day: nat): Pc -> bool {
    (pc: Pc) => pc.HaveNow? && pc.midnight != day * SEC_PER_DAY
  }

  /** The thread will find the cache stale, unless another thread's store comes first. */
  function Threatened(day: nat, stale: bool): Pc -> bool {
    (pc: Pc) => match pc
      case HaveReading(t) => stale || Day(t) != day
      case Idle => stale
      case Retry => stale
      case _ => false
  }

  /** 1 + 2 + ... + n. */
  function Triangle(n: nat): (r: nat)
    ensures n <= r
  {
    if n == 0 then 0 else n + Triangle(n - 1)
  }

  lemma {:induction false} TriangleMonotone(m: nat, n: nat)
    requires m <= n
    ensures Triangle(m) <= Triangle(n)
    decreases n
  {
    if m == n {
    } else {
      TriangleMonotone(m, n - 1);
    }
  }

  /** How many retries the threads can still make while every reading falls on day `day`. The next late store of h
      sends back at most the n - h + 1 threads that have no other one to make, the one after it one thread more,
      and so on up to n; besides, each thread now threatened goes back once. */
  function Potential(s: State, day: nat): nat {
    var n, h := |s.pcs|, Count(s.pcs, Late(day));
    TriangleMonotone(n - h, n);
    Triangle(n) - Triangle(n - h) + Count(s.pcs, Threatened(day, s.epoch != day * SEC_PER_DAY))
  }

  predicate ReadsOn(a: Action, day: nat) {
    match a
    case Read(_, t) => Day(t) == day
    case Now(_, now) => Day(now) == day
    case _ => true
  }

  /** On its own day a reading finds the day's midnight fresh. */
  lemma FreshOnOwnDay(t: nat, epoch: nat)
    requires t < HORIZON && epoch == MidnightSec(t)
    ensures Fresh(t, epoch)
  {
    RefreshIsMidnight(t);
    FreshIsExact(t, epoch);
  }

  lemma StaleLoadIsThreatened(s: State, i: nat, day: nat)
    requires Inv(s) && Enabled(s, Load(i)) && IsRetry(s, Load(i))
    ensures Threatened(day, s.epoch != day * SEC_PER_DAY)(s.pcs[i])
  {
    var t := s.pcs[i].t;
    assert SoundPc(s.pcs[i]);
    if Day(t) == day && s.epoch == day * SEC_PER_DAY {
      FreshOnOwnDay(t, s.epoch);
    }
  }

  /** A thread that is not about to store moves on. */
  lemma MovePotential(s: State, i: nat, pc: Pc, results: seq<Result>, day: nat)
    requires i < |s.pcs| && !Late(day)(s.pcs[i]) && !Late(day)(pc)
    ensures
      var threatened := Threatened(day, s.epoch != day * SEC_PER_DAY);
      Potential(State(s.epoch, s.pcs[i := pc], results), day) ==
      Potential(s, day) - (if threatened(s.pcs[i]) then 1 else 0) + if threatened(pc) then 1 else 0
  {
    CountUpdate(s.pcs, i, pc, Late(day));
    CountUpdate(s.pcs, i, pc, Threatened(day, s.epoch != day * SEC_PER_DAY));
  }

  lemma LoadLowersPotential(s: State, i: nat, day: nat)
    requires Inv(s) && Enabled(s, Load(i))
    ensures Potential(Next(s, Load(i)), day) + (if IsRetry(s, Load(i)) then 1 else 0) <= Potential(s, day)
  {
    var s' := Next(s, Load(i));
    MovePotential(s, i, s'.pcs[i], s'.results, day);
    if IsRetry(s, Load(i)) {
      StaleLoadIsThreatened(s, i, day);
    }
  }

  /** A late store may make the cache stale for all threads but those with a late store of their own, and pays
      for it; a store of the day's own midnight threatens nobody. */
  lemma StoreLowersPotential(s: State, i: nat, day: nat)
    requires Enabled(s, Store(i))
    ensures Potential(Next(s, Store(i)), day) <= Potential(s, day)
  {
    var stale, stale' := s.epoch != day * SEC_PER_DAY, s.pcs[i].midnight != day * SEC_PER_DAY;
    CountUpdate(s.pcs, i, Retry, Late(day));
    if stale' {
      CountDisjoint(s.pcs[i := Retry], Late(day), Threatened(day, true));
    } else {
      CountUpdate(s.pcs, i, Retry, Threatened(day, false));
      CountWeaker(s.pcs, Threatened(day, false), Threatened(day, stale));
    }
  }

  /** While readings stay on one day no step raises the potential, and every retry lowers it. */
  lemma PotentialFalls(s: State, a: Action, day: nat)
    requires Inv(s) && Enabled(s, a) && ReadsOn(a, day)
    ensures Potential(Next(s, a), day) + (if IsRetry(s, a) then 1 else 0) <= Potential(s, day)
  {
    match a
    case Load(i) => LoadLowersPotential(s, i, day);
    case Store(i) => StoreLowersPotential(s, i, day);
    case _ => MovePotential(s, a.i, Next(s, a).pcs[a.i], s.results, day);
  }

  /** The number of stale loads in a run. */
  function Retries(s: State, acts: seq<Action>): nat
    requires CanRun(s, acts)
    decreases |acts|
  {
    if acts == [] then 0
    else (if IsRetry(s, acts[0]) then 1 else 0) + Retries(Next(s, acts[0]), acts[1..])
  }

  /** The day of the last clock reading: `day` before the step, or that of the reading the step takes. */
  function DayOf(a: Action, day: nat): nat {
    match a
    case Read(_, t) => Day(t)
    case Now(_, now) => Day(now)
    case _ => day
  }

  /** The number of times the day seen by the clock readings changes, starting from `day`. */
  function DayChanges(acts: seq<Action>, day: nat): nat
    decreases |acts|
  {
    if acts == [] then 0
    else (if DayOf(acts[0], day) == day then 0 else 1) + DayChanges(acts[1..], DayOf(acts[0], day))
  }

  lemma {:induction false} TriangleIsHalfTheSquare(n: nat)
    ensures 2 * Triangle(n) == n * (n + 1)
    decreases n
  {
    if n == 0 {
    } else {
      TriangleIsHalfTheSquare(n - 1);
    }
  }

  /** The most that `n` threads can still retry on one day: 1 + 2 + ... + n. */
  lemma PotentialBound(s: State, day: nat)
    ensures Potential(s, day) <= Triangle(|s.pcs|) && 2 * Triangle(|s.pcs|) == |s.pcs| * (|s.pcs| + 1)
  {
    TriangleIsHalfTheSquare(|s.pcs|);
    CountDisjoint(s.pcs, Late(day), Threatened(day, s.epoch != day * SEC_PER_DAY));
  }

  /** One step, whichever day its reading falls on. */
  lemma StepBounded(s: State, a: Action, day: nat)
    requires Inv(s) && Enabled(s, a)
    ensures
      Potential(Next(s, a), DayOf(a, day)) + (if IsRetry(s, a) then 1 else 0) <=
      Potential(s, day) + if DayOf(a, day) == day then 0 else Triangle(|s.pcs|)
  {
    PotentialFalls(s, a, DayOf(a, day));
    PotentialBound(s, DayOf(a, day));
  }

  /** Bounded retries, in every run of every clock: however many calls the threads make, they retry no
      more than the potential they start with, plus 1 + 2 + ... + n each time the day changes. */
  lemma {:induction false} RetriesBounded(s: State, acts: seq<Action>, day: nat)
    requires Inv(s) && CanRun(s, acts)
    ensures Retries(s, acts) <= Potential(s, day) + DayChanges(acts, day) * Triangle(|s.pcs|)
    decreases |acts|
  {
    if acts == [] {
    } else {
      var a, rest := acts[0], acts[1..];
      var day', c := DayOf(a, day), Triangle(|s.pcs|);
      StepKeepsInv(s, a);
      StepBounded(s, a, day);
      RetriesBounded(Next(s, a), rest, day');
      AddOne(DayChanges(rest, day'), c);
    }
  }

  /** The run's clock readings, whichever threads take them, never go back, from `t` on. */
  predicate ClockForward(acts: seq<Action>, t: nat)
    decreases |acts|
  {
    acts == [] || (t <= Reading(acts[0], t) && ClockForward(acts[1..], Reading(acts[0], t)))
  }

  lemma ForwardCons(a: Action, rest: seq<Action>, t: nat)
    ensures ClockForward([a] + rest, t) <==> t <= Reading(a, t) && ClockForward(rest, Reading(a, t))
    ensures LastReading([a] + rest, t) == LastReading(rest, Reading(a, t))
  {
    assert ([a] + rest)[1..] == rest;
  }

  /** The reading a step takes, or `t` if it takes none. */
  function Reading(a: Action, t: nat): nat {
    match a
    case Read(_, t') => t'
    case Now(_, now) => now
    case _ => t
  }

  function LastReading(acts: seq<Action>, t: nat): nat
    decreases |acts|
  {
    if acts == [] then t else LastReading(acts[1..], Reading(acts[0], t))
  }

  /** On a clock that never goes back the day changes no more often than days pass. */
  lemma {:induction false} ForwardDayChanges(acts: seq<Action>, t: nat)
    requires ClockForward(acts, t)
    ensures t <= LastReading(acts, t) && DayChanges(acts, Day(t)) <= Day(LastReading(acts, t)) - Day(t)
    decreases |acts|
  {
    if acts == [] {
    } else {
      var t' := Reading(acts[0], t);
      ForwardDayChanges(acts[1..], t');
      assert DayOf(acts[0], Day(t)) == Day(t');
      DayMonotone(t, t');
    }
  }

  /** On a clock that never goes back: the threads retry no more than the potential on the first day plus a
      fixed amount for each day that passes. */
  lemma RetriesPerDay(s: State, acts: seq<Action>, t: nat) returns (days: nat)
    requires Inv(s) && CanRun(s, acts) && ClockForward(acts, t)
    ensures t <= LastReading(acts, t) && Day(LastReading(acts, t)) == Day(t) + days
    ensures Retries(s, acts) <= Potential(s, Day(t)) + days * Triangle(|s.pcs|)
  {
    RetriesBounded(s, acts, Day(t));
    ForwardDayChanges(acts, t);
    days := Day(LastReading(acts, t)) - Day(t);
    MoreDays(Retries(s, acts), Potential(s, Day(t)), DayChanges(acts, Day(t)), days, Triangle(|s.pcs|));
  }

  lemma MoreDays(retries: nat, start: nat, k: nat, days: nat, c: nat)
    requires k <= days && retries <= start + k * c
    ensures retries <= start + days * c
  {
  }

  lemma AddOne(k: nat, c: nat)
    ensures (1 + k) * c == c + k * c && (0 + k) * c == k * c
  {
  }

  /** At start-up the potential is one retry a thread, on every day but the first. */
  lemma InitialPotential(s: State, day: nat)
    requires Init(s) && day > 0
    ensures Potential(s, day) == |s.pcs|
  {
    CountAll(s.pcs, Threatened(day, true));
    CountDisjoint(s.pcs, Late(day), Threatened(day, true));
  }


  // ---------------------------------------------------------------------------
  // The bound is met
  // ---------------------------------------------------------------------------

  lemma FirstStep(s: State, a: Action, rest: seq<Action>)
    requires Enabled(s, a)
    ensures CanRun(s, [a] + rest) <==> CanRun(Next(s, a), rest)
    ensures CanRun(s, [a] + rest) ==>
      && Run(s, [a] + rest) == Run(Next(s, a), rest)
      && Retries(s, [a] + rest) == (if IsRetry(s, a) then 1 else 0) + Retries(Next(s, a), rest)
  {
    assert ([a] + rest)[1..] == rest;
  }

  /** Some run on a clock that never goes back leads from `s`, last reading `t`, to `f`, last reading `u`, with
      that many retries. */
  ghost predicate Reaches(s: State, t: nat, f: State, u: nat, retries: nat) {
    exists acts ::
      && CanRun(s, acts) && Run(s, acts) == f && Retries(s, acts) == retries
      && ClockForward(acts, t) && LastReading(acts, t) == u
  }

  lemma ReachesSelf(s: State, t: nat)
    ensures Reaches(s, t, s, t, 0)
  {
    assert CanRun(s, []) && ClockForward([], t) && LastReading([], t) == t;
  }

  /** One step, and then on. */
  lemma StepThenReaches(s: State, t: nat, a: Action, f: State, u: nat, retries: nat)
    requires Enabled(s, a) && t <= Reading(a, t) && Reaches(Next(s, a), Reading(a, t), f, u, retries)
    ensures Reaches(s, t, f, u, (if IsRetry(s, a) then 1 else 0) + retries)
  {
    var rest :|
      && CanRun(Next(s, a), rest) && Run(Next(s, a), rest) == f && Retries(Next(s, a), rest) == retries
      && ClockForward(rest, Reading(a, t)) && LastReading(rest, Reading(a, t)) == u;
    FirstStep(s, a, rest);
    ForwardCons(a, rest, t);
    assert CanRun(s, [a] + rest);
  }

  lemma {:induction false} RunThenReaches(s: State, t: nat, acts: seq<Action>, f: State, u: nat, retries: nat)
    requires CanRun(s, acts) && ClockForward(acts, t)
    requires Reaches(Run(s, acts), LastReading(acts, t), f, u, retries)
    ensures Reaches(s, t, f, u, Retries(s, acts) + retries)
    decreases |acts|
  {
    if acts == [] {
    } else {
      var a := acts[0];
      RunThenReaches(Next(s, a), Reading(a, t), acts[1..], f, u, retries);
      StepThenReaches(s, t, a, f, u, Retries(Next(s, a), acts[1..]) + retries);
    }
  }

  lemma ReachesThen(s: State, t: nat, m: State, v: nat, first: nat, f: State, u: nat, more: nat)
    requires Reaches(s, t, m, v, first) && Reaches(m, v, f, u, more)
    ensures Reaches(s, t, f, u, first + more)
  {
    var acts :|
      && CanRun(s, acts) && Run(s, acts) == m && Retries(s, acts) == first
      && ClockForward(acts, t) && LastReading(acts, t) == v;
    RunThenReaches(s, t, acts, f, u, more);
  }

  /** `pcs` with its first `k` threads at `pc`. */
  function Front(pcs: seq<Pc>, k: nat, pc: Pc): seq<Pc> {
    seq(|pcs|, i requires 0 <= i < |pcs| => if i < k then pc else pcs[i])
  }

  /** The first `k` threads find the cache stale and read the clock again; their stores are still to come. */
  lemma {:induction false} FrontRetries(s: State, k: nat, t: nat, u: nat)
    requires k <= |s.pcs| && forall i :: 0 <= i < k ==> s.pcs[i].Idle? || s.pcs[i].Retry?
    requires t <= u < HORIZON && !Fresh(u, s.epoch)
    ensures Reaches(s, t, s.(pcs := Front(s.pcs, k, HaveNow(MidnightSec(u)))), if k == 0 then t else u, k)
    decreases k
  {
    if k == 0 {
      assert Front(s.pcs, 0, HaveNow(MidnightSec(u))) == s.pcs;
      ReachesSelf(s, t);
    } else {
      var i := k - 1;
      var s1 := Next(s, Read(i, u));
      var s2 := Next(s1, Load(i));
      var s3 := Next(s2, Now(i, u));
      var f := s.(pcs := Front(s.pcs, k, HaveNow(MidnightSec(u))));
      assert s3.(pcs := Front(s3.pcs, i, HaveNow(MidnightSec(u)))) == f;
      FrontRetries(s3, i, u, u);
      StepThenReaches(s2, u, Now(i, u), f, u, i);
      StepThenReaches(s1, u, Load(i), f, u, i);
      StepThenReaches(s, t, Read(i, u), f, u, k);
    }
  }

  /** The first `k` threads store the midnight they hold. */
  lemma {:induction false} FrontStores(s: State, k: nat, m: nat, t: nat)
    requires 0 < k <= |s.pcs| && forall i :: 0 <= i < k ==> s.pcs[i] == HaveNow(m)
    ensures Reaches(s, t, State(m, Front(s.pcs, k, Retry), s.results), t, 0)
    decreases k
  {
    var i := k - 1;
    var s1 := Next(s, Store(i));
    var f := State(m, Front(s.pcs, k, Retry), s.results);
    if i == 0 {
      assert s1 == f;
      ReachesSelf(f, t);
    } else {
      assert State(m, Front(s1.pcs, i, Retry), s.results) == f;
      FrontStores(s1, i, m, t);
    }
    StepThenReaches(s, t, Store(i), f, t, 0);
  }

  /** Threads that are all about to store midnight `m`. */
  function AllHold(n: nat, m: nat): seq<Pc> {
    seq(n, _ => HaveNow(m))
  }

  /** Each thread is past a store of midnight `m` if it is one of the first `k`, and about to make it if not. */
  function AfterLateStores(n: nat, m: nat, k: nat, results: seq<Result>): State {
    State(m, Front(AllHold(n, m), k, Retry), results)
  }

  /** One round of a day: the k threads past their late store find the cache stale, store the day's midnight, and
      then one more late store is made. */
  lemma LateRound(n: nat, m: nat, k: nat, results: seq<Result>, t: nat, u: nat)
    requires 0 < k < n && t <= u < HORIZON && !Fresh(u, m)
    ensures Reaches(AfterLateStores(n, m, k, results), t, AfterLateStores(n, m, k + 1, results), u, k)
  {
    var s, f := AfterLateStores(n, m, k, results), AfterLateStores(n, m, k + 1, results);
    var held := s.(pcs := Front(s.pcs, k, HaveNow(MidnightSec(u))));
    var stored := State(MidnightSec(u), Front(held.pcs, k, Retry), results);
    FrontRetries(s, k, t, u);
    FrontStores(held, k, MidnightSec(u), u);
    ReachesThen(s, t, held, u, k, stored, u, 0);
    assert Next(stored, Store(k)) == f;
    ReachesSelf(f, u);
    StepThenReaches(stored, u, Store(k), f, u, 0);
    ReachesThen(s, t, stored, u, k, f, u, 0);
  }

  /** The rounds of a day up to the k-th late store. */
  lemma {:induction false} LateRounds(n: nat, m: nat, k: nat, results: seq<Result>, t: nat, u: nat) returns (v: nat)
    requires 0 < k <= n && t <= u < HORIZON && !Fresh(u, m)
    ensures t <= v <= u
    ensures Reaches(AfterLateStores(n, m, 1, results), t, AfterLateStores(n, m, k, results), v, Triangle(k - 1))
    decreases k
  {
    var s := AfterLateStores(n, m, 1, results);
    if k == 1 {
      ReachesSelf(s, t);
      v := t;
    } else {
      var mid := AfterLateStores(n, m, k - 1, results);
      var w := LateRounds(n, m, k - 1, results, t, u);
      LateRound(n, m, k - 1, results, w, u);
      ReachesThen(s, t, mid, w, Triangle(k - 2), AfterLateStores(n, m, k, results), u, k - 1);
      v := u;
    }
  }

  /** A whole day: from n threads that all hold another day's midnight to n threads that all hold this day's. */
  lemma DayOfLateStores(s: State, m: nat, t: nat, u: nat)
    requires 0 < |s.pcs| && s.pcs == AllHold(|s.pcs|, m) && t <= u < HORIZON && !Fresh(u, m)
    ensures Reaches(s, t, State(m, AllHold(|s.pcs|, MidnightSec(u)), s.results), u, Triangle(|s.pcs|))
  {
    var n := |s.pcs|;
    var first, last := AfterLateStores(n, m, 1, s.results), AfterLateStores(n, m, n, s.results);
    var f := State(m, AllHold(n, MidnightSec(u)), s.results);
    var v := LateRounds(n, m, n, s.results, t, u);
    FrontRetries(last, n, v, u);
    assert Front(last.pcs, n, HaveNow(MidnightSec(u))) == f.pcs;
    ReachesThen(first, t, last, v, Triangle(n - 1), f, u, n);
    assert Next(s, Store(0)) == first;
    StepThenReaches(s, t, Store(0), f, u, Triangle(n));
  }

  /** A reading one day after another, neither at midnight, is stale for the other's midnight. */
  lemma StaleNextDay(t: nat)
    requires t % DAY > 0 && t + DAY < HORIZON
    ensures !Fresh(t + DAY, MidnightSec(t)) && Day(t + DAY) == Day(t) + 1
  {
    RefreshIsMidnight(t);
    FreshIsExact(t + DAY, MidnightSec(t));
  }

  /** Day after day the threads make every retry the bound allows. */
  lemma {:induction false} DaysOfLateStores(s: State, t: nat, days: nat) returns (f: State)
    requires 0 < |s.pcs| && s.pcs == AllHold(|s.pcs|, MidnightSec(t))
    requires t % DAY > 0 && t + days * DAY < HORIZON
    ensures Reaches(s, t, f, t + days * DAY, days * Triangle(|s.pcs|))
    decreases days
  {
    if days == 0 {
      ReachesSelf(s, t);
      f := s;
    } else {
      var s' := State(MidnightSec(t), AllHold(|s.pcs|, MidnightSec(t + DAY)), s.results);
      StaleNextDay(t);
      DayOfLateStores(s, MidnightSec(t), t, t + DAY);
      f := DaysOfLateStores(s', t + DAY, days - 1);
      ReachesThen(s, t, s', t + DAY, Triangle(|s.pcs|), f, t + days * DAY, (days - 1) * Triangle(|s.pcs|));
      AddOne(days - 1, Triangle(|s.pcs|));
    }
  }

  /** The bound of RetriesPerDay is met with equality for every number of threads and of days: from start-up, on a
      clock that never goes back, some run retries once a thread on its first day and 1 + 2 + ... + n times on
      every day after. */
  lemma RetryBoundIsMet(s: State, t: nat, days: nat) returns (acts: seq<Action>)
    requires Init(s) && 0 < |s.pcs|
    requires t > DAY && t % DAY > 0 && t + days * DAY < HORIZON
    ensures CanRun(s, acts) && ClockForward(acts, t) && Day(LastReading(acts, t)) == Day(t) + days
    ensures Retries(s, acts) == Potential(s, Day(t)) + days * Triangle(|s.pcs|)
  {
    var n := |s.pcs|;
    var s' := s.(pcs := Front(s.pcs, n, HaveNow(MidnightSec(t))));
    FreshIsExact(t, 0);
    InitialPotential(s, Day(t));
    FrontRetries(s, n, t, t);
    assert s'.pcs == AllHold(n, MidnightSec(t));
    var f := DaysOfLateStores(s', t, days);
    ReachesThen(s, t, s', t, n, f, t + days * DAY, days * Triangle(n));
    acts :|
      && CanRun(s, acts) && Run(s, acts) == f && Retries(s, acts) == n + days * Triangle(n)
      && ClockForward(acts, t) && LastReading(acts, t) == t + days * DAY;
    DaysOn(t, days);
  }

  lemma {:induction false} DaysOn(t: nat, days: nat)
    ensures Day(t + days * DAY) == Day(t) + days
    decreases days
  {
    if days == 0 {
    } else {
      DaysOn(t, days - 1);
    }
  }

  // ---------------------------------------------------------------------------
  // Progress
  // ---------------------------------------------------------------------------

  /** Steps the threads have taken that no return or retry accounts for yet. */
  function Begun(pcs: seq<Pc>): nat {
    Count(pcs, (pc: Pc) => pc.HaveReading?)
  }

  /** Steps that the threads' last retries still have to take: two from NeedNow, one from HaveNow. */
  function Owed(pcs: seq<Pc>): nat {
    Count(pcs, (pc: Pc) => pc.NeedNow?) + Count(pcs, (pc: Pc) => pc.NeedNow? || pc.HaveNow?)
  }

  /** Every step belongs to a return, which takes two, or to a retry, which takes four. */
  lemma {:induction false} StepsAddUp(s: State, acts: seq<Action>)
    requires CanRun(s, acts)
    ensures |Run(s, acts).results| >= |s.results| && |Run(s, acts).pcs| == |s.pcs|
    ensures
      var done := |Run(s, acts).results| - |s.results|;
      |acts| + Begun(s.pcs) + Owed(Run(s, acts).pcs) ==
      2 * done + 4 * Retries(s, acts) + Begun(Run(s, acts).pcs) + Owed(s.pcs)
    decreases |acts|
  {
    if acts == [] {
    } else {
      var a := acts[0];
      var pc' := Next(s, a).pcs[a.i];
      CountUpdate(s.pcs, a.i, pc', (pc: Pc) => pc.HaveReading?);
      CountUpdate(s.pcs, a.i, pc', (pc: Pc) => pc.NeedNow?);
      CountUpdate(s.pcs, a.i, pc', (pc: Pc) => pc.NeedNow? || pc.HaveNow?);
      StepsAddUp(Next(s, a), acts[1..]);
    }
  }

  /** The number of threads in the middle of a call. */
  function InCall(pcs: seq<Pc>): nat {
    Count(pcs, (pc: Pc) => !pc.Idle?)
  }

  /** The number of calls a run starts. */
  function Starts(s: State, acts: seq<Action>): nat
    requires CanRun(s, acts)
    decreases |acts|
  {
    if acts == [] then 0
    else (if acts[0].Read? && s.pcs[acts[0].i].Idle? then 1 else 0) + Starts(Next(s, acts[0]), acts[1..])
  }

  /** As many calls return as start, less those still in progress. */
  lemma {:induction false} CallsAddUp(s: State, acts: seq<Action>)
    requires CanRun(s, acts)
    ensures
      |s.results| + InCall(s.pcs) + Starts(s, acts) == |Run(s, acts).results| + InCall(Run(s, acts).pcs)
    decreases |acts|
  {
    if acts == [] {
    } else {
      var a := acts[0];
      CountUpdate(s.pcs, a.i, Next(s, a).pcs[a.i], (pc: Pc) => !pc.Idle?);
      CallsAddUp(Next(s, a), acts[1..]);
    }
  }

  /** No livelock: any long enough stretch of steps completes calls. All but a number of steps fixed by
      the threads and the day changes go into calls that return. */
  lemma StepsComplete(s: State, acts: seq<Action>, day: nat)
    requires Inv(s) && CanRun(s, acts)
    ensures
      var n := |s.pcs|;
      |Run(s, acts).results| >= |s.results| &&
      |acts| <= 2 * (|Run(s, acts).results| - |s.results|)
                + 4 * (Potential(s, day) + DayChanges(acts, day) * Triangle(n)) + 3 * n
  {
    StepsAddUp(s, acts);
    RetriesBounded(s, acts, day);
  }

  /** The four steps of a retry, taken without interruption. */
  function Round(i: nat, t: nat, now: nat): seq<Action> {
    [Read(i, t), Load(i), Now(i, now), Store(i)]
  }

  lemma RoundThen(s: State, i: nat, t: nat, now: nat, rest: seq<Action>)
    requires i < |s.pcs| && (s.pcs[i].Idle? || s.pcs[i].Retry?) && t < HORIZON && now < HORIZON
    requires !Fresh(t, s.epoch)
    ensures
      var s' := State(MidnightSec(now), s.pcs[i := Retry], s.results);
      (CanRun(s, Round(i, t, now) + rest) <==> CanRun(s', rest)) &&
      (CanRun(s', rest) ==>
         && Run(s, Round(i, t, now) + rest) == Run(s', rest)
         && Retries(s, Round(i, t, now) + rest) == 1 + Retries(s', rest))
  {
    var s1 := Next(s, Read(i, t));
    var s2 := Next(s1, Load(i));
    var s3 := Next(s2, Now(i, now));
    var s4 := Next(s3, Store(i));
    assert s4.pcs == s.pcs[i := Retry];
    FirstStep(s3, Store(i), rest);
    FirstStep(s2, Now(i, now), [Store(i)] + rest);
    FirstStep(s1, Load(i), [Now(i, now)] + ([Store(i)] + rest));
    FirstStep(s, Read(i, t), [Load(i)] + ([Now(i, now)] + ([Store(i)] + rest)));
    assert Round(i, t, now) + rest == [Read(i, t)] + ([Load(i)] + ([Now(i, now)] + ([Store(i)] + rest)));
  }

  /** The day changes in the bound are needed: one thread on a clock that swings between two days can
      retry any number of times and never return. */
  lemma {:induction false} SwingingClockStarves(s: State, k: nat) returns (acts: seq<Action>)
    requires s.epoch == 0 && |s.pcs| == 1 && (s.pcs[0].Idle? || s.pcs[0].Retry?)
    ensures CanRun(s, acts) && Retries(s, acts) == k && |acts| == 4 * k
    ensures Run(s, acts).results == s.results
    decreases k
  {
    if k == 0 {
      acts := [];
    } else {
      FreshIsExact(2 * DAY, 0);
      acts := SwingingClockStarves(State(0, s.pcs[0 := Retry], s.results), k - 1);
      RoundThen(s, 0, 2 * DAY, 0, acts);
      acts := Round(0, 2 * DAY, 0) + acts;
    }
  }

  // ---------------------------------------------------------------------------
  // One thread left alone behaves as the sequential call
  // ---------------------------------------------------------------------------

  function CallActions(i: nat, clock: seq<nat>, pos: nat, epoch: nat): seq<Action>
    decreases |clock| - pos
  {
    if pos >= |clock| then []
    else if Fresh(clock[pos], epoch) || pos + 1 >= |clock| then [Read(i, clock[pos]), Load(i)]
    else Round(i, clock[pos], clock[pos + 1]) + CallActions(i, clock, pos + 2, MidnightSec(clock[pos + 1]))
  }

  /** A call that no other thread's step interrupts has the sequential call's result, leaves its cache, and
      touches no other thread. */
  lemma {:induction false} AloneIsSequential(s: State, i: nat, clock: seq<nat>, pos: nat)
    requires i < |s.pcs| && (s.pcs[i].Idle? || s.pcs[i].Retry?)
    requires CachedClock.InHorizon(clock) && CachedClock.Call(clock, pos, s.epoch).Returned?
    ensures
      var r := CachedClock.Call(clock, pos, s.epoch);
      var acts := CallActions(i, clock, pos, s.epoch);
      && pos <= r.at < |clock| && CanRun(s, acts) && Retries(s, acts) == (r.at - pos) / 2
      && Run(s, acts) == State(r.epoch, s.pcs[i := Idle], s.results + [Result(clock[r.at], r.ns)])
    decreases |clock| - pos
  {
    var t := clock[pos];
    if Fresh(t, s.epoch) {
      var s1 := Next(s, Read(i, t));
      var s2 := Next(s1, Load(i));
      assert s2.pcs == s.pcs[i := Idle];
      FirstStep(s1, Load(i), []);
      FirstStep(s, Read(i, t), [Load(i)]);
      assert [Load(i)] + [] == [Load(i)];
      assert [Read(i, t)] + [Load(i)] == CallActions(i, clock, pos, s.epoch);
    } else {
      var now := clock[pos + 1];
      var s' := State(MidnightSec(now), s.pcs[i := Retry], s.results);
      AloneIsSequential(s', i, clock, pos + 2);
      assert s'.pcs[i := Idle] == s.pcs[i := Idle];
      RoundThen(s, i, t, now, CallActions(i, clock, pos + 2, MidnightSec(now)));
    }
  }
}
