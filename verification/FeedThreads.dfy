/**
 One data feed under callbacks from any number of threads at once. A callback with a timestamp goes through the
 steps of `ns_since_midnight`, with the steps of other threads in between, and sends its message afterwards, in
 a step of its own; no lock holds the two together.
 */
module FeedThreads {
  import opened CachedClock
  import opened DayTime
  import opened Feed
  import Clock = ClockThreads

  /** A message in the log. The rest is history: the thread that sent it, how many messages were in the log when its
      callback began, and the reading its timestamp was computed from, or 0 if it has none. */
  datatype Entry = Entry(thread: nat, began: nat, reading: nat, msg: Message)

  datatype Job =
    | Free
    | Stamping(body: Body, began: nat)  // inside ns_since_midnight
    | Sending(entry: Entry)             // the message is built, its send is still to come

  datatype State = State(clock: Clock.State, jobs: seq<Job>, log: seq<Entry>)

  datatype Action =
    | Begin(i: nat, ev: Event)
    | Tick(a: Clock.Action)
    | Send(i: nat)

  predicate Enabled(s: State, a: Action) {
    match a
    case Begin(i, _) => i < |s.jobs| && s.jobs[i].Free?
    case Tick(c) => Clock.Enabled(s.clock, c) && c.i < |s.jobs| && s.jobs[c.i].Stamping?
    case Send(i) => i < |s.jobs| && s.jobs[i].Sending?
  }

  /** The clock step makes its thread's call return. */
  predicate Returns(s: State, c: Clock.Action)
    requires Enabled(s, Tick(c))
  {
    c.Load? && !Clock.IsRetry(s.clock, c)
  }

  function Next(s: State, a: Action): State
    requires Enabled(s, a)
  {
    match a
    case Begin(i, ev) =>
      s.(jobs := s.jobs[i :=
        if Bodies(ev) == [] then Free
        else if IsStamped(ev) then Stamping(Bodies(ev)[0], |s.log|)
        else Sending(Entry(i, |s.log|, 0, Blank(Bodies(ev)[0])))])
    case Tick(c) =>
      var s' := s.(clock := Clock.Next(s.clock, c));
      if Returns(s, c) then
        var r, job := s'.clock.results[|s.clock.results|], s.jobs[c.i];
        s'.(jobs := s.jobs[c.i := Sending(Entry(c.i, job.began, r.t, Stamped(r.ns, job.body)))])
      else s'
    case Send(i) =>
      s.(jobs := s.jobs[i := Free], log := s.log + [s.jobs[i].entry])
  }

  predicate CanRun(s: State, acts: seq<Action>)
    decreases |acts|
  {
    acts == [] || (Enabled(s, acts[0]) && CanRun(Next(s, acts[0]), acts[1..]))
  }

  function Run(s: State, acts: seq<Action>): State
    requires CanRun(s, acts)
    decreases |acts|
  {
    if acts == [] then s else Run(Next(s, acts[0]), acts[1..])
  }

  predicate Init(s: State) {
    && Clock.Init(s.clock) && |s.jobs| == |s.clock.pcs| && s.log == []
    && forall i :: 0 <= i < |s.jobs| ==> s.jobs[i] == Free
  }

  // ---------------------------------------------------------------------------
  // The clock inside the feed
  // ---------------------------------------------------------------------------

  /** The clock steps of a run, in order. */
  function Ticks(acts: seq<Action>): seq<Clock.Action>
    decreases |acts|
  {
    if acts == [] then []
    else if acts[0].Tick? then [acts[0].a] + Ticks(acts[1..])
    else Ticks(acts[1..])
  }

  /** The clock under a concurrent feed is the clock of `ClockThreads`, so whatever holds of its runs, the bound on
      retries and the absence of livelock included, holds here. */
  lemma {:induction false} ClockRunsInside(s: State, acts: seq<Action>)
    requires CanRun(s, acts)
    ensures Clock.CanRun(s.clock, Ticks(acts)) && Run(s, acts).clock == Clock.Run(s.clock, Ticks(acts))
    decreases |acts|
  {
    if acts == [] {
    } else {
      ClockRunsInside(Next(s, acts[0]), acts[1..]);
      if acts[0].Tick? {
        Clock.FirstStep(s.clock, acts[0].a, Ticks(acts[1..]));
      }
    }
  }

  // ---------------------------------------------------------------------------
  // Nothing lost, nothing added
  // ---------------------------------------------------------------------------

  /** The bodies thread `i` has sent, in order. */
  function SentBy(i: nat, log: seq<Entry>): seq<Body> {
    if log == [] then []
    else
      var last := log[|log| - 1];
      SentBy(i, log[..|log| - 1]) + if last.thread == i then [last.msg.body] else []
  }

  /** What the callback in progress has still to send. */
  function Unsent(job: Job): seq<Body> {
    match job
    case Free => []
    case Stamping(body, _) => [body]
    case Sending(e) => [e.msg.body]
  }

  /** The events whose callbacks thread `i` begins in a run, in order. */
  function BegunBy(i: nat, acts: seq<Action>): seq<Event>
    decreases |acts|
  {
    if acts == [] then []
    else if acts[0].Begin? && acts[0].i == i then [acts[0].ev] + BegunBy(i, acts[1..])
    else BegunBy(i, acts[1..])
  }

  /** Each message under way is its own thread's. */
  ghost predicate Owned(s: State) {
    forall i :: 0 <= i < |s.jobs| && s.jobs[i].Sending? ==> s.jobs[i].entry.thread == i
  }

  /** The bodies a step owes thread `i`'s log. */
  function Adds(i: nat, a: Action): seq<Body> {
    if a.Begin? && a.i == i then Bodies(a.ev) else []
  }

  lemma BegunCons(i: nat, acts: seq<Action>)
    requires acts != []
    ensures BodiesOf(BegunBy(i, acts)) == Adds(i, acts[0]) + BodiesOf(BegunBy(i, acts[1..]))
  {
    var rest := BegunBy(i, acts[1..]);
    if acts[0].Begin? && acts[0].i == i {
      assert ([acts[0].ev] + rest)[1..] == rest;
    } else {
      assert [] + BodiesOf(rest) == BodiesOf(rest);
    }
  }

  /** What thread `i` has sent, then what it has still to send. */
  function Account(s: State, i: nat): seq<Body>
    requires i < |s.jobs|
  {
    SentBy(i, s.log) + Unsent(s.jobs[i])
  }

  lemma StepAccount(s: State, a: Action, i: nat)
    requires Owned(s) && Enabled(s, a) && i < |s.jobs|
    ensures Owned(Next(s, a)) && |Next(s, a).jobs| == |s.jobs|
    ensures Account(Next(s, a), i) == Account(s, i) + Adds(i, a)
  {
    if a.Send? {
      assert Next(s, a).log[..|s.log|] == s.log;
    }
  }

  lemma Regroup(a: seq<Body>, b: seq<Body>, c: seq<Body>)
    ensures a + b + c == a + (b + c)
  {
  }

  /** One message for each completed callback that has one, in every interleaving: the messages a thread has sent,
      and the one under way, are those of the callbacks it has begun, in the order it began them. */
  lemma {:induction false} LogHoldsEveryCallback(s: State, acts: seq<Action>, i: nat)
    requires Owned(s) && CanRun(s, acts) && i < |s.jobs|
    ensures |Run(s, acts).jobs| == |s.jobs|
    ensures Account(Run(s, acts), i) == Account(s, i) + BodiesOf(BegunBy(i, acts))
    decreases |acts|
  {
    if acts == [] {
    } else {
      var s', rest := Next(s, acts[0]), acts[1..];
      StepAccount(s, acts[0], i);
      LogHoldsEveryCallback(s', rest, i);
      BegunCons(i, acts);
      Regroup(Account(s, i), Adds(i, acts[0]), BodiesOf(BegunBy(i, rest)));
    }
  }

  // ---------------------------------------------------------------------------
  // The timestamps, on any clock
  // ---------------------------------------------------------------------------

  predicate SoundEntry(e: Entry) {
    e.msg.Stamped? ==> IsStampOf(e.msg.timestamp, e.reading)
  }

  ghost predicate Sound(s: State) {
    && Clock.Inv(s.clock)
    && (forall i :: 0 <= i < |s.jobs| && s.jobs[i].Sending? ==> SoundEntry(s.jobs[i].entry))
    && (forall k :: 0 <= k < |s.log| ==> SoundEntry(s.log[k]))
  }

  lemma StepKeepsSound(s: State, a: Action)
    requires Sound(s) && Enabled(s, a)
    ensures Sound(Next(s, a))
  {
    if a.Tick? {
      Clock.StepKeepsInv(s.clock, a.a);
      if Returns(s, a.a) {
        assert Clock.SoundResult(Clock.Next(s.clock, a.a).results[|s.clock.results|]);
      }
    }
  }

  lemma {:induction false} RunKeepsSound(s: State, acts: seq<Action>)
    requires Sound(s) && CanRun(s, acts)
    ensures Sound(Run(s, acts))
    decreases |acts|
  {
    if acts == [] {
    } else {
      StepKeepsSound(s, acts[0]);
      RunKeepsSound(Next(s, acts[0]), acts[1..]);
    }
  }

  /** Whatever the threads and the clock do, each timestamp on the feed is the time of day of its callback's reading,
      a whole day only at an exact midnight. */
  lemma MessagesCarryTimesOfDay(s: State, acts: seq<Action>)
    requires Init(s) && CanRun(s, acts)
    ensures forall e :: e in Run(s, acts).log && e.msg.Stamped? ==> IsStampOf(e.msg.timestamp, e.reading)
  {
    RunKeepsSound(s, acts);
    assert forall e :: e in Run(s, acts).log ==> SoundEntry(e);
  }

  // ---------------------------------------------------------------------------
  // The order of the timestamps
  // ---------------------------------------------------------------------------

  /** No message among the first `n` of the log carries a reading after `t`. */
  ghost predicate NoneAfter(log: seq<Entry>, n: nat, t: nat) {
    n <= |log| && forall k :: 0 <= k < n && log[k].msg.Stamped? ==> log[k].reading <= t
  }

  /** Readings up to `now` keep to the order in which callbacks begin after sends. */
  ghost predicate Ordered(s: State, now: nat) {
    && |s.clock.pcs| == |s.jobs| && NoneAfter(s.log, |s.log|, now)
    && (forall i :: 0 <= i < |s.jobs| ==> OrderedJob(s, i, now))
    && (forall k :: 0 <= k < |s.log| && s.log[k].msg.Stamped? ==> NoneAfter(s.log, s.log[k].began, s.log[k].reading))
  }

  ghost predicate OrderedJob(s: State, i: nat, now: nat)
    requires i < |s.jobs| && i < |s.clock.pcs|
  {
    match s.jobs[i]
    case Free => s.clock.pcs[i].Idle?
    case Stamping(_, began) =>
      && began <= |s.log|
      && (s.clock.pcs[i].HaveReading? ==> s.clock.pcs[i].t <= now && NoneAfter(s.log, began, s.clock.pcs[i].t))
    case Sending(e) =>
      && s.clock.pcs[i].Idle?
      && (e.msg.Stamped? ==> e.reading <= now && NoneAfter(s.log, e.began, e.reading))
  }

  /** The last clock reading after a step. */
  function ReadingOf(a: Action, now: nat): nat {
    if a.Tick? then Clock.Reading(a.a, now) else now
  }

  lemma StepKeepsJobOrder(s: State, a: Action, now: nat, i: nat)
    requires Ordered(s, now) && Enabled(s, a) && now <= ReadingOf(a, now) && i < |s.jobs|
    ensures |Next(s, a).clock.pcs| == |Next(s, a).jobs| == |s.jobs| && OrderedJob(Next(s, a), i, ReadingOf(a, now))
  {
    assert OrderedJob(s, i, now);
  }

  lemma SendKeepsLogOrder(s: State, i: nat, now: nat)
    requires Ordered(s, now) && Enabled(s, Send(i))
    ensures
      var log := Next(s, Send(i)).log;
      && NoneAfter(log, |log|, now)
      && forall k :: 0 <= k < |log| && log[k].msg.Stamped? ==> NoneAfter(log, log[k].began, log[k].reading)
  {
    assert OrderedJob(s, i, now);
    var log := Next(s, Send(i)).log;
    forall k | 0 <= k < |log| && log[k].msg.Stamped?
      ensures NoneAfter(log, log[k].began, log[k].reading)
    {
      assert NoneAfter(s.log, log[k].began, log[k].reading);
    }
  }

  lemma StepKeepsOrder(s: State, a: Action, now: nat)
    requires Ordered(s, now) && Enabled(s, a) && now <= ReadingOf(a, now)
    ensures Ordered(Next(s, a), ReadingOf(a, now))
  {
    forall i | 0 <= i < |s.jobs|
      ensures |Next(s, a).clock.pcs| == |Next(s, a).jobs| == |s.jobs| && OrderedJob(Next(s, a), i, ReadingOf(a, now))
    {
      StepKeepsJobOrder(s, a, now, i);
    }
    if a.Send? {
      SendKeepsLogOrder(s, a.i, now);
    }
  }

  lemma {:induction false} RunKeepsOrder(s: State, acts: seq<Action>, now: nat)
    requires Ordered(s, now) && CanRun(s, acts) && Clock.ClockForward(Ticks(acts), now)
    ensures Ordered(Run(s, acts), Clock.LastReading(Ticks(acts), now))
    decreases |acts|
  {
    if acts == [] {
    } else {
      if acts[0].Tick? {
        assert ([acts[0].a] + Ticks(acts[1..]))[1..] == Ticks(acts[1..]);
      }
      StepKeepsOrder(s, acts[0], now);
      RunKeepsOrder(Next(s, acts[0]), acts[1..], ReadingOf(acts[0], now));
    }
  }

  /** On a clock that never goes back: a callback that begins when a message is already sent is stamped with no
      earlier reading, whichever threads the two are on. */
  lemma SentFirstIsStampedFirst(s: State, acts: seq<Action>, t: nat, i: nat, j: nat)
    requires Init(s) && CanRun(s, acts) && Clock.ClockForward(Ticks(acts), t)
    requires
      var log := Run(s, acts).log;
      j < |log| && i < log[j].began && i < |log| && log[i].msg.Stamped? && log[j].msg.Stamped?
    ensures Run(s, acts).log[i].reading <= Run(s, acts).log[j].reading
  {
    RunKeepsOrder(s, acts, t);
  }

  /** A thread's callbacks do not overlap: while one is in progress the thread sends nothing else. */
  ghost predicate OneAtATime(s: State) {
    && (forall i, k :: 0 <= i < |s.jobs| && 0 <= k < |s.log| && s.log[k].thread == i ==>
          match s.jobs[i]
          case Free => true
          case Stamping(_, began) => k < began
          case Sending(e) => k < e.began)
    && (forall k, l :: 0 <= k < l < |s.log| && s.log[k].thread == s.log[l].thread ==> k < s.log[l].began)
  }

  lemma {:induction false} RunIsOneAtATime(s: State, acts: seq<Action>)
    requires Owned(s) && OneAtATime(s) && CanRun(s, acts)
    ensures OneAtATime(Run(s, acts))
    decreases |acts|
  {
    if acts == [] {
    } else {
      StepIsOneAtATime(s, acts[0]);
      RunIsOneAtATime(Next(s, acts[0]), acts[1..]);
    }
  }

  lemma StepIsOneAtATime(s: State, a: Action)
    requires Owned(s) && OneAtATime(s) && Enabled(s, a)
    ensures Owned(Next(s, a)) && OneAtATime(Next(s, a))
  {
  }

  /** On a clock that never goes back each thread's own messages are in the order of their readings. */
  lemma EachThreadIsInOrder(s: State, acts: seq<Action>, t: nat, i: nat, j: nat)
    requires Init(s) && CanRun(s, acts) && Clock.ClockForward(Ticks(acts), t)
    requires
      var log := Run(s, acts).log;
      i < j < |log| && log[i].thread == log[j].thread && log[i].msg.Stamped? && log[j].msg.Stamped?
    ensures Run(s, acts).log[i].reading <= Run(s, acts).log[j].reading
  {
    RunIsOneAtATime(s, acts);
    SentFirstIsStampedFirst(s, acts, t, i, j);
  }

  // ---------------------------------------------------------------------------
  // Reading time off the shared log
  // ---------------------------------------------------------------------------

  /** The messages of a log that carry a timestamp. */
  function Timed(log: seq<Entry>): (es: seq<Entry>)
    ensures forall i :: 0 <= i < |es| ==> es[i] in log && es[i].msg.Stamped?
  {
    if log == [] then []
    else
      var last := log[|log| - 1];
      Timed(log[..|log| - 1]) + if last.msg.Stamped? then [last] else []
  }

  function Readings(log: seq<Entry>): seq<nat> {
    var es := Timed(log);
    seq(|es|, i requires 0 <= i < |es| => es[i].reading)
  }

  function Timestamps(log: seq<Entry>): seq<nat> {
    var es := Timed(log);
    seq(|es|, i requires 0 <= i < |es| => es[i].msg.timestamp)
  }

  function Messages(log: seq<Entry>): seq<Message> {
    seq(|log|, i requires 0 <= i < |log| => log[i].msg)
  }

  lemma TimedSnoc(log: seq<Entry>, e: Entry)
    ensures Timed(log + [e]) == Timed(log) + if e.msg.Stamped? then [e] else []
  {
    assert (log + [e])[..|log|] == log;
  }

  /** The place of message `k` among the messages with a timestamp. */
  function PlaceOf(log: seq<Entry>, k: nat): nat
    requires k <= |log|
  {
    |LogStamps(Messages(log[..k]))|
  }

  lemma {:induction false} TimestampsAreTheLogs(log: seq<Entry>)
    ensures Timestamps(log) == LogStamps(Messages(log))
    decreases |log|
  {
    if log == [] {
    } else {
      var init, last := log[..|log| - 1], log[|log| - 1];
      TimestampsAreTheLogs(init);
      LogStampsSnoc(Messages(init), last.msg);
      assert Messages(log) == Messages(init) + [last.msg];
    }
  }

  /** The reader reads every message that carries a timestamp, each at its place in the log's order. */
  lemma {:induction false} EveryTimedMessageIsRead(log: seq<Entry>, k: nat)
    requires k < |log| && log[k].msg.Stamped?
    ensures PlaceOf(log, k) < |Timed(log)| && Timed(log)[PlaceOf(log, k)] == log[k]
    decreases |log|
  {
    var init := log[..|log| - 1];
    if k == |init| {
      TimestampsAreTheLogs(init);
      assert log[..k] == init;
    } else {
      EveryTimedMessageIsRead(init, k);
      assert log[..k] == init[..k];
    }
  }

  /** The gap the reader can follow between the messages of any two threads: under a day and not backward, or a whole
      day from a stamp of 0 to one of DAY. */
  predicate Followable(gap: int, before: nat, after: nat) {
    if before == 0 && after == DAY then gap == DAY else 0 <= gap < DAY
  }

  lemma AnyGapExact(before: nat, after: nat, t: nat, u: nat)
    requires IsStampOf(before, t) && IsStampOf(after, u)
    ensures ReaderGap(before, after) == u as int - t <==> Followable(u as int - t, before, after)
  {
    var k := u / DAY - t / DAY;
    assert u as int - t == k * DAY + u % DAY - t % DAY;
  }

  ghost predicate AllFollowable(times: seq<nat>, stamps: seq<nat>)
    requires |times| == |stamps|
  {
    forall j :: 0 < j < |stamps| ==> Followable(GapBefore(times, j), stamps[j - 1], stamps[j])
  }

  /** Reading time off a feed shared by any number of threads, on any clock: the reader's clock is exact between any
      two messages if and only if each message's reading is followable from the one before it in the log. */
  lemma SharedLogUnwraps(s: State, acts: seq<Action>)
    requires Init(s) && CanRun(s, acts)
    ensures
      var log := Run(s, acts).log;
      && Timestamps(log) == LogStamps(Messages(log))
      && (ReaderIsExact(Readings(log), Timestamps(log)) <==> AllFollowable(Readings(log), Timestamps(log)))
  {
    var log := Run(s, acts).log;
    var times, stamps := Readings(log), Timestamps(log);
    MessagesCarryTimesOfDay(s, acts);
    TimestampsAreTheLogs(log);
    forall j | 0 < j < |stamps|
      ensures ReaderGap(stamps[j - 1], stamps[j]) == GapBefore(times, j) <==>
              Followable(GapBefore(times, j), stamps[j - 1], stamps[j])
    {
      var es := Timed(log);
      assert es[j - 1] in log && es[j] in log;
      AnyGapExact(stamps[j - 1], stamps[j], times[j - 1], times[j]);
    }
    assert StepsExact(times, stamps) <==> AllFollowable(times, stamps);
    ExactStepByStep(times, stamps);
  }

  // ---------------------------------------------------------------------------
  // Callbacks that no other interrupts
  // ---------------------------------------------------------------------------

  /** Some run leads from `s` to `f` with these clock steps. */
  ghost predicate Leads(s: State, ticks: seq<Clock.Action>, f: State) {
    exists acts :: CanRun(s, acts) && Run(s, acts) == f && Ticks(acts) == ticks
  }

  lemma LeadsToItself(s: State)
    ensures Leads(s, [], s)
  {
    assert CanRun(s, []) && Ticks([]) == [];
  }

  lemma StepLeads(s: State, a: Action, ticks: seq<Clock.Action>, f: State)
    requires Enabled(s, a) && Leads(Next(s, a), ticks, f)
    ensures Leads(s, if a.Tick? then [a.a] + ticks else ticks, f)
  {
    var rest :| CanRun(Next(s, a), rest) && Run(Next(s, a), rest) == f && Ticks(rest) == ticks;
    var acts := [a] + rest;
    assert acts[1..] == rest;
    assert CanRun(s, acts) && Run(s, acts) == f;
  }

  lemma TicksOneByOne(acts: seq<Action>, ticks: seq<Clock.Action>)
    requires acts != []
    ensures
      var more := Ticks(acts[1..]) + ticks;
      Ticks(acts) + ticks == if acts[0].Tick? then [acts[0].a] + more else more
  {
  }

  lemma {:induction false} RunLeads(s: State, acts: seq<Action>, ticks: seq<Clock.Action>, f: State)
    requires CanRun(s, acts) && Leads(Run(s, acts), ticks, f)
    ensures Leads(s, Ticks(acts) + ticks, f)
    decreases |acts|
  {
    if acts == [] {
      assert Ticks(acts) + ticks == ticks;
    } else {
      RunLeads(Next(s, acts[0]), acts[1..], ticks, f);
      StepLeads(s, acts[0], Ticks(acts[1..]) + ticks, f);
      TicksOneByOne(acts, ticks);
    }
  }

  /** Thread `i` once its call has returned: its message is built and not yet sent. */
  function AfterCall(s: State, i: nat, t: nat, ns: nat, epoch: nat): State
    requires i < |s.jobs| && i < |s.clock.pcs| && s.jobs[i].Stamping?
  {
    State(Clock.State(epoch, s.clock.pcs[i := Clock.Idle], s.clock.results + [Clock.Result(t, ns)]),
          s.jobs[i := Sending(Entry(i, s.jobs[i].began, t, Stamped(ns, s.jobs[i].body)))], s.log)
  }

  lemma LastTestLeads(s: State, i: nat, t: nat, ticks: seq<Clock.Action>, f: State)
    requires i < |s.jobs| && i < |s.clock.pcs| && s.jobs[i].Stamping?
    requires (s.clock.pcs[i].Idle? || s.clock.pcs[i].Retry?) && t < HORIZON && Fresh(t, s.clock.epoch)
    requires Leads(AfterCall(s, i, t, Offset(t, s.clock.epoch), s.clock.epoch), ticks, f)
    ensures Leads(s, [Clock.Read(i, t), Clock.Load(i)] + ticks, f)
  {
    var s1 := Next(s, Tick(Clock.Read(i, t)));
    var s2 := Next(s1, Tick(Clock.Load(i)));
    assert s2.clock.pcs == s.clock.pcs[i := Clock.Idle];
    assert s2 == AfterCall(s, i, t, Offset(t, s.clock.epoch), s.clock.epoch);
    StepLeads(s1, Tick(Clock.Load(i)), ticks, f);
    StepLeads(s, Tick(Clock.Read(i, t)), [Clock.Load(i)] + ticks, f);
    assert [Clock.Read(i, t)] + ([Clock.Load(i)] + ticks) == [Clock.Read(i, t), Clock.Load(i)] + ticks;
  }

  lemma TickLeads(s: State, c: Clock.Action, ticks: seq<Clock.Action>, f: State)
    requires Enabled(s, Tick(c)) && !Returns(s, c) && Leads(s.(clock := Clock.Next(s.clock, c)), ticks, f)
    ensures Leads(s, [c] + ticks, f)
  {
    StepLeads(s, Tick(c), ticks, f);
  }

  /** Lines 62-64: another clock reading, and its midnight is stored. */
  lemma RefreshLeads(s: State, i: nat, now: nat, ticks: seq<Clock.Action>, f: State)
    requires i < |s.jobs| && i < |s.clock.pcs| && s.jobs[i].Stamping? && s.clock.pcs[i].NeedNow? && now < HORIZON
    requires Leads(s.(clock := Clock.State(MidnightSec(now), s.clock.pcs[i := Clock.Retry], s.clock.results)), ticks, f)
    ensures Leads(s, [Clock.Now(i, now)] + ([Clock.Store(i)] + ticks), f)
  {
    var c := Clock.Next(s.clock, Clock.Now(i, now));
    assert Clock.Next(c, Clock.Store(i)).pcs == s.clock.pcs[i := Clock.Retry];
    TickLeads(s.(clock := c), Clock.Store(i), ticks, f);
    TickLeads(s, Clock.Now(i, now), [Clock.Store(i)] + ticks, f);
  }

  lemma StaleTestLeads(s: State, i: nat, t: nat, ticks: seq<Clock.Action>, f: State)
    requires i < |s.jobs| && i < |s.clock.pcs| && s.jobs[i].Stamping?
    requires (s.clock.pcs[i].Idle? || s.clock.pcs[i].Retry?) && t < HORIZON && !Fresh(t, s.clock.epoch)
    requires Leads(s.(clock := s.clock.(pcs := s.clock.pcs[i := Clock.NeedNow])), ticks, f)
    ensures Leads(s, [Clock.Read(i, t)] + ([Clock.Load(i)] + ticks), f)
  {
    var c := Clock.Next(s.clock, Clock.Read(i, t));
    assert Clock.Next(c, Clock.Load(i)).pcs == s.clock.pcs[i := Clock.NeedNow];
    TickLeads(s.(clock := c), Clock.Load(i), ticks, f);
    TickLeads(s, Clock.Read(i, t), [Clock.Load(i)] + ticks, f);
  }

  lemma RoundOneByOne(i: nat, t: nat, now: nat, ticks: seq<Clock.Action>)
    ensures Clock.Round(i, t, now) + ticks ==
            [Clock.Read(i, t)] + ([Clock.Load(i)] + ([Clock.Now(i, now)] + ([Clock.Store(i)] + ticks)))
  {
  }

  lemma RoundLeads(s: State, i: nat, t: nat, now: nat, ticks: seq<Clock.Action>, f: State)
    requires i < |s.jobs| && i < |s.clock.pcs| && s.jobs[i].Stamping?
    requires (s.clock.pcs[i].Idle? || s.clock.pcs[i].Retry?) && t < HORIZON && now < HORIZON
    requires !Fresh(t, s.clock.epoch)
    requires Leads(s.(clock := Clock.State(MidnightSec(now), s.clock.pcs[i := Clock.Retry], s.clock.results)), ticks, f)
    ensures Leads(s, Clock.Round(i, t, now) + ticks, f)
  {
    var c := s.clock.(pcs := s.clock.pcs[i := Clock.NeedNow]);
    assert c.pcs[i := Clock.Retry] == s.clock.pcs[i := Clock.Retry];
    RefreshLeads(s.(clock := c), i, now, ticks, f);
    StaleTestLeads(s, i, t, [Clock.Now(i, now)] + ([Clock.Store(i)] + ticks), f);
    RoundOneByOne(i, t, now, ticks);
  }

  lemma {:induction false} CallLeads(s: State, i: nat, clock: seq<nat>, pos: nat, ticks: seq<Clock.Action>, f: State)
    requires i < |s.jobs| && i < |s.clock.pcs| && s.jobs[i].Stamping?
    requires (s.clock.pcs[i].Idle? || s.clock.pcs[i].Retry?) && InHorizon(clock)
    requires Call(clock, pos, s.clock.epoch).Returned? && Call(clock, pos, s.clock.epoch).at < |clock|
    requires
      var r := Call(clock, pos, s.clock.epoch);
      Leads(AfterCall(s, i, clock[r.at], r.ns, r.epoch), ticks, f)
    ensures Leads(s, Clock.CallActions(i, clock, pos, s.clock.epoch) + ticks, f)
    decreases |clock| - pos
  {
    if Fresh(clock[pos], s.clock.epoch) {
      LastTestLeads(s, i, clock[pos], ticks, f);
    } else {
      var now := clock[pos + 1];
      var c := Clock.State(MidnightSec(now), s.clock.pcs[i := Clock.Retry], s.clock.results);
      var more := Clock.CallActions(i, clock, pos + 2, MidnightSec(now));
      assert c.pcs[i := Clock.Idle] == s.clock.pcs[i := Clock.Idle];
      CallLeads(s.(clock := c), i, clock, pos + 2, ticks, f);
      RoundLeads(s, i, clock[pos], now, more + ticks, f);
      assert Clock.Round(i, clock[pos], now) + (more + ticks) == Clock.Round(i, clock[pos], now) + more + ticks;
    }
  }

  /** `s` is between callbacks, where the sequential feed is in `st`. */
  ghost predicate AtRest(s: State, st: FeedState) {
    && |s.jobs| == |s.clock.pcs| && s.clock.epoch == st.epoch && Messages(s.log) == st.log
    && forall i :: 0 <= i < |s.jobs| ==> s.jobs[i] == Free && s.clock.pcs[i] == Clock.Idle
  }

  lemma MessagesSnoc(log: seq<Entry>, e: Entry)
    ensures Messages(log + [e]) == Messages(log) + [e.msg]
  {
  }

  /** A callback that no other interrupts, on any thread, does what it does to the sequential feed. */
  lemma UninterruptedIsSequential(s: State, i: nat, ev: Event, clock: seq<nat>, st: FeedState) returns (f: State)
    requires AtRest(s, st) && i < |s.jobs| && InHorizon(clock) && Deliver(clock, st, ev).Delivered?
    ensures AtRest(f, Deliver(clock, st, ev).st) && |f.jobs| == |s.jobs|
    ensures Leads(s, if IsStamped(ev) then Clock.CallActions(i, clock, st.pos, st.epoch) else [], f)
  {
    var s1 := Next(s, Begin(i, ev));
    if IsStamped(ev) {
      CallEndsFresh(clock, st.pos, st.epoch);
      var r := Call(clock, st.pos, st.epoch);
      var s2 := AfterCall(s1, i, clock[r.at], r.ns, r.epoch);
      f := Next(s2, Send(i));
      MessagesSnoc(s.log, s2.jobs[i].entry);
      LeadsToItself(f);
      StepLeads(s2, Send(i), [], f);
      CallLeads(s1, i, clock, st.pos, [], f);
      assert Clock.CallActions(i, clock, st.pos, st.epoch) + [] == Clock.CallActions(i, clock, st.pos, st.epoch);
    } else if Bodies(ev) == [] {
      f := s1;
      LeadsToItself(f);
    } else {
      f := Next(s1, Send(i));
      MessagesSnoc(s.log, s1.jobs[i].entry);
      LeadsToItself(f);
      StepLeads(s1, Send(i), [], f);
    }
    StepLeads(s, Begin(i, ev), if IsStamped(ev) then Clock.CallActions(i, clock, st.pos, st.epoch) else [], f);
  }

  /** A whole session of the sequential feed is a run of the shared one, on threads taken at will. */
  lemma {:induction false} SessionIsARun(s: State, threads: seq<nat>, evs: seq<Event>, clock: seq<nat>, st: FeedState)
    returns (f: State, ticks: seq<Clock.Action>)
    requires AtRest(s, st) && InHorizon(clock) && |threads| == |evs|
    requires forall k :: 0 <= k < |threads| ==> threads[k] < |s.jobs|
    requires DeliverAll(clock, st, evs).delivered == |evs|
    ensures AtRest(f, DeliverAll(clock, st, evs).st) && Leads(s, ticks, f)
    decreases |evs|
  {
    if evs == [] {
      f, ticks := s, [];
      LeadsToItself(s);
    } else {
      LogHoldsEveryEvent(clock, Deliver(clock, st, evs[0]).st, evs[1..]);
      var m := UninterruptedIsSequential(s, threads[0], evs[0], clock, st);
      f, ticks := SessionIsARun(m, threads[1..], evs[1..], clock, Deliver(clock, st, evs[0]).st);
      var acts :| CanRun(s, acts) && Run(s, acts) == m;
      RunLeads(s, acts, ticks, f);
      ticks := Ticks(acts) + ticks;
    }
  }

  lemma OneMoreRead(log: seq<Entry>, e: Entry)
    requires e.msg.Stamped?
    ensures Readings(log + [e]) == Readings(log) + [e.reading]
    ensures Timestamps(log + [e]) == Timestamps(log) + [e.msg.timestamp]
  {
    TimedSnoc(log, e);
  }

  lemma TwoMoreRead(log: seq<Entry>, a: Entry, b: Entry)
    requires a.msg.Stamped? && b.msg.Stamped?
    ensures Readings(log + [a] + [b]) == Readings(log) + [a.reading, b.reading]
    ensures Timestamps(log + [a] + [b]) == Timestamps(log) + [a.msg.timestamp, b.msg.timestamp]
  {
    OneMoreRead(log, a);
    OneMoreRead(log + [a], b);
    assert Readings(log) + [a.reading] + [b.reading] == Readings(log) + [a.reading, b.reading];
  }

  lemma BackwardGapMisleads(log: seq<Entry>, a: Entry, b: Entry)
    requires a.msg.Stamped? && b.msg.Stamped?
    requires ReaderGap(a.msg.timestamp, b.msg.timestamp) != b.reading as int - a.reading
    ensures !ReaderIsExact(Readings(log + [a] + [b]), Timestamps(log + [a] + [b]))
  {
    TwoMoreRead(log, a, b);
    var times, stamps := Readings(log + [a] + [b]), Timestamps(log + [a] + [b]);
    ExactStepByStep(times, stamps);
    var j := |stamps| - 1;
    assert ReaderGap(stamps[j - 1], stamps[j]) != GapBefore(times, j);
  }

  lemma TwoCallsForward(i: nat, t: nat, j: nat, u: nat)
    requires t <= u
    ensures Clock.ClockForward([Clock.Read(i, t), Clock.Load(i)] + ([Clock.Read(j, u), Clock.Load(j)] + []), t)
  {
    var last := [Clock.Load(j)];
    Clock.ForwardCons(Clock.Read(j, u), last, t);
    Clock.ForwardCons(Clock.Load(i), [Clock.Read(j, u)] + last, t);
    Clock.ForwardCons(Clock.Read(i, t), [Clock.Load(i)] + ([Clock.Read(j, u)] + last), t);
    assert [Clock.Read(i, t)] + ([Clock.Load(i)] + ([Clock.Read(j, u)] + last)) ==
           [Clock.Read(i, t), Clock.Load(i)] + ([Clock.Read(j, u), Clock.Load(j)] + []);
  }

  /** Thread `i` takes reading `t`, thread `j` reading `u`, and `j` sends first. */
  lemma OvertakingLeads(s: State, i: nat, j: nat, ev: Event, ev': Event, t: nat, u: nat) returns (f: State)
    requires i != j && i < |s.jobs| == |s.clock.pcs| && j < |s.jobs| && s.jobs[i].Free? && s.jobs[j].Free?
    requires s.clock.pcs[i].Idle? && s.clock.pcs[j].Idle? && IsStamped(ev) && IsStamped(ev')
    requires t < HORIZON && u < HORIZON && Fresh(t, s.clock.epoch) && Fresh(u, s.clock.epoch)
    ensures Leads(s, [Clock.Read(i, t), Clock.Load(i)] + ([Clock.Read(j, u), Clock.Load(j)] + []), f)
    ensures f.log == s.log + [Entry(j, |s.log|, u, Stamped(Offset(u, s.clock.epoch), Bodies(ev')[0]))]
                           + [Entry(i, |s.log|, t, Stamped(Offset(t, s.clock.epoch), Bodies(ev)[0]))]
  {
    var epoch := s.clock.epoch;
    var s1 := Next(s, Begin(i, ev));
    var s2 := AfterCall(s1, i, t, Offset(t, epoch), epoch);
    var s3 := Next(s2, Begin(j, ev'));
    var s4 := AfterCall(s3, j, u, Offset(u, epoch), epoch);
    var s5 := Next(s4, Send(j));
    f := Next(s5, Send(i));
    LeadsToItself(f);
    StepLeads(s5, Send(i), [], f);
    StepLeads(s4, Send(j), [], f);
    LastTestLeads(s3, j, u, [], f);
    var ticks := [Clock.Read(j, u), Clock.Load(j)] + [];
    StepLeads(s2, Begin(j, ev'), ticks, f);
    LastTestLeads(s1, i, t, ticks, f);
    StepLeads(s, Begin(i, ev), [Clock.Read(i, t), Clock.Load(i)] + ticks, f);
  }

  /** Overlapping callbacks can be out of order, on any day and on a clock that never goes back: wherever two threads
      are free and the cache is fresh, one can take the earlier reading and send after the other. The reader
      then sees most of a day go by. */
  lemma OvertakenMessage(s: State, i: nat, j: nat, ev: Event, ev': Event, t: nat, u: nat) returns (acts: seq<Action>)
    requires i != j && i < |s.jobs| == |s.clock.pcs| && j < |s.jobs| && s.jobs[i].Free? && s.jobs[j].Free?
    requires s.clock.pcs[i].Idle? && s.clock.pcs[j].Idle? && IsStamped(ev) && IsStamped(ev')
    requires IsMidnight(s.clock.epoch) && t < u < HORIZON && Fresh(t, s.clock.epoch) && Fresh(u, s.clock.epoch)
    ensures CanRun(s, acts) && Clock.ClockForward(Ticks(acts), t)
    ensures
      var ns, ns' := Offset(t, s.clock.epoch), Offset(u, s.clock.epoch);
      && Run(s, acts).log == s.log + [Entry(j, |s.log|, u, Stamped(ns', Bodies(ev')[0])),
                                      Entry(i, |s.log|, t, Stamped(ns, Bodies(ev)[0]))]
      && ReaderGap(ns', ns) == DAY - (u - t)
      && Readings(Run(s, acts).log) == Readings(s.log) + [u, t]
      && Timestamps(Run(s, acts).log) == Timestamps(s.log) + [ns', ns]
    ensures !ReaderIsExact(Readings(Run(s, acts).log), Timestamps(Run(s, acts).log))
  {
    var f := OvertakingLeads(s, i, j, ev, ev', t, u);
    acts :| CanRun(s, acts) && Run(s, acts) == f &&
            Ticks(acts) == [Clock.Read(i, t), Clock.Load(i)] + ([Clock.Read(j, u), Clock.Load(j)] + []);
    TwoCallsForward(i, t, j, u);
    FreshIsExact(t, s.clock.epoch);
    FreshIsExact(u, s.clock.epoch);
    var first, second := f.log[|s.log|], f.log[|s.log| + 1];
    TwoMoreRead(s.log, first, second);
    BackwardGapMisleads(s.log, first, second);
  }
}
