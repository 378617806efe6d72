/**
 The exchange server's accept thread (`run`), its connection threads (`server_process`) and the
 destructor, as interleaved steps on the flag, the session counter and the vector of threads.
 Each step is one source line; a program counter names the line that comes next.
 */
module Shutdown {

  datatype AcceptPc =
    | NotListening       // line 32
    | AtWhile            // line 33
    | AtPoll             // line 35
    | AtCheck            // line 37
    | AtSpawn            // line 39
    | AtSleep            // line 40
    | AtCatch            // line 44
    | Ended(failed: bool)

  datatype DtorPc =
    | Alive
    | Flagged                          // after line 17
    | Scanning(end: nat, next: nat)    // in the range-for at 19-21, whose end was taken when it began
    | Scanned                          // line 22 next
    | Cleared                          // line 23 next
    | AcceptJoined                     // line 24 next
    | ServerFreed                      // the members are destroyed next
    | Completed
    | Aborted                          // a std::thread still joinable was destroyed: std::terminate

  datatype ConnPc = Starting | Serving | Done

  datatype Conn = Conn(client: nat, pc: ConnPc)

  /** A std::thread in the vector: which thread it owns, and whether it has still to be joined. */
  datatype Handle = Handle(thread: nat, joinable: bool)

  /** The last three fields are history: where the accept thread was and how many threads had been started
      when the flag was set, and how many when the join loop began. */
  datatype State = State(
    shuttingDown: bool, listening: bool, scnt: nat,
    accept: AcceptPc, dtor: DtorPc,
    handles: seq<Handle>, conns: seq<Conn>,
    acceptAtFlag: AcceptPc, startedAtFlag: nat, startedAtScan: nat)

  datatype Action =
    // the accept thread
    | Listen | TestWhile | Poll(ready: bool) | PollThrows | TestAgain | Spawn | SpawnThrows | Wake | Catch
    // the destructor
    | SetFlag | BeginScan | Join | EndScan | Clear | JoinAccept | FreeServer | DestroyMembers
    // connection thread k
    | Serve(k: nat) | Finish(k: nat)

  predicate Init(s: State) {
    && !s.shuttingDown && !s.listening && s.scnt == 0
    && s.accept == NotListening && s.dtor == Alive && s.handles == [] && s.conns == []
  }

  predicate Enabled(s: State, a: Action) {
    s.dtor != Aborted &&
    match a
    case Listen => s.accept == NotListening
    case TestWhile => s.accept == AtWhile
    case Poll(_) => s.accept == AtPoll
    case PollThrows => s.accept == AtPoll
    case TestAgain => s.accept == AtCheck
    case Spawn => s.accept == AtSpawn
    case SpawnThrows => s.accept == AtSpawn
    case Wake => s.accept == AtSleep
    case Catch => s.accept == AtCatch
    case SetFlag => s.dtor == Alive
    case BeginScan => s.dtor == Flagged
    case Join =>
      s.dtor.Scanning? && s.dtor.next < s.dtor.end && s.dtor.next < |s.handles| &&
      (var h := s.handles[s.dtor.next];
       h.joinable ==> h.thread < |s.conns| && s.conns[h.thread].pc == Done)
    case EndScan => s.dtor.Scanning? && s.dtor.next >= s.dtor.end
    case Clear => s.dtor == Scanned
    case JoinAccept => s.dtor == Cleared && s.accept.Ended?
    case FreeServer => s.dtor == AcceptJoined
    case DestroyMembers => s.dtor == ServerFreed
    case Serve(k) => k < |s.conns| && s.conns[k].pc == Starting
    case Finish(k) => k < |s.conns| && s.conns[k].pc == Serving
  }

  predicate AllJoined(handles: seq<Handle>) {
    forall k :: 0 <= k < |handles| ==> !handles[k].joinable
  }

  function Next(s: State, a: Action): State
    requires Enabled(s, a)
  {
    match a
    case Listen => s.(listening := true, accept := AtWhile)
    case TestWhile => s.(accept := if s.shuttingDown then Ended(false) else AtPoll)
    case Poll(ready) => s.(accept := if ready then AtCheck else AtWhile)
    case PollThrows => s.(accept := AtCatch)
    case TestAgain => s.(accept := if s.shuttingDown then AtWhile else AtSpawn)
    case Spawn =>
      s.(scnt := s.scnt + 1, accept := AtSleep,
         handles := s.handles + [Handle(|s.conns|, true)],
         conns := s.conns + [Conn(s.scnt + 1, Starting)])
    case SpawnThrows => s.(scnt := s.scnt + 1, accept := AtCatch)
    case Wake => s.(accept := AtWhile)
    case Catch => s.(listening := false, accept := Ended(true))
    case SetFlag => s.(shuttingDown := true, dtor := Flagged, acceptAtFlag := s.accept, startedAtFlag := |s.conns|)
    case BeginScan => s.(dtor := Scanning(|s.handles|, 0), startedAtScan := |s.conns|)
    case Join =>
      s.(handles := s.handles[s.dtor.next := s.handles[s.dtor.next].(joinable := false)],
         dtor := Scanning(s.dtor.end, s.dtor.next + 1))
    case EndScan => s.(dtor := Scanned)
    case Clear => if AllJoined(s.handles) then s.(handles := [], dtor := Cleared) else s.(dtor := Aborted)
    case JoinAccept => s.(dtor := AcceptJoined)
    case FreeServer => s.(dtor := ServerFreed)
    case DestroyMembers => if AllJoined(s.handles) then s.(handles := [], dtor := Completed) else s.(dtor := Aborted)
    case Serve(k) => s.(conns := s.conns[k := s.conns[k].(pc := Serving)])
    case Finish(k) => s.(conns := s.conns[k := s.conns[k].(pc := Done)])
  }

  predicate CanRun(s: State, acts: seq<Action>)
    decreases |acts|
  {
    acts == [] || (Enabled(s, acts[0]) && CanRun(Next(s, acts[0]), acts[1..]))
  }

  function Run(s: State, acts: seq<Action>): State
    requires CanRun(s, acts)
    decreases |acts|
  {
    if acts == [] then s else Run(Next(s, acts[0]), acts[1..])
  }

  // ---------------------------------------------------------------------------
  // The invariant
  // ---------------------------------------------------------------------------

  /** Client numbers are handed out densely, and only a failed start can leave the counter one ahead. */
  ghost predicate Counted(s: State) {
    && (forall k :: 0 <= k < |s.conns| ==> s.conns[k].client == k + 1)
    && (s.scnt == |s.conns| || (s.scnt == |s.conns| + 1 && (s.accept == AtCatch || s.accept == Ended(true))))
    && (s.listening <==> s.accept != NotListening && s.accept != Ended(true))
  }

  /** After the flag is set a thread can be started only by an accept thread that had passed line 37. */
  ghost predicate LateByOne(s: State) {
    && (s.shuttingDown <==> s.dtor != Alive)
    && (s.shuttingDown ==>
          && s.startedAtFlag <= |s.conns| <= s.startedAtFlag + 1
          && (s.accept == AtSpawn ==> s.acceptAtFlag == AtSpawn && |s.conns| == s.startedAtFlag)
          && (|s.conns| > s.startedAtFlag ==>
                s.acceptAtFlag == AtSpawn && (s.accept == AtSleep || s.accept == AtWhile || s.accept == Ended(false))))
  }

  /** The handles in the vector own the threads started last, the ones before `joined` no longer joinable. */
  ghost predicate Owns(s: State, cleared: nat, joined: nat) {
    && |s.handles| == |s.conns| - cleared
    && (forall k :: 0 <= k < |s.handles| ==> s.handles[k] == Handle(cleared + k, k >= joined))
  }

  ghost predicate DoneUpTo(s: State, n: nat) {
    n <= |s.conns| && forall k :: 0 <= k < n ==> s.conns[k].pc == Done
  }

  ghost predicate Vector(s: State) {
    match s.dtor
    case Alive => Owns(s, 0, 0)
    case Flagged => Owns(s, 0, 0)
    case Scanning(end, next) =>
      Owns(s, 0, next) && DoneUpTo(s, next) && next <= end == s.startedAtScan <= |s.conns| &&
      s.startedAtFlag <= s.startedAtScan
    case Scanned => Owns(s, 0, s.startedAtScan) && DoneUpTo(s, s.startedAtScan) && s.startedAtFlag <= s.startedAtScan
    case Aborted =>
      DoneUpTo(s, s.startedAtScan) && s.startedAtFlag <= s.startedAtScan < |s.conns|
    case _ =>
      && Owns(s, s.startedAtScan, 0) && DoneUpTo(s, s.startedAtScan) && s.startedAtFlag <= s.startedAtScan
      && (s.dtor != Cleared ==> s.accept.Ended?)
      && (s.dtor == Completed ==> s.handles == [])
  }

  ghost predicate Inv(s: State) {
    Counted(s) && LateByOne(s) && Vector(s)
  }

  lemma StepKeepsCounted(s: State, a: Action)
    requires Counted(s) && Enabled(s, a)
    ensures Counted(Next(s, a))
  {
  }

  lemma StepKeepsLateByOne(s: State, a: Action)
    requires LateByOne(s) && Enabled(s, a)
    ensures LateByOne(Next(s, a))
  {
  }

  predicate OfDestructor(a: Action) {
    || a.SetFlag? || a.BeginScan? || a.Join? || a.EndScan?
    || a.Clear? || a.JoinAccept? || a.FreeServer? || a.DestroyMembers?
  }

  predicate OfConnection(a: Action) {
    a.Serve? || a.Finish?
  }

  lemma UnjoinedHandle(s: State, cleared: nat, joined: nat)
    requires Owns(s, cleared, joined) && cleared <= |s.conns|
    ensures AllJoined(s.handles) <==> |s.handles| <= joined
  {
    if |s.handles| > joined {
      assert s.handles[joined].joinable;
    }
  }

  lemma DestructorKeepsVector(s: State, a: Action)
    requires Inv(s) && Enabled(s, a) && OfDestructor(a)
    ensures Vector(Next(s, a))
  {
    if a.Join? {
      assert s.handles[s.dtor.next] == Handle(s.dtor.next, true);
    } else if a.Clear? {
      UnjoinedHandle(s, 0, s.startedAtScan);
    } else if a.DestroyMembers? {
      UnjoinedHandle(s, s.startedAtScan, 0);
    }
  }

  lemma AcceptKeepsVector(s: State, a: Action)
    requires Inv(s) && Enabled(s, a) && !OfDestructor(a) && !OfConnection(a)
    ensures Vector(Next(s, a))
  {
    if a.Spawn? {
      assert forall k :: 0 <= k < |s.conns| ==> Next(s, a).conns[k] == s.conns[k];
    }
  }

  lemma ConnectionsKeepVector(s: State, a: Action)
    requires Inv(s) && Enabled(s, a) && OfConnection(a)
    ensures Vector(Next(s, a))
  {
  }

  lemma StepKeepsInv(s: State, a: Action)
    requires Inv(s) && Enabled(s, a)
    ensures Inv(Next(s, a))
  {
    StepKeepsCounted(s, a);
    StepKeepsLateByOne(s, a);
    if OfDestructor(a) {
      DestructorKeepsVector(s, a);
    } else if OfConnection(a) {
      ConnectionsKeepVector(s, a);
    } else {
      AcceptKeepsVector(s, a);
    }
  }

  lemma {:induction false} RunKeepsInv(s: State, acts: seq<Action>)
    requires Inv(s) && CanRun(s, acts)
    ensures Inv(Run(s, acts))
    decreases |acts|
  {
    if acts == [] {
    } else {
      StepKeepsInv(s, acts[0]);
      RunKeepsInv(Next(s, acts[0]), acts[1..]);
    }
  }

  lemma InitIsInv(s: State)
    requires Init(s)
    ensures Inv(s)
  {
  }

  // ---------------------------------------------------------------------------
  // What every run keeps
  // ---------------------------------------------------------------------------

  /** The server's books: the k-th connection thread is client k, the counter counts the threads started
      but for one failed start, and the server listens exactly from line 32 until an exception ends the loop. */
  lemma ClientsAreNumberedInOrder(s: State, acts: seq<Action>)
    requires Init(s) && CanRun(s, acts)
    ensures
      var f := Run(s, acts);
      && (forall k :: 0 <= k < |f.conns| ==> f.conns[k].client == k + 1)
      && |f.conns| <= f.scnt <= |f.conns| + 1
      && (f.scnt > |f.conns| ==> f.accept == AtCatch || f.accept == Ended(true))
      && (f.listening <==> f.accept != NotListening && f.accept != Ended(true))
  {
    InitIsInv(s);
    RunKeepsInv(s, acts);
  }

  /** The times poll found a client, in a run. */
  function Found(acts: seq<Action>): nat
    decreases |acts|
  {
    if acts == [] then 0 else (if acts[0] == Poll(true) then 1 else 0) + Found(acts[1..])
  }

  /** Clients found and not yet started on. */
  function Pending(s: State): nat {
    if s.accept == AtCheck || s.accept == AtSpawn then 1 else 0
  }

  /** The books of poll: until the flag is set, each client that poll found is started on once, and nobody else is. */
  lemma {:induction false} EachClientFoundIsStarted(s: State, acts: seq<Action>)
    requires CanRun(s, acts) && !Run(s, acts).shuttingDown
    ensures Found(acts) + Pending(s) + s.scnt == Run(s, acts).scnt + Pending(Run(s, acts))
    decreases |acts|
  {
    if acts == [] {
    } else {
      FlagStays(Next(s, acts[0]), acts[1..]);
      EachClientFoundIsStarted(Next(s, acts[0]), acts[1..]);
    }
  }

  lemma {:induction false} FlagStays(s: State, acts: seq<Action>)
    requires CanRun(s, acts)
    ensures s.shuttingDown ==> Run(s, acts).shuttingDown
    decreases |acts|
  {
    if acts == [] {
    } else {
      FlagStays(Next(s, acts[0]), acts[1..]);
    }
  }

  /** The exceptions thrown in a run. */
  function Thrown(acts: seq<Action>): nat
    decreases |acts|
  {
    if acts == [] then 0 else (if acts[0].PollThrows? || acts[0].SpawnThrows? then 1 else 0) + Thrown(acts[1..])
  }

  function Failed(s: State): nat {
    if s.accept == AtCatch || s.accept == Ended(true) then 1 else 0
  }

  /** The first exception ends the accept loop, and nothing else takes it to its handler. */
  lemma {:induction false} OneExceptionEndsTheLoop(s: State, acts: seq<Action>)
    requires CanRun(s, acts)
    ensures Failed(s) + Thrown(acts) == Failed(Run(s, acts))
    decreases |acts|
  {
    if acts == [] {
    } else {
      OneExceptionEndsTheLoop(Next(s, acts[0]), acts[1..]);
    }
  }

  /** Threads started less pauses taken. */
  function Unpaused(acts: seq<Action>): int
    decreases |acts|
  {
    if acts == [] then 0
    else (if acts[0].Spawn? then 1 else if acts[0].Wake? then -1 else 0) + Unpaused(acts[1..])
  }

  /** The accept loop pauses once after each thread it starts, and at no other time. */
  lemma {:induction false} EachStartIsFollowedByAPause(s: State, acts: seq<Action>)
    requires CanRun(s, acts)
    ensures (if s.accept == AtSleep then 1 else 0) + Unpaused(acts) == if Run(s, acts).accept == AtSleep then 1 else 0
    decreases |acts|
  {
    if acts == [] {
    } else {
      EachStartIsFollowedByAPause(Next(s, acts[0]), acts[1..]);
    }
  }

  lemma FirstStep(s: State, a: Action, rest: seq<Action>)
    requires Enabled(s, a) && CanRun(Next(s, a), rest)
    ensures CanRun(s, [a] + rest) && Run(s, [a] + rest) == Run(Next(s, a), rest)
  {
    assert ([a] + rest)[1..] == rest;
  }

  /** The accept loop ends without an exception only at its test at line 33, and only with the flag set. */
  lemma {:induction false} LoopEndsAtItsTest(s: State, acts: seq<Action>) returns (k: nat)
    requires CanRun(s, acts) && s.accept != Ended(false) && Run(s, acts).accept == Ended(false)
    ensures k < |acts| && acts[k] == TestWhile
    ensures CanRun(s, acts[..k]) && Run(s, acts[..k]).shuttingDown && Run(s, acts[..k]).accept == AtWhile
    decreases |acts|
  {
    var s' := Next(s, acts[0]);
    if s'.accept == Ended(false) {
      k := 0;
    } else {
      k := LoopEndsAtItsTest(s', acts[1..]);
      assert acts[..k + 1] == [acts[0]] + acts[1..][..k];
      FirstStep(s, acts[0], acts[1..][..k]);
      k := k + 1;
    }
  }

  /** The lines of the destructor, with the join loop as its beginning and its end. */
  const LINES: seq<Action> := [SetFlag, BeginScan, EndScan, Clear, JoinAccept, FreeServer, DestroyMembers]

  function LinesDone(pc: DtorPc): nat {
    match pc
    case Alive => 0
    case Flagged => 1
    case Scanning(_, _) => 2
    case Scanned => 3
    case Cleared => 4
    case AcceptJoined => 5
    case ServerFreed => 6
    case _ => 7
  }

  /** The lines of the destructor that a run goes through. */
  function LinesOf(acts: seq<Action>): seq<Action>
    decreases |acts|
  {
    if acts == [] then []
    else if OfDestructor(acts[0]) && !acts[0].Join? then [acts[0]] + LinesOf(acts[1..])
    else LinesOf(acts[1..])
  }

  lemma NextLine(s: State, a: Action)
    requires Enabled(s, a)
    ensures
      var done, done' := LinesDone(s.dtor), LinesDone(Next(s, a).dtor);
      if OfDestructor(a) && !a.Join? then
        done < 7 && a == LINES[done] && (done' == done + 1 || Next(s, a).dtor == Aborted)
      else done' == done
  {
  }

  lemma AbortStays(s: State, acts: seq<Action>)
    requires CanRun(s, acts)
    ensures s.dtor == Aborted ==> Run(s, acts) == s
  {
  }

  /** The destructor goes through its lines in order and leaves none out. */
  lemma {:induction false} LinesInOrder(s: State, acts: seq<Action>)
    requires CanRun(s, acts) && Run(s, acts).dtor != Aborted
    ensures LinesDone(s.dtor) <= LinesDone(Run(s, acts).dtor)
    ensures LinesOf(acts) == LINES[LinesDone(s.dtor)..LinesDone(Run(s, acts).dtor)]
    decreases |acts|
  {
    if acts == [] {
    } else {
      NextLine(s, acts[0]);
      AbortStays(Next(s, acts[0]), acts[1..]);
      LinesInOrder(Next(s, acts[0]), acts[1..]);
    }
  }

  /** How far connection thread `k` has come: 1 when its session is being served, 2 when it has ended. */
  function Stage(s: State, k: nat): nat {
    if k >= |s.conns| then 0
    else match s.conns[k].pc
      case Starting => 0
      case Serving => 1
      case Done => 2
  }

  function SessionSteps(acts: seq<Action>, k: nat): nat
    decreases |acts|
  {
    if acts == [] then 0
    else (if acts[0] == Serve(k) || acts[0] == Finish(k) then 1 else 0) + SessionSteps(acts[1..], k)
  }

  lemma StepAdvances(s: State, a: Action, k: nat)
    requires Enabled(s, a)
    ensures Stage(Next(s, a), k) == Stage(s, k) + if a == Serve(k) || a == Finish(k) then 1 else 0
  {
  }

  /** Each session goes through its stages one at a time and by its own thread's steps alone. */
  lemma {:induction false} SessionsAdvanceByTheirOwnSteps(s: State, acts: seq<Action>, k: nat)
    requires CanRun(s, acts)
    ensures Stage(Run(s, acts), k) == Stage(s, k) + SessionSteps(acts, k)
    decreases |acts|
  {
    if acts == [] {
    } else {
      StepAdvances(s, acts[0], k);
      SessionsAdvanceByTheirOwnSteps(Next(s, acts[0]), acts[1..], k);
    }
  }

  /** What stays as it was at the flag and at the start of the join loop. */
  ghost predicate SameHistory(s: State, f: State) {
    && f.shuttingDown && f.acceptAtFlag == s.acceptAtFlag && f.startedAtFlag == s.startedAtFlag
    && |s.conns| <= |f.conns|
    && (s.dtor != Flagged ==> f.dtor != Flagged && f.startedAtScan == s.startedAtScan)
  }

  lemma StepKeepsHistory(s: State, a: Action)
    requires LateByOne(s) && Enabled(s, a) && s.shuttingDown
    ensures SameHistory(s, Next(s, a))
  {
  }

  lemma {:induction false} HistoryKept(s: State, acts: seq<Action>)
    requires Inv(s) && CanRun(s, acts) && s.shuttingDown
    ensures SameHistory(s, Run(s, acts))
    decreases |acts|
  {
    if acts == [] {
    } else {
      StepKeepsInv(s, acts[0]);
      StepKeepsHistory(s, acts[0]);
      HistoryKept(Next(s, acts[0]), acts[1..]);
    }
  }

  /** Late-spawn bound: from the moment the flag is set, whatever the threads do and however the accept
      loop ends, at most one connection thread is started, and none unless the accept thread had already
      passed line 37. */
  lemma AtMostOneLateSpawn(s: State, acts: seq<Action>)
    requires Inv(s) && s.dtor == Alive && CanRun(Next(s, SetFlag), acts)
    ensures
      var f := Run(Next(s, SetFlag), acts);
      |s.conns| <= |f.conns| <= |s.conns| + if s.accept == AtSpawn then 1 else 0
  {
    StepKeepsInv(s, SetFlag);
    HistoryKept(Next(s, SetFlag), acts);
    RunKeepsInv(Next(s, SetFlag), acts);
  }

  /** Join completeness, counted from the start of the join loop at `s`. Past the loop every thread it could
      see has ended; the accept thread has ended when its own join returns; a completed destructor leaves no
      thread running; an aborted one has met exactly one thread, started by an accept thread that was
      already past line 37 when the flag was set. */
  lemma JoinsAreComplete(s: State, acts: seq<Action>)
    requires Inv(s) && s.dtor == Flagged && CanRun(Next(s, BeginScan), acts)
    ensures
      var f := Run(Next(s, BeginScan), acts);
      && |s.conns| <= |f.conns| <= |s.conns| + 1
      && (!f.dtor.Scanning? ==> forall k :: 0 <= k < |s.conns| ==> f.conns[k].pc == Done)
      && (f.dtor in {AcceptJoined, ServerFreed, Completed} ==> f.accept.Ended?)
      && (f.dtor == Completed ==> |f.conns| == |s.conns| && f.handles == [])
      && (f.dtor == Aborted ==> |f.conns| == |s.conns| + 1 && s.startedAtFlag == |s.conns| && s.acceptAtFlag == AtSpawn)
  {
    StepKeepsInv(s, BeginScan);
    HistoryKept(Next(s, BeginScan), acts);
    RunKeepsInv(Next(s, BeginScan), acts);
  }

  // ---------------------------------------------------------------------------
  // Progress of the shutdown
  // ---------------------------------------------------------------------------

  function ConnRank(pc: ConnPc): nat {
    match pc
    case Starting => 2
    case Serving => 1
    case Done => 0
  }

  function ConnsRank(conns: seq<Conn>): nat {
    if conns == [] then 0 else ConnsRank(conns[..|conns| - 1]) + ConnRank(conns[|conns| - 1].pc)
  }

  lemma {:induction false} ConnsRankUpdate(conns: seq<Conn>, k: nat, c: Conn)
    requires k < |conns|
    ensures ConnsRank(conns[k := c]) == ConnsRank(conns) - ConnRank(conns[k].pc) + ConnRank(c.pc)
    decreases |conns|
  {
    var last := |conns| - 1;
    if k == last {
      assert conns[k := c][..last] == conns[..last];
    } else {
      assert conns[k := c][..last] == conns[..last][k := c];
      ConnsRankUpdate(conns[..last], k, c);
    }
  }

  function AcceptRank(pc: AcceptPc): nat {
    match pc
    case Ended(_) => 0
    case AtCatch => 1
    case AtWhile => 1
    case AtSleep => 2
    case AtCheck => 2
    case NotListening => 2
    case AtPoll => 3
    case AtSpawn => 6
  }

  function DtorRank(s: State): nat {
    match s.dtor
    case Alive => |s.handles| + 7
    case Flagged => |s.handles| + 6
    case Scanning(end, next) => if next < end then end - next + 5 else 5
    case Scanned => 4
    case Cleared => 3
    case AcceptJoined => 2
    case ServerFreed => 1
    case _ => 0
  }

  /** A bound on the steps a shutdown has left. */
  function Rank(s: State): nat {
    AcceptRank(s.accept) + DtorRank(s) + ConnsRank(s.conns)
  }

  lemma AcceptLowersRank(s: State, a: Action)
    requires LateByOne(s) && s.shuttingDown && Enabled(s, a) && !OfDestructor(a) && !OfConnection(a)
    ensures Rank(Next(s, a)) < Rank(s)
  {
    if a.Spawn? {
      assert Next(s, a).conns[..|s.conns|] == s.conns;
    }
  }

  lemma DestructorLowersRank(s: State, a: Action)
    requires LateByOne(s) && Vector(s) && s.shuttingDown && Enabled(s, a) && OfDestructor(a)
    ensures Rank(Next(s, a)) < Rank(s)
  {
  }

  lemma StepLowersRank(s: State, a: Action)
    requires Inv(s) && s.shuttingDown && Enabled(s, a)
    ensures Rank(Next(s, a)) < Rank(s)
  {
    if OfDestructor(a) {
      DestructorLowersRank(s, a);
    } else if OfConnection(a) {
      ConnsRankUpdate(s.conns, a.k, Next(s, a).conns[a.k]);
    } else {
      AcceptLowersRank(s, a);
    }
  }

  /** Once the flag is set every run is finite, its length bounded by the state it starts from. */
  lemma {:induction false} ShutdownIsFinite(s: State, acts: seq<Action>)
    requires Inv(s) && s.shuttingDown && CanRun(s, acts)
    ensures |acts| + Rank(Run(s, acts)) <= Rank(s)
    decreases |acts|
  {
    if acts == [] {
    } else {
      StepKeepsInv(s, acts[0]);
      StepLowersRank(s, acts[0]);
      ShutdownIsFinite(Next(s, acts[0]), acts[1..]);
    }
  }

  predicate Over(s: State) {
    s.dtor == Completed || s.dtor == Aborted
  }

  /** No deadlock: until the destructor is over some step can be taken, and the server's own two threads
      are both stuck only while the join loop waits for a session that is still going on. */
  lemma ShutdownGoesOn(s: State) returns (a: Action)
    requires Inv(s) && s.shuttingDown && !Over(s)
    ensures Enabled(s, a)
    ensures OfConnection(a) ==> s.dtor.Scanning? && a.k == s.dtor.next && s.accept.Ended?
  {
    match s.accept
    case NotListening => a := Listen;
    case AtWhile => a := TestWhile;
    case AtPoll => a := Poll(false);
    case AtCheck => a := TestAgain;
    case AtSpawn => a := Spawn;
    case AtSleep => a := Wake;
    case AtCatch => a := Catch;
    case Ended(_) =>
      match s.dtor {
        case Flagged => a := BeginScan;
        case Scanning(end, next) =>
          if next >= end {
            a := EndScan;
          } else {
            assert s.handles[next] == Handle(next, true);
            match s.conns[next].pc
            case Starting => a := Serve(next);
            case Serving => a := Finish(next);
            case Done => a := Join;
          }
        case Scanned => a := Clear;
        case Cleared => a := JoinAccept;
        case AcceptJoined => a := FreeServer;
        case ServerFreed => a := DestroyMembers;
      }
  }

  /** A run after the flag that can go no further has brought the destructor to its end, one way or the other. */
  lemma MaximalRunsEnd(s: State, acts: seq<Action>)
    requires Inv(s) && s.shuttingDown && CanRun(s, acts)
    requires forall a :: !Enabled(Run(s, acts), a)
    ensures Over(Run(s, acts)) && |acts| <= Rank(s)
  {
    ShutdownIsFinite(s, acts);
    RunKeepsInv(s, acts);
    HistoryKept(s, acts);
    if !Over(Run(s, acts)) {
      var a := ShutdownGoesOn(Run(s, acts));
    }
  }

  lemma {:induction false} RunInParts(s: State, acts: seq<Action>, i: nat)
    requires i <= |acts| && CanRun(s, acts[..i]) && CanRun(Run(s, acts[..i]), acts[i..])
    ensures CanRun(s, acts) && Run(s, acts) == Run(Run(s, acts[..i]), acts[i..])
    decreases i
  {
    if i == 0 {
      assert acts[0..] == acts;
    } else {
      assert acts[..i][0] == acts[0] && acts[..i][1..] == acts[1..][..i - 1] && acts[i..] == acts[1..][i - 1..];
      RunInParts(Next(s, acts[0]), acts[1..], i - 1);
    }
  }

  lemma {:induction false} OverStays(s: State, acts: seq<Action>)
    requires Over(s) && CanRun(s, acts)
    ensures Over(Run(s, acts))
    decreases |acts|
  {
    if acts == [] {
    } else {
      OverStays(Next(s, acts[0]), acts[1..]);
    }
  }

  // ---------------------------------------------------------------------------
  // When the destructor can abort
  // ---------------------------------------------------------------------------

  ghost predicate CanAbort(s: State) {
    exists acts :: CanRun(s, acts) && Run(s, acts).dtor == Aborted
  }

  /** No thread has been or will be started since `n` were. */
  ghost predicate Quiet(s: State, n: nat) {
    && ((s.shuttingDown && s.accept != AtSpawn) || s.accept == AtCatch || s.accept.Ended?)
    && |s.conns| == n
    && (s.dtor != Alive && s.dtor != Flagged ==> s.startedAtScan == n)
  }

  lemma StepKeepsQuiet(s: State, n: nat, a: Action)
    requires Inv(s) && Quiet(s, n) && Enabled(s, a)
    ensures Quiet(Next(s, a), n)
  {
  }

  lemma {:induction false} QuietNeverAborts(s: State, n: nat, acts: seq<Action>)
    requires Inv(s) && Quiet(s, n) && CanRun(s, acts)
    ensures Run(s, acts).dtor != Aborted
    decreases |acts|
  {
    if acts == [] {
    } else {
      StepKeepsInv(s, acts[0]);
      StepKeepsQuiet(s, n, acts[0]);
      QuietNeverAborts(Next(s, acts[0]), n, acts[1..]);
    }
  }

  /** The join loop has begun, and a thread has been started that it cannot see. */
  predicate Unseen(s: State) {
    s.dtor != Alive && s.dtor != Flagged && |s.conns| > s.startedAtScan
  }

  /** A shutdown can always be run to its end. */
  lemma {:induction false} RunToTheEnd(s: State) returns (acts: seq<Action>)
    requires Inv(s) && s.shuttingDown
    ensures CanRun(s, acts) && Over(Run(s, acts))
    decreases Rank(s)
  {
    if Over(s) {
      acts := [];
    } else {
      var a := ShutdownGoesOn(s);
      StepKeepsInv(s, a);
      StepLowersRank(s, a);
      StepKeepsHistory(s, a);
      var rest := RunToTheEnd(Next(s, a));
      FirstStep(s, a, rest);
      acts := [a] + rest;
    }
  }

  /** A thread the join loop cannot see is fatal: every run that reaches the end of the destructor aborts. */
  lemma UnseenThreadIsFatal(s: State, acts: seq<Action>)
    requires Inv(s) && Unseen(s) && CanRun(s, acts) && Over(Run(s, acts))
    ensures Run(s, acts).dtor == Aborted
  {
    HistoryKept(s, acts);
    RunKeepsInv(s, acts);
  }

  /** A loop that still runs can be driven to line 39 while the flag is not set. */
  lemma {:induction false} DriveToSpawn(s: State) returns (acts: seq<Action>)
    requires Inv(s) && s.dtor == Alive && s.accept != AtCatch && !s.accept.Ended?
    ensures CanRun(s, acts) && Run(s, acts).accept == AtSpawn && Run(s, acts).dtor == Alive
    decreases match s.accept
      case AtSpawn => 0
      case AtCheck => 1
      case AtPoll => 2
      case AtWhile => 3
      case _ => 4
  {
    if s.accept == AtSpawn {
      acts := [];
    } else {
      var a := match s.accept
        case NotListening => Listen
        case AtWhile => TestWhile
        case AtPoll => Poll(true)
        case AtCheck => TestAgain
        case _ => Wake;
      StepKeepsInv(s, a);
      var rest := DriveToSpawn(Next(s, a));
      FirstStep(s, a, rest);
      acts := [a] + rest;
    }
  }

  lemma {:induction false} AbortLaterOn(s: State, acts: seq<Action>)
    requires CanRun(s, acts) && CanAbort(Run(s, acts))
    ensures CanAbort(s)
    decreases |acts|
  {
    if acts == [] {
    } else {
      AbortLaterOn(Next(s, acts[0]), acts[1..]);
      AbortOneStepOn(s, acts[0]);
    }
  }

  lemma AbortOneStepOn(s: State, a: Action)
    requires Enabled(s, a) && CanAbort(Next(s, a))
    ensures CanAbort(s)
  {
    var acts :| CanRun(Next(s, a), acts) && Run(Next(s, a), acts).dtor == Aborted;
    FirstStep(s, a, acts);
  }

  lemma UnseenCanAbort(s: State)
    requires Inv(s) && Unseen(s)
    ensures CanAbort(s)
  {
    var acts := RunToTheEnd(s);
    UnseenThreadIsFatal(s, acts);
  }

  /** From the window, once the flag is set, the thread still to be started can be one the join loop cannot see. */
  lemma WindowCanAbort(s: State)
    requires Inv(s) && s.shuttingDown && s.accept == AtSpawn && !Over(s)
    ensures CanAbort(s)
    decreases s.dtor == Flagged
  {
    if s.dtor == Flagged {
      StepKeepsInv(s, BeginScan);
      WindowCanAbort(Next(s, BeginScan));
      AbortOneStepOn(s, BeginScan);
    } else {
      StepKeepsInv(s, Spawn);
      UnseenCanAbort(Next(s, Spawn));
      AbortOneStepOn(s, Spawn);
    }
  }

  /** What decides, in each state, whether the destructor can still end in std::terminate. */
  predicate AbortOpen(s: State) {
    match s.dtor
    case Alive => s.accept != AtCatch && !s.accept.Ended?
    case Flagged => s.accept == AtSpawn
    case Completed => false
    case Aborted => true
    case _ => s.accept == AtSpawn || |s.conns| > s.startedAtScan
  }

  /** The destructor is meant to join every thread. Whether it can fail to, in any state of the server: before the
      flag, if and only if the accept loop still runs; from the flag to the join loop, if and only if the accept
      thread stands between its second look at the flag and the append; after that, if and only if it stands
      there or a thread has been started since the join loop began. */
  lemma AbortExactlyInTheWindow(s: State)
    requires Inv(s)
    ensures CanAbort(s) <==> AbortOpen(s)
  {
    if AbortOpen(s) {
      if s.dtor == Aborted {
        assert CanRun(s, []) && Run(s, []).dtor == Aborted;
      } else if s.dtor == Alive {
        var acts := DriveToSpawn(s);
        var s' := Run(s, acts);
        RunKeepsInv(s, acts);
        StepKeepsInv(s', SetFlag);
        WindowCanAbort(Next(s', SetFlag));
        AbortOneStepOn(s', SetFlag);
        AbortLaterOn(s, acts);
      } else if s.accept == AtSpawn {
        WindowCanAbort(s);
      } else {
        UnseenCanAbort(s);
      }
    } else {
      forall acts | CanRun(s, acts)
        ensures Run(s, acts).dtor != Aborted
      {
        ClosedIsQuiet(s);
        QuietNeverAborts(s, |s.conns|, acts);
      }
    }
  }

  lemma ClosedIsQuiet(s: State)
    requires Inv(s) && !AbortOpen(s)
    ensures Quiet(s, |s.conns|)
  {
  }

  /** The abort is no dead letter: the server can be driven into it from its first state. */
  lemma AbortIsReachable(s: State)
    requires Init(s)
    ensures CanAbort(s)
  {
    InitIsInv(s);
    AbortExactlyInTheWindow(s);
  }
}
