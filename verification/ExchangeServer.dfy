/**
 The exchange server as an object: the fields the accept thread, the destructor and the
 connection threads share, changed in place one source line at a time, and whole shutdowns
 played on that object under any schedule.
 */
module ExchangeServer {
  import opened Shutdown

  /** The accept thread's next step, given what poll and the thread start would do. */
  function AcceptAction(s: State, ready: bool, throws: bool): Action
    requires !s.accept.Ended?
  {
    match s.accept
    case NotListening => Listen
    case AtWhile => TestWhile
    case AtPoll => if throws then PollThrows else Poll(ready)
    case AtCheck => TestAgain
    case AtSpawn => if throws then SpawnThrows else Spawn
    case AtSleep => Wake
    case AtCatch => Catch
  }

  function DtorAction(s: State): Action
    requires !Over(s)
  {
    match s.dtor
    case Alive => SetFlag
    case Flagged => BeginScan
    case Scanning(end, next) => if next < end then Join else EndScan
    case Scanned => Clear
    case Cleared => JoinAccept
    case AcceptJoined => FreeServer
    case ServerFreed => DestroyMembers
  }

  /** Whose turn it is, and what the world does in that turn. */
  datatype Turn = OfRun(ready: bool, throws: bool) | OfDestructor | OfSession(k: nat)

  /** The steps of the protocol that a turn can be, given what the world does in it. */
  predicate MayTake(turn: Turn, a: Action) {
    match turn
    case OfRun(ready, throws) =>
      && !Shutdown.OfDestructor(a) && !OfConnection(a)
      && (a.Poll? ==> a.ready == ready && !throws)
      && (a.Spawn? ==> !throws)
      && (a.PollThrows? || a.SpawnThrows? ==> throws)
    case OfDestructor => Shutdown.OfDestructor(a)
    case OfSession(k) => a == Serve(k) || a == Finish(k)
  }

  ghost predicate Idle(s: State, turn: Turn) {
    forall a :: MayTake(turn, a) ==> !Enabled(s, a)
  }

  /** `acts` is what a schedule does from `s`: each turn is a step its thread may take, or no step if its thread
      cannot move. */
  ghost predicate Follows(s: State, turns: seq<Turn>, acts: seq<Action>)
    decreases |turns|
  {
    if turns == [] then acts == []
    else
      || (Idle(s, turns[0]) && Follows(s, turns[1..], acts))
      || (acts != [] && MayTake(turns[0], acts[0]) && Enabled(s, acts[0]) &&
          Follows(Next(s, acts[0]), turns[1..], acts[1..]))
  }

  lemma OneStepATurn(s: State, turn: Turn, a: Action, b: Action)
    requires MayTake(turn, a) && MayTake(turn, b) && Enabled(s, a) && Enabled(s, b)
    ensures a == b
  {
  }

  /** A schedule decides the run. */
  lemma {:induction false} FollowsIsUnique(s: State, turns: seq<Turn>, acts: seq<Action>, acts': seq<Action>)
    requires Follows(s, turns, acts) && Follows(s, turns, acts')
    ensures acts == acts'
    decreases |turns|
  {
    if turns == [] {
    } else if Idle(s, turns[0]) {
      FollowsIsUnique(s, turns[1..], acts, acts');
    } else {
      OneStepATurn(s, turns[0], acts[0], acts'[0]);
      FollowsIsUnique(Next(s, acts[0]), turns[1..], acts[1..], acts'[1..]);
    }
  }

  lemma OneStep(s: State, a: Action)
    requires Inv(s) && Enabled(s, a)
    ensures CanRun(s, [a]) && Run(s, [a]) == Next(s, a) && Inv(Next(s, a))
  {
    StepKeepsInv(s, a);
  }

  lemma CannotMove(s: State, turn: Turn)
    requires match turn
      case OfRun(_, _) => s.dtor == Aborted || s.accept.Ended?
      case OfDestructor => Over(s) || !Enabled(s, DtorAction(s))
      case OfSession(k) => s.dtor == Aborted || k >= |s.conns| || s.conns[k].pc == Done
    ensures Idle(s, turn)
  {
  }

  lemma StepLowersRankAtFlag(s: State)
    requires s.dtor == Alive
    ensures Rank(Next(s, SetFlag)) < Rank(s)
  {
  }

  // ---------------------------------------------------------------------------
  // Fair schedules bring the shutdown to its end
  // ---------------------------------------------------------------------------

  /** A turn at least for the accept thread, the destructor and each of the first `n` connection threads. */
  ghost predicate IsRound(turns: seq<Turn>, n: nat) {
    && (exists t :: t in turns && t.OfRun?) && OfDestructor in turns
    && (forall k :: 0 <= k < n ==> OfSession(k) in turns)
  }

  ghost predicate AllRounds(rounds: seq<seq<Turn>>, n: nat) {
    forall i :: 0 <= i < |rounds| ==> IsRound(rounds[i], n)
  }

  function Flatten(rounds: seq<seq<Turn>>): seq<Turn>
    decreases |rounds|
  {
    if rounds == [] then [] else rounds[0] + Flatten(rounds[1..])
  }

  lemma {:induction false} FollowsParts(s: State, first: seq<Turn>, rest: seq<Turn>, acts: seq<Action>) returns (i: nat)
    requires Follows(s, first + rest, acts)
    ensures i <= |acts| && Follows(s, first, acts[..i])
    ensures CanRun(s, acts[..i]) && Follows(Run(s, acts[..i]), rest, acts[i..])
    decreases |first|
  {
    if first == [] {
      assert first + rest == rest && acts[0..] == acts;
      i := 0;
    } else {
      var turn, turns := first[0], first[1..];
      assert (first + rest)[1..] == turns + rest;
      if Idle(s, turn) && Follows(s, turns + rest, acts) {
        i := FollowsParts(s, turns, rest, acts);
      } else {
        var a := acts[0];
        i := FollowsParts(Next(s, a), turns, rest, acts[1..]);
        FirstStep(s, a, acts[1..][..i]);
        assert acts[..i + 1] == [a] + acts[1..][..i] && acts[..i + 1][1..] == acts[1..][..i];
        assert acts[1..][i..] == acts[i + 1..];
        i := i + 1;
      }
    }
  }

  /** A schedule takes a step if a thread that can move at its start has a turn in it. */
  lemma {:induction false} SomeThreadMoves(s: State, turns: seq<Turn>, turn: Turn, acts: seq<Action>)
    requires Follows(s, turns, acts) && turn in turns && !Idle(s, turn)
    ensures acts != []
    decreases |turns|
  {
    if turn == turns[0] {
    } else if Follows(s, turns[1..], acts) {
      SomeThreadMoves(s, turns[1..], turn, acts);
    }
  }

  /** An accept thread that has not ended can always move, whatever poll and the thread start do. */
  lemma AcceptMoves(s: State, turn: Turn)
    requires s.dtor != Aborted && !s.accept.Ended? && turn.OfRun?
    ensures !Idle(s, turn)
  {
    var a := AcceptAction(s, turn.ready, turn.throws);
    assert MayTake(turn, a) && Enabled(s, a);
  }

  /** Until the destructor is over, some thread with a turn in the round can move. */
  lemma RoundMoves(s: State, turns: seq<Turn>) returns (turn: Turn)
    requires Inv(s) && s.shuttingDown && !Over(s) && IsRound(turns, |s.conns|)
    ensures turn in turns && !Idle(s, turn)
  {
    var a := ShutdownGoesOn(s);
    if Shutdown.OfDestructor(a) {
      turn := OfDestructor;
      assert MayTake(turn, a);
    } else if OfConnection(a) {
      turn := OfSession(a.k);
      assert MayTake(turn, a);
    } else {
      turn :| turn in turns && turn.OfRun?;
      AcceptMoves(s, turn);
    }
  }

  lemma RoundShrinks(turns: seq<Turn>, n: nat, m: nat)
    requires IsRound(turns, n) && m <= n
    ensures IsRound(turns, m)
  {
  }

  /** As many rounds as the rank of the state they start from bring the destructor to its end. */
  lemma {:induction false} RoundsEnd(s: State, rounds: seq<seq<Turn>>, acts: seq<Action>)
    requires Inv(s) && s.shuttingDown && Follows(s, Flatten(rounds), acts)
    requires AllRounds(rounds, s.startedAtFlag + 1)
    ensures CanRun(s, acts) && (|rounds| >= Rank(s) ==> Over(Run(s, acts)))
    decreases |rounds|
  {
    if rounds == [] {
      if !Over(s) {
        var a := ShutdownGoesOn(s);
        StepLowersRank(s, a);
      }
    } else {
      var i := FollowsParts(s, rounds[0], Flatten(rounds[1..]), acts);
      var s' := Run(s, acts[..i]);
      RunKeepsInv(s, acts[..i]);
      HistoryKept(s, acts[..i]);
      ShutdownIsFinite(s, acts[..i]);
      RoundsEnd(s', rounds[1..], acts[i..]);
      RunInParts(s, acts, i);
      if !Over(s) {
        assert IsRound(rounds[0], s.startedAtFlag + 1);
        RoundShrinks(rounds[0], s.startedAtFlag + 1, |s.conns|);
        var turn := RoundMoves(s, rounds[0]);
        SomeThreadMoves(s, rounds[0], turn, acts[..i]);
      } else {
        OverStays(s, acts);
      }
    }
  }

  class ExchangeServer {
    var shuttingDown: bool
    var listening: bool
    var scnt: nat
    var connectionThreads: seq<Handle>
    var sessions: seq<Conn>
    var accept: AcceptPc
    var dtor: DtorPc
    ghost var acceptAtFlag: AcceptPc
    ghost var startedAtFlag: nat
    ghost var startedAtScan: nat

    ghost function View(): State
      reads this
    {
      State(shuttingDown, listening, scnt, accept, dtor, connectionThreads, sessions,
            acceptAtFlag, startedAtFlag, startedAtScan)
    }

    ghost predicate Valid()
      reads this
    {
      Inv(View())
    }

    constructor ()
      ensures Init(View()) && Valid()
    {
      shuttingDown, listening, scnt := false, false, 0;
      connectionThreads, sessions := [], [];
      accept, dtor := NotListening, Alive;
      startedAtFlag, startedAtScan := 0, 0;
      acceptAtFlag := NotListening;
    }

    /** Line 39: the counter moves first, then the thread is started and appended, or neither. */
    method StartConnection(throws: bool)
      requires dtor != Aborted && accept == AtSpawn
      modifies this
      ensures View() == Next(old(View()), if throws then SpawnThrows else Spawn)
    {
      scnt := scnt + 1;
      if throws {
        accept := AtCatch;
      } else {
        connectionThreads := connectionThreads + [Handle(|sessions|, true)];
        sessions := sessions + [Conn(scnt, Starting)];
        accept := AtSleep;
      }
    }

    /** The next line of `run`. */
    method RunStep(ready: bool, throws: bool)
      requires dtor != Aborted && !accept.Ended?
      modifies this
      ensures
        var a := AcceptAction(old(View()), ready, throws);
        Enabled(old(View()), a) && View() == Next(old(View()), a)
    {
      match accept {
        case NotListening =>
          listening, accept := true, AtWhile;
        case AtWhile =>
          accept := if shuttingDown then Ended(false) else AtPoll;
        case AtPoll =>
          accept := if throws then AtCatch else if ready then AtCheck else AtWhile;
        case AtCheck =>
          accept := if shuttingDown then AtWhile else AtSpawn;
        case AtSpawn =>
          StartConnection(throws);
        case AtSleep =>
          accept := AtWhile;
        case AtCatch =>
          listening, accept := false, Ended(true);
      }
    }

    /** The next line of the destructor; it does not move while a thread it joins is running. */
    method DestructorStep() returns (moved: bool)
      requires !Over(View())
      modifies this
      ensures moved <==> Enabled(old(View()), DtorAction(old(View())))
      ensures View() == if moved then Next(old(View()), DtorAction(old(View()))) else old(View())
    {
      moved := true;
      match dtor {
        case Alive =>
          acceptAtFlag, startedAtFlag := accept, |sessions|;
          shuttingDown, dtor := true, Flagged;
        case Flagged =>
          startedAtScan := |sessions|;
          dtor := Scanning(|connectionThreads|, 0);
        case Scanning(end, next) =>
          if next >= end {
            dtor := Scanned;
          } else if next >= |connectionThreads| {
            moved := false;
          } else {
            var h := connectionThreads[next];
            if h.joinable && !(h.thread < |sessions| && sessions[h.thread].pc == Done) {
              moved := false;
            } else {
              connectionThreads := connectionThreads[next := h.(joinable := false)];
              dtor := Scanning(end, next + 1);
            }
          }
        case Scanned =>
          if AllJoined(connectionThreads) {
            connectionThreads, dtor := [], Cleared;
          } else {
            dtor := Aborted;
          }
        case Cleared =>
          moved := accept.Ended?;
          if moved {
            dtor := AcceptJoined;
          }
        case AcceptJoined =>
          dtor := ServerFreed;
        case ServerFreed =>
          if AllJoined(connectionThreads) {
            connectionThreads, dtor := [], Completed;
          } else {
            dtor := Aborted;
          }
      }
    }

    /** The next stage of `server_process` in connection thread `k`: its session starts, or is over and stopped. */
    method ServerProcessStep(k: nat)
      requires dtor != Aborted && k < |sessions| && sessions[k].pc != Done
      modifies this`sessions
      ensures
        var a := if old(sessions[k].pc) == Starting then Serve(k) else Finish(k);
        Enabled(old(View()), a) && View() == Next(old(View()), a)
    {
      sessions := sessions[k := sessions[k].(pc := if sessions[k].pc == Starting then Serving else Done)];
    }

    /** One turn: a step of the thread whose turn it is, or nothing exactly if that thread cannot move. */
    method Take(turn: Turn) returns (ghost acts: seq<Action>)
      requires Valid()
      modifies this
      ensures Valid()
      ensures |acts| <= 1 && CanRun(old(View()), acts) && View() == Run(old(View()), acts)
      ensures if acts == [] then Idle(old(View()), turn) else MayTake(turn, acts[0])
    {
      ghost var before := View();
      ghost var a: Action;
      ghost var moved := true;
      match turn {
        case OfRun(ready, throws) =>
          if dtor != Aborted && !accept.Ended? {
            RunStep(ready, throws);
            a := AcceptAction(before, ready, throws);
          } else {
            moved := false;
          }
        case OfDestructor =>
          if dtor != Completed && dtor != Aborted {
            moved := DestructorStep();
            a := DtorAction(before);
          } else {
            moved := false;
          }
        case OfSession(k) =>
          if dtor != Aborted && k < |sessions| && sessions[k].pc != Done {
            ServerProcessStep(k);
            a := if before.conns[k].pc == Starting then Serve(k) else Finish(k);
          } else {
            moved := false;
          }
      }
      if moved {
        OneStep(before, a);
        acts := [a];
      } else {
        CannotMove(before, turn);
        acts := [];
      }
    }

    /** Any schedule keeps the server valid and is the run of the protocol that the schedule decides. */
    method Play(turns: seq<Turn>) returns (ghost acts: seq<Action>)
      requires Valid()
      modifies this
      ensures Valid()
      ensures CanRun(old(View()), acts) && View() == Run(old(View()), acts)
      ensures Follows(old(View()), turns, acts)
      decreases |turns|
    {
      if turns == [] {
        acts := [];
      } else {
        ghost var before := View();
        ghost var first := Take(turns[0]);
        acts := Play(turns[1..]);
        if first == [] {
        } else {
          assert View() == Run(Next(before, first[0]), acts);
          FirstStep(before, first[0], acts);
          assert ([first[0]] + acts)[1..] == acts;
          acts := [first[0]] + acts;
        }
      }
    }

    /** The destructor against any schedule of the three kinds of thread, from any valid state of the server.
        At most one connection thread is started after the flag, and only by an accept thread found at line 39.
        Past the join loop every thread started before it began, before the flag or after, has ended. A completed
        destructor leaves nothing running and nothing unjoined; an aborted one was caught by that one late thread.
        A schedule of enough rounds, whatever else is in them, brings the destructor to its end. */
    method ShutDown(turns: seq<Turn>)
      requires Valid() && dtor == Alive
      modifies this
      ensures Valid() && shuttingDown
      ensures |old(sessions)| <= |sessions| <= |old(sessions)| + if old(accept) == AtSpawn then 1 else 0
      ensures dtor != Flagged && !dtor.Scanning? ==>
        && |old(sessions)| <= startedAtScan <= |sessions|
        && (forall k :: 0 <= k < startedAtScan ==> sessions[k].pc == Done)
      ensures dtor == Completed ==>
        && accept.Ended? && connectionThreads == []
        && (forall k :: 0 <= k < |sessions| ==> sessions[k].pc == Done)
      ensures dtor == Aborted ==> old(accept) == AtSpawn && |sessions| == |old(sessions)| + 1
      ensures forall rounds ::
        turns == Flatten(rounds) && AllRounds(rounds, |old(sessions)| + 1) && |rounds| >= old(Rank(View())) ==>
          Over(View())
    {
      ghost var before := View();
      var _ := DestructorStep();
      ghost var flagged := View();
      StepKeepsInv(before, SetFlag);
      ghost var acts := Play(turns);
      AtMostOneLateSpawn(before, acts);
      HistoryKept(flagged, acts);
      StepLowersRankAtFlag(before);
      forall rounds | turns == Flatten(rounds) && AllRounds(rounds, |before.conns| + 1) && |rounds| >= Rank(before)
        ensures Over(View())
      {
        RoundsEnd(flagged, rounds, acts);
      }
    }
  }
}
