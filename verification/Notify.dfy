/**
 Waiting for queue progress.  A waiter that found the queue full consumes a sticky, advisory readiness flag before it
 looks again; whoever makes room commits first and raises the flag afterwards.
 */
module Notify {
  const LOCAL_RETRY_LIMIT: nat := 32

  datatype Answer = Accepted | Closed | Busy | Full

  datatype Progress = Granted | ProgressClosed | ProgressBusy | WaitFailed | StillWaiting

  predicate AllBusy(answers: seq<Answer>, from: nat, to: nat) {
    to <= |answers| && forall k :: from <= k < to ==> answers[k] == Busy
  }

  /** The 32 answers before k were all Busy. */
  predicate BusyRun(answers: seq<Answer>, k: nat) {
    k >= LOCAL_RETRY_LIMIT && AllBusy(answers, k - LOCAL_RETRY_LIMIT, k)
  }

  /** How many of the first n answers were Full; each is followed by a wait. */
  function Fulls(answers: seq<Answer>, n: nat): nat
    requires n <= |answers|
  {
    if n == 0 then 0 else Fulls(answers, n - 1) + if answers[n - 1] == Full then 1 else 0
  }

  /**
   `reserve` and `claim`: `answers[k]` is what the queue says to attempt k and `waits[j]` whether wait j succeeds.
   It ends on the first answer that decides, on the first wait that fails, or with Busy exactly after 32 Busy answers
   in a row; `StillWaiting` is answered only when one of the scripts is used up.
   */
  method Attempt(answers: seq<Answer>, waits: seq<bool>) returns (r: Progress, attempts: nat)
    ensures attempts <= |answers|
    ensures r.Granted? <==> attempts > 0 && answers[attempts - 1] == Accepted
    ensures r.ProgressClosed? <==> attempts > 0 && answers[attempts - 1] == Closed
    ensures r.ProgressBusy? <==> BusyRun(answers, attempts)
    ensures r.WaitFailed? <==> attempts > 0 && answers[attempts - 1] == Full
                               && 0 < Fulls(answers, attempts) <= |waits| && !waits[Fulls(answers, attempts) - 1]
    ensures r.StillWaiting? ==>
              || attempts == |answers|
              || (attempts > 0 && answers[attempts - 1] == Full && Fulls(answers, attempts) == |waits| + 1)
    ensures forall k :: 0 <= k < attempts - 1 ==> answers[k] == Busy || answers[k] == Full
    ensures attempts > 0 ==> Fulls(answers, attempts - 1) <= |waits|
    ensures attempts > 0 ==> forall j :: 0 <= j < Fulls(answers, attempts - 1) ==> j < |waits| && waits[j]
    ensures forall k {:trigger BusyRun(answers, k)} :: 0 <= k < attempts ==> !BusyRun(answers, k)
  {
    var retries, waited := 0, 0;
    attempts := 0;
    while attempts < |answers|
      invariant attempts <= |answers| && waited == Fulls(answers, attempts) <= |waits|
      invariant forall j :: 0 <= j < waited ==> waits[j]
      invariant attempts > 0 ==> Fulls(answers, attempts - 1) <= waited
      invariant retries <= attempts && retries < LOCAL_RETRY_LIMIT && AllBusy(answers, attempts - retries, attempts)
      invariant attempts > retries ==> answers[attempts - retries - 1] == Full
      invariant forall k :: 0 <= k < attempts ==> answers[k] == Busy || answers[k] == Full
      invariant forall k {:trigger BusyRun(answers, k)} :: 0 <= k <= attempts ==> !BusyRun(answers, k)
    {
      attempts := attempts + 1;
      match answers[attempts - 1]
      case Accepted => return Granted, attempts;
      case Closed => return ProgressClosed, attempts;
      case Busy =>
        if retries == LOCAL_RETRY_LIMIT - 1 { return ProgressBusy, attempts; }
        retries := retries + 1;
        assert attempts > retries ==> answers[attempts - retries - 1] == Full;
      case Full =>
        retries := 0;
        if waited == |waits| { return StillWaiting, attempts; }
        waited := waited + 1;
        if !waits[waited - 1] { return WaitFailed, attempts; }
    }
    r := StillWaiting;
  }

  // Many committers and several waiters over one flag.

  datatype Waiter = Trying | Blocked | Served

  // `room` is what a waiter needs; `owed` counts commits whose notification is still to come.
  datatype State = State(room: nat, flag: bool, owed: nat, waiters: seq<Waiter>)

  datatype Move = Commit | Raise | Try(w: nat) | Wake(w: nat) | Rival

  function Step(s: State, m: Move): State {
    match m
    case Commit => s.(room := s.room + 1, owed := s.owed + 1)
    case Raise => if s.owed > 0 then s.(flag := true, owed := s.owed - 1) else s
    case Try(w) =>
      if w >= |s.waiters| || s.waiters[w] != Trying then s
      else if s.room > 0 then s.(room := s.room - 1, waiters := s.waiters[w := Served])
      else s.(waiters := s.waiters[w := Blocked])
    case Wake(w) =>
      if w < |s.waiters| && s.waiters[w] == Blocked
         && s.flag then s.(flag := false, waiters := s.waiters[w := Trying]) else s
    case Rival => if s.room > 0 then s.(room := s.room - 1) else s
  }

  function Run(s: State, moves: seq<Move>): State {
    if moves == [] then s else Step(Run(s, moves[..|moves| - 1]), moves[|moves| - 1])
  }

  /** Somebody sleeps although there is room, nothing is raised and no notification is on its way. */
  predicate Lost(s: State) {
    s.room > 0 && !s.flag && s.owed == 0 && (exists w :: 0 <= w < |s.waiters| && s.waiters[w] == Blocked)
    && forall w :: 0 <= w < |s.waiters| ==> s.waiters[w] != Trying
  }

  function Start(room: nat, n: nat): State { State(room, false, 0, seq(n, _ => Trying)) }

  predicate Awake(s: State) { |s.waiters| <= 1
                             && (|s.waiters| == 1 && s.waiters[0] == Blocked && s.room > 0 ==> s.flag || s.owed > 0) }

  lemma {:induction false} RunAwake(s: State, moves: seq<Move>)
    requires Awake(s)
    ensures Awake(Run(s, moves))
  {
    if moves != [] { RunAwake(s, moves[..|moves| - 1]); }
  }

  /**
   With one waiter per flag no wakeup is lost, whatever the committers and rivals do and however notifications merge.
   */
  lemma NoLostWakeup(room: nat, n: nat, moves: seq<Move>)
    requires n <= 1
    ensures !Lost(Run(Start(room, n), moves))
  {
    RunAwake(Start(room, n), moves);
  }

  // A schedule that loses a wakeup: the room is used up, every waiter goes to sleep, two notifications merge, one
  // waiter consumes both.

  function Settle(room: nat, n: nat): seq<Move> {
    if n > 0 then Settle(room, n - 1) + [Try(n - 1)] else if room > 0 then Settle(room - 1, 0) + [Rival] else []
  }

  function Asleep(n: nat, k: nat): seq<Waiter> { seq(n, w => if w < k then Blocked else Trying) }

  lemma {:induction false} Settles(room: nat, used: nat, n: nat, k: nat)
    requires used <= room && k <= n && (k > 0 ==> used == room)
    ensures Run(Start(room, n), Settle(used, k)) == State(room - used, false, 0, Asleep(n, k))
    decreases k, used
  {
    if k > 0 {
      Settles(room, used, n, k - 1);
      RunOn(Start(room, n), Settle(used, k - 1), Try(k - 1));
      assert Asleep(n, k) == Asleep(n, k - 1)[k - 1 := Blocked];
    } else if used > 0 {
      Settles(room, used - 1, n, 0);
      RunOn(Start(room, n), Settle(used - 1, 0), Rival);
    } else {
      assert Asleep(n, 0) == Start(room, n).waiters;
    }
  }

  lemma RunOn(s: State, moves: seq<Move>, m: Move)
    ensures Run(s, moves + [m]) == Step(Run(s, moves), m)
  {
    assert (moves + [m])[..|moves|] == moves;
  }

  lemma ManyLoseOne(room: nat, n: nat) returns (moves: seq<Move>)
    requires n >= 2
    ensures Lost(Run(Start(room, n), moves))
  {
    var s := Start(room, n);
    var m0 := Settle(room, n);
    Settles(room, room, n, n);
    RunOn(s, m0, Commit);
    var m1 := m0 + [Commit];
    RunOn(s, m1, Commit);
    var m2 := m1 + [Commit];
    RunOn(s, m2, Raise);
    var m3 := m2 + [Raise];
    RunOn(s, m3, Raise);
    var m4 := m3 + [Raise];
    assert Run(s, m4) == State(2, true, 0, Asleep(n, n));
    RunOn(s, m4, Wake(0));
    var m5 := m4 + [Wake(0)];
    RunOn(s, m5, Try(0));
    moves := m5 + [Try(0)];
    assert Run(s, moves) == State(1, false, 0, Asleep(n, n)[0 := Served]);
    assert Run(s, moves).waiters[1] == Blocked;
  }

  /** The schedule loses a wakeup of n waiters on one flag. */
  predicate Loses(room: nat, n: nat, moves: seq<Move>) { Lost(Run(Start(room, n), moves)) }

  /** Whatever the room, some schedule of n waiters on one flag loses a wakeup exactly when there are two or more. */
  lemma LostIffShared(room: nat, n: nat)
    ensures (exists moves :: Loses(room, n, moves)) <==> n >= 2
  {
    if n >= 2 {
      var moves := ManyLoseOne(room, n);
      assert Loses(room, n, moves);
    } else {
      forall moves ensures !Loses(room, n, moves) { NoLostWakeup(room, n, moves); }
    }
  }
}
