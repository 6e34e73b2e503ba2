/** From the caller's value to the taker's: what is staged at a position is what becomes of that position. */
module RingValues {
  import opened Common
  import opened Ring
  import opened RingInvariant
  import opened RingSteps
  import opened RingTheorems

  /** Thread t takes no step of the schedule. */
  predicate Without(moves: seq<Move>, t: nat) { forall k :: 0 <= k < |moves| ==> moves[k].t != t }

  /** A thread stays where it is while others move. */
  lemma {:induction false} OthersLeave(s: State, moves: seq<Move>, t: nat)
    requires Inv(s) && t < |s.threads| && Without(moves, t)
    ensures Inv(Run(s, moves)) && Run(s, moves).threads[t] == s.threads[t]
    decreases |moves|
  {
    RunInv(s, moves);
    if moves != [] {
      var m := moves[|moves| - 1];
      OthersLeave(s, moves[..|moves| - 1], t);
      StepLeaves(Run(s, moves[..|moves| - 1]), m.t, m.c, t);
    }
  }

  lemma ReserveLeaves(s: State, u: nat, t: nat)
    requires WellShaped(s) && t < |s.threads| && u < |s.threads| && u != t
    ensures StepReserve(s, u).threads[t] == s.threads[t]
  {}

  lemma ProducerLeaves(s: State, u: nat, c: Choice, t: nat)
    requires WellShaped(s) && t < |s.threads| && u < |s.threads| && u != t
    ensures StepProducer(s, u, c).threads[t] == s.threads[t]
  {}

  lemma ClaimLeaves(s: State, u: nat, c: Choice, t: nat)
    requires WellShaped(s) && t < |s.threads| && u < |s.threads| && u != t
    ensures StepClaim(s, u, c).threads[t] == s.threads[t]
  {}

  lemma CloseLeaves(s: State, u: nat, t: nat)
    requires WellShaped(s) && t < |s.threads| && u < |s.threads| && u != t
    ensures StepClose(s, u).threads[t] == s.threads[t]
  {}

  lemma StepLeaves(s: State, u: nat, c: Choice, t: nat)
    requires WellShaped(s) && t < |s.threads| && u != t
    ensures Step(s, u, c).threads[t] == s.threads[t]
  {
    if u < |s.threads| {
      var pc := s.threads[u].pc;
      if pc.Idle? { assert StepIdle(s, u, c).threads[t] == s.threads[t]; }
      else if InReserve(pc) { ReserveLeaves(s, u, t); }
      else if InProducer(pc) { ProducerLeaves(s, u, c, t); }
      else if InClose(pc) { CloseLeaves(s, u, t); }
      else { ClaimLeaves(s, u, c, t); }
    }
  }

  // What a caller does with its reservation, with any steps of others before each of its own.

  /** Stages v: two accesses, after which the position is the caller's to publish. */
  function Stage(s: State, t: nat, v: Value, m1: seq<Move>, c1: Choice, m2: seq<Move>): State
    requires WellShaped(s)
  {
    Run(Step(Run(Step(s, t, Choice.Stage(v)), m1), t, c1), m2)
  }

  lemma StageStays(s: State, t: nat, v: Value, m1: seq<Move>, c1: Choice, m2: seq<Move>)
    requires Inv(s) && t < |s.threads| && s.threads[t].pc.Reserved? && Without(m1, t) && Without(m2, t)
    ensures var e := Stage(s, t, v, m1, c1, m2);
            Inv(e) && |e.threads| == |s.threads| && e.threads[t].pc == Staged(s.threads[t].pc.pos, v)
  {
    var a := Step(s, t, Choice.Stage(v));
    StepInv(s, t, Choice.Stage(v));
    OthersLeave(a, m1, t);
    var b := Run(a, m1);
    StepInv(b, t, c1);
    OthersLeave(Step(b, t, c1), m2, t);
  }

  /** The value v of position p has arrived wherever a record of p has. */
  ghost predicate Arrived(s: State, p: nat, v: Value) {
    && p < |s.log| && s.log[p] == Ready(v)
    && (p in s.taken ==> s.taken[p] == Some(v))
    && (p < s.head <= |s.log| ==>
          |Values(s.log[..p])| < |s.delivered| && s.delivered[|Values(s.log[..p])|] == Some(v))
  }

  lemma {:induction false} ValuesPrefix(log: seq<Entry>, p: nat)
    requires p < |log| && log[p].Ready?
    ensures |Values(log[..p])| < |Values(log)| && Values(log)[|Values(log[..p])|] == Some(log[p].v)
    decreases |log|
  {
    var rest := log[..|log| - 1];
    if p < |rest| {
      ValuesPrefix(rest, p);
      assert rest[..p] == log[..p];
    } else {
      assert log[..p] == rest;
    }
  }

  lemma ReadyArrives(s: State, p: nat, v: Value)
    requires Inv(s) && p < |s.log| && s.log[p] == Ready(v)
    ensures Arrived(s, p, v)
  {
    if p < s.head {
      var done := s.log[..s.head];
      ValuesPrefix(done, p);
      assert done[..p] == s.log[..p];
    }
  }

  /**
   A caller that stages v at its reserved position and publishes it: in every interleaving with others, before, between
   and ever after, the position holds v, and whoever claims or takes it gets v.
   */
  lemma PublishedArrives(s: State, t: nat, v: Value, m1: seq<Move>, c1: Choice, m2: seq<Move>, c2: Choice,
                         later: seq<Move>)
    requires Inv(s) && t < |s.threads| && s.threads[t].pc.Reserved? && Without(m1, t) && Without(m2, t)
    requires !c2.Abandon?
    ensures Arrived(Run(Step(Stage(s, t, v, m1, c1, m2), t, c2), later), s.threads[t].pc.pos, v)
  {
    StageStays(s, t, v, m1, c1, m2);
    var d := Stage(s, t, v, m1, c1, m2);
    assert ThreadOk(d, t);
    var e := Step(d, t, c2);
    StepInv(d, t, c2);
    HistoryIsStable(e, later);
    RunInv(e, later);
    ReadyArrives(Run(e, later), s.threads[t].pc.pos, v);
  }

  /** A caller that gives its reservation up, before staging or after: the position stays empty for good. */
  lemma AbandonedStaysEmpty(s: State, t: nat, v: Value, m1: seq<Move>, c1: Choice, m2: seq<Move>, m3: seq<Move>,
                            c3: Choice, later: seq<Move>)
    requires Inv(s) && t < |s.threads| && s.threads[t].pc.Reserved?
    requires Without(m1, t) && Without(m2, t) && Without(m3, t)
    ensures var p := s.threads[t].pc.pos;
            var u := Run(Step(s, t, Abandon), later);
            var w := Run(Step(Run(Step(Stage(s, t, v, m1, c1, m2), t, Abandon), m3), t, c3), later);
            p < |u.log| && u.log[p] == Skipped && p !in u.taken && p < |w.log| && w.log[p] == Skipped && p !in w.taken
  {
    assert ThreadOk(s, t);
    var a := Step(s, t, Abandon);
    StepInv(s, t, Abandon);
    HistoryIsStable(a, later);
    RunInv(a, later);
    StageStays(s, t, v, m1, c1, m2);
    var d := Stage(s, t, v, m1, c1, m2);
    assert ThreadOk(d, t);
    StepInv(d, t, Abandon);
    var e := Step(d, t, Abandon);
    OthersLeave(e, m3, t);
    var f := Run(e, m3);
    assert ThreadOk(f, t);
    StepInv(f, t, c3);
    HistoryIsStable(Step(f, t, c3), later);
    RunInv(Step(f, t, c3), later);
  }
}
