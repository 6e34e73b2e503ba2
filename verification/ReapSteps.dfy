/**
 Why reaping may count on everyone else: no step of a participant writes a number into a shared word other than its
 own or one that is there already.
 */
module ReapSteps {
  import opened Common
  import opened ControlWord
  import PoolWord
  import Reap
  import Repair
  import Ring
  import Roles
  import Transfer

  // The threads of u are those of s, and slot i names p only where it did.
  predicate RingNoWorse(s: Ring.State, u: Ring.State, p: nat, i: nat) {
    && Ring.SameShape(s, u) && i < |s.slots|
    && (u.slots[i].control.Names(p) ==> s.slots[i].control.Names(p))
    && (forall t :: 0 <= t < |s.threads| ==> u.threads[t].owner == s.threads[t].owner)
  }

  lemma IdleNamesNoOne(s: Ring.State, t: nat, c: Ring.Choice, p: nat, i: nat)
    requires Ring.WellShaped(s) && i < |s.slots| && t < |s.threads| && s.threads[t].owner != p
    ensures RingNoWorse(s, Ring.StepIdle(s, t, c), p, i)
  {}

  lemma ReserveNamesNoOne(s: Ring.State, t: nat, p: nat, i: nat)
    requires Ring.WellShaped(s) && i < |s.slots| && t < |s.threads| && s.threads[t].owner != p
    ensures RingNoWorse(s, Ring.StepReserve(s, t), p, i)
  {}

  lemma ProducerNamesNoOne(s: Ring.State, t: nat, c: Ring.Choice, p: nat, i: nat)
    requires Ring.WellShaped(s) && i < |s.slots| && t < |s.threads| && s.threads[t].owner != p
    ensures RingNoWorse(s, Ring.StepProducer(s, t, c), p, i)
  {}

  lemma ClaimNamesNoOne(s: Ring.State, t: nat, c: Ring.Choice, p: nat, i: nat)
    requires Ring.WellShaped(s) && i < |s.slots| && t < |s.threads| && s.threads[t].owner != p
    ensures RingNoWorse(s, Ring.StepClaim(s, t, c), p, i)
  {}

  lemma CloseNamesNoOne(s: Ring.State, t: nat, p: nat, i: nat)
    requires Ring.WellShaped(s) && i < |s.slots| && t < |s.threads| && s.threads[t].owner != p
    ensures RingNoWorse(s, Ring.StepClose(s, t), p, i)
  {}

  /** One atomic step of the ring by a thread of someone else. */
  lemma RingNamesNoOne(s: Ring.State, t: nat, c: Ring.Choice, p: nat, i: nat)
    requires Ring.WellShaped(s) && i < |s.slots| && (t < |s.threads| ==> s.threads[t].owner != p)
    ensures RingNoWorse(s, Ring.Step(s, t, c), p, i)
  {
    if t < |s.threads| {
      if s.threads[t].pc.Idle? { IdleNamesNoOne(s, t, c, p, i); }
      else if Ring.InReserve(s.threads[t].pc) { ReserveNamesNoOne(s, t, p, i); }
      else if Ring.InProducer(s.threads[t].pc) { ProducerNamesNoOne(s, t, c, p, i); }
      else if Ring.InClose(s.threads[t].pc) { CloseNamesNoOne(s, t, p, i); }
      else { ClaimNamesNoOne(s, t, c, p, i); }
    }
  }

  /** A run of the ring in which p takes no step: a queue as the reaper sees it gets no worse. */
  lemma {:induction false} RingRunNamesNoOne(s: Ring.State, moves: seq<Ring.Move>, p: nat, i: nat)
    requires Ring.WellShaped(s) && i < |s.slots|
    requires forall k :: 0 <= k < |moves| && moves[k].t < |s.threads| ==> s.threads[moves[k].t].owner != p
    ensures RingNoWorse(s, Ring.Run(s, moves), p, i)
  {
    if moves != [] {
      var rest, last := moves[..|moves| - 1], moves[|moves| - 1];
      RingRunNamesNoOne(s, rest, p, i);
      RingNamesNoOne(Ring.Run(s, rest), last.t, last.c, p, i);
    }
  }

  predicate TransferNoWorse(s: Transfer.State, u: Transfer.State, p: nat) {
    && p in u.dead && Transfer.WellShaped(u) && |u.slots| == |s.slots| && |u.blocks| == |s.blocks|
    && (forall i :: 0 <= i < |s.slots| ==> u.slots[i].control.Names(p) ==> s.slots[i].control.Names(p))
    && (forall b :: 0 <= b < |s.blocks| ==> Reap.Has(u.blocks[b].word, p) ==> Reap.Has(s.blocks[b].word, p))
  }

  lemma ProducingNamesNoOne(s: Transfer.State, m: Transfer.Move, p: nat)
    requires Transfer.WellShaped(s) && p in s.dead
    requires m.Allocate? || m.Free? || m.Reserve? || m.Stage? || m.Detach? || m.Publish? || m.Abandon?
    ensures TransferNoWorse(s, Transfer.Step(s, m), p)
  {}

  lemma ConsumingNamesNoOne(s: Transfer.State, m: Transfer.Move, p: nat)
    requires Transfer.WellShaped(s) && p in s.dead
    requires m.Claim? || m.Takeover? || m.Take? || m.Discharge? || m.Drain? || m.Crash? || m.ReapBlock?
    ensures TransferNoWorse(s, Transfer.Step(s, m), p)
  {}

  lemma RepairingNamesNoOne(s: Transfer.State, m: Transfer.Move, p: nat)
    requires Transfer.WellShaped(s) && p in s.dead
    requires m.Tag? || m.Resolve? || m.Store? || (m.Rejoin? && m.p != p)
    ensures TransferNoWorse(s, Transfer.Step(s, m), p)
  {}

  /** One step of ownership transfer, repairs and reaping of pool words included, while p is dead. */
  lemma TransferNamesNoOne(s: Transfer.State, m: Transfer.Move, p: nat)
    requires Transfer.WellShaped(s) && p in s.dead && m != Transfer.Rejoin(p)
    ensures TransferNoWorse(s, Transfer.Step(s, m), p)
  {
    if m.Tag? || m.Resolve? || m.Store? || m.Rejoin? { RepairingNamesNoOne(s, m, p); }
    else if m.Claim? || m.Takeover? || m.Take? || m.Discharge? || m.Drain? || m.Crash?
            || m.ReapBlock? { ConsumingNamesNoOne(s, m, p); }
    else { ProducingNamesNoOne(s, m, p); }
  }

  /** Any run of them until p's number is given out again: once p is forgotten it stays forgotten. */
  lemma {:induction false} TransferRunNamesNoOne(s: Transfer.State, moves: seq<Transfer.Move>, p: nat)
    requires Transfer.WellShaped(s) && p in s.dead && forall k :: 0 <= k < |moves| ==> moves[k] != Transfer.Rejoin(p)
    ensures TransferNoWorse(s, Transfer.Run(s, moves), p)
    decreases |moves|
  {
    if moves != [] {
      TransferRunNamesNoOne(s, moves[..|moves| - 1], p);
      TransferNamesNoOne(Transfer.Run(s, moves[..|moves| - 1]), moves[|moves| - 1], p);
    }
  }

  /** One step on the role words, while p is dead. */
  lemma RolesNameNoOne(s: Roles.State, m: Roles.Move, p: nat)
    requires Roles.Shaped(s) && p in s.dead && m != Roles.Rejoin(p)
    ensures var u := Roles.Step(s, m); p in u.dead && Reap.RolesNoWorse(s.words, u.words, p)
  {}
}
