/**
 The two role words of a channel.  A role word packs a generation, the participant that has the role, if any, and a
 terminal bit; adopting a port, dropping, inviting, closing and recovering each change one word by one exchange.
 */
module Roles {
  import opened Common
  import opened ControlWord

  const SLOTS: nat := 64                // slot codes: six bits, zero for nobody
  const GENERATION: nat := 128          // one generation
  const MAX_GENERATION: nat := 0x1ff_ffff_ffff_ffff

  datatype Role = Role(generation: nat, owner: Option<nat>, terminal: bool)
  {
    predicate Valid() { generation <= MAX_GENERATION && (owner.Some? ==> owner.value < PARTICIPANTS) }
  }

  function Encode(r: Role): nat {
    r.generation * GENERATION + 2 * (if r.owner.Some? then r.owner.value + 1 else 0) + (if r.terminal then 1 else 0)
  }

  function Decode(w: nat): Role {
    var slot := (w / 2) % SLOTS;
    Role(w / GENERATION, if slot == 0 then None else Some(slot - 1), w % 2 == 1)
  }

  /** A role value survives packing. */
  lemma DecodeEncode(r: Role)
    requires r.Valid()
    ensures Decode(Encode(r)) == r
  {
    Fields(r.generation, if r.owner.Some? then r.owner.value + 1 else 0, if r.terminal then 1 else 0);
  }

  lemma Fields(g: nat, slot: nat, t: nat)
    requires slot < SLOTS && t < 2
    ensures var w := g * GENERATION + 2 * slot + t; w / GENERATION == g && (w / 2) % SLOTS == slot && w % 2 == t
  {
    var w := g * GENERATION + 2 * slot + t;
    assert w == 2 * (g * SLOTS + slot) + t;
    assert w / 2 == g * SLOTS + slot;
  }

  /** Every word is the packing of the value it unpacks to. */
  lemma EncodeDecode(w: nat)
    requires w <= MAX_GENERATION * GENERATION + (GENERATION - 1)
    ensures Encode(Decode(w)) == w && Decode(w).generation <= MAX_GENERATION
  {
    assert w == 2 * (w / 2) + w % 2;
    assert w / 2 == SLOTS * (w / GENERATION) + (w / 2) % SLOTS;
  }

  // The exchanges.

  predicate Unowned(r: Role) { r.owner.None? && !r.terminal }
  predicate Retired(r: Role) { r.owner.None? && r.terminal }

  /** The unowned word of the next generation, or the retired word when there is none. */
  function NextOrRetired(r: Role): Role {
    if r.generation < MAX_GENERATION then Role(r.generation + 1, None, false) else Role(r.generation, None, true)
  }

  /** What dropping a channel, rolling an adoption back and recovering a dead owner all leave. */
  function Released(r: Role): Role { if r.terminal then Role(r.generation, None, true) else NextOrRetired(r) }

  /** Some exchange of the code takes the word from one value to the other. */
  predicate Changes(r: Role, u: Role) {
    || (Unowned(r) && u == r.(owner := u.owner) && u.owner.Some?)                 // adopt
    || (r.owner.Some? && u == Released(r))                                         // drop, rollback, recover
    || (Unowned(r) && u == NextOrRetired(r))                                       // invite
    || (r.owner.Some? && !r.terminal && u == r.(terminal := true))                 // close begins
    || (r.owner.Some? && r.terminal && u == Role(r.generation, None, true))        // close ends
  }

  function Phase(r: Role): nat {
    if r.owner.None? then (if r.terminal then 3 else 0) else (if r.terminal then 2 else 1)
  }

  predicate Before(r: Role, u: Role) {
    r.generation < u.generation || (r.generation == u.generation && Phase(r) < Phase(u))
  }

  /** Every exchange moves the word strictly up in (generation, phase), within the word's range. */
  lemma ChangesIncrease(r: Role, u: Role)
    requires Changes(r, u) && r.generation <= MAX_GENERATION
    ensures Before(r, u) && u.generation <= MAX_GENERATION
  {}

  /** A retired word never changes again. */
  lemma RetiredIsFinal(r: Role, u: Role)
    requires Retired(r)
    ensures !Changes(r, u)
  {}

  predicate History(words: seq<Role>) {
    forall k {:trigger words[k]} :: 0 <= k < |words| - 1 ==> Changes(words[k], words[k + 1])
  }

  /** Over any history of one word, later is higher; so no word value comes back, and no port is adopted twice. */
  lemma {:induction false} HistoryIncreases(words: seq<Role>, i: nat, j: nat)
    requires History(words) && i < j < |words| && words[0].generation <= MAX_GENERATION
    ensures words[i].generation <= MAX_GENERATION && words[j].generation <= MAX_GENERATION && Before(words[i], words[j])
    decreases j
  {
    if j > 1 { HistoryIncreases(words, if i < j - 1 then i else 0, j - 1); }
    assert words[j - 1] == words[j - 1];
    ChangesIncrease(words[j - 1], words[j]);
  }

  predicate AdoptedAt(words: seq<Role>, k: nat, generation: nat) {
    k + 1 < |words| && words[k] == Role(generation, None, false) && words[k + 1].owner.Some?
    && words[k + 1].generation == generation
  }

  lemma AdoptedOnce(words: seq<Role>, i: nat, j: nat, generation: nat)
    requires History(words) && |words| > 0 && words[0].generation <= MAX_GENERATION
    requires AdoptedAt(words, i, generation) && AdoptedAt(words, j, generation)
    ensures i == j
  {
    if i < j { HistoryIncreases(words, i, j); }
    if j < i { HistoryIncreases(words, j, i); }
  }

  // Adopting against removing, as a step system over both words.

  datatype Pc =
    | Wanting    // has a port, has not tried it
    | Holding    // took the role, has not looked at the other one
    | Rolling    // found the issuer gone, will release
    | Live       // an adopted (or created) channel
    | Closing    // role terminal, queues being drained
    | Closed     // role terminal and unowned, the peer not looked at
    | Passed     // `peer_is_unowned` held: goes on to reclaim the layout
    | Out

  datatype Actor = Actor(owner: nat, role: nat, generation: nat, pc: Pc)

  // `admitted` is history: the ports that were adopted.
  datatype State = State(words: seq<Role>, actors: seq<Actor>, dead: set<nat>, admitted: set<(nat, nat)>)

  datatype Move =
    | Try(a: nat) | Look(a: nat) | Undo(a: nat) | Drop(a: nat)
    | CloseBegin(a: nat) | CloseEnd(a: nat) | CheckPeer(a: nat)
    | Invite(i: nat) | Crash(p: nat) | Recover(i: nat, p: nat) | Rejoin(p: nat)

  predicate Shaped(s: State) { |s.words| == 2 && forall a :: 0 <= a < |s.actors| ==> s.actors[a].role < 2 }

  predicate Acts(s: State, a: nat, pc: Pc) { a < |s.actors| && s.actors[a].pc == pc && s.actors[a].owner !in s.dead }

  function With(s: State, a: nat, pc: Pc): State
    requires a < |s.actors|
  {
    s.(actors := s.actors[a := s.actors[a].(pc := pc)])
  }

  function Put(s: State, i: nat, r: Role): State
    requires i < |s.words|
  {
    s.(words := s.words[i := r])
  }

  function Mine(s: State, a: nat): Role
    requires Shaped(s) && a < |s.actors|
  {
    s.words[s.actors[a].role]
  }

  function Other(s: State, a: nat): Role
    requires Shaped(s) && a < |s.actors|
  {
    s.words[1 - s.actors[a].role]
  }

  function Claimed(s: State, a: nat): Role
    requires a < |s.actors|
  {
    Role(s.actors[a].generation, Some(s.actors[a].owner), false)
  }

  function DoTry(s: State, a: nat): State
    requires Shaped(s) && a < |s.actors|
  {
    var me := s.actors[a];
    if Mine(s, a) == Role(me.generation, None, false)
    then With(Put(s, me.role, Claimed(s, a)), a, Holding).(admitted := s.admitted + {(me.role, me.generation)})
    else With(s, a, Out)
  }

  function DoDrop(s: State, a: nat): State
    requires Shaped(s) && a < |s.actors|
  {
    var me := s.actors[a];
    if Mine(s, a).generation == me.generation && Mine(s, a).owner == Some(me.owner)
    then With(Put(s, me.role, Released(Mine(s, a))), a, Out)
    else With(s, a, Out)
  }

  function Step(s: State, m: Move): State
    requires Shaped(s)
    ensures Shaped(Step(s, m)) && |Step(s, m).actors| == |s.actors|
  {
    match m
    case Try(a) => if Acts(s, a, Wanting) then DoTry(s, a) else s
    case Look(a) =>
      if Acts(s, a, Holding) then With(s, a, if Other(s, a).terminal
                                       || Other(s, a).owner.None? then Rolling else Live) else s
    case Undo(a) =>
      if Acts(s, a, Rolling) then
        With(if Mine(s, a) == Claimed(s, a) then Put(s, s.actors[a].role, NextOrRetired(Mine(s, a))) else s, a, Out)
      else s
    case Drop(a) => if Acts(s, a, Live) || Acts(s, a, Closing) then DoDrop(s, a) else s
    case CloseBegin(a) =>
      if Acts(s, a, Live) && Mine(s, a) == Claimed(s, a)
      then With(Put(s, s.actors[a].role, Mine(s, a).(terminal := true)), a, Closing) else s
    case CloseEnd(a) =>
      if Acts(s, a, Closing) && Mine(s, a) == Claimed(s, a).(terminal := true)
      then With(Put(s, s.actors[a].role, Mine(s, a).(owner := None)), a, Closed) else s
    case CheckPeer(a) => if Acts(s, a, Closed) && Other(s, a).owner.None? then With(s, a, Passed) else s
    case Invite(i) => if i < 2 && Unowned(s.words[i]) then Put(s, i, NextOrRetired(s.words[i])) else s
    case Crash(p) => s.(dead := s.dead + {p}, actors := seq(|s.actors|, a requires 0 <= a < |s.actors| =>
        if s.actors[a].owner == p && s.actors[a].pc != Wanting then s.actors[a].(pc := Out) else s.actors[a]))
    case Recover(i, p) =>
      if i < 2 && p in s.dead && s.words[i].owner == Some(p) then Put(s, i, Released(s.words[i])) else s
    case Rejoin(p) =>
      if p in s.dead && s.words[0].owner != Some(p) && s.words[1].owner != Some(p) then s.(dead := s.dead - {p}) else s
  }

  predicate Owning(pc: Pc) { pc.Holding? || pc.Rolling? || pc.Live? || pc.Closing? }

  predicate ActorOk(s: State, a: nat)
    requires Shaped(s) && a < |s.actors|
  {
    match s.actors[a].pc
    case Holding => Mine(s, a) == Claimed(s, a) && s.actors[a].owner !in s.dead
    case Rolling => Mine(s, a) == Claimed(s, a) && s.actors[a].owner !in s.dead
    case Live => Mine(s, a) == Claimed(s, a) && s.actors[a].owner !in s.dead
    case Closing => Mine(s, a) == Claimed(s, a).(terminal := true) && s.actors[a].owner !in s.dead
    case Closed => Retired(Mine(s, a))
    case Passed => Retired(Mine(s, a)) && NobodyOn(s, 1 - s.actors[a].role)
    case _ => true
  }

  /** No actor has a channel, or is closing one, on role i. */
  predicate NobodyOn(s: State, i: nat) {
    forall b {:trigger s.actors[b]} :: 0 <= b < |s.actors| && s.actors[b].role == i ==>
             !s.actors[b].pc.Live? && !s.actors[b].pc.Closing?
  }

  predicate Admitted(s: State, p: (nat, nat))
    requires |s.words| == 2
  {
    p.0 < 2 && Before(Role(p.1, None, false), s.words[p.0])
  }

  predicate Inv(s: State) {
    && Shaped(s) && s.words[0].generation <= MAX_GENERATION && s.words[1].generation <= MAX_GENERATION
    && (forall a {:trigger ActorOk(s, a)} :: 0 <= a < |s.actors| ==> ActorOk(s, a))
    && (forall a, b {:trigger s.actors[a], s.actors[b]} ::
          0 <= a < b < |s.actors| && Owning(s.actors[a].pc) && Owning(s.actors[b].pc) ==>
          s.actors[a].role != s.actors[b].role)
    && (forall p {:trigger Admitted(s, p)} :: p in s.admitted ==> Admitted(s, p))
  }

  lemma WordsChange(s: State, m: Move, i: nat)
    requires Inv(s) && i < 2
    ensures Shaped(Step(s, m))
    ensures Step(s, m).words[i] == s.words[i] || Changes(s.words[i], Step(s, m).words[i])
  {
    match m
    case Undo(a) => if Acts(s, a, Rolling) { assert ActorOk(s, a); }
    case _ =>
  }

  /** An actor's word is safe from a step that is not its own. */
  lemma BystanderStep(s: State, m: Move, b: nat, a: nat)
    requires Inv(s) && a < |s.actors| && b < |s.actors| && a != b
    requires m == Try(b) || m == Look(b) || m == Undo(b) || m == Drop(b) || m == CloseBegin(b) || m == CloseEnd(b)
             || m == CheckPeer(b)
    ensures Shaped(Step(s, m)) && |Step(s, m).actors| == |s.actors| && Step(s, m).actors[a] == s.actors[a]
    ensures Step(s, m).dead == s.dead
    ensures Owning(s.actors[a].pc) || Retired(Mine(s, a)) ==> Mine(Step(s, m), a) == Mine(s, a)
  {
    assert ActorOk(s, a) && ActorOk(s, b);
  }

  /** Nobody gets or keeps a channel on a role whose issuer is retired, when nobody has one. */
  lemma NobodyStep(s: State, m: Move, i: nat)
    requires Inv(s) && i < 2 && NobodyOn(s, i) && Retired(s.words[1 - i])
    ensures NobodyOn(Step(s, m), i)
  {
  }

  lemma OwnStep(s: State, m: Move, a: nat)
    requires Inv(s) && a < |s.actors|
    requires m == Try(a) || m == Look(a) || m == Undo(a) || m == Drop(a) || m == CloseBegin(a) || m == CloseEnd(a)
             || m == CheckPeer(a)
    ensures Shaped(Step(s, m)) && |Step(s, m).actors| == |s.actors| && ActorOk(Step(s, m), a)
  {
    assert ActorOk(s, a);
    if m == CheckPeer(a) && Acts(s, a, Closed) && Other(s, a).owner.None? {
      forall b | 0 <= b < |s.actors| && s.actors[b].role == 1 - s.actors[a].role
        ensures !s.actors[b].pc.Live? && !s.actors[b].pc.Closing?
      {
        assert ActorOk(s, b);
      }
    } else if s.actors[a].pc.Passed? {
      NobodyStep(s, m, 1 - s.actors[a].role);
    }
  }

  lemma AmbientStep(s: State, m: Move, a: nat)
    requires Inv(s) && a < |s.actors| && (m.Invite? || m.Crash? || m.Recover? || m.Rejoin?)
    ensures Shaped(Step(s, m)) && |Step(s, m).actors| == |s.actors| && ActorOk(Step(s, m), a)
  {
    assert ActorOk(s, a);
    if s.actors[a].pc.Passed? { NobodyStep(s, m, 1 - s.actors[a].role); }
  }

  predicate ActsFor(m: Move, b: nat) {
    m == Try(b) || m == Look(b) || m == Undo(b) || m == Drop(b) || m == CloseBegin(b) || m == CloseEnd(b)
    || m == CheckPeer(b)
  }

  lemma ActorStep(s: State, m: Move, a: nat)
    requires Inv(s) && a < |s.actors|
    ensures Shaped(Step(s, m)) && |Step(s, m).actors| == |s.actors| && ActorOk(Step(s, m), a)
  {
    if m.Invite? || m.Crash? || m.Recover? || m.Rejoin? {
      AmbientStep(s, m, a);
    } else if ActsFor(m, a) {
      OwnStep(s, m, a);
    } else {
      assert ActorOk(s, a);
      if m.a < |s.actors| { BystanderStep(s, m, m.a, a); }
      if s.actors[a].pc.Passed? { NobodyStep(s, m, 1 - s.actors[a].role); }
    }
  }

  /** No step lets two actors own one role. */
  lemma OwnersStep(s: State, m: Move, a: nat, b: nat)
    requires Inv(s) && a < b < |s.actors| && Shaped(Step(s, m)) && |Step(s, m).actors| == |s.actors|
    ensures var u := Step(s, m); Owning(u.actors[a].pc) && Owning(u.actors[b].pc) ==>
              u.actors[a].role != u.actors[b].role
  {
    assert ActorOk(s, a) && ActorOk(s, b);
    OwningStep(s, m, a);
    OwningStep(s, m, b);
  }

  /** A step makes an actor an owner only by trying an unowned role. */
  lemma OwningStep(s: State, m: Move, a: nat)
    requires Inv(s) && a < |s.actors|
    ensures Step(s, m).actors[a].role == s.actors[a].role
    ensures Owning(Step(s, m).actors[a].pc) ==> Owning(s.actors[a].pc) || (m == Try(a) && Unowned(Mine(s, a)))
  {}

  lemma StepInv(s: State, m: Move)
    requires Inv(s)
    ensures Inv(Step(s, m))
  {
    var u := Step(s, m);
    WordsChange(s, m, 0);
    WordsChange(s, m, 1);
    if u.words[0] != s.words[0] { ChangesIncrease(s.words[0], u.words[0]); }
    if u.words[1] != s.words[1] { ChangesIncrease(s.words[1], u.words[1]); }
    AdmittedStep(s, m);
    assert |u.actors| == |s.actors|;
    forall a | 0 <= a < |u.actors| ensures ActorOk(u, a) { ActorStep(s, m, a); }
    forall a, b | 0 <= a < b < |u.actors| && Owning(u.actors[a].pc) && Owning(u.actors[b].pc)
      ensures u.actors[a].role != u.actors[b].role
    {
      OwnersStep(s, m, a, b);
    }
  }

  lemma AdmittedStep(s: State, m: Move)
    requires Inv(s) && Shaped(Step(s, m))
    ensures forall p {:trigger Admitted(Step(s, m), p)} :: p in Step(s, m).admitted ==> Admitted(Step(s, m), p)
  {
    var u := Step(s, m);
    WordsChange(s, m, 0);
    WordsChange(s, m, 1);
    forall p | p in u.admitted ensures Admitted(u, p) {
      if p in s.admitted {
        assert Admitted(s, p);
        if u.words[p.0] != s.words[p.0] { ChangesIncrease(s.words[p.0], u.words[p.0]); }
      }
    }
  }

  // What undisturbed steps come to.

  /** The move takes role i from the actor or the dead participant that has it, or is an invitation to it. */
  predicate Frees(s: State, m: Move, i: nat)
    requires Shaped(s) && i < 2
  {
    match m
    case Drop(a) => a < |s.actors| && s.actors[a].role == i && (Acts(s, a, Live) || Acts(s, a, Closing))
    case Undo(a) => a < |s.actors| && s.actors[a].role == i && Acts(s, a, Rolling)
    case Recover(j, p) => j == i && p in s.dead && s.words[i].owner == Some(p)
    case Invite(j) => j == i && Unowned(s.words[i])
    case _ => false
  }

  /**
   After a drop, a rollback, a recovery or an invitation exactly the port of the next generation can be adopted; after
   closing began, or at the last generation, none.
   */
  lemma FreedRole(s: State, m: Move, i: nat, b: nat)
    requires Inv(s) && i < 2 && Frees(s, m, i) && Acts(s, b, Wanting) && s.actors[b].role == i
    ensures Step(Step(s, m), Try(b)).actors[b].pc == Holding <==>
              && !s.words[i].terminal && s.words[i].generation < MAX_GENERATION
              && s.actors[b].generation == s.words[i].generation + 1
  {
    if m.Drop? || m.Undo? { assert ActorOk(s, m.a); }
  }

  /** A port of the current generation is adopted, and the channel is live exactly if its issuer is. */
  lemma AdoptAlone(s: State, b: nat)
    requires Inv(s) && Acts(s, b, Wanting) && Mine(s, b) == Role(s.actors[b].generation, None, false)
    ensures var e := Step(Step(s, Try(b)), Look(b));
            && Mine(e, b) == Role(s.actors[b].generation, Some(s.actors[b].owner), false) && Other(e, b) == Other(s, b)
            && e.actors[b].pc == if Other(s, b).owner.Some? && !Other(s, b).terminal then Live else Rolling
  {}

  /** Closing retires the role, and goes on to reclaim the layout exactly if nobody has the other one. */
  lemma RemoveAlone(s: State, a: nat)
    requires Inv(s) && Acts(s, a, Live)
    ensures var e := Step(Step(Step(s, CloseBegin(a)), CloseEnd(a)), CheckPeer(a));
            && Retired(Mine(e, a)) && Other(e, a) == Other(s, a)
            && e.actors[a].pc == if Other(s, a).owner.None? then Passed else Closed
  {
    assert ActorOk(s, a);
  }

  /** `creator`: role 0 live at generation 1, role 1 free; anyone else has at most a port to try. */
  predicate Initial(s: State, creator: nat) {
    && s.words == [Role(1, Some(creator), false), Role(1, None, false)] && s.dead == {} && s.admitted == {}
    && |s.actors| > 0 && s.actors[0] == Actor(creator, 0, 1, Live)
    && forall a :: 1 <= a < |s.actors| ==> s.actors[a].role < 2 && s.actors[a].pc == Wanting
  }

  function Run(s: State, moves: seq<Move>): State
    requires Shaped(s)
    ensures Shaped(Run(s, moves)) && |Run(s, moves).actors| == |s.actors|
    decreases |moves|
  {
    if moves == [] then s
    else Step(Run(s, moves[..|moves| - 1]), moves[|moves| - 1])
  }

  lemma {:induction false} RunInv(s: State, moves: seq<Move>)
    requires Inv(s)
    ensures Inv(Run(s, moves))
    decreases |moves|
  {
    if moves != [] {
      RunInv(s, moves[..|moves| - 1]);
      StepInv(Run(s, moves[..|moves| - 1]), moves[|moves| - 1]);
    }
  }

  lemma InitialInv(s: State, creator: nat)
    requires Initial(s, creator)
    ensures Inv(s)
  {
    forall a | 0 <= a < |s.actors| ensures ActorOk(s, a) {}
  }

  lemma {:induction false} NobodyEver(s: State, moves: seq<Move>, i: nat)
    requires Inv(s) && i < 2 && NobodyOn(s, i) && Retired(s.words[1 - i])
    ensures NobodyOn(Run(s, moves), i) && Run(s, moves).words[1 - i] == s.words[1 - i]
    decreases |moves|
  {
    if moves != [] {
      var before := Run(s, moves[..|moves| - 1]);
      RunInv(s, moves[..|moves| - 1]);
      NobodyEver(s, moves[..|moves| - 1], i);
      NobodyStep(before, moves[|moves| - 1], i);
      WordsChange(before, moves[|moves| - 1], 1 - i);
    }
  }

  /**
   When a remover has seen its peer unowned after retiring its own role, no adopted channel is live on the other
   role at that time or at any later time of any run, whoever else tries, invites, dies or returns.
   */
  lemma RemoverExcludesAdopters(s: State, creator: nat, first: seq<Move>, a: nat, later: seq<Move>)
    requires Initial(s, creator) && a < |s.actors| && Run(s, first).actors[a].pc == Passed
    ensures var i := 1 - Run(s, first).actors[a].role;
            i < 2 && NobodyOn(Run(s, first), i) && NobodyOn(Run(Run(s, first), later), i)
  {
    var u := Run(s, first);
    InitialInv(s, creator);
    RunInv(s, first);
    assert ActorOk(u, a);
    NobodyEver(u, later, 1 - u.actors[a].role);
  }

  /** A port is admitted at most once in any run: what was admitted before cannot be adopted again. */
  lemma PortsAdmittedOnce(s: State, creator: nat, moves: seq<Move>, a: nat)
    requires Initial(s, creator) && Acts(Run(s, moves), a, Wanting)
    requires (Run(s, moves).actors[a].role, Run(s, moves).actors[a].generation) in Run(s, moves).admitted
    ensures Step(Run(s, moves), Try(a)).actors[a].pc == Out
  {
    var u := Run(s, moves);
    InitialInv(s, creator);
    RunInv(s, moves);
    assert Admitted(u, (u.actors[a].role, u.actors[a].generation));
  }

  /** Both directions of a live channel: at most one actor has each role. */
  lemma OneOwnerEach(s: State, creator: nat, moves: seq<Move>, a: nat, b: nat)
    requires Initial(s, creator) && a < |s.actors| && b < |s.actors| && a != b
    requires Owning(Run(s, moves).actors[a].pc) && Owning(Run(s, moves).actors[b].pc)
    ensures Run(s, moves).actors[a].role != Run(s, moves).actors[b].role
  {
    var u := Run(s, moves);
    InitialInv(s, creator);
    RunInv(s, moves);
    if a < b { assert u.actors[a].role != u.actors[b].role; } else { assert u.actors[b].role != u.actors[a].role; }
  }
}
